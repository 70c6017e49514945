# AI search intelligence: citation analysis core

This project models the analysis core of an AI-search citation tracker.

- **Collectors.** The Google results-page and Perplexity collectors turn search responses into citation records. Each record has an engine, a query, a URL, a source domain, a position, a citation type, a prominence score and metadata.
- **Normaliser.** It brings a citation from any engine into one shape. It removes tracking parameters from the URL, collapses white space in titles and snippets, and clamps prominence to [0, 1].
- **Pattern analyser.** It groups stored citations by domain, citation type, top position, day and weekday, engine, metadata feature and query cluster. It reports the groups that pass the source's thresholds as patterns with a strength, then turns patterns into recommendations, opportunities and threats. It also profiles competitor domains.
- **Content gap analyser.** It proposes content gaps:
  - tracked queries with no or few citations;
  - queries whose citations are weak;
  - queries competitors dominate;
  - queries under-represented in their topic cluster;
  - question types missing for a topic.

  It then boosts and prioritises the gaps, ranks them by opportunity and summarises them in a report.

Layout:

| file | contents |
|---|---|
| `text.dfy` | lower-casing, substring search, words, joining, splitting |
| `url.dfy` | the network location of a URL |
| `tally.dfy` | tallies in order of first appearance, filters, means, stable sorting by count, rounding half to even |
| `records.dfy` | the citation record the analysers read |
| `normalizer.dfy` | the citation normaliser |
| `serp.dfy` | the Google collector's extractors and prominence formulas |
| `perplexity.dfy` | the Perplexity collector's helpers and its citation summary |
| `patterns.dfy` | the pattern scans |
| `insights.dfy` | the pattern insights |
| `competitors.dfy` | competitor profiles |
| `heuristics.dfy` | the keyword heuristics of the gap analyser |
| `gaps.dfy` | the five gap finders |
| `scoring.dfy` | the scoring pass, in-place ranking and the whole gap analysis |
| `report.dfy` | the gap report |

Where the analysers repeat a step over a list, the model has a method with a loop, proved equal to a specification function. The properties are proved as lemmas about those functions. The loops cover tallying metadata features, walking the patterns for insights, scanning the text for mentions, running the gap finders and sorting gaps in place.

Times are abstracted to a stamp of a day number and the second within that day; the weekday and the hour are derived from it. Floating point is modelled as exact reals. Python's `round` is modelled as rounding half to even.

## Model

| member | source | states |
|---|---|---|
| Normalizer.CleanQuery | ai_search_intelligence/analysis/citation_parser.py:541-553 | keeps exactly the query parameters that are not tracking parameters (the five utm_ parameters, fbclid, gclid, ref, source) |
| Normalizer.CleanQueryKeepsOrder | ai_search_intelligence/analysis/citation_parser.py:552-553 | cleaning distributes over concatenation, so the parameters kept stay in their order |
| Normalizer.CleanQueryIdempotent | ai_search_intelligence/analysis/citation_parser.py:552-553 | cleaning an already cleaned query changes nothing |
| Normalizer.CleanParts | ai_search_intelligence/analysis/citation_parser.py:548-560 | scheme, host, path, params and fragment are rebuilt unchanged; only the query loses tracking parameters |
| Normalizer.CleanUrl | ai_search_intelligence/analysis/citation_parser.py:535-563 | an empty URL stays empty; a URL that fails to parse is returned as it came |
| Normalizer.CleanUrlKeepsHost | ai_search_intelligence/analysis/citation_parser.py:535-563 | cleaning never changes the network location of a URL with a scheme |
| Normalizer.Truncate | ai_search_intelligence/analysis/citation_parser.py:575-576 | a cut text is a prefix of the text followed by "...", at most three characters over the limit |
| Normalizer.CleanText | ai_search_intelligence/analysis/citation_parser.py:566-578 | empty text stays empty; text that fits after white-space collapsing is returned collapsed; longer text is cut and ends in "..." |
| Normalizer.CleanTextSingleSpaced | ai_search_intelligence/analysis/citation_parser.py:572 | the cleaned text has single spaces only and none at either end |
| Normalizer.CleanTextIdempotent | ai_search_intelligence/analysis/citation_parser.py:566-578 | cleaning text that already fits a second time changes nothing |
| Normalizer.Clamp01 | ai_search_intelligence/analysis/citation_parser.py:530 | the result is in [0, 1], equals the input inside that range and the nearer bound outside it |
| Normalizer.NormalizeCitation | ai_search_intelligence/analysis/citation_parser.py:502-532 | every missing field gets its default ("", 0, "unknown", 0.0, empty metadata); present fields are carried over; the engine is the given one; prominence ends in [0, 1] |
| Normalizer.DetermineContentType | ai_search_intelligence/analysis/citation_parser.py:447-495 | a blog marker in the URL always gives blog_post; with no later signal the verdict is one of the URL or default types |
| Normalizer.UrlMarkersDecideFirst | ai_search_intelligence/analysis/citation_parser.py:450-467 | URL markers beat the og:type tag and every later check; without a marker, an og:type of article or product decides before later checks |
| GoogleSerp.Domain | ai_search_intelligence/engines/google_serp.py:242-249 | the domain is lower-cased, empty for an empty URL, and contains no character that ends a network location |
| GoogleSerp.DomainOfAbsolute | ai_search_intelligence/engines/google_serp.py:242-249 | for a URL with a scheme, the domain is the lower-cased network location |
| GoogleSerp.AiOverviewProminence | ai_search_intelligence/engines/google_serp.py:251-258 | 0 when there are no sources; otherwise at least 0.1, and at most 1 for a non-negative position |
| GoogleSerp.AiOverviewProminenceOrder | ai_search_intelligence/engines/google_serp.py:104 | the first source scores 1.0, the second 0.9, and a later source never scores more than an earlier one |
| GoogleSerp.PaaProminence | ai_search_intelligence/engines/google_serp.py:260-265 | between 0.1 and 0.6 |
| GoogleSerp.PaaProminenceOrder | ai_search_intelligence/engines/google_serp.py:260-265 | a later question never scores more |
| GoogleSerp.OrganicProminence | ai_search_intelligence/engines/google_serp.py:267-274 | between 0.1 and 0.5 for a position of 1 or more, and 0.1 past position 10 |
| GoogleSerp.OrganicProminenceOrder | ai_search_intelligence/engines/google_serp.py:267-274 | a worse position never scores more |
| GoogleSerp.AiOverviewCitations | ai_search_intelligence/engines/google_serp.py:83-113 | one ai_overview citation per source, at positions 1, 2, ... with non-increasing prominence starting at 1.0; none without an overview or without sources |
| GoogleSerp.FeaturedSnippetCitations | ai_search_intelligence/engines/google_serp.py:115-138 | one featured_snippet citation at position 0 with prominence 1.0 exactly when there is an answer box |
| GoogleSerp.PaaList | ai_search_intelligence/engines/google_serp.py:144-163 | one citation per question with an answer snippet, at the question's 1-based place, with that place's prominence |
| GoogleSerp.PaaListOrder | ai_search_intelligence/engines/google_serp.py:144-163 | the citations come in question order and no answered question is skipped |
| GoogleSerp.PeopleAlsoAskCitations | ai_search_intelligence/engines/google_serp.py:140-165 | no related questions give no citations; otherwise the citations of the question list, each with prominence in [0.1, 0.6] |
| GoogleSerp.KgSourceProminence | ai_search_intelligence/engines/google_serp.py:206 | an additional knowledge-panel source never scores above 0.7 |
| GoogleSerp.KgSourceProminenceSign | ai_search_intelligence/engines/google_serp.py:206 | the prominence reaches 0 at the eighth additional source and is negative after it: it is not clamped |
| GoogleSerp.KnowledgePanelCitations | ai_search_intelligence/engines/google_serp.py:167-214 | the panel's source at position 1 with prominence 0.9, then each additional source at position idx + 2 with prominence 0.7 - 0.1 idx |
| GoogleSerp.OrganicHit | ai_search_intelligence/engines/google_serp.py:221-238 | an organic citation at its reported position or idx + 1, scored by the organic formula |
| GoogleSerp.OrganicCitations | ai_search_intelligence/engines/google_serp.py:216-240 | the first ten organic results, each at its own position with the organic prominence |
| GoogleSerp.SectionedConcat | ai_search_intelligence/engines/google_serp.py:56-74 | concatenating the sections in page order keeps the citations ordered by section |
| GoogleSerp.CollectCitations | ai_search_intelligence/engines/google_serp.py:56-77 | a failed search gives no citations; otherwise every section's citations, section by section in page order, all for the query and from google |
| GoogleSerp.CompetitorCitations | ai_search_intelligence/engines/google_serp.py:349-354 | one entry per competitor, holding exactly the citations whose source domain is the competitor's lower-cased name, in order |
| Perplexity.Domain | ai_search_intelligence/engines/perplexity.py:289-298 | the domain is lower-cased, empty for an empty URL, and contains no character that ends a network location |
| Perplexity.DomainOfBareHost | ai_search_intelligence/engines/perplexity.py:294-296 | a URL with no scheme is read as an https URL, so a bare host name is its own domain |
| Perplexity.DomainOfHttpsUrl | ai_search_intelligence/engines/perplexity.py:289-298 | a URL with an http(s) scheme keeps its own host |
| Perplexity.CitationPositionsSpec | ai_search_intelligence/engines/perplexity.py:232-256 | the positions are strictly increasing and are exactly the indices where the URL, or the lower-cased domain in the lower-cased text, occurs |
| Perplexity.ScanOccurrences | ai_search_intelligence/engines/perplexity.py:238-244 | the repeated search finds every occurrence once and nothing else |
| Perplexity.ScanNew | ai_search_intelligence/engines/perplexity.py:247-254 | the domain search adds exactly the occurrences not found before, without duplicates |
| Perplexity.FindCitationPositions | ai_search_intelligence/engines/perplexity.py:232-256 | the method returns the sorted list of all mentions, equal to the specification |
| Perplexity.MentionBoost | ai_search_intelligence/engines/perplexity.py:264-265 | the boost is in [0, 0.2]: 0 exactly without mentions, 0.2 exactly from four mentions on |
| Perplexity.EarlyBoost | ai_search_intelligence/engines/perplexity.py:268-272 | the boost is in [0, 0.1]: 0.1 for a mention at the start, 0 at the end |
| Perplexity.EarlyBoostOrder | ai_search_intelligence/engines/perplexity.py:268-272 | an earlier first mention never gets a smaller boost |
| Perplexity.PerplexityProminence | ai_search_intelligence/engines/perplexity.py:258-274 | the score is in [0.1, 1.0]; it fails (division by zero) exactly when both the text and the domain are empty |
| Perplexity.PerplexityProminenceOrder | ai_search_intelligence/engines/perplexity.py:260-274 | a later place in the citation list never raises the prominence |
| Perplexity.InlineProminence | ai_search_intelligence/engines/perplexity.py:276-287 | an inline citation scores between 0.6 and 0.9 |
| Perplexity.InlineProminenceMentions | ai_search_intelligence/engines/perplexity.py:284-287 | exactly 0.6 when the citation-position search finds no mention, 0.9 from three mentions on |
| Perplexity.FirstMention | ai_search_intelligence/engines/perplexity.py:218-225 | the URL's first occurrence, or else the domain's; -1 exactly when neither occurs |
| Perplexity.CitationContext | ai_search_intelligence/engines/perplexity.py:216-230 | the context is at most the URL's length plus twice the window |
| Perplexity.CitationContextSpec | ai_search_intelligence/engines/perplexity.py:216-230 | the context is a piece of the text, empty when the source is not mentioned, and contains the URL whenever the text does |
| Perplexity.RelevantSentencesSpec | ai_search_intelligence/engines/perplexity.py:201-206 | some sentence names the source exactly when a relevant sentence is kept |
| Perplexity.TitleAndSnippet | ai_search_intelligence/engines/perplexity.py:196-214 | "Content from" the domain with the first two relevant sentences, or "Source:" the domain with no snippet |
| Perplexity.DottedSourceNeverMentioned | ai_search_intelligence/engines/perplexity.py:201-206 | splitting on '.' cuts every dotted name, so a source whose domain and URL contain a dot is never found in a sentence |
| Perplexity.InlineUrl | ai_search_intelligence/engines/perplexity.py:171-172 | the URL starts with "http"; "https://" is put in front only when it does not |
| Perplexity.InlineHit | ai_search_intelligence/engines/perplexity.py:170-192 | an inline_citation at position idx + 1 with the inline prominence, the guessed title and snippet, and the bracketed number of the same rank or idx + 1 |
| Perplexity.ParseInlineCitations | ai_search_intelligence/engines/perplexity.py:158-194 | one inline citation per URL match, in order |
| Perplexity.InlineNumbering | ai_search_intelligence/engines/perplexity.py:170-192 | inline citations are numbered 1, 2, ... and take the bracketed number of the same rank when there is one |
| Perplexity.CitationFromUrl | ai_search_intelligence/engines/perplexity.py:127-156 | a direct_answer citation at position + 1 with its context, mention count and mention positions as metadata; fails exactly when the prominence fails |
| Perplexity.AnalyzeCitations | ai_search_intelligence/engines/perplexity.py:338-379 | no citations give no summary; otherwise the total, the distinct domains, the counts per domain and per type, the mean prominence and the five most cited domains |
| Perplexity.CollectDomains | ai_search_intelligence/engines/perplexity.py:354 | the domains of the citations that have one, in collection order |
| Perplexity.Counter | ai_search_intelligence/engines/perplexity.py:355-357 | the counting loop yields exactly the per-value counts, one entry per distinct value in order of first appearance |
| Perplexity.AnalysisFacts | ai_search_intelligence/engines/perplexity.py:354-374 | the domain counts add up to the citations that have a domain and the type counts to all citations; every count is a true count; the top domains are at most five, most cited first |
| Perplexity.AverageProminenceBounds | ai_search_intelligence/engines/perplexity.py:366 | the mean prominence of citations built by the collector lies in [0.1, 1.0] |
| Patterns.DomainFrequencyPattern | ai_search_intelligence/analysis/pattern_recognition.py:114-141 | a domain_frequency pattern with strength in (0, 1] and at most five examples |
| Patterns.FrequentDomainsSpec | ai_search_intelligence/analysis/pattern_recognition.py:115-118 | a domain is reported exactly when it has at least three citations, with its true count |
| Patterns.DomainFrequencySpec | ai_search_intelligence/analysis/pattern_recognition.py:114-141 | the pattern appears exactly when some domain has three citations; its strength is a tenth of the number of such domains, capped at 1 |
| Patterns.DomainProminenceSpec | ai_search_intelligence/analysis/pattern_recognition.py:145-151 | a domain is reported exactly when it has two or more citations with mean prominence at least 0.7 |
| Patterns.DomainProminenceStrength | ai_search_intelligence/analysis/pattern_recognition.py:157 | the prominence pattern's strength is at least 0.7, and at most 1 for prominences in [0, 1] |
| Patterns.ContentTypePattern | ai_search_intelligence/analysis/pattern_recognition.py:187-225 | a content_type_performance pattern whose examples are type performances |
| Patterns.ContentTypeMembers | ai_search_intelligence/analysis/pattern_recognition.py:188-198 | a type is reported exactly when it has three citations and its rounded mean prominence is at least 0.6 |
| Patterns.ContentTypeStrength | ai_search_intelligence/analysis/pattern_recognition.py:200-206 | at least three citations counted; strength at least 0.6, and at most 1 for prominences in [0, 1] |
| Patterns.PositionPattern | ai_search_intelligence/analysis/pattern_recognition.py:236-273 | a position_consistency pattern only with three top-three citations and a consistent combination; at most five examples |
| Patterns.PositionStrength | ai_search_intelligence/analysis/pattern_recognition.py:237-253 | frequency at least two; strength at least 0.7, and at most 1 when no position is negative |
| Patterns.SpikePattern | ai_search_intelligence/analysis/pattern_recognition.py:293-320 | a temporal_spikes pattern with at most five examples |
| Patterns.SpikeSpec | ai_search_intelligence/analysis/pattern_recognition.py:293-320 | the pattern appears exactly when seven days are on record and two exceed 1.5 times the daily mean; strength is the share of spike days |
| Patterns.WeeklyPattern | ai_search_intelligence/analysis/pattern_recognition.py:322-349 | a weekly_variation pattern counting every citation |
| Patterns.WeeklySpec | ai_search_intelligence/analysis/pattern_recognition.py:322-349 | the pattern appears exactly when the busiest weekday has more than 1.5 times the citations of the quietest |
| Patterns.WeeklyStrengthBounds | ai_search_intelligence/analysis/pattern_recognition.py:334 | the weekly strength lies in (0, 1] |
| Patterns.EnginePattern | ai_search_intelligence/analysis/pattern_recognition.py:368-401 | an engine_content_preference pattern for that engine, one content type, at most three examples |
| Patterns.EngineCitationsSpec | ai_search_intelligence/analysis/pattern_recognition.py:371-372 | an engine that occurs has a non-empty group of its own citations |
| Patterns.EngineSpec | ai_search_intelligence/analysis/pattern_recognition.py:368-401 | the pattern appears exactly when one type is over 60% of the engine's citations; it names the most frequent type and its share, in (0.6, 1] |
| Patterns.Dominance | ai_search_intelligence/analysis/pattern_recognition.py:376-379 | the first row of a value count is over 60% exactly when some value is |
| Patterns.EnginePatternsSpec | ai_search_intelligence/analysis/pattern_recognition.py:368-401 | every engine pattern is about a scanned engine and has strength in (0.6, 1] |
| Patterns.Render | ai_search_intelligence/analysis/pattern_recognition.py:428-429 | `str()` of a scalar value: a bool is written True or False, an int without a point, a float with one |
| Patterns.RealToString | ai_search_intelligence/analysis/pattern_recognition.py:429 | a float is written with a decimal point |
| Patterns.WholeFloatRendering | ai_search_intelligence/analysis/pattern_recognition.py:429 | a whole non-negative float is written as the integer followed by ".0" |
| Patterns.NegativeRendering | ai_search_intelligence/analysis/pattern_recognition.py:429 | a negative float is written as a minus sign followed by the writing of its magnitude |
| Patterns.IntAndFloatDiffer | ai_search_intelligence/analysis/pattern_recognition.py:429 | an int and a float never give the same text |
| Text.NatToStringValue | ai_search_intelligence/analysis/pattern_recognition.py:429 | the decimal form of a natural number is all digits and reads back as the number |
| Text.IntToStringDigits | ai_search_intelligence/analysis/pattern_recognition.py:429 | the decimal form of an integer is an optional minus sign and digits that read back as its magnitude, with no point |
| Patterns.Token | ai_search_intelligence/analysis/pattern_recognition.py:429 | the token `f"{key}:{value}"` starts with the key followed by a colon |
| Patterns.RenderedAlike | ai_search_intelligence/analysis/pattern_recognition.py:429 | items that render alike are one token: `year` with 2024 and with "2024", a bool and its name, `a:b`/`c` and `a`/`b:c`, 2.0 and "2.0"; 2 and 2.0 differ |
| Patterns.ScalarTokensSpec | ai_search_intelligence/analysis/pattern_recognition.py:427-429 | the tokens of one dictionary are exactly the `key:value` renderings of its scalar items |
| Patterns.FeatureTokensSpec | ai_search_intelligence/analysis/pattern_recognition.py:416-429 | a `key:value` token occurs exactly when some citation has a scalar metadata item that renders as it |
| Patterns.CountItems | ai_search_intelligence/analysis/pattern_recognition.py:427-429 | the inner loop adds the `key:value` token of each scalar item of one citation to the tally |
| Patterns.CountFeatures | ai_search_intelligence/analysis/pattern_recognition.py:416-429 | the loop's tally of `key:value` strings equals the tally of all tokens, in order of first appearance |
| Patterns.FeaturePattern | ai_search_intelligence/analysis/pattern_recognition.py:432-455 | a content_features pattern with at most ten examples |
| Patterns.FeatureSpec | ai_search_intelligence/analysis/pattern_recognition.py:432-455 | the pattern appears exactly when some `key:value` token is counted three times; strength in (0, 1]; at least three occurrences counted |
| Patterns.FeatureExamplesSpec | ai_search_intelligence/analysis/pattern_recognition.py:441-444 | the examples are `key:value` tokens counted at least three times, with their true counts, most frequent first |
| Patterns.TopFeaturesSpec | ai_search_intelligence/analysis/pattern_recognition.py:443 | the ten leading tokens carry their true counts, at least three, in non-increasing order |
| Patterns.ClusterCount | ai_search_intelligence/analysis/pattern_recognition.py:472 | at most five clusters and a third of the citations; at least three once ten citations are stored |
| Patterns.ClusterPattern | ai_search_intelligence/analysis/pattern_recognition.py:480-512 | a query_similarity pattern counting the cluster's citations, at least three; strength is the cluster's share |
| Patterns.ClusterPatterns | ai_search_intelligence/analysis/pattern_recognition.py:480-512 | one pattern per cluster of three or more citations, each with strength in (0, 1]; clusters do not overlap, so their frequencies add up to at most the labelled citations |
| Patterns.QuerySpec | ai_search_intelligence/analysis/pattern_recognition.py:463-517 | no query pattern with fewer than ten citations or a failed clustering; otherwise at most five, each with three citations and strength in (0, 1], together no more than all citations |
| Patterns.AnalyzeCitationPatterns | ai_search_intelligence/analysis/pattern_recognition.py:58-105 | runs the scans in the source's order and collects their patterns; no citations give no patterns |
| Patterns.StrengthsInUnit | ai_search_intelligence/analysis/pattern_recognition.py:68-102 | with prominences in [0, 1] and no negative position, every pattern's strength is in (0, 1] |
| Insights.Recommendation | ai_search_intelligence/analysis/pattern_recognition.py:635-640 | a partnership recommendation exactly for a domain_frequency pattern of strength 0.7 or more; high priority from 0.8 |
| Insights.Opportunity | ai_search_intelligence/analysis/pattern_recognition.py:642-664 | an opportunity exactly for a strong content type pattern, any engine pattern, or a spike pattern of strength 0.6 or more |
| Insights.Threat | ai_search_intelligence/analysis/pattern_recognition.py:667-675 | a threat exactly for a domain_frequency pattern of strength 0.8 or more |
| Insights.GeneratePatternInsights | ai_search_intelligence/analysis/pattern_recognition.py:614-677 | the insight summary: the pattern count, the count per pattern type, the patterns of strength at least 0.8, and the advice of the two loops |
| Insights.CollectAdvice | ai_search_intelligence/analysis/pattern_recognition.py:633-664 | the first loop yields exactly the recommendations and opportunities the patterns call for, in pattern order |
| Insights.CollectThreats | ai_search_intelligence/analysis/pattern_recognition.py:666-675 | the second loop yields one competitor-dominance threat per domain-frequency pattern of strength at least 0.8, in order |
| Insights.AtMostOneAdvicePerPattern | ai_search_intelligence/analysis/pattern_recognition.py:634-664 | each pattern adds at most one recommendation or opportunity |
| Insights.ThreatsSpec | ai_search_intelligence/analysis/pattern_recognition.py:664-675 | one high-priority threat per domain pattern of strength 0.8, naming at most three domains, each matched by a high-priority recommendation |
| Insights.InsightsSpec | ai_search_intelligence/analysis/pattern_recognition.py:624-631 | the summary counts every pattern once and keeps exactly the patterns of strength 0.8 or more |
| Insights.ScansWellFormed | ai_search_intelligence/analysis/pattern_recognition.py:643 | every pattern the scans report can be summarised: content type examples carry a content type |
| Competitors.DomainCitations | ai_search_intelligence/analysis/pattern_recognition.py:540 | the competitor's citations number the occurrences of its lower-cased name as a domain |
| Competitors.Span | ai_search_intelligence/analysis/pattern_recognition.py:547-548 | the span is at least one day |
| Competitors.Profile | ai_search_intelligence/analysis/pattern_recognition.py:530-609 | a profile, when there is one, belongs to the competitor |
| Competitors.ProfilesOf | ai_search_intelligence/analysis/pattern_recognition.py:530-609 | at most one profile per competitor |
| Competitors.AnalyzeCompetitorPatterns | ai_search_intelligence/analysis/pattern_recognition.py:519-612 | no citations give no profiles; never more profiles than competitors |
| Competitors.ProfileExists | ai_search_intelligence/analysis/pattern_recognition.py:540-543 | a competitor is profiled exactly when its lower-cased name is a citation's domain |
| Competitors.ProfilesOfSpec | ai_search_intelligence/analysis/pattern_recognition.py:530-609 | every profile is of a listed, cited competitor and every cited competitor has one |
| Competitors.DomainCitationsSpec | ai_search_intelligence/analysis/pattern_recognition.py:540 | every citation of a profile comes from the competitor's domain |
| Competitors.ProfileSpec | ai_search_intelligence/analysis/pattern_recognition.py:545-557 | citations per day lie between 0 and the citation count; at most three preferred types, each one the competitor is cited with |
| Competitors.ProfileTotals | ai_search_intelligence/analysis/pattern_recognition.py:571-597 | the hourly and daily tables count each citation once; the engine shares add up to 1 |
| Competitors.StrongTopicsSpec | ai_search_intelligence/analysis/pattern_recognition.py:560-567 | at most five topics, each a long, non-question word of the competitor's queries |
| Heuristics.FirstMatchSpec | ai_search_intelligence/analysis/gap_identification.py:342-346 | the type found is the first in the list that matches, and General exactly when none does |
| Heuristics.ClassifySpec | ai_search_intelligence/analysis/gap_identification.py:324-346 | a query is classified by the first question pattern it matches, and as general exactly when it matches none |
| Heuristics.TopicSpec | ai_search_intelligence/analysis/gap_identification.py:349-355 | the topic is at most three words, each a content word of the query, the first one first |
| Heuristics.Variation | ai_search_intelligence/analysis/gap_identification.py:586-599 | a typed variation is longer than the topic; a general one is the topic itself |
| Heuristics.QuestionAngles | ai_search_intelligence/analysis/gap_identification.py:616-636 | one to three angles, three exactly for a high-value question type |
| Heuristics.ContentTypeSpec | ai_search_intelligence/analysis/gap_identification.py:428-443 | a how-to query gets a tutorial; a query with no keyword gets a comprehensive article |
| Heuristics.ExtractTopicsSpec | ai_search_intelligence/analysis/gap_identification.py:445-454 | at most five distinct topics, each a query word longer than two characters and not a stop word, in order of first occurrence; a topic word is left out only when five words occurring earlier were taken |
| Tally.DedupInOrder | ai_search_intelligence/analysis/gap_identification.py:454 | `dict.fromkeys` keeps elements in order of first occurrence |
| Tally.DedupFilter | ai_search_intelligence/analysis/gap_identification.py:451-454 | filtering before or after removing duplicates gives the same list |
| Tally.TakeDistinctInOrder | ai_search_intelligence/analysis/gap_identification.py:451-454 | the first n distinct elements passing a filter are in order of first occurrence, and one is missing only when n earlier ones fill the list |
| Heuristics.SearchVolumeSpec | ai_search_intelligence/analysis/gap_identification.py:456-473 | the estimate is one of five values; short queries with no keyword get the most, long ones the least |
| Heuristics.EffortSpec | ai_search_intelligence/analysis/gap_identification.py:563-584 | only a definition-style query with no technical or comparative word is low effort |
| Heuristics.SuggestAnglesSpec | ai_search_intelligence/analysis/gap_identification.py:518-561 | at most five angles, the query's own first; a query without how, what or best and a request to improve existing content get exactly the three improvement angles |
| Heuristics.OverlappingComplete | ai_search_intelligence/analysis/gap_identification.py:501-514 | every query that shares two words with the query is among the overlapping ones |
| Heuristics.RelatedQueriesSpec | ai_search_intelligence/analysis/gap_identification.py:477-516 | at most five related queries, each a different query sharing two words; all of them when fewer than five overlap |
| Gaps.QueryCitations | ai_search_intelligence/analysis/gap_identification.py:114-117 | a query's citations number its occurrences |
| Gaps.NoCitationGap | ai_search_intelligence/analysis/gap_identification.py:119-159 | a gap for the query, of high priority and impact |
| Gaps.NoCitationGapSpec | ai_search_intelligence/analysis/gap_identification.py:116-159 | uncited: opportunity 0.8, difficulty 0.2, no domains; cited once or twice: opportunity 0.7, difficulty 0.3, listing every domain cited for the query exactly once and no other; three or more: no gap |
| Gaps.CompetingDomainsSound | ai_search_intelligence/analysis/gap_identification.py:140 | every listed domain is cited for the query |
| Gaps.CompetingDomainsComplete | ai_search_intelligence/analysis/gap_identification.py:140 | every domain cited for the query is listed, and none twice |
| Gaps.NoCitationGapsSpec | ai_search_intelligence/analysis/gap_identification.py:116-159 | one gap per query cited fewer than three times, in query order: the k-th gap is about the k-th under-cited query; each is a no-citations or weak-citations gap |
| Gaps.NoCitationGapsQueries | ai_search_intelligence/analysis/gap_identification.py:116-159 | the gaps' queries are exactly the under-cited queries, in order |
| Gaps.NoCitationGapQuery | ai_search_intelligence/analysis/gap_identification.py:116-119 | one query yields a gap exactly when it is cited fewer than three times |
| Gaps.FindNoCitationGaps | ai_search_intelligence/analysis/gap_identification.py:107-161 | the loop produces the gaps of every tracked query, in order |
| Gaps.WeakGap | ai_search_intelligence/analysis/gap_identification.py:171-192 | a medium-priority weak-citation gap for the query |
| Gaps.WeakGapSpec | ai_search_intelligence/analysis/gap_identification.py:171-192 | a gap exactly for two citations or more with mean prominence below 0.5; opportunity in (0.6, 1.1], difficulty in [0.4, 0.6) |
| Gaps.CompetitorShare | ai_search_intelligence/analysis/gap_identification.py:221-224 | the competitors' share is in [0, 1] |
| Gaps.CompetitorGap | ai_search_intelligence/analysis/gap_identification.py:214-249 | a high-effort competitor-dominated gap for the query |
| Gaps.CompetitorGapSpec | ai_search_intelligence/analysis/gap_identification.py:214-249 | a gap exactly for three citations with share at least 0.6; difficulty in [0.78, 0.9], opportunity in [0.3, 0.38]; low priority exactly above 0.8 |
| Gaps.CompetitorShareBoundary | ai_search_intelligence/analysis/gap_identification.py:242-247 | at a share of exactly 0.8, priority and impact are medium |
| Gaps.CompetitorGapsSpec | ai_search_intelligence/analysis/gap_identification.py:214-249 | every competitor gap is about a listed query, with difficulty in [0.78, 0.9] |
| Gaps.FindCompetitorDominatedGaps | ai_search_intelligence/analysis/gap_identification.py:204-251 | the loop produces the gaps of every cited query; none without competitors |
| Gaps.ClusterCount | ai_search_intelligence/analysis/gap_identification.py:266-268 | at most five clusters and a quarter of the queries; at least two from ten queries |
| Gaps.ClusterQueries | ai_search_intelligence/analysis/gap_identification.py:275 | a cluster holds as many queries as it has labels |
| Gaps.ClusterGap | ai_search_intelligence/analysis/gap_identification.py:293-312 | a gap for the query that fits its cluster |
| Gaps.MemberGapsSpec | ai_search_intelligence/analysis/gap_identification.py:293-312 | every gap of a cluster is about a member, cited fewer than three times and below half the cluster's average |
| Gaps.EvenClusterHasNoGaps | ai_search_intelligence/analysis/gap_identification.py:294 | a cluster whose queries are cited equally often has no gap |
| Gaps.ClusterGapsSpec | ai_search_intelligence/analysis/gap_identification.py:274-312 | every cluster gap is about a tracked query cited fewer than three times, opportunity 0.6, difficulty 0.4 |
| Gaps.TopicClusterGapsSpec | ai_search_intelligence/analysis/gap_identification.py:253-317 | from ten queries there are two to five clusters, and every gap is about a tracked, under-cited query |
| Gaps.GroupVariations | ai_search_intelligence/analysis/gap_identification.py:336-356 | the loop groups the tracked queries by topic and question type |
| Gaps.AddVariation | ai_search_intelligence/analysis/gap_identification.py:353-356 | filing a query adds its topic only when it is new |
| Gaps.VariationsSpec | ai_search_intelligence/analysis/gap_identification.py:338-356 | each topic appears once and every grouped query has its group's topic and type |
| Gaps.VariationGap | ai_search_intelligence/analysis/gap_identification.py:373-395 | a question-variation gap suggesting the variation, with the content type of its question type |
| Gaps.VariationGapRange | ai_search_intelligence/analysis/gap_identification.py:382-387 | opportunity in [0.5, 0.8], volume at least 100, difficulty 0.3 |
| Gaps.TopicGapsSpec | ai_search_intelligence/analysis/gap_identification.py:359-395 | a topic asked one way gets two or three gaps, each a missing high-value type; other topics none |
| Gaps.MissingTypeGapsShape | ai_search_intelligence/analysis/gap_identification.py:371-375 | the missing high-value types, written out |
| Gaps.VariationGapsSpec | ai_search_intelligence/analysis/gap_identification.py:359-395 | every suggested variation is in range |
| Scoring.Cap | ai_search_intelligence/analysis/gap_identification.py:407-412 | min(1.0, x): at most 1 and at most x, and one of the two |
| Scoring.AdjustSpec | ai_search_intelligence/analysis/gap_identification.py:405-424 | +0.1 for a guide query, +0.15 for a commercial one, capped at 1; commercial gives high impact; the priority is the band of the final score; nothing else changes |
| Scoring.AdjustRange | ai_search_intelligence/analysis/gap_identification.py:405-424 | a score in [0.3, 1.1] stays there and the difficulty is kept |
| Scoring.RankedSpec | ai_search_intelligence/analysis/gap_identification.py:424 | the ranked gaps are a stable, non-increasing permutation of the adjusted gaps, each with the priority of its score |
| Scoring.InsertLast | ai_search_intelligence/analysis/gap_identification.py:424 | one insertion step: the prefix becomes the sorted insertion of the next element, the rest is untouched |
| Scoring.SortDescInPlace | ai_search_intelligence/analysis/gap_identification.py:424 | the array ends up as the stable descending sort of its old contents |
| Scoring.ScoreAndPrioritize | ai_search_intelligence/analysis/gap_identification.py:399-426 | the array ends up as the ranked, adjusted gaps |
| Scoring.IdentifyContentGaps | ai_search_intelligence/analysis/gap_identification.py:62-105 | no citations or no tracked queries give no gaps; otherwise the five finders in order, then the scoring pass |
| Scoring.RankGaps | ai_search_intelligence/analysis/gap_identification.py:101-102 | the collected gaps come back scored and ranked, highest opportunity first |
| Scoring.IdentifiedInRange | ai_search_intelligence/analysis/gap_identification.py:62-105 | with prominences in [0, 1], every gap has opportunity in [0.3, 1.1] and difficulty in [0.2, 0.9] |
| Report.ReportTotal | ai_search_intelligence/analysis/gap_identification.py:640-662 | the total is the number of gaps; an empty list gives the empty report |
| Report.ReportTallies | ai_search_intelligence/analysis/gap_identification.py:644-668 | the type, priority, effort and content type tallies count every gap once under its own key; content types by decreasing count |
| Report.ReportScores | ai_search_intelligence/analysis/gap_identification.py:652-666 | the average is within 0.005 of the true mean; the high-opportunity count is the gaps scoring at least 0.7 |
| Report.ReportAverageRange | ai_search_intelligence/analysis/gap_identification.py:652-665 | with opportunities in [0.3, 1.1], so is the average |
| Report.ReportTop | ai_search_intelligence/analysis/gap_identification.py:669-679 | the first ten gaps, in order; for ranked gaps none of the rest scores higher |
| Report.ReportQuickWins | ai_search_intelligence/analysis/gap_identification.py:680-687 | the first five low-effort gaps scoring at least 0.6; fewer only when no other qualifies |

## Left out

- Network calls: the SerpAPI and Perplexity HTTP requests, the async follow-up questions, the SERP feature analysis and page fetching with HTML parsing. The search result or response is a parameter. The page-parsing half of the citation parser is not part of this model. Only the content type decision is modelled, with the schema-markup and page-text verdicts as an input.
- Regular expressions, `urlparse`/`parse_qs` and `urlunparse`:
  - the Perplexity URL and bracketed-number matches are inputs;
  - the parsed URL is an input to the normaliser;
  - question patterns are keyword and word-boundary tests;
  - the network location is a simplified split at "/", "?" and "#";
  - `urlencode` is modelled as name=value pairs joined with "&": its percent-encoding (`quote_plus`) of names and values is not modelled, so a decoded value with a space or reserved character is written back as it is.
- TF-IDF and KMeans: the cluster labels of the queries are an input. A labelling whose size differs from the list it labels stands for a clustering that raises; both the gap finder (Gaps.TopicClusterGaps) and the pattern scan (Patterns.QueryPatterns) then give nothing, as their exception handlers do.
- The embedding-based related-query search is left out. Only its word-overlap fallback is modelled.
- Timestamps are a stamp of a day number and a second of the day, with the weekday and hour derived from them; `datetime.utcnow()` is a parameter. Weekdays are numbers rather than day names.
- Gap ids, descriptions, reasoning strings, log messages and the `timestamp` field of summaries are dropped.
- The creation of DataFrame columns as a side effect of a scan is left out. Every citation carries every column.
- Floating point is modelled as exact reals, so rounding error in sums and means is not modelled.
- Pandas `groupby` lists groups with sorted keys. The model lists groups in order of first appearance. This affects the order of examples and of gaps of equal score, and, in Patterns.WeeklyPattern, which weekday is reported as `peak_day` or `low_day` when several tie: the source takes the first in alphabetical order of day names (`idxmax`/`idxmin`), the model the first to appear.
- The order of the missing question types is fixed to what_is, how_to, best. The source iterates over a set there.
- The standard-deviation characteristics of three patterns are left out: `prominence_consistency` of the domain prominence pattern, `citation_volatility` of the spike pattern and `weekly_variation_coefficient` of the weekly pattern. The source only reports them.
- The API, configuration and database modules are not part of this model.
- Patterns.ClusterCount: once ten citations are stored the source's test for fewer than two clusters never fires, so that branch is absent.
- Competitors.Profile: its contract states only that the profile is the competitor's own. Competitors.ProfileSpec and Competitors.ProfileTotals state the frequency bounds, that the preferred types occur among the competitor's citations, and the totals of the hourly, daily and engine tables. No lemma states that the preferred types are the most frequent ones, or anything about the average position.
- Text.Lower and Text.IsWordChar: lower-casing and the word characters of `\w` and `\b` are restricted to ASCII, where Python's `str.lower()` and `re` are Unicode. A mention such as "MÜNCHEN.de" of the domain "münchen.de" is not found, and characters whose lower-case form is longer (such as "İ") would shift the indices the source reports.
- Patterns.RealToString: a float is written as the decimal expansion of its value, cut after 17 fraction digits. Python's shortest round-trip digits and its exponent notation (below 1e-4 and from 1e16) are not modelled; the model's real stands for the decimal that Python prints.
- Patterns.WholeFloatRendering: stated for non-negative whole floats; a negative one follows from it through Patterns.NegativeRendering and the minus sign that Text.IntToString puts before a negative integer, a combination not stated as a lemma of its own.
