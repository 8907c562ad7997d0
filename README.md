# NASA bioscience publication explorer — a verified model

The system lets scientists explore NASA's space-biology publications. A
Python backend holds the publication table. It answers keyword and topic
searches (`DataService`) and reports the topic distribution. It tags each
publication with a topic by title keywords (`TopicAnalyzer`). It also
answers natural-language questions through a language model, behind a
sliding-window rate limiter (`ChatService`).

A React frontend has two pages:
- the dashboard (`DashboardController`): a topic chart, a search box with a
  topic selector and a "Browse All" button, a question box answered by a
  language model, and a results panel;
- a stand-alone search page (`SearchPageController`).

Both pages use the same widgets: the search box (`SearchBarWidget`), the
question box (`ChatbotWidget`), the result cards (`ResultsList`) and the bar
chart (`TopicChart`). Below the controls, each page shows one of four panels
(`Panels`).

The model has these layers:
- **Values.** Datatypes for rows, publications, requests, responses, topic
  counts, cards and panels.
- **Pure logic.** Functions for keyword extraction, categorisation,
  filtering, formatting, request building, badge colours and chat outcomes.
- **Mutable state.** Classes for the objects whose fields change: the rate
  limiter, the two page controllers and the two input widgets.
- **Outside calls as inputs.** Network answers, the language model's reply,
  the clock and the environment's API key are parameters of the operations
  that use them.
- **Shared helpers.** Python and JavaScript string functions (`Text`), list
  filtering and pandas `head` (`Filtering`), pandas `value_counts` with the
  sort by count (`TopicCounts`), deque pruning and window counting
  (`RateWindow`), and JavaScript object-literal lookup (`JsRecord`).

Notes on the source's behaviour that the model keeps:
- **Dashboard chat errors.** The dashboard's question flow has no
  rate-limit branch. A failure message containing "API key" shows the
  configuration hint, and every other failure shows the generic error and
  apology (`DashboardController.ChatFailure`).
- **Backend limit message.** The backend's daily-limit message reads
  "1500 requests per day", with the limit printed without a digit separator.
- **Browse with a zero count.** A browse for a topic whose first entry has
  count 0 asks for `limit=0`, because `topics.find` found an entry.
- **Warning sign in the API-key message.** The message begins with six
  characters (U+201A U+00F6 U+2020 U+00D4 U+220F U+00E8). These are a
  warning sign's UTF-8 bytes read as Mac Roman, and the model uses them
  exactly as the page's source text has them.

## Model

| member | source | states |
|---|---|---|
| Text.Lower | apps/backend/app/services/topic_analyzer.py:20 | lower-casing keeps the length, maps each character through its lower-case form, and leaves no upper-case letter |
| Text.Trim | apps/frontend/src/components/SearchBar.tsx:20-26 | the trimmed text has no whitespace at either end, is empty exactly when the input is all whitespace, and is the input with a whitespace-only front and a whitespace-only end cut off |
| Text.Words | apps/backend/app/services/data_service.py:75 | every word of `split()` is non-empty, has no whitespace and uses only characters of the input |
| Text.WordsSplitOnlyAtSpace | apps/backend/app/services/data_service.py:75 | `split()` cuts only at whitespace: a whole run of non-whitespace characters ending at whitespace or the end is one word, and leading whitespace yields no word |
| Text.WordsKeepEveryOtherCharacter | apps/backend/app/services/data_service.py:75 | the words, concatenated, are exactly the non-whitespace characters of the input in order |
| Text.Without | apps/backend/app/services/data_service.py:75 | removing the punctuation characters leaves no punctuation and keeps only characters of the input |
| Text.WithoutKeepsTheRest | apps/backend/app/services/data_service.py:75 | removing the punctuation characters keeps every other character as often as it occurs, in its order in the input, and no punctuation character |
| Text.NatToString | apps/frontend/src/app/dashboard/page.tsx:344 | a count prints as digits only, with no leading zero |
| Text.ParseNatToString | apps/frontend/src/app/dashboard/page.tsx:344 | the printed count reads back as the count |
| Text.JoinContainsPart | apps/backend/app/services/chatbot_service.py:139 | every joined part occurs in the joined text |
| Filtering.Filter | apps/backend/app/services/data_service.py:78 | the comprehension keeps no more elements than it is given and only elements that pass the test |
| Filtering.FilterIsSubsequence | apps/backend/app/services/data_service.py:78 | the kept elements are a subsequence of the input, in order |
| Filtering.FilterCount | apps/backend/app/services/data_service.py:78 | each passing element is kept as often as it occurs; a failing one never is |
| Filtering.FilterTwice | apps/backend/app/services/data_service.py:90-113 | masking by topic, then by text, selects the rows that pass both tests |
| Filtering.SelectIsFilter | apps/backend/app/services/data_service.py:101-108 | boolean-mask indexing with a mask that holds each row's test equals filtering by that test |
| Filtering.Head | apps/backend/app/services/data_service.py:116 | `head(n)` is a prefix; for n >= 0 it has min(n, length) rows; for negative n it drops the last -n rows |
| TopicCounts.Tally | apps/backend/app/services/topic_analyzer.py:40 | one entry per distinct label, each counting that label's occurrences, the counts summing to the number of labels |
| TopicCounts.SortByCount | apps/backend/app/services/topic_analyzer.py:43-46 | sorting by count in reverse is a permutation ordered by non-increasing count that keeps names and total |
| TopicCounts.ValueCounts | apps/backend/app/services/topic_analyzer.py:40-46 | `value_counts` sorted by count: names every label once and only labels, the counts sum to the number of labels, ordered by non-increasing count (per-entry counts in `TopicCounts.ValueCountsSpec`) |
| TopicCounts.ValueCountsSpec | apps/backend/app/services/topic_analyzer.py:40-46 | each entry counts exactly its label's occurrences, so at least 1 |
| TopicAnalyzer.KeywordHitMeans | apps/backend/app/services/topic_analyzer.py:23-25 | the inner loop hits exactly when some keyword of the list occurs in the title |
| TopicAnalyzer.FirstMatch | apps/backend/app/services/topic_analyzer.py:22-27 | the result is "Other" or a rule's topic; "Other" when no rule hits; the first hitting rule's topic otherwise |
| TopicAnalyzer.ConfigIsWellFormed | apps/backend/app/services/topic_analyzer.py:8-16 | the seven configured topics are pairwise different, none is "Other", and they appear in the listed order |
| TopicAnalyzer.FirstMatchOther | apps/backend/app/services/topic_analyzer.py:22-27 | in a well-formed table the result is "Other" exactly when no rule hits |
| TopicAnalyzer.FirstMatchTopic | apps/backend/app/services/topic_analyzer.py:22-27 | in a well-formed table the result is rule i's topic exactly when rule i hits and no earlier rule does |
| TopicAnalyzer.CategorizePublication | apps/backend/app/services/topic_analyzer.py:18-27 | `categorize_publication`: the category is "Other" or a configured topic one of whose keywords occurs in the lower-cased title (first-match priority in `TopicAnalyzer.FirstMatchPriority`, "Other" exactly when nothing hits in `TopicAnalyzer.OtherIffNoKeyword`) |
| TopicAnalyzer.CategoryIsKnown | apps/backend/app/services/topic_analyzer.py:18-27 | a title's category is one of the seven configured topics or "Other" |
| TopicAnalyzer.OtherIffNoKeyword | apps/backend/app/services/topic_analyzer.py:18-27 | a title is "Other" exactly when no configured keyword occurs in its lower-cased form |
| TopicAnalyzer.FirstMatchPriority | apps/backend/app/services/topic_analyzer.py:18-27 | a title gets topic i exactly when topic i's keywords hit and no earlier topic's do |
| TopicAnalyzer.BoneBeatsPlant | apps/backend/app/services/topic_analyzer.py:9-10 | "Bone and Plant Growth" is a Human Health title, since Human Health is tried before Plants |
| TopicAnalyzer.CaseInsensitive | apps/backend/app/services/topic_analyzer.py:20 | categorising a lower-cased title gives the same topic as the title |
| TopicAnalyzer.DropShadowedKeyword | apps/backend/app/services/topic_analyzer.py:12-13 | a keyword that contains an earlier keyword of its list never changes whether the list hits |
| TopicAnalyzer.MicrogravityRuleUnchanged | apps/backend/app/services/topic_analyzer.py:12 | the Microgravity rule hits with "simulated microgravity" exactly when it hits without it |
| TopicAnalyzer.CellRuleUnchanged | apps/backend/app/services/topic_analyzer.py:13 | the Cell Biology rule hits with "cellular" exactly when it hits without it |
| TopicAnalyzer.RulesAgree | apps/backend/app/services/topic_analyzer.py:8-16 | the table and the table without the two shadowed keywords list the same topics, and each rule hits in one exactly when it hits in the other |
| TopicAnalyzer.SameHits | apps/backend/app/services/topic_analyzer.py:22-27 | two tables with the same topics whose rules hit alike give the same category |
| TopicAnalyzer.ShadowedKeywordsNeverDecide | apps/backend/app/services/topic_analyzer.py:12-13 | "simulated microgravity" and "cellular" never decide a category: every title categorises the same without them |
| TopicAnalyzer.AnalyzeCsv | apps/backend/app/services/topic_analyzer.py:29-48 | the analysis succeeds exactly when every title is present, and then tags every row with its title's category |
| TopicAnalyzer.AnalyzeCsvDistribution | apps/backend/app/services/topic_analyzer.py:39-46 | the topic list names only known topics, once each, with counts of at least 1 summing to the number of rows, ordered by non-increasing count |
| DataService.QueryWords | apps/backend/app/services/data_service.py:75 | the words of the lower-cased query without punctuation are non-empty and have neither whitespace nor punctuation (lower case in `DataService.CleanWord`) |
| DataService.ExtractKeywords | apps/backend/app/services/data_service.py:60-80 | `_extract_keywords`: every keyword is longer than two characters and not a stop word (the full characterisation in `DataService.KeywordsWellFormed` and `DataService.KeywordsAreTheMeaningfulWords`) |
| DataService.KeywordsWellFormed | apps/backend/app/services/data_service.py:60-80 | every keyword is lower case, has no punctuation or whitespace, is longer than two characters and is not a stop word |
| DataService.CleanWord | apps/backend/app/services/data_service.py:75 | every word of the cleaned query is lower case, without whitespace and without punctuation |
| DataService.KeywordsAreTheMeaningfulWords | apps/backend/app/services/data_service.py:75-78 | the keywords are the cleaned query's words in order, each meaningful word kept as often as it occurs and no other word kept |
| DataService.Cap | apps/backend/app/services/data_service.py:132 | a summary over 300 characters becomes its first 300 characters plus "..."; a shorter one is unchanged |
| DataService.Format | apps/backend/app/services/data_service.py:119-136 | a result keeps its row's index as id and the row's present Title and Topic cells, and its summary has at most 303 characters |
| DataService.FormatAll | apps/backend/app/services/data_service.py:119-136 | one result per kept row |
| DataService.FormatRows | apps/backend/app/services/data_service.py:119-136 | the formatting loop builds one formatted result per row, in order |
| DataService.FilterByTopic | apps/backend/app/services/data_service.py:90-92 | the topic mask keeps exactly the rows whose Topic equals a given topic other than "All", and every row otherwise |
| DataService.KeywordMask | apps/backend/app/services/data_service.py:99-106 | the ORed mask marks a row exactly when its lower-cased title contains some keyword |
| DataService.FilterByText | apps/backend/app/services/data_service.py:94-113 | the text step keeps exactly the rows whose lower-cased title contains a keyword, or the whole lower-cased query when there are none |
| DataService.FilterRows | apps/backend/app/services/data_service.py:87-113 | the two masking steps keep exactly the rows that match both topic and text |
| DataService.Search | apps/backend/app/services/data_service.py:82-138 | the search as a specification: a KeyError names the Topic or Title column and needs a non-empty table; never more results than rows, nor than a non-negative `limit` (the results themselves in `DataService.SearchResults`) |
| DataService.SearchPublications | apps/backend/app/services/data_service.py:82-138 | the method returns what the search specification gives: nothing for a missing or empty table, a KeyError for a filter on a missing column, else the formatted first `limit` matches |
| DataService.SearchResults | apps/backend/app/services/data_service.py:82-138 | results are the first `limit` matching rows in table order with their indices as ids; each has the requested topic and a title containing a keyword (or the query), and a summary of at most 303 characters |
| DataService.EmptyTableNoResults | apps/backend/app/services/data_service.py:84-85 | a missing or empty table gives no results for any query |
| DataService.PresentTopics | apps/backend/app/services/data_service.py:157 | counting ignores missing Topic cells: exactly the present topics are counted |
| DataService.TopicsFallback | apps/backend/app/services/data_service.py:151-152 | a missing or empty table gives no topics |
| DataService.TopicsFallbackSpec | apps/backend/app/services/data_service.py:150-162 | the fallback distribution names each present topic once, counts its rows, sums to the rows with a topic (all rows when none is missing), and is ordered by non-increasing count |
| DataService.NoTopicColumn | apps/backend/app/services/data_service.py:154-155 | without a Topic column every row is counted under "All Publications" |
| RateWindow.Prune | apps/backend/app/services/chatbot_service.py:47-48 | pruning leaves a suffix of the deque whose front is at or after the cutoff |
| RateWindow.PruneKeepsRecent | apps/backend/app/services/chatbot_service.py:45-53 | on an ordered deque, pruning keeps exactly the timestamps at or after the cutoff |
| RateWindow.WindowBound | apps/backend/app/services/chatbot_service.py:12-15 | if every window closing at a recorded request is within the limit, every closed window of that width is |
| ChatService.RateDecision | apps/backend/app/services/chatbot_service.py:55-63 | allowed exactly when both deques are under their limits; the minute limit is reported first, then the daily one |
| ChatService.DenialNamesItsLimit | apps/backend/app/services/chatbot_service.py:55-61 | a denial's message is non-empty and says which limit was hit |
| ChatService.MapException | apps/backend/app/services/chatbot_service.py:118-128 | a ValueError passes unchanged; another error mentioning quota, rate limit or 429 becomes the quota ValueError; any other is re-raised |
| ChatService.MapExceptionIdempotent | apps/backend/app/services/chatbot_service.py:118-128 | mapping twice changes nothing more, and the result is a ValueError exactly when the error was one or was quota-like |
| ChatService.QuotaLike | apps/backend/app/services/chatbot_service.py:123-124 | the quota test ignores letter case: a message containing "quota", "rate limit" or "429" in lower case anywhere is quota-like |
| ChatService.TooManyRequestsIsQuota | apps/backend/app/services/chatbot_service.py:123-125 | any error message containing "429" becomes the quota error |
| ChatService.ContextBlocks | apps/backend/app/services/chatbot_service.py:133-137 | the context has one block per result for at most the first ten results, numbered from 1 |
| ChatService.ContextIsTopTen | apps/backend/app/services/chatbot_service.py:133 | results beyond the tenth never reach the context |
| ChatService.ContextHasEachStudy | apps/backend/app/services/chatbot_service.py:130-139 | each of the first ten results appears in the context as its numbered block |
| ChatService.FormatContext | apps/backend/app/services/chatbot_service.py:130-139 | `_format_context`: the context is empty exactly when there are no results (its blocks in `ChatService.ContextHasEachStudy` and `ChatService.ContextIsTopTen`) |
| ChatService.Prompt | apps/backend/app/services/chatbot_service.py:98-108 | the prompt carries the question and the whole context |
| ChatService.PruneFront | apps/backend/app/services/chatbot_service.py:47-48 | the popleft loop leaves exactly the pruned deque |
| ChatService.PruneStep | apps/backend/app/services/chatbot_service.py:43-53 | pruning both deques at a later time keeps the limiter's invariant and leaves no timestamp before either cutoff |
| ChatService.RecordStep | apps/backend/app/services/chatbot_service.py:65-69 | recording a request after an allowed check keeps the limiter's invariant, including both window limits |
| ChatService.ChatbotService.constructor | apps/backend/app/services/chatbot_service.py:8-19 | a new service is uninitialised, with empty deques and the invariant holding |
| ChatService.ChatbotService.WithinLimits | apps/backend/app/services/chatbot_service.py:12-15 | every closed 60-second window holds at most 15 recorded requests and every closed 24-hour window at most 1500 |
| ChatService.ChatbotService.PruneWindows | apps/backend/app/services/chatbot_service.py:43-53 | both deques are pruned at their cutoffs, the invariant holds, and nothing else changes |
| ChatService.ChatbotService.CheckRateLimit | apps/backend/app/services/chatbot_service.py:36-63 | after pruning, the verdict is the rate decision on the deques' lengths, and the invariant holds |
| ChatService.ChatbotService.RecordRequest | apps/backend/app/services/chatbot_service.py:65-69 | the timestamp is appended to both deques and the history, and the invariant holds |
| ChatService.ChatbotService.Initialize | apps/backend/app/services/chatbot_service.py:21-34 | fails with the missing-key message exactly when not yet set up and the key is unset or empty; otherwise the model is set up |
| ChatService.ChatbotService.GenerateResponse | apps/backend/app/services/chatbot_service.py:71-128 | a denied check raises its message; a set-up failure raises; an empty search answers "No studies found"; else the prompt is sent and the reply is the text or the mapped error; a request is recorded exactly when the model call returned a response, even if reading its text then raises |
| Fetching.Url | apps/frontend/src/app/dashboard/page.tsx:48-53 | every `key=value` parameter of the request occurs in its URL |
| JsRecord.Get | apps/frontend/src/components/ResultsList.tsx:39 | a key reads its own value, else an inherited member for a prototype member name, else undefined |
| JsRecord.GetOr | apps/frontend/src/components/ResultsList.tsx:39 | reading the key and, when that read is falsy, the fallback gives the key's value when it is truthy, else the fallback's |
| JsRecord.OwnOr | apps/frontend/src/components/ResultsList.tsx:39 | the intended lookup gives the key's own non-empty value, else the fallback's, always a value of the table |
| JsRecord.GetOrAgreesOffPrototype | apps/frontend/src/components/ResultsList.tsx:39 | off the prototype member names, the lookup as written gives the intended string |
| JsRecord.InheritedKeyEscapesFallback | apps/frontend/src/components/ResultsList.tsx:39 | a prototype member name missing from the table yields that member, not the fallback |
| ResultsList.TopicColorAsWritten | apps/frontend/src/components/ResultsList.tsx:28-40 | a known topic gets its classes; an unknown topic that is not a prototype member name gets the "Other" classes |
| ResultsList.InheritedTopicBreaksBadge | apps/frontend/src/components/ResultsList.tsx:39 | the topic "toString" gets an inherited function, not the "Other" classes |
| ResultsList.TopicColor | apps/frontend/src/components/ResultsList.tsx:28-40 | a known topic gets its classes and every other topic the "Other" classes |
| ResultsList.TopicColorAgrees | apps/frontend/src/components/ResultsList.tsx:39 | off the prototype member names, the lookup as written and as meant agree |
| ResultsList.BadgeFor | apps/frontend/src/components/ResultsList.tsx:49-53 | a badge appears exactly for a present, non-empty topic, showing the topic in its colour |
| ResultsList.Render | apps/frontend/src/components/ResultsList.tsx:17-75 | the placeholder shows exactly when there are no results; otherwise one card per result, in order, keyed by id, with its title, summary, link and badge |
| TopicChart.PaletteMatchesBadges | apps/frontend/src/components/TopicChart.tsx:25-35 | the chart palette colours exactly the topics that have badge classes |
| TopicChart.FillAsWritten | apps/frontend/src/components/TopicChart.tsx:84 | a known topic gets its colour; an unknown topic that is not a prototype member name gets grey |
| TopicChart.InheritedTopicBreaksFill | apps/frontend/src/components/TopicChart.tsx:84 | a topic named "constructor" gets an inherited function as its fill, not grey |
| TopicChart.Fill | apps/frontend/src/components/TopicChart.tsx:26-35 | a known topic gets its colour and every other topic grey |
| TopicChart.Cells | apps/frontend/src/components/TopicChart.tsx:81-87 | one bar cell per topic, in order, filled with the topic's colour at opacity 0.8 |
| TopicChart.CellKeysDistinct | apps/frontend/src/components/TopicChart.tsx:83 | different positions give different cell keys |
| Panels.Shown | apps/frontend/src/app/dashboard/page.tsx:311-374 | exactly one of the four panel guards holds; loading outranks an error and an error outranks the results |
| SearchBarWidget.SubmitOutcome | apps/frontend/src/components/SearchBar.tsx:16-27 | a blank query is refused with the validation message; any other is handed on trimmed and non-empty, and the error is cleared |
| SearchBarWidget.SearchBar.constructor | apps/frontend/src/components/SearchBar.tsx:13-14 | the box starts with no query and no error |
| SearchBarWidget.SearchBar.Change | apps/frontend/src/components/SearchBar.tsx:37-40 | typing replaces the query and clears the error |
| SearchBarWidget.SearchBar.Submit | apps/frontend/src/components/SearchBar.tsx:16-27 | a submit hands on and reports what the submit outcome gives, leaving the query as typed |
| ChatbotWidget.SubmittedQuestion | apps/frontend/src/components/Chatbot.tsx:19-25 | a question goes out exactly when Send is enabled (not loading, not blank), trimmed and non-empty |
| ChatbotWidget.ResponseArea | apps/frontend/src/components/Chatbot.tsx:63-69 | the response area shows exactly when the text is non-empty |
| ChatbotWidget.Chatbot.constructor | apps/frontend/src/components/Chatbot.tsx:17 | the box starts empty |
| ChatbotWidget.Chatbot.Change | apps/frontend/src/components/Chatbot.tsx:44 | typing replaces the question |
| ChatbotWidget.Chatbot.Submit | apps/frontend/src/components/Chatbot.tsx:19-25 | a submit hands on the submitted question, clearing the box only when it goes out |
| SearchPageController.SearchRequest | apps/frontend/src/app/dashboard/search/page.tsx:21-23 | the search asks port 5000 for summaries with the query and no topic or limit |
| SearchPageController.ResultsHeading | apps/frontend/src/app/dashboard/search/page.tsx:81-83 | "Results" for none, "Found 1 result" for one, "Found n results" otherwise |
| SearchPageController.HeadingCountsResults | apps/frontend/src/app/dashboard/search/page.tsx:81-83 | the number in the heading reads back as the result count |
| SearchPageController.SearchPage.constructor | apps/frontend/src/app/dashboard/search/page.tsx:10-13 | the page starts with no results, no error, not loading and not searched |
| SearchPageController.SearchPage.Begin | apps/frontend/src/app/dashboard/search/page.tsx:16-18 | the spinner goes on, the error is cleared and the page is marked searched before the answer |
| SearchPageController.SearchPage.Complete | apps/frontend/src/app/dashboard/search/page.tsx:20-34 | an answer replaces the results; a failure clears them and sets the fixed error; the spinner goes off |
| SearchPageController.SearchPage.HandleSearch | apps/frontend/src/app/dashboard/search/page.tsx:15-35 | a search sends its request and ends searched and not loading, showing the error panel after a failure and the results panel otherwise |
| DashboardController.SearchRequest | apps/frontend/src/app/dashboard/page.tsx:48-53 | the search always sends the query, and the topic exactly when a topic other than "All" is selected |
| DashboardController.FindFrom | apps/frontend/src/app/dashboard/page.tsx:77 | `topics.find` gives the first entry with the selected name, or none when no entry has it |
| DashboardController.BrowseLimit | apps/frontend/src/app/dashboard/page.tsx:77-78 | the browse limit is the first matching entry's count capped at 200, or 100 when no entry matches |
| DashboardController.BrowseRequest | apps/frontend/src/app/dashboard/page.tsx:80 | a browse asks for the selected topic with the browse limit and no query |
| DashboardController.ChatRequest | apps/frontend/src/app/dashboard/page.tsx:107 | a question fetches at most ten results for the question as query, never filtered by topic |
| DashboardController.TopicOrNone | apps/frontend/src/app/dashboard/page.tsx:119 | a present, non-empty topic shows as itself, anything else as "N/A" |
| DashboardController.StudyBlocks | apps/frontend/src/app/dashboard/page.tsx:118-120 | one context block per fetched study |
| DashboardController.ChatContext | apps/frontend/src/app/dashboard/page.tsx:118-120 | the chat context is empty exactly when no study was fetched (each study's block in `DashboardController.ContextCarriesEachStudy`) |
| DashboardController.ContextCarriesEachStudy | apps/frontend/src/app/dashboard/page.tsx:118-120 | every fetched study's block, and so its title, is in the context |
| DashboardController.UserMessage | apps/frontend/src/app/dashboard/page.tsx:139 | the user message carries the question and the whole context |
| DashboardController.UserTextCarries | apps/frontend/src/app/dashboard/page.tsx:130-144 | the model call's user message carries the question and every fetched study's title |
| DashboardController.ChatFailure | apps/frontend/src/app/dashboard/page.tsx:149-159 | a failure naming "API key" shows the configuration hint without an error; any other sets the error and the apology |
| DashboardController.ChatOutcome | apps/frontend/src/app/dashboard/page.tsx:99-163 | the answer is never empty; no studies gives "No studies found"; a reply shows its content or "No response generated."; a failure clears the results; an error is only ever the generic one |
| DashboardController.CountText | apps/frontend/src/app/dashboard/page.tsx:344 | "1 publication found" for one, "n publications found" otherwise |
| DashboardController.CountTextReadsBack | apps/frontend/src/app/dashboard/page.tsx:344 | the count text starts with the count's digits, which read back as the count |
| DashboardController.DashboardPage.constructor | apps/frontend/src/app/dashboard/page.tsx:20-26 | the page starts empty, idle, unsearched, with "All" selected |
| DashboardController.DashboardPage.OffersBrowse | apps/frontend/src/app/dashboard/page.tsx:293-297 | "Browse All" is offered exactly when a topic other than "All" is selected |
| DashboardController.DashboardPage.LoadTopics | apps/frontend/src/app/dashboard/page.tsx:28-40 | the topics request's answer replaces the topics; a failure leaves every field as it was |
| DashboardController.DashboardPage.SelectTopic | apps/frontend/src/app/dashboard/page.tsx:281-283 | choosing a topic changes only the selection |
| DashboardController.DashboardPage.Begin | apps/frontend/src/app/dashboard/page.tsx:43-45 | the spinner goes on, the error is cleared and the page is marked searched |
| DashboardController.DashboardPage.Complete | apps/frontend/src/app/dashboard/page.tsx:55-65 | an answer replaces the results; a failure clears them and sets the fixed error; the spinner goes off |
| DashboardController.DashboardPage.HandleSearch | apps/frontend/src/app/dashboard/page.tsx:42-66 | a search sends the search request for the current selection and ends searched and not loading, with the answer's results or the fixed error |
| DashboardController.DashboardPage.HandleBrowseTopic | apps/frontend/src/app/dashboard/page.tsx:68-93 | with "All" selected nothing changes and nothing is sent; otherwise the browse request is sent and the answer or the fixed error is shown |
| DashboardController.DashboardPage.ShowFailure | apps/frontend/src/app/dashboard/page.tsx:149-159 | a chat failure sets the error and answer text that the failure mapping gives, and clears the results |
| DashboardController.DashboardPage.HandleChatQuery | apps/frontend/src/app/dashboard/page.tsx:99-163 | a question sends the chat request; the model is called exactly when studies were found, with the question and those studies; the page ends in the chat outcome, searched and not loading |

## Findings

| source | as written | input that shows it | evidently intended | confidence | as-written member | corrected member |
|---|---|---|---|---|---|---|
| apps/frontend/src/components/ResultsList.tsx:39 | the badge colour reads the topic as a key of an object literal and falls back to "Other" only when that read is falsy, so a topic that names an inherited object member gets a function | a result whose Topic is "toString" | every topic without its own entry gets the "Other" classes | not executed | ResultsList.InheritedTopicBreaksBadge | ResultsList.TopicColor |
| apps/frontend/src/components/TopicChart.tsx:84 | the bar fill uses the same lookup, so a topic naming an inherited member gets a function as its fill | a topic entry named "constructor" | every topic without its own colour is grey | not executed | TopicChart.InheritedTopicBreaksFill | TopicChart.Fill |

## Left out

- Loading data (`load_data`, `_categorize_publications`), writing files (`save_topics_json`, `save_categorized_csv`, `run`) and the JSON-file branch of `get_topics`: file and network I/O. The table is an input, and only the computed fallback of `get_topics` is modelled.
- The Gemini and OpenAI calls, the environment's API key, `axios` requests and the clock: each outcome is a parameter of the operation that uses it.
- Logging (`print`, `console.error`): no effect on state.
- The server-orchestrated chat endpoint: it is not in the modelled files.
- Concurrent or reordered responses: each handler runs from its start to its answer in one step, so an older answer overwriting a newer search is not modelled.
- Text.Lower: lower-cases ASCII letters only; Unicode case mapping is not modelled.
- Text.Trim: treats only the six ASCII whitespace characters as whitespace. JavaScript's `trim` also removes U+00A0, U+FEFF, the Unicode space separators and the line and paragraph separators; these are not modelled.
- Text.Words: treats only the six ASCII whitespace characters as separators. Python's `str.split()` also splits at U+001C to U+001F, U+0085, U+00A0 and the Unicode space separators; these are not modelled.
- ResultsList.BadgeFor, ResultsList.Render: use the corrected colour lookup `ResultsList.TopicColor` from the findings table. For a topic naming an inherited object member ("toString", "constructor") the badge colour therefore differs from what ResultsList.tsx:39 and :50-53 produce; `ResultsList.InheritedTopicBreaksBadge` models that behaviour.
- TopicChart.Cells: uses the corrected fill `TopicChart.Fill` from the findings table. For a topic naming an inherited object member the fill therefore differs from what TopicChart.tsx:84 produces; `TopicChart.InheritedTopicBreaksFill` models that behaviour.
- Fetching.Url: parameter values are not percent-encoded, because `encodeURIComponent` is not modelled.
- DataService.Format: the contract fixes id, title, topic and summary length. The link cell and the summary's exact wording are fixed only by the body.
- DataService.Search: cells are strings or missing. A missing cell prints as "nan", and numeric cells printed by `str` are not modelled.
- DataService.Search, DataService.SearchPublications: a Title column with no string cell at all (every title missing) is read by pandas as a float column, and with a non-empty query `.str` then raises AttributeError (data_service.py:105, :112), which `search_publications` does not catch. This exception path is not modelled: the model treats each missing title as not matching and returns `Found` with no such row.
- DataService.FilterRows: rows are masked by position, which matches pandas' label-aligned masks only when the table's index labels are unique.
- DataService.SearchPublications: `limit` is always passed in; the Python default of 20 is the caller's choice.
- TopicCounts.SortByCount: topics with equal counts keep their order of first appearance. pandas promises no order for ties, and no contract here depends on it.
- ChatService.ChatbotService.CheckRateLimit: timestamps are whole seconds, and each reading is assumed to be no earlier than the previous one.
- ChatService.ChatbotService.Initialize: the configured client is represented by the model name alone.
- DashboardController.DashboardPage.HandleChatQuery: the interim "Searching…" and "Analyzing…" texts are set and then overwritten; the contract states only the final text.
- DashboardController.ChatOutcome: a failure without a message (a thrown non-Error) counts as one whose message lacks "API key". Result fields the backend leaves out are not modelled.
- DashboardController.ModelCall: the model name, system message, temperature 0.7 and the 500-token cap are constants, not fields of the call.
- SearchBarWidget.SearchBar.Submit: the input and button are disabled while loading; the model does not stop a submit during loading.
- The "Browse All" button's disabled state while loading, the topic suffix of the dashboard's results heading, and the spinner shown while the topic list is empty: presentation only.
- The chart tooltip's percentage: floating-point presentation over a fixed total.
- Layout, styling and static text of the pages, the hero banner and the axes.
