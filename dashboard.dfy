/** The dashboard page: the topic chart, a search box with a topic selector
    and a "Browse All" button, the question box backed by a language model,
    and one of four panels below them. Requests go to the backend on port
    5001; each handler takes the outcome of its requests as parameters. */
module DashboardController {
  import opened Wrappers
  import opened Text
  import opened TopicCounts
  import opened Fetching
  import opened ResultsList
  import opened Panels
  import ChatService

  const BackendPort: nat := 5001
  const AllTopics: string := "All"

  // ---------------------------------------------------------------------
  // Requests
  // ---------------------------------------------------------------------

  /** The search request: always the query, and the topic exactly when a
      topic other than "All" is selected. */
  function SearchRequest(query: string, selectedTopic: string): (r: Request)
    ensures r.port == BackendPort && r.path == SummariesPath
    ensures |r.params| > 0 && r.params[0] == ("query", query)
    ensures HasParam(r, "topic") <==> selectedTopic != AllTopics
    ensures forall i :: 0 <= i < |r.params| && r.params[i].0 == "topic" ==> r.params[i].1 == selectedTopic
    ensures !HasParam(r, "limit")
  {
    var topic := if selectedTopic != AllTopics then [("topic", selectedTopic)] else [];
    var r := Request(BackendPort, SummariesPath, [("query", query)] + topic);
    assert selectedTopic != AllTopics ==> r.params[1].0 == "topic";
    r
  }

  /** The index of the first topic entry named `name` at or after `from`,
      as `topics.find` looks for it. */
  function FindFrom(topics: seq<TopicCount>, name: string, from: nat): (i: Option<nat>)
    requires from <= |topics|
    ensures i.Some? ==> from <= i.value < |topics| && topics[i.value].name == name
    ensures i.Some? ==> forall j :: from <= j < i.value ==> topics[j].name != name
    ensures i.None? ==> forall j :: from <= j < |topics| ==> topics[j].name != name
    decreases |topics| - from
  {
    if from == |topics| then None
    else if topics[from].name == name then Some(from)
    else FindFrom(topics, name, from + 1)
  }

  /** No entry before position `i` is named `name`. */
  predicate FirstNamed(topics: seq<TopicCount>, name: string, i: nat)
    requires i <= |topics|
  {
    forall j :: 0 <= j < i ==> topics[j].name != name
  }

  const BrowseCap: int := 200
  const BrowseDefault: int := 100

  /** How many publications a browse asks for: the selected topic's count
      from its first entry, capped at 200, or 100 when no entry has that
      name. */
  function BrowseLimit(topics: seq<TopicCount>, name: string): (limit: int)
    ensures limit <= BrowseCap
    ensures (forall j :: 0 <= j < |topics| ==> topics[j].name != name) ==> limit == BrowseDefault
    ensures forall i :: 0 <= i < |topics| && topics[i].name == name && FirstNamed(topics, name, i) ==>
      limit == (if topics[i].count < BrowseCap then topics[i].count else BrowseCap)
  {
    match FindFrom(topics, name, 0)
    case None => BrowseDefault
    case Some(i) => if topics[i].count < BrowseCap then topics[i].count else BrowseCap
  }

  /** The browse request: the selected topic and the limit. */
  function BrowseRequest(topics: seq<TopicCount>, selectedTopic: string): (r: Request)
    ensures r.port == BackendPort && r.path == SummariesPath
    ensures r.params == [("topic", selectedTopic), ("limit", IntToString(BrowseLimit(topics, selectedTopic)))]
    ensures HasParam(r, "topic") && HasParam(r, "limit") && !HasParam(r, "query")
  {
    var r := Request(BackendPort, SummariesPath,
      [("topic", selectedTopic), ("limit", IntToString(BrowseLimit(topics, selectedTopic)))]);
    assert r.params[0].0 == "topic" && r.params[1].0 == "limit";
    r
  }

  const ChatLimit: string := "10"

  /** The request behind a question: the question as the query, at most ten
      results, and never a topic. */
  function ChatRequest(query: string): (r: Request)
    ensures r.port == BackendPort && r.path == SummariesPath
    ensures r.params == [("query", query), ("limit", ChatLimit)]
    ensures !HasParam(r, "topic")
  {
    Request(BackendPort, SummariesPath, [("query", query), ("limit", ChatLimit)])
  }

  const TopicsRequest: Request := Request(BackendPort, TopicsPath, [])

  // ---------------------------------------------------------------------
  // The question flow
  // ---------------------------------------------------------------------

  const SearchingMessage: string := "Searching for relevant studies..."
  const AnalyzingMessage: string := "Analyzing research with AI..."
  const NoResponseMessage: string := "No response generated."
  /** The configuration hint; its first six characters are the ones in the
      page's source text, a warning sign's UTF-8 bytes read as Mac Roman. */
  const ApiKeyMessage: string :=
    "\U{201A}\U{00F6}\U{2020}\U{00D4}\U{220F}\U{00E8} OpenAI API key not configured. Please add your API key to .env.local\n\nGet your key from: https://platform.openai.com/api-keys"
  const ChatErrorMessage: string := "Failed to process your question. Please check the console for details."
  const ApologyMessage: string := "Sorry, I couldn't process your question. Please try again."
  const ApiKeyMarker: string := "API key"

  const ChatModel: string := "gpt-4o-mini"
  const SystemMessage: string :=
    "You are a helpful space biology research assistant analyzing NASA publications. "
    + "Provide clear, concise answers based on the research summaries provided. "
    + "Cite study titles when relevant. Keep responses under 300 words."
  const Temperature: real := 0.7
  const MaxTokens: nat := 500

  /** The chat completion request sent to the language model: the question
      and the studies fetched for it. The model, system message, temperature
      and token cap are the fixed settings above; the user message is
      `UserText`. */
  datatype ModelCall = ModelCall(question: string, studies: seq<SearchResult>)

  /** How the model call ends: the first choice's content, if any, or a
      failure with its message. */
  datatype Completion = Answered(content: Option<string>) | CompletionFailed(message: string)

  /** `r.Topic || 'N/A'`. */
  function TopicOrNone(topic: Option<string>): (t: string)
    ensures t != ""
    ensures topic.Some? && topic.value != "" ==> t == topic.value
  {
    if topic.Some? && topic.value != "" then topic.value else "N/A"
  }

  /** The block for the study at 0-based position `i`. */
  function StudyBlock(i: nat, r: SearchResult): string {
    "Study " + NatToString(i + 1) + ": " + r.title + "\nSummary: " + r.summary + "\nTopic: " + TopicOrNone(r.topic)
  }

  function StudyBlocks(results: seq<SearchResult>): (blocks: seq<string>)
    ensures |blocks| == |results|
  {
    seq(|results|, i requires 0 <= i < |results| => StudyBlock(i, results[i]))
  }

  /** The context: one block per fetched study, separated by blank lines. */
  function ChatContext(results: seq<SearchResult>): (ctx: string)
    ensures ctx == "" <==> results == []
  {
    var blocks := StudyBlocks(results);
    if results != [] then
      assert "Study " <= blocks[0];
      JoinEmpty(blocks, "\n\n");
      Join(blocks, "\n\n")
    else
      Join(blocks, "\n\n")
  }

  /** Every fetched study's block, and so its title, is in the context. */
  lemma ContextCarriesEachStudy(results: seq<SearchResult>, i: nat)
    requires i < |results|
    ensures Contains(ChatContext(results), StudyBlock(i, results[i]))
    ensures Contains(ChatContext(results), results[i].title)
  {
    var blocks := StudyBlocks(results);
    JoinContainsPart(blocks, "\n\n", i);
    var b := StudyBlock(i, results[i]);
    var at := |"Study " + NatToString(i + 1) + ": "|;
    assert b[at..at + |results[i].title|] == results[i].title;
    ContainsAt(b, results[i].title, at);
    ContainsTransitive(ChatContext(results), b, results[i].title);
  }

  /** The user message: the question, the context, and the instruction. It
      carries the question and the whole context. */
  function UserMessage(query: string, context: string): (m: string)
    ensures Contains(m, query) && Contains(m, context)
  {
    var m := "Question: " + query + "\n\nRelevant Research from NASA Publications:\n\n" + context
      + "\n\nBased on these studies, please provide a clear and informative answer to the question.";
    var q := |"Question: "|;
    assert m[q..q + |query|] == query;
    ContainsAt(m, query, q);
    var c := q + |query| + |"\n\nRelevant Research from NASA Publications:\n\n"|;
    assert m[c..c + |context|] == context;
    ContainsAt(m, context, c);
    m
  }

  /** The user message of a model call. */
  function UserText(call: ModelCall): string {
    UserMessage(call.question, ChatContext(call.studies))
  }

  /** The user message of a call carries its question and every study's
      title. */
  lemma UserTextCarries(call: ModelCall, i: nat)
    requires i < |call.studies|
    ensures Contains(UserText(call), call.question)
    ensures Contains(UserText(call), call.studies[i].title)
  {
    ContextCarriesEachStudy(call.studies, i);
    ContainsTransitive(UserText(call), ChatContext(call.studies), call.studies[i].title);
  }

  /** A failed question: a message naming the API key shows the
      configuration hint and leaves the error alone; any other failure sets
      the error and the apology. Gives the new error and answer text. */
  function ChatFailure(message: string, error: string): (r: (string, string))
    ensures Contains(message, ApiKeyMarker) ==> r == (error, ApiKeyMessage)
    ensures !Contains(message, ApiKeyMarker) ==> r == (ChatErrorMessage, ApologyMessage)
  {
    if Contains(message, ApiKeyMarker) then (error, ApiKeyMessage) else (ChatErrorMessage, ApologyMessage)
  }

  /** Where a question ends: the results shown, the error and the answer
      text, given the results request's outcome and the model call's. */
  datatype ChatState = ChatState(results: seq<SearchResult>, error: string, answer: string)

  function ChatOutcome(query: string, response: Response<seq<SearchResult>>, completion: Completion): (s: ChatState)
    ensures s.answer != ""
    ensures response.Delivered? && response.data == [] ==>
      s == ChatState([], "", ChatService.NoStudiesFound(query))
    ensures response.Delivered? && response.data != [] && completion.Answered? ==>
      s.results == response.data && s.error == ""
      && (completion.content.Some? && completion.content.value != "" ==> s.answer == completion.content.value)
      && (completion.content.None? || completion.content.value == "" ==> s.answer == NoResponseMessage)
    ensures response.Failed? ==>
      s.results == [] && (s.error, s.answer) == ChatFailure(response.message, "")
    ensures response.Delivered? && response.data != [] && completion.CompletionFailed? ==>
      s.results == [] && (s.error, s.answer) == ChatFailure(completion.message, "")
    ensures s.error != "" ==> s.error == ChatErrorMessage && s.results == []
  {
    match response
    case Failed(message) =>
      var (e, a) := ChatFailure(message, "");
      ChatState([], e, a)
    case Delivered(data) =>
      if data == [] then ChatState([], "", ChatService.NoStudiesFound(query))
      else match completion
        case Answered(content) =>
          ChatState(data, "", if content.Some? && content.value != "" then content.value else NoResponseMessage)
        case CompletionFailed(message) =>
          var (e, a) := ChatFailure(message, "");
          ChatState([], e, a)
  }

  // ---------------------------------------------------------------------
  // The page
  // ---------------------------------------------------------------------

  /** The count under the results heading, `<n> publication(s) found`. */
  function CountText(n: nat): (t: string)
    ensures n == 1 ==> t == "1 publication found"
    ensures n != 1 ==> t == NatToString(n) + " publications found"
  {
    NatToString(n) + " publication" + (if n != 1 then "s" else "") + " found"
  }

  /** The count text reads back as the count. */
  lemma CountTextReadsBack(n: nat)
    ensures var d := NatToString(n);
      |d| <= |CountText(n)| && CountText(n)[..|d|] == d && ParseNat(d) == n
  {
    ParseNatToString(n);
  }

  class DashboardPage {
    var results: seq<SearchResult>
    var loading: bool
    var error: string
    var hasSearched: bool
    var topics: seq<TopicCount>
    var selectedTopic: string
    var chatbotResponse: string

    constructor()
      ensures results == [] && !loading && error == "" && !hasSearched
      ensures topics == [] && selectedTopic == AllTopics && chatbotResponse == ""
    {
      results, loading, error, hasSearched := [], false, "", false;
      topics, selectedTopic, chatbotResponse := [], AllTopics, "";
    }

    /** The panel below the controls. */
    function Body(): Panel
      reads this
    {
      Shown(loading, error, hasSearched)
    }

    /** The "Browse All" button is offered exactly when a topic is selected. */
    function OffersBrowse(): (offered: bool)
      reads this
      ensures offered <==> selectedTopic != AllTopics
    {
      selectedTopic != AllTopics
    }

    /** Loading the distribution on mount: the answer replaces the topics; a
        failure leaves them as they are. */
    method LoadTopics(response: Response<seq<TopicCount>>) returns (request: Request)
      modifies this
      ensures request == TopicsRequest
      ensures response.Delivered? ==> topics == response.data
      ensures response.Failed? ==> topics == old(topics)
      ensures results == old(results) && loading == old(loading) && error == old(error)
      ensures hasSearched == old(hasSearched) && selectedTopic == old(selectedTopic)
      ensures chatbotResponse == old(chatbotResponse)
    {
      request := TopicsRequest;
      if response.Delivered? {
        topics := response.data;
      }
    }

    /** Choosing a topic in the selector. */
    method SelectTopic(name: string)
      modifies this
      ensures selectedTopic == name
      ensures results == old(results) && loading == old(loading) && error == old(error)
      ensures hasSearched == old(hasSearched) && topics == old(topics)
      ensures chatbotResponse == old(chatbotResponse)
    {
      selectedTopic := name;
    }

    /** Before a request: the spinner is on, the error cleared and the page
        marked as searched. */
    method Begin()
      modifies this
      ensures loading && error == "" && hasSearched
      ensures results == old(results) && topics == old(topics)
      ensures selectedTopic == old(selectedTopic) && chatbotResponse == old(chatbotResponse)
    {
      loading, error, hasSearched := true, "", true;
    }

    /** After a search or browse request: the answer's results, or no results
        and the fixed error, and the spinner off either way. */
    method Complete(response: Response<seq<SearchResult>>)
      modifies this
      ensures !loading && hasSearched == old(hasSearched)
      ensures response.Delivered? ==> results == response.data && error == old(error)
      ensures response.Failed? ==> results == [] && error == FetchErrorMessage
      ensures topics == old(topics) && selectedTopic == old(selectedTopic)
      ensures chatbotResponse == old(chatbotResponse)
    {
      match response {
        case Delivered(data) =>
          results := data;
        case Failed(_) =>
          error := FetchErrorMessage;
          results := [];
      }
      loading := false;
    }

    /** A keyword search whose request ends in `response`. */
    method HandleSearch(query: string, response: Response<seq<SearchResult>>) returns (request: Request)
      modifies this
      ensures request == SearchRequest(query, old(selectedTopic))
      ensures !loading && hasSearched
      ensures response.Delivered? ==> results == response.data && error == ""
      ensures response.Failed? ==> results == [] && error == FetchErrorMessage
      ensures topics == old(topics) && selectedTopic == old(selectedTopic)
      ensures chatbotResponse == old(chatbotResponse)
    {
      Begin();
      request := SearchRequest(query, selectedTopic);
      Complete(response);
    }

    /** Browsing the selected topic; with "All" selected nothing happens and
        no request is sent. */
    method HandleBrowseTopic(response: Response<seq<SearchResult>>) returns (request: Option<Request>)
      modifies this
      ensures old(selectedTopic) == AllTopics ==>
        request == None && results == old(results) && loading == old(loading)
        && error == old(error) && hasSearched == old(hasSearched)
      ensures old(selectedTopic) != AllTopics ==>
        request == Some(BrowseRequest(old(topics), old(selectedTopic))) && !loading && hasSearched
        && (response.Delivered? ==> results == response.data && error == "")
        && (response.Failed? ==> results == [] && error == FetchErrorMessage)
      ensures topics == old(topics) && selectedTopic == old(selectedTopic)
      ensures chatbotResponse == old(chatbotResponse)
    {
      if selectedTopic == AllTopics {
        return None;
      }
      Begin();
      request := Some(BrowseRequest(topics, selectedTopic));
      Complete(response);
    }

    /** The failure path of a question: the error and answer text
        `ChatFailure` gives, and no results. */
    method ShowFailure(message: string)
      modifies this
      ensures (error, chatbotResponse) == ChatFailure(message, old(error))
      ensures results == [] && loading == old(loading) && hasSearched == old(hasSearched)
      ensures topics == old(topics) && selectedTopic == old(selectedTopic)
    {
      var failure := ChatFailure(message, error);
      error, chatbotResponse := failure.0, failure.1;
      results := [];
    }

    /** A question: fetch up to ten studies for it, and unless there are
        none, ask the model with them as context. `call` is the model call
        made, if any; `completion` is how it ends. */
    method HandleChatQuery(query: string, response: Response<seq<SearchResult>>, completion: Completion)
      returns (request: Request, call: Option<ModelCall>)
      modifies this
      ensures request == ChatRequest(query)
      ensures call.Some? <==> response.Delivered? && response.data != []
      ensures call.Some? ==> call.value == ModelCall(query, response.data)
      ensures ChatState(results, error, chatbotResponse) == ChatOutcome(query, response, completion)
      ensures !loading && hasSearched
      ensures topics == old(topics) && selectedTopic == old(selectedTopic)
    {
      Begin();
      chatbotResponse := SearchingMessage;
      request := ChatRequest(query);
      call := None;
      match response {
        case Failed(message) =>
          ShowFailure(message);
        case Delivered(data) =>
          results := data;
          if data == [] {
            chatbotResponse := ChatService.NoStudiesFound(query);
          } else {
            chatbotResponse := AnalyzingMessage;
            call := Some(ModelCall(query, data));
            match completion {
              case Answered(content) =>
                chatbotResponse := if content.Some? && content.value != "" then content.value else NoResponseMessage;
              case CompletionFailed(message) =>
                ShowFailure(message);
            }
          }
      }
      loading := false;
    }
  }
}
