/** The chat service: a sliding-window rate limiter over two timestamp
    deques (15 requests per minute, 1500 per day), lazy model set-up, the
    context and prompt builders, and the order of steps in answering a
    question. The language model is not modelled: its outcome is an input. */
module ChatService {
  import opened Wrappers
  import opened Text
  import opened RateWindow

  const RpmLimit: nat := 15
  const RpdLimit: nat := 1500
  const MinuteSeconds: nat := 60
  const DaySeconds: nat := 24 * 60 * 60
  const ModelName: string := "gemini-2.5-flash"

  const MissingKeyMessage: string := "GEMINI_API_KEY not found in environment variables"
  const QuotaMessage: string := "API quota exceeded. Please try again later."

  /** The two denial messages, with the limits written in. */
  const MinuteLimitMessage: string := "Rate limit exceeded: 15 requests per minute. Please wait a moment."
  const DailyLimitMessage: string := "Daily limit exceeded: 1500 requests per day. Please try again tomorrow."

  /** The answer to an empty search. */
  function NoStudiesFound(query: string): string {
    "No studies found for \"" + query + "\". Try a different question or browse by topic."
  }

  // ---------------------------------------------------------------------
  // The limit decision
  // ---------------------------------------------------------------------

  /** `_check_rate_limit`'s verdict: `(is_allowed, error_message)`. */
  datatype Decision = Decision(allowed: bool, message: string)

  /** The minute test comes first, then the daily test. */
  function RateDecision(minuteCount: nat, dailyCount: nat): (d: Decision)
    ensures d.allowed <==> minuteCount < RpmLimit && dailyCount < RpdLimit
    ensures d.allowed ==> d.message == ""
    ensures minuteCount >= RpmLimit ==> d.message == MinuteLimitMessage
    ensures minuteCount < RpmLimit && dailyCount >= RpdLimit ==> d.message == DailyLimitMessage
  {
    if minuteCount >= RpmLimit then Decision(false, MinuteLimitMessage)
    else if dailyCount >= RpdLimit then Decision(false, DailyLimitMessage)
    else Decision(true, "")
  }

  /** The message alone tells which limit denied the request. */
  lemma DenialNamesItsLimit(minuteCount: nat, dailyCount: nat)
    requires !RateDecision(minuteCount, dailyCount).allowed
    ensures var m := RateDecision(minuteCount, dailyCount).message;
      && m != ""
      && (m == MinuteLimitMessage <==> minuteCount >= RpmLimit)
      && (m == DailyLimitMessage <==> minuteCount < RpmLimit)
  {
    assert MinuteLimitMessage != DailyLimitMessage;
  }

  // ---------------------------------------------------------------------
  // Errors
  // ---------------------------------------------------------------------

  /** A raised exception and its text `str(e)`. */
  datatype Exception = ValueError(msg: string) | OtherError(msg: string)

  /** What the model call produced: a response whose text is readable, an
      exception raised by the call itself, or a response that came back but
      whose `.text` raised (for instance a blocked response). */
  datatype Generation =
    | Generated(text: string)
    | GenerationFailed(error: Exception)
    | GeneratedUnreadable(error: Exception)

  /** What `generate_response` returns or raises. */
  datatype Reply = Answer(text: string) | Raised(error: Exception)

  /** The lower-cased text mentions a quota, a rate limit or HTTP 429. */
  predicate QuotaLike(msg: string)
    ensures Contains(msg, "quota") || Contains(msg, "rate limit") || Contains(msg, "429") ==> QuotaLike(msg)
  {
    var t := Lower(msg);
    assert Contains(msg, "quota") || Contains(msg, "rate limit") || Contains(msg, "429")
        ==> Contains(t, "quota") || Contains(t, "rate limit") || Contains(t, "429") by {
      LowerOfLower("quota");
      LowerOfLower("rate limit");
      LowerOfLower("429");
      if Contains(msg, "quota") { ContainsLower(msg, "quota"); }
      if Contains(msg, "rate limit") { ContainsLower(msg, "rate limit"); }
      if Contains(msg, "429") { ContainsLower(msg, "429"); }
    }
    Contains(t, "quota") || Contains(t, "rate limit") || Contains(t, "429")
  }

  /** The `except` clauses: a ValueError passes unchanged, a quota-like error
      becomes the fixed quota ValueError, anything else is re-raised. */
  function MapException(e: Exception): (r: Exception)
    ensures e.ValueError? ==> r == e
    ensures e.OtherError? && QuotaLike(e.msg) ==> r == ValueError(QuotaMessage)
    ensures e.OtherError? && !QuotaLike(e.msg) ==> r == e
  {
    if e.ValueError? then e
    else if QuotaLike(e.msg) then ValueError(QuotaMessage)
    else e
  }

  /** Mapping an already mapped exception changes nothing more, and what
      comes out is a ValueError exactly when it went in as one or was quota-like. */
  lemma MapExceptionIdempotent(e: Exception)
    ensures MapException(MapException(e)) == MapException(e)
    ensures MapException(e).ValueError? <==> e.ValueError? || QuotaLike(e.msg)
  {
  }

  /** An error whose message mentions HTTP status 429 anywhere becomes the quota error. */
  lemma TooManyRequestsIsQuota(prefix: string, suffix: string)
    ensures MapException(OtherError(prefix + "429" + suffix)) == ValueError(QuotaMessage)
  {
    var m := prefix + "429" + suffix;
    assert m[|prefix|..|prefix| + 3] == "429";
    ContainsAt(m, "429", |prefix|);
  }

  // ---------------------------------------------------------------------
  // Context and prompt
  // ---------------------------------------------------------------------

  /** A search result as the chat service reads it: each field may be absent. */
  datatype Study = Study(title: Option<string>, summary: Option<string>, topic: Option<string>)

  const ContextSize: nat := 10

  /** One numbered block of the context, with "N/A" for an absent field. */
  function StudyBlock(i: nat, s: Study): (r: string)
    ensures "Study " <= r
  {
    "Study " + NatToString(i) + ": " + s.title.GetOr("N/A")
      + "\nSummary: " + s.summary.GetOr("N/A")
      + "\nTopic: " + s.topic.GetOr("N/A")
  }

  /** The blocks of the first ten results, numbered from 1. */
  function ContextBlocks(results: seq<Study>): (r: seq<string>)
    ensures |r| == if |results| < ContextSize then |results| else ContextSize
    ensures forall i :: 0 <= i < |r| ==> r[i] == StudyBlock(i + 1, results[i])
  {
    var n := if |results| < ContextSize then |results| else ContextSize;
    seq(n, i requires 0 <= i < n => StudyBlock(i + 1, results[i]))
  }

  /** `_format_context`: the blocks separated by a blank line; empty exactly
      when there are no results. */
  function FormatContext(results: seq<Study>): (ctx: string)
    ensures ctx == "" <==> results == []
  {
    var blocks := ContextBlocks(results);
    if results != [] then
      assert "Study " <= blocks[0];
      JoinEmpty(blocks, "\n\n");
      Join(blocks, "\n\n")
    else
      Join(blocks, "\n\n")
  }

  /** Only the top ten results reach the context. */
  lemma ContextIsTopTen(results: seq<Study>)
    requires |results| > ContextSize
    ensures FormatContext(results) == FormatContext(results[..ContextSize])
  {
    assert ContextBlocks(results) == ContextBlocks(results[..ContextSize]);
  }

  /** Each of the first ten results appears in the context as its numbered block. */
  lemma ContextHasEachStudy(results: seq<Study>, i: nat)
    requires i < |results| && i < ContextSize
    ensures Contains(FormatContext(results), StudyBlock(i + 1, results[i]))
  {
    JoinContainsPart(ContextBlocks(results), "\n\n", i);
  }

  const PromptHead: string :=
    "You are a helpful space biology research assistant analyzing NASA publications.\n"
    + "Provide clear, concise answers based on the research summaries provided.\n"
    + "Cite study titles when relevant. Keep responses under 300 words.\n\nQuestion: "
  const PromptMiddle: string := "\n\nRelevant Research from NASA Publications:\n\n"
  const PromptTail: string :=
    "\n\nBased on these studies, please provide a clear and informative answer to the question."

  /** The prompt sent to the model; it carries the question and the whole context. */
  function Prompt(query: string, context: string): (p: string)
    ensures Contains(p, query) && Contains(p, context)
  {
    var p := PromptHead + query + PromptMiddle + context + PromptTail;
    assert p[|PromptHead|..|PromptHead| + |query|] == query;
    ContainsAt(p, query, |PromptHead|);
    var at := |PromptHead| + |query| + |PromptMiddle|;
    assert p[at..at + |context|] == context;
    ContainsAt(p, context, at);
    p
  }

  // ---------------------------------------------------------------------
  // The service
  // ---------------------------------------------------------------------

  /** Set-up fails when the key is unset or empty and the model is not yet set up. */
  predicate InitFails(initialized: bool, apiKey: Option<string>) {
    !initialized && (apiKey == None || apiKey == Some(""))
  }

  /** One `while q and q[0] < cutoff: q.popleft()` loop. */
  method PruneFront(q: seq<int>, cutoff: int) returns (r: seq<int>)
    ensures r == Prune(q, cutoff)
  {
    r := q;
    ghost var dropped: nat := 0;
    while r != [] && r[0] < cutoff
      invariant SuffixAt(r, q, dropped) && FrontOlder(q, dropped, cutoff)
      decreases |r|
    {
      PopFront(q, r, dropped, cutoff);
      r, dropped := r[1..], dropped + 1;
    }
    assert r != [] ==> Tracks(r, q, dropped, 0);
    PruneAt(q, cutoff, dropped, r);
  }

  /** Each deque is the part of the history from its cut on, and everything
      before the cut was outside its window at the last pruning. */
  ghost predicate DequesTrack(history: seq<int>, prunedAt: int, minute: seq<int>, minuteCut: nat,
                              daily: seq<int>, dayCut: nat)
  {
    && SuffixAt(minute, history, minuteCut)
    && SuffixAt(daily, history, dayCut)
    && FrontOlder(history, minuteCut, prunedAt - MinuteSeconds)
    && FrontOlder(history, dayCut, prunedAt - DaySeconds)
  }

  /** What pruning one deque leaves, read against the history. */
  lemma PrunedState(h: seq<int>, q: seq<int>, cut: nat, cutoff: int, older: int)
    requires Sorted(h) && SuffixAt(q, h, cut)
    requires older <= cutoff && FrontOlder(h, cut, older)
    ensures var r := Prune(q, cutoff);
      && NoneBefore(r, cutoff)
      && SuffixAt(r, h, cut + (|q| - |r|)) && FrontOlder(h, cut + (|q| - |r|), cutoff)
  {
    var r := Prune(q, cutoff);
    PruneIsSuffix(q, cutoff);
    DropFromSuffix(h, q, cut, r, |q| - |r|, cutoff, older);
    SuffixSorted(r, h, cut + (|q| - |r|));
    SortedFrontBound(r, cutoff);
  }

  /** Pruning both deques at a later time keeps them tracking the history. */
  lemma PrunedDeques(h: seq<int>, prunedAt: int, now: int,
                     minuteQ: seq<int>, minuteCut: nat, dailyQ: seq<int>, dayCut: nat)
    requires Sorted(h) && prunedAt <= now
    requires DequesTrack(h, prunedAt, minuteQ, minuteCut, dailyQ, dayCut)
    ensures var minute, daily := Prune(minuteQ, now - MinuteSeconds), Prune(dailyQ, now - DaySeconds);
      && DequesTrack(h, now, minute, minuteCut + (|minuteQ| - |minute|), daily, dayCut + (|dailyQ| - |daily|))
      && NoneBefore(minute, now - MinuteSeconds) && NoneBefore(daily, now - DaySeconds)
  {
    PrunedState(h, minuteQ, minuteCut, now - MinuteSeconds, prunedAt - MinuteSeconds);
    PrunedState(h, dailyQ, dayCut, now - DaySeconds, prunedAt - DaySeconds);
  }

  /** Recording a request at `now`, no earlier than the last pruning, keeps
      both deques tracking the history, and every entry before a deque's
      start is outside the window that closes at `now`. */
  lemma RecordedDeques(h: seq<int>, prunedAt: int, now: int,
                       minute: seq<int>, minuteCut: nat, daily: seq<int>, dayCut: nat)
    requires DequesTrack(h, prunedAt, minute, minuteCut, daily, dayCut) && prunedAt <= now
    ensures DequesTrack(h + [now], prunedAt, minute + [now], minuteCut, daily + [now], dayCut)
    ensures FrontOlder(h, minuteCut, now - MinuteSeconds) && FrontOlder(h, dayCut, now - DaySeconds)
  {
    AppendTracked(minute, h, minuteCut, now, prunedAt - MinuteSeconds);
    AppendTracked(daily, h, dayCut, now, prunedAt - DaySeconds);
    FrontOlderWeaken(h, minuteCut, prunedAt - MinuteSeconds, now - MinuteSeconds);
    FrontOlderWeaken(h, dayCut, prunedAt - DaySeconds, now - DaySeconds);
  }

  /** The limiter's invariant on plain values: the history is in order and
      no later than the clock, both deques track it, every request recorded
      kept within both limits, and an admitted check left room in both. */
  ghost predicate LimiterState(history: seq<int>, clock: int, prunedAt: int,
                               minute: seq<int>, minuteCut: nat, daily: seq<int>, dayCut: nat, admitted: bool)
  {
    && Sorted(history)
    && (forall i :: 0 <= i < |history| ==> history[i] <= clock)
    && prunedAt <= clock
    && DequesTrack(history, prunedAt, minute, minuteCut, daily, dayCut)
    && EntryWindowWithin(history, MinuteSeconds, RpmLimit)
    && EntryWindowWithin(history, DaySeconds, RpdLimit)
    && (admitted ==> |minute| < RpmLimit && |daily| < RpdLimit)
  }

  /** Pruning both deques at `now` keeps the invariant. */
  lemma PruneStep(history: seq<int>, clock: int, prunedAt: int,
                  minute: seq<int>, minuteCut: nat, daily: seq<int>, dayCut: nat, admitted: bool, now: int)
    requires LimiterState(history, clock, prunedAt, minute, minuteCut, daily, dayCut, admitted)
    requires now >= clock
    ensures var m, d := Prune(minute, now - MinuteSeconds), Prune(daily, now - DaySeconds);
      && LimiterState(history, now, now, m, minuteCut + (|minute| - |m|), d, dayCut + (|daily| - |d|), false)
      && NoneBefore(m, now - MinuteSeconds) && NoneBefore(d, now - DaySeconds)
  {
    PrunedDeques(history, prunedAt, now, minute, minuteCut, daily, dayCut);
  }

  /** Recording a request at `now` after an admitted check keeps the invariant. */
  lemma RecordStep(history: seq<int>, clock: int, prunedAt: int,
                   minute: seq<int>, minuteCut: nat, daily: seq<int>, dayCut: nat, now: int)
    requires LimiterState(history, clock, prunedAt, minute, minuteCut, daily, dayCut, true)
    requires now >= clock
    ensures LimiterState(history + [now], now, prunedAt, minute + [now], minuteCut, daily + [now], dayCut, false)
  {
    RecordedDeques(history, prunedAt, now, minute, minuteCut, daily, dayCut);
    AppendWithinWindow(history, minuteCut, now, MinuteSeconds, RpmLimit);
    AppendWithinWindow(history, dayCut, now, DaySeconds, RpdLimit);
  }

  class ChatbotService {
    var initialized: bool
    var model: Option<string>
    /** The two deques, oldest timestamp first (whole seconds). */
    var minuteRequests: seq<int>
    var dailyRequests: seq<int>

    /** Every timestamp ever recorded, in order. */
    ghost var history: seq<int>
    /** The latest clock reading seen. */
    ghost var clock: int
    /** The time of the last pruning, and where each deque starts in `history`. */
    ghost var prunedAt: int
    ghost var minuteCut: nat
    ghost var dayCut: nat
    /** The last check allowed a request and none has been recorded since. */
    ghost var admitted: bool

    ghost predicate Valid()
      reads this
    {
      && LimiterState(history, clock, prunedAt, minuteRequests, minuteCut, dailyRequests, dayCut, admitted)
      && (initialized <==> model == Some(ModelName))
      && (!initialized ==> model == None)
    }

    constructor ()
      ensures Valid()
      ensures !initialized && model == None
      ensures minuteRequests == [] && dailyRequests == [] && history == []
    {
      initialized, model := false, None;
      minuteRequests, dailyRequests := [], [];
      history, clock, prunedAt, minuteCut, dayCut, admitted := [], 0, 0, 0, 0, false;
    }

    /** Sliding-window guarantee: every closed window of 60 seconds holds at
        most 15 recorded requests, and every closed window of 24 hours at
        most 1500. */
    lemma WithinLimits(t: int)
      requires Valid()
      ensures Count(history, t - MinuteSeconds, t) <= RpmLimit
      ensures Count(history, t - DaySeconds, t) <= RpdLimit
    {
      WindowBound(history, MinuteSeconds, RpmLimit, t);
      WindowBound(history, DaySeconds, RpdLimit, t);
    }

    /** The pruning half of `_check_rate_limit`: drop from the front of each
        deque every timestamp older than its window. */
    method PruneWindows(now: int)
      requires Valid() && now >= clock
      modifies this
      ensures Valid() && !admitted
      ensures minuteRequests == Prune(old(minuteRequests), now - MinuteSeconds)
      ensures dailyRequests == Prune(old(dailyRequests), now - DaySeconds)
      ensures NoneBefore(minuteRequests, now - MinuteSeconds)
      ensures NoneBefore(dailyRequests, now - DaySeconds)
      ensures history == old(history) && clock == now
      ensures initialized == old(initialized) && model == old(model)
    {
      PruneStep(history, clock, prunedAt, minuteRequests, minuteCut, dailyRequests, dayCut, admitted, now);
      var minute := PruneFront(minuteRequests, now - MinuteSeconds);
      var daily := PruneFront(dailyRequests, now - DaySeconds);
      minuteCut, dayCut := minuteCut + (|minuteRequests| - |minute|), dayCut + (|dailyRequests| - |daily|);
      minuteRequests, dailyRequests := minute, daily;
      prunedAt, clock, admitted := now, now, false;
    }

    /** `_check_rate_limit` at time `now`: prune both deques, then refuse when
        the minute deque is full, else when the daily deque is full. */
    method CheckRateLimit(now: int) returns (allowed: bool, message: string)
      requires Valid() && now >= clock
      modifies this
      ensures Valid()
      ensures minuteRequests == Prune(old(minuteRequests), now - MinuteSeconds)
      ensures dailyRequests == Prune(old(dailyRequests), now - DaySeconds)
      ensures NoneBefore(minuteRequests, now - MinuteSeconds)
      ensures NoneBefore(dailyRequests, now - DaySeconds)
      ensures Decision(allowed, message) == RateDecision(|minuteRequests|, |dailyRequests|)
      ensures history == old(history) && clock == now && admitted == allowed
      ensures initialized == old(initialized) && model == old(model)
    {
      PruneWindows(now);
      if |minuteRequests| >= RpmLimit {
        allowed, message := false, MinuteLimitMessage;
      } else if |dailyRequests| >= RpdLimit {
        allowed, message := false, DailyLimitMessage;
      } else {
        allowed, message := true, "";
      }
      admitted := allowed;
    }

    /** `_record_request` at time `now`, after a check that allowed it. */
    method RecordRequest(now: int)
      requires Valid() && admitted && now >= clock
      modifies this
      ensures Valid()
      ensures minuteRequests == old(minuteRequests) + [now]
      ensures dailyRequests == old(dailyRequests) + [now]
      ensures history == old(history) + [now] && clock == now && !admitted
      ensures initialized == old(initialized) && model == old(model)
    {
      RecordStep(history, clock, prunedAt, minuteRequests, minuteCut, dailyRequests, dayCut, now);
      minuteRequests := minuteRequests + [now];
      dailyRequests := dailyRequests + [now];
      history := history + [now];
      clock := now;
      admitted := false;
    }

    /** `_initialize`: a no-op once set up; otherwise an unset or empty key
        is an error, and any other key sets the model up. */
    method Initialize(apiKey: Option<string>) returns (error: Option<string>)
      requires Valid()
      modifies this`initialized, this`model
      ensures Valid()
      ensures error.Some? <==> InitFails(old(initialized), apiKey)
      ensures error.Some? ==> error.value == MissingKeyMessage && !initialized
      ensures error.None? ==> initialized && model == Some(ModelName)
    {
      if initialized {
        return None;
      }
      if apiKey == None || apiKey == Some("") {
        return Some(MissingKeyMessage);
      }
      model := Some(ModelName);
      initialized := true;
      error := None;
    }

    /** `generate_response`: check the limits at `checkTime`, set the model
        up, answer an empty search directly, otherwise build the prompt (the
        second result) and record the request at `recordTime` once the model
        call returned, before its text is read. */
    method GenerateResponse(query: string, searchResults: seq<Study>, apiKey: Option<string>,
                            generation: Generation, checkTime: int, recordTime: int)
      returns (reply: Reply, prompt: Option<string>)
      requires Valid() && checkTime >= clock && recordTime >= checkTime
      modifies this
      ensures Valid()
      ensures var d := RateDecision(|Prune(old(minuteRequests), checkTime - MinuteSeconds)|,
                                    |Prune(old(dailyRequests), checkTime - DaySeconds)|);
        && (!d.allowed ==> reply == Raised(ValueError(d.message)) && prompt == None)
        && (d.allowed && InitFails(old(initialized), apiKey) ==>
              reply == Raised(ValueError(MissingKeyMessage)) && prompt == None)
        && (d.allowed && !InitFails(old(initialized), apiKey) && searchResults == [] ==>
              reply == Answer(NoStudiesFound(query)) && prompt == None)
        && (d.allowed && !InitFails(old(initialized), apiKey) && searchResults != [] ==>
              && prompt == Some(Prompt(query, FormatContext(searchResults)))
              && reply == match generation
                          case Generated(text) => Answer(text)
                          case GenerationFailed(e) => Raised(MapException(e))
                          case GeneratedUnreadable(e) => Raised(MapException(e)))
      ensures var recorded := prompt.Some? && !generation.GenerationFailed?;
        && minuteRequests == Prune(old(minuteRequests), checkTime - MinuteSeconds)
                             + (if recorded then [recordTime] else [])
        && dailyRequests == Prune(old(dailyRequests), checkTime - DaySeconds)
                            + (if recorded then [recordTime] else [])
        && history == old(history) + (if recorded then [recordTime] else [])
    {
      prompt := None;
      var allowed, message := CheckRateLimit(checkTime);
      if !allowed {
        return Raised(ValueError(message)), None;
      }
      var initError := Initialize(apiKey);
      if initError.Some? {
        return Raised(ValueError(initError.value)), None;
      }
      if searchResults == [] {
        return Answer(NoStudiesFound(query)), None;
      }
      var context := FormatContext(searchResults);
      prompt := Some(Prompt(query, context));
      match generation
      case Generated(text) =>
        RecordRequest(recordTime);
        reply := Answer(text);
      case GenerationFailed(e) =>
        reply := Raised(MapException(e));
      case GeneratedUnreadable(e) =>
        RecordRequest(recordTime);
        reply := Raised(MapException(e));
    }
  }
}
