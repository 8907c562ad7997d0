/** The question box: it keeps the typed question, passes it on trimmed when
    it may, and shows the latest answer text. */
module ChatbotWidget {
  import opened Wrappers
  import opened Text

  /** The Send button is disabled while a request runs or while the question
      is blank. */
  predicate SendDisabled(loading: bool, input: string) {
    loading || Trim(input) == ""
  }

  /** The argument a submit hands to `onQuery`, or None when the submit does
      nothing: it goes through exactly when the Send button is enabled, and
      then carries the trimmed, non-empty question. */
  function SubmittedQuestion(input: string, loading: bool): (q: Option<string>)
    ensures q.Some? <==> !SendDisabled(loading, input)
    ensures q.None? <==> loading || AllSpace(input)
    ensures q.Some? ==> q.value == Trim(input) && q.value != "" && IsTrimmed(q.value)
    ensures q.Some? ==> Contains(input, q.value)
  {
    var t := Trim(input);
    if t == "" || loading then None else Some(t)
  }

  /** The response area: shown, with the text, exactly when the text is not
      empty. */
  function ResponseArea(responseText: string): (shown: Option<string>)
    ensures shown.Some? <==> responseText != ""
    ensures shown.Some? ==> shown.value == responseText
  {
    if responseText != "" then Some(responseText) else None
  }

  class Chatbot {
    var input: string

    constructor()
      ensures input == ""
    {
      input := "";
    }

    /** Typing replaces the question text. */
    method Change(value: string)
      modifies this
      ensures input == value
    {
      input := value;
    }

    /** Submitting: `asked` is the argument `onQuery` is called with, or None
        when it is not called. A question that goes out clears the box; a
        refused submit leaves it as it was. */
    method Submit(loading: bool) returns (asked: Option<string>)
      modifies this
      ensures asked == SubmittedQuestion(old(input), loading)
      ensures asked.Some? ==> input == ""
      ensures asked.None? ==> input == old(input)
    {
      var t := Trim(input);
      if t == "" || loading {
        return None;
      }
      asked := Some(t);
      input := "";
    }
  }
}
