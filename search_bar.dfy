/** The search box: it keeps the typed query and a validation error, and on
    submit either reports an empty query or hands the trimmed query on. */
module SearchBarWidget {
  import opened Wrappers
  import opened Text

  const EmptyQueryMessage: string := "Please enter a search query"

  /** What a submit of `query` does: the argument handed to `onSearch`, if
      any, and the new error text. A blank query is refused with the
      validation message; any other is passed on trimmed, and the error is
      cleared. */
  function SubmitOutcome(query: string): (r: (Option<string>, string))
    ensures r.0.None? <==> AllSpace(query)
    ensures r.0.None? ==> r.1 == EmptyQueryMessage
    ensures r.0.Some? ==> r.0.value == Trim(query) && r.1 == ""
    ensures r.0.Some? ==> r.0.value != "" && IsTrimmed(r.0.value) && Contains(query, r.0.value)
  {
    var t := Trim(query);
    if t == "" then (None, EmptyQueryMessage) else (Some(t), "")
  }

  class SearchBar {
    var query: string
    var error: string

    constructor()
      ensures query == "" && error == ""
    {
      query, error := "", "";
    }

    /** Typing: the query becomes the new text and the error is cleared. */
    method Change(value: string)
      modifies this
      ensures query == value && error == ""
    {
      query, error := value, "";
    }

    /** Submitting: `searched` is the argument `onSearch` is called with, or
        None when it is not called. The query text is left as typed. */
    method Submit() returns (searched: Option<string>)
      modifies this
      ensures (searched, error) == SubmitOutcome(old(query))
      ensures query == old(query)
    {
      var t := Trim(query);
      if t == "" {
        error := EmptyQueryMessage;
        return None;
      }
      error := "";
      searched := Some(t);
    }
  }
}
