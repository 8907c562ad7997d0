/** The body of both search pages is one of four panels: the spinner while a
    request runs, the error box, the results, or the start prompt. Each is
    guarded by its own condition on `(loading, error, hasSearched)`. */
module Panels {

  datatype Panel = LoadingPanel | ErrorPanel | ResultsPanel | StartPanel

  /** The condition under which each panel renders, one per guard:
      `loading`, `error && !loading`, `!loading && !error && hasSearched`
      and `!loading && !error && !hasSearched`; an error is truthy when it is
      not the empty string. */
  predicate Renders(p: Panel, loading: bool, error: string, hasSearched: bool) {
    match p
    case LoadingPanel => loading
    case ErrorPanel => error != "" && !loading
    case ResultsPanel => !loading && error == "" && hasSearched
    case StartPanel => !loading && error == "" && !hasSearched
  }

  /** The panel on screen: whatever the state, exactly one of the four guards
      holds, and this is its panel. Loading outranks an error, and an error
      outranks the results. */
  function Shown(loading: bool, error: string, hasSearched: bool): (p: Panel)
    ensures Renders(p, loading, error, hasSearched)
    ensures forall q :: Renders(q, loading, error, hasSearched) ==> q == p
    ensures loading ==> p == LoadingPanel
    ensures !loading && error != "" ==> p == ErrorPanel
  {
    if loading then LoadingPanel
    else if error != "" then ErrorPanel
    else if hasSearched then ResultsPanel
    else StartPanel
  }
}
