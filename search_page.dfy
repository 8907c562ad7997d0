/** The stand-alone search page: a search box over the summaries endpoint of
    the backend on port 5000, and one of four panels below it. */
module SearchPageController {
  import opened Text
  import opened Fetching
  import opened ResultsList
  import opened Panels

  const SearchPort: nat := 5000

  /** The request a search sends: the query, and nothing else. */
  function SearchRequest(query: string): (r: Request)
    ensures r.port == SearchPort && r.path == SummariesPath
    ensures HasParam(r, "query") && !HasParam(r, "topic") && !HasParam(r, "limit")
  {
    var r := Request(SearchPort, SummariesPath, [("query", query)]);
    assert r.params[0].0 == "query";
    r
  }

  /** The heading over the results: "Results" when there are none, then
      "Found 1 result", then "Found <n> results". */
  function ResultsHeading(n: nat): (h: string)
    ensures n == 0 ==> h == "Results"
    ensures n == 1 ==> h == "Found 1 result"
    ensures n > 1 ==> h == "Found " + NatToString(n) + " results"
  {
    if n > 0 then "Found " + NatToString(n) + " result" + (if n != 1 then "s" else "") else "Results"
  }

  /** A heading that counts the results reads back as that count. */
  lemma HeadingCountsResults(n: nat)
    requires n > 0
    ensures var d := NatToString(n);
      6 + |d| <= |ResultsHeading(n)| && ResultsHeading(n)[6..6 + |d|] == d && ParseNat(d) == n
  {
    ParseNatToString(n);
  }

  class SearchPage {
    var results: seq<SearchResult>
    var loading: bool
    var error: string
    var hasSearched: bool

    constructor()
      ensures results == [] && !loading && error == "" && !hasSearched
    {
      results, loading, error, hasSearched := [], false, "", false;
    }

    /** The panel below the search box. */
    function Body(): Panel
      reads this
    {
      Shown(loading, error, hasSearched)
    }

    /** Before the request: the spinner is on, the error cleared and the
        page marked as searched; the results stay until the answer. */
    method Begin()
      modifies this
      ensures loading && error == "" && hasSearched
      ensures results == old(results)
    {
      loading, error, hasSearched := true, "", true;
    }

    /** After the request: the answer's results, or no results and the
        fixed error, and the spinner off either way. */
    method Complete(response: Response<seq<SearchResult>>)
      modifies this
      ensures !loading && hasSearched == old(hasSearched)
      ensures response.Delivered? ==> results == response.data && error == old(error)
      ensures response.Failed? ==> results == [] && error == FetchErrorMessage
    {
      match response {
        case Delivered(data) =>
          results := data;
        case Failed(_) =>
          error := FetchErrorMessage;
          results := [];
      }
      loading := false;
    }

    /** A search for `query` whose request ends in `response`. Once searched,
        the page never returns to its start panel. */
    method HandleSearch(query: string, response: Response<seq<SearchResult>>) returns (request: Request)
      modifies this
      ensures request == SearchRequest(query)
      ensures !loading && hasSearched
      ensures response.Delivered? ==> results == response.data && error == ""
      ensures response.Failed? ==> results == [] && error == FetchErrorMessage
      ensures Body() == (if response.Failed? then ErrorPanel else ResultsPanel)
    {
      Begin();
      request := SearchRequest(query);
      Complete(response);
    }
  }
}
