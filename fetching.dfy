/** What the pages send to the backend and what comes back. A request is the
    port, the path and the query parameters in order; a response is the
    decoded body or the failure's message. The network itself is not part of
    this model: the outcome of each request is a parameter of the handler
    that makes it. */
module Fetching {
  import opened Text

  datatype Request = Request(port: nat, path: string, params: seq<(string, string)>)

  datatype Response<T> = Delivered(data: T) | Failed(message: string)

  const SummariesPath: string := "/api/summaries"
  const TopicsPath: string := "/api/topics"

  const FetchErrorMessage: string := "Failed to fetch results. Please ensure the backend server is running."

  function Param(p: (string, string)): string {
    p.0 + "=" + p.1
  }

  /** The request as a URL, `http://localhost:<port><path>?k1=v1&k2=v2…`;
      parameter values are shown as given, without percent-encoding. */
  function Url(r: Request): (url: string)
    ensures forall i :: 0 <= i < |r.params| ==> Contains(url, Param(r.params[i]))
  {
    var query := Join(seq(|r.params|, i requires 0 <= i < |r.params| => Param(r.params[i])), "&");
    var head := "http://localhost:" + NatToString(r.port) + r.path + "?";
    assert forall i :: 0 <= i < |r.params| ==> Contains(head + query, Param(r.params[i])) by {
      forall i | 0 <= i < |r.params|
        ensures Contains(head + query, Param(r.params[i]))
      {
        JoinContainsPart(seq(|r.params|, i requires 0 <= i < |r.params| => Param(r.params[i])), "&", i);
        JoinContainsSuffix(head, query, Param(r.params[i]));
      }
    }
    head + query
  }

  /** The request names parameter `key`. */
  predicate HasParam(r: Request, key: string) {
    exists i :: 0 <= i < |r.params| && r.params[i].0 == key
  }
}
