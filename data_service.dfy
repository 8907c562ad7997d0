/** The publication data service: keywords from a natural-language question,
    title search over the publication table, and the topic distribution
    computed from the table. The table is passed in as rows; loading it from
    disk or the network is not part of this model. */
module DataService {
  import opened Wrappers
  import opened Text
  import opened TopicCounts
  import opened Filtering

  // ---------------------------------------------------------------------
  // Keyword extraction
  // ---------------------------------------------------------------------

  const StopWords: set<string> := {
    "what", "does", "do", "is", "are", "how", "why", "when", "where", "who",
    "the", "a", "an", "and", "or", "but", "in", "on", "at", "to", "for",
    "of", "with", "by", "from", "about", "as", "into", "through", "during",
    "before", "after", "above", "below", "between", "under", "since", "can",
    "could", "would", "should", "may", "might", "will", "shall", "have",
    "has", "had", "been", "be", "being", "it", "its", "itself", "they",
    "them", "their", "this", "that", "these", "those", "i", "you", "he",
    "she", "we", "me", "him", "her", "us", "there"
  }

  /** The characters removed before splitting. */
  const Punctuation: set<char> := {'?', '!', '.', ','}

  /** A word is kept when it is not a stop word and is longer than two characters. */
  predicate Meaningful(w: string) {
    w !in StopWords && |w| > 2
  }

  /** The query lower-cased, without punctuation, split on whitespace. */
  /** A non-empty word with neither whitespace nor punctuation. */
  predicate PlainWord(w: string) {
    w != [] && NoSpace(w) && forall c :: c in w ==> c !in Punctuation
  }

  function QueryWords(query: string): (ws: seq<string>)
    ensures forall w :: w in ws ==> PlainWord(w)
  {
    Words(Without(Lower(query), Punctuation))
  }

  /** `_extract_keywords`: the meaningful words of the query, in order. */
  function ExtractKeywords(query: string): (ks: seq<string>)
    ensures forall k :: k in ks ==> Meaningful(k)
  {
    Filter(QueryWords(query), Meaningful)
  }

  /** Every keyword is lower case, has no punctuation or whitespace, is longer
      than two characters and is not a stop word. */
  lemma KeywordsWellFormed(query: string)
    ensures forall k :: k in ExtractKeywords(query) ==>
      && IsLower(k) && NoSpace(k)
      && (forall c :: c in k ==> c !in Punctuation)
      && |k| > 2 && k !in StopWords
  {
    forall k | k in ExtractKeywords(query)
      ensures IsLower(k) && NoSpace(k) && forall c :: c in k ==> c !in Punctuation
    {
      FilterCount(QueryWords(query), Meaningful, k);
      CleanWord(query, k);
    }
  }

  /** A word of the cleaned query is lower case, without whitespace and without punctuation. */
  lemma CleanWord(query: string, w: string)
    requires w in QueryWords(query)
    ensures IsLower(w) && NoSpace(w) && forall c :: c in w ==> c !in Punctuation
  {
    var low := Lower(query);
    var clean := Without(low, Punctuation);
    forall i | 0 <= i < |w| ensures !IsUpper(w[i]) {
      assert w[i] in clean;
      var j :| 0 <= j < |low| && low[j] == w[i];
    }
  }

  /** The keywords are the words of the cleaned query in their order, with
      every meaningful word kept as often as it occurs and no other word kept. */
  lemma KeywordsAreTheMeaningfulWords(query: string)
    ensures IsSubsequence(ExtractKeywords(query), QueryWords(query))
    ensures forall w :: multiset(ExtractKeywords(query))[w]
                        == if Meaningful(w) then multiset(QueryWords(query))[w] else 0
  {
    FilterIsSubsequence(QueryWords(query), Meaningful);
    forall w ensures multiset(ExtractKeywords(query))[w]
                     == if Meaningful(w) then multiset(QueryWords(query))[w] else 0
    {
      FilterCount(QueryWords(query), Meaningful, w);
    }
  }

  // ---------------------------------------------------------------------
  // The publication table
  // ---------------------------------------------------------------------

  /** One row: its index label and its Title, Link and Topic cells (None for
      a missing value). */
  datatype Row = Row(index: int, title: Option<string>, link: Option<string>, topic: Option<string>)

  /** Which of the Title, Link and Topic columns the table has. */
  datatype Columns = Columns(title: bool, link: bool, topic: bool)

  datatype Frame = Frame(columns: Columns, rows: seq<Row>)

  /** One search result. */
  datatype Publication = Publication(id: int, title: string, summary: string, link: string, topic: string)

  /** The search's result, or the column pandas could not find. */
  datatype SearchOutcome = Found(publications: seq<Publication>) | KeyError(column: string)

  /** `str(row.get(column, default))`: the default when the table has no such
      column, "nan" for a missing cell. */
  function CellText(hasColumn: bool, cell: Option<string>, default: string): string
  {
    if !hasColumn then default
    else match cell
      case None => "nan"
      case Some(v) => v
  }

  const SummaryHead: string := "This NASA bioscience publication explores "
  const SummaryMiddle: string := ". Categorized under "
  const SummaryTail: string := ", this research provides valuable insights for space exploration and understanding biological processes in microgravity environments."
  const SummaryCap: nat := 300

  /** The generated summary before it is capped. */
  function SummaryText(title: string, topic: string): string
  {
    SummaryHead + Lower(title) + SummaryMiddle + topic + SummaryTail
  }

  /** `summary[:300] + "..." if len(summary) > 300 else summary`. */
  function Cap(summary: string): (r: string)
    ensures |r| <= SummaryCap + 3
    ensures |summary| <= SummaryCap ==> r == summary
    ensures |summary| > SummaryCap ==> |r| == SummaryCap + 3 && r[..SummaryCap] == summary[..SummaryCap] && r[SummaryCap..] == "..."
  {
    if |summary| > SummaryCap then summary[..SummaryCap] + "..." else summary
  }

  /** The result built from one row: it keeps the row's index as id, the
      row's Title and Topic cells when the table has those columns and the
      cells are present, and a summary of at most 303 characters. */
  function Format(columns: Columns, row: Row): (p: Publication)
    ensures p.id == row.index && |p.summary| <= SummaryCap + 3
    ensures columns.title && row.title.Some? ==> p.title == row.title.value
    ensures columns.topic && row.topic.Some? ==> p.topic == row.topic.value
  {
    var title := CellText(columns.title, row.title, "Untitled");
    var link := CellText(columns.link, row.link, "#");
    var topic := CellText(columns.topic, row.topic, "Other");
    Publication(row.index, title, Cap(SummaryText(title, topic)), link, topic)
  }

  /** One result per row, in order. */
  function FormatAll(columns: Columns, rows: seq<Row>): (pubs: seq<Publication>)
    ensures |pubs| == |rows|
  {
    seq(|rows|, i requires 0 <= i < |rows| => Format(columns, rows[i]))
  }

  /** The topic filter applies when the topic is given, non-empty and not "All". */
  predicate TopicFilterApplies(topic: Option<string>) {
    topic.Some? && topic.value != "" && topic.value != "All"
  }

  /** `Title.str.lower().str.contains(k, na=False, regex=False)` for one row. */
  predicate TitleHas(row: Row, k: string) {
    row.title.Some? && Contains(Lower(row.title.value), k)
  }

  /** The row passes the topic filter (a missing Topic cell never equals the topic). */
  predicate TopicOk(row: Row, topic: Option<string>) {
    TopicFilterApplies(topic) ==> row.topic == Some(topic.value)
  }

  /** The row passes the text filter: some keyword occurs in its lower-cased
      title, or, when the query has no keywords, the whole lower-cased query does. */
  predicate TextOk(row: Row, query: string) {
    query != "" ==>
      var ks := ExtractKeywords(query);
      if ks != [] then exists k :: k in ks && TitleHas(row, k) else TitleHas(row, Lower(query))
  }

  predicate Matches(row: Row, query: string, topic: Option<string>) {
    TopicOk(row, topic) && TextOk(row, query)
  }

  function TopicTest(topic: Option<string>): Row -> bool {
    row => TopicOk(row, topic)
  }

  function TextTest(query: string): Row -> bool {
    row => TextOk(row, query)
  }

  function MatchTest(query: string, topic: Option<string>): Row -> bool {
    row => Matches(row, query, topic)
  }

  /** `search_publications` as a specification: no table or an empty table
      gives no results; a filter on a missing column is a KeyError; otherwise
      the first `limit` matching rows, in table order, each formatted. */
  function Search(data: Option<Frame>, query: string, limit: int, topic: Option<string>): (r: SearchOutcome)
    ensures r.KeyError? ==> (r.column == "Topic" || r.column == "Title") && data.Some? && data.value.rows != []
    ensures r.Found? && data.Some? ==> |r.publications| <= |data.value.rows|
    ensures r.Found? && limit >= 0 ==> |r.publications| <= limit
  {
    if data.None? || data.value.rows == [] then Found([])
    else if TopicFilterApplies(topic) && !data.value.columns.topic then KeyError("Topic")
    else if query != "" && !data.value.columns.title then KeyError("Title")
    else
      Found(FormatAll(data.value.columns, Head(Filter(data.value.rows, MatchTest(query, topic)), limit)))
  }

  /** The matching rows, pruned with pandas boolean indexing: a topic mask,
      then a keyword mask ORed together one keyword at a time. */
  method FilterRows(rows: seq<Row>, query: string, topic: Option<string>) returns (filtered: seq<Row>)
    ensures filtered == Filter(rows, MatchTest(query, topic))
  {
    var byTopic := FilterByTopic(rows, topic);
    filtered := FilterByText(byTopic, query);
    FilterTwice(rows, TopicTest(topic), TextTest(query), MatchTest(query, topic));
  }

  /** The topic step: rows whose Topic cell equals the topic, when it applies. */
  method FilterByTopic(rows: seq<Row>, topic: Option<string>) returns (filtered: seq<Row>)
    ensures filtered == Filter(rows, TopicTest(topic))
  {
    if TopicFilterApplies(topic) {
      var topicMask := seq(|rows|, i requires 0 <= i < |rows| => rows[i].topic == Some(topic.value));
      SelectIsFilter(rows, topicMask, TopicTest(topic));
      filtered := Select(rows, topicMask);
    } else {
      FilterAll(rows, TopicTest(topic));
      filtered := rows;
    }
  }

  /** The text step: rows whose lower-cased title contains some keyword, or
      the whole lower-cased query when there are no keywords. */
  method FilterByText(rows: seq<Row>, query: string) returns (filtered: seq<Row>)
    ensures filtered == Filter(rows, TextTest(query))
  {
    if query == "" {
      FilterAll(rows, TextTest(query));
      return rows;
    }
    var keywords := ExtractKeywords(query);
    var mask: seq<bool>;
    if keywords != [] {
      mask := KeywordMask(rows, keywords);
      forall i | 0 <= i < |rows| ensures mask[i] == TextOk(rows[i], query) {
        if mask[i] {
          var m :| 0 <= m < |keywords| && TitleHas(rows[i], keywords[m]);
          assert keywords[m] in keywords;
        }
      }
    } else {
      mask := seq(|rows|, i requires 0 <= i < |rows| => TitleHas(rows[i], Lower(query)));
    }
    SelectIsFilter(rows, mask, TextTest(query));
    filtered := Select(rows, mask);
  }

  /** The keyword mask, ORed together one keyword at a time: a row is marked
      when its lower-cased title contains any of the keywords. */
  method KeywordMask(rows: seq<Row>, keywords: seq<string>) returns (mask: seq<bool>)
    ensures |mask| == |rows|
    ensures forall i :: 0 <= i < |rows| ==>
      (mask[i] <==> exists m :: 0 <= m < |keywords| && TitleHas(rows[i], keywords[m]))
  {
    mask := seq(|rows|, i => false);
    for j := 0 to |keywords|
      invariant |mask| == |rows|
      invariant forall i :: 0 <= i < |rows| ==>
                  (mask[i] <==> exists m :: 0 <= m < j && TitleHas(rows[i], keywords[m]))
    {
      var keywordMask := seq(|rows|, i requires 0 <= i < |rows| => TitleHas(rows[i], keywords[j]));
      mask := seq(|rows|, i requires 0 <= i < |rows| => mask[i] || keywordMask[i]);
    }
  }

  /** `search_publications`: filter, keep the first `limit` rows, and build
      one result per row in a loop. */
  method SearchPublications(data: Option<Frame>, query: string, limit: int, topic: Option<string>)
    returns (outcome: SearchOutcome)
    ensures outcome == Search(data, query, limit, topic)
  {
    if data.None? || data.value.rows == [] {
      return Found([]);
    }
    var columns := data.value.columns;
    if TopicFilterApplies(topic) && !columns.topic {
      return KeyError("Topic");
    }
    if query != "" && !columns.title {
      return KeyError("Title");
    }
    var filtered := FilterRows(data.value.rows, query, topic);
    var publications := FormatRows(columns, Head(filtered, limit));
    return Found(publications);
  }

  /** The loop that builds one result per kept row. */
  method FormatRows(columns: Columns, rows: seq<Row>) returns (publications: seq<Publication>)
    ensures publications == FormatAll(columns, rows)
  {
    publications := [];
    for i := 0 to |rows|
      invariant |publications| == i
      invariant forall j :: 0 <= j < i ==> publications[j] == Format(columns, rows[j])
    {
      publications := publications + [Format(columns, rows[i])];
    }
  }

  /** Some keyword occurs in the lower-cased title. */
  predicate MentionsKeyword(title: string, keywords: seq<string>) {
    exists k :: k in keywords && Contains(Lower(title), k)
  }

  /** What a search returns, read against the table: the results are the first
      `limit` matching rows (all but the last `-limit` for a negative limit),
      in table order, each keeping its row's index as id; with the topic
      filter every result has that topic; with a query every lower-cased
      title contains a keyword, or the whole lower-cased query when there are
      no keywords; every summary is at most 303 characters. */
  lemma SearchResults(data: Option<Frame>, query: string, limit: int, topic: Option<string>)
    requires data.Some? && data.value.rows != []
    requires TopicFilterApplies(topic) ==> data.value.columns.topic
    requires query != "" ==> data.value.columns.title
    ensures Search(data, query, limit, topic).Found?
    ensures var pubs := Search(data, query, limit, topic).publications;
      var matching := Filter(data.value.rows, MatchTest(query, topic));
      && |pubs| == |Head(matching, limit)|
      && (limit >= 0 ==> |pubs| <= limit)
      && (forall i :: 0 <= i < |pubs| ==> pubs[i].id == matching[i].index && Matches(matching[i], query, topic))
      && (forall i :: 0 <= i < |pubs| ==> |pubs[i].summary| <= SummaryCap + 3)
      && (TopicFilterApplies(topic) ==> forall i :: 0 <= i < |pubs| ==> pubs[i].topic == topic.value)
      && (query != "" && ExtractKeywords(query) != [] ==>
            forall i :: 0 <= i < |pubs| ==> MentionsKeyword(pubs[i].title, ExtractKeywords(query)))
      && (query != "" && ExtractKeywords(query) == [] ==>
            forall i :: 0 <= i < |pubs| ==> Contains(Lower(pubs[i].title), Lower(query)))
  {
    var rows, columns := data.value.rows, data.value.columns;
    var matching := Filter(rows, MatchTest(query, topic));
    var hits := Head(matching, limit);
    var pubs := FormatAll(columns, hits);
    assert Search(data, query, limit, topic) == Found(pubs);
    forall i | 0 <= i < |pubs|
      ensures pubs[i].id == matching[i].index && Matches(matching[i], query, topic)
      ensures |pubs[i].summary| <= SummaryCap + 3
      ensures TopicFilterApplies(topic) ==> pubs[i].topic == topic.value
      ensures query != "" && ExtractKeywords(query) != [] ==> MentionsKeyword(pubs[i].title, ExtractKeywords(query))
      ensures query != "" && ExtractKeywords(query) == [] ==> Contains(Lower(pubs[i].title), Lower(query))
    {
      assert hits[i] == matching[i] && pubs[i] == Format(columns, matching[i]);
      assert matching[i] in matching;
      if query != "" && ExtractKeywords(query) != [] {
        var k :| k in ExtractKeywords(query) && TitleHas(matching[i], k);
        assert Contains(Lower(pubs[i].title), k);
      }
    }
  }

  /** A search never needs more than the table has: no table or no rows gives no results. */
  lemma EmptyTableNoResults(data: Option<Frame>, query: string, limit: int, topic: Option<string>)
    requires data.None? || data.value.rows == []
    ensures Search(data, query, limit, topic) == Found([])
  {
  }

  // ---------------------------------------------------------------------
  // Topic distribution
  // ---------------------------------------------------------------------

  /** The present Topic cells, in row order (`value_counts` drops missing values). */
  function PresentTopics(rows: seq<Row>): (ts: seq<string>)
    ensures |ts| <= |rows|
    ensures forall t :: t in ts <==> exists i :: 0 <= i < |rows| && rows[i].topic == Some(t)
    decreases |rows|
  {
    if rows == [] then []
    else
      var rest := PresentTopics(rows[1..]);
      assert forall i :: 0 < i < |rows| ==> rows[i] == rows[1..][i - 1];
      match rows[0].topic
      case None => rest
      case Some(t) => [t] + rest
  }

  const AllPublications: string := "All Publications"

  /** The fallback branch of `get_topics`: nothing for a missing or empty
      table, one entry counting every row when there is no Topic column, else
      the count of each topic, largest first. */
  function TopicsFallback(data: Option<Frame>): (r: seq<TopicCount>)
    ensures data.None? || data.value.rows == [] ==> r == []
  {
    if data.None? || data.value.rows == [] then []
    else if !data.value.columns.topic then [TopicCount(AllPublications, |data.value.rows|)]
    else ValueCounts(PresentTopics(data.value.rows))
  }

  /** The fallback distribution has one entry per distinct topic present,
      each counting that topic's rows, the counts adding up to the number of
      rows with a topic (every row when none is missing), ordered by
      non-increasing count. */
  lemma TopicsFallbackSpec(data: Option<Frame>)
    requires data.Some? && data.value.rows != [] && data.value.columns.topic
    ensures var r := TopicsFallback(data);
      var present := PresentTopics(data.value.rows);
      && DistinctNames(r)
      && (forall t :: t in Names(r) <==> exists i :: 0 <= i < |data.value.rows| && data.value.rows[i].topic == Some(t))
      && (forall i :: 0 <= i < |r| ==> r[i].count == Occurrences(present, r[i].name) >= 1)
      && Total(r) == |present|
      && ((forall i :: 0 <= i < |data.value.rows| ==> data.value.rows[i].topic.Some?) ==> Total(r) == |data.value.rows|)
      && ByCountDescending(r)
  {
    ValueCountsSpec(PresentTopics(data.value.rows));
    AllPresent(data.value.rows);
  }

  lemma {:induction false} AllPresent(rows: seq<Row>)
    ensures (forall i :: 0 <= i < |rows| ==> rows[i].topic.Some?) ==> |PresentTopics(rows)| == |rows|
    decreases |rows|
  {
    if rows != [] {
      AllPresent(rows[1..]);
      assert forall i :: 0 < i < |rows| ==> rows[i] == rows[1..][i - 1];
    }
  }

  /** Without a Topic column every row is counted under "All Publications". */
  lemma NoTopicColumn(data: Option<Frame>)
    requires data.Some? && data.value.rows != [] && !data.value.columns.topic
    ensures TopicsFallback(data) == [TopicCount(AllPublications, |data.value.rows|)]
    ensures Total(TopicsFallback(data)) == |data.value.rows|
  {
  }
}
