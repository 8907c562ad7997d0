/** The list of publication cards: an empty-list placeholder, or one card per
    result in the order given, each with a topic badge coloured by topic. */
module ResultsList {
  import opened Wrappers
  import opened JsRecord

  /** One search result as the backend returns it; `Topic` may be absent. */
  datatype SearchResult = SearchResult(id: int, title: string, summary: string, link: string, topic: Option<string>)

  /** Badge classes by topic, with the "Other" entry as the fallback. */
  const BadgeClasses: map<string, string> := map[
    "Human Health" := "bg-red-500/20 text-red-300 border-red-500/30",
    "Microgravity" := "bg-purple-500/20 text-purple-300 border-purple-500/30",
    "Plants" := "bg-green-500/20 text-green-300 border-green-500/30",
    "Cell Biology" := "bg-blue-500/20 text-blue-300 border-blue-500/30",
    "Radiation" := "bg-yellow-500/20 text-yellow-300 border-yellow-500/30",
    "Development" := "bg-pink-500/20 text-pink-300 border-pink-500/30",
    "Metabolism" := "bg-orange-500/20 text-orange-300 border-orange-500/30",
    "Other" := "bg-gray-500/20 text-gray-300 border-gray-500/30"
  ]

  const OtherClasses: string := "bg-gray-500/20 text-gray-300 border-gray-500/30"

  /** The badge colour lookup as written, `colors[topic] || colors["Other"]`. */
  function TopicColorAsWritten(topic: string): (v: JsValue)
    ensures topic in BadgeClasses ==> v == Str(BadgeClasses[topic])
    ensures topic !in BadgeClasses && topic !in PrototypeMembers ==> v == Str(OtherClasses)
  {
    GetOr(BadgeClasses, topic, "Other")
  }

  /** A topic that is the name of an inherited object member gets that member,
      not the "Other" classes, from the lookup as written. */
  lemma InheritedTopicBreaksBadge()
    ensures TopicColorAsWritten("toString") == Inherited("toString")
    ensures TopicColorAsWritten("toString") != Str(OtherClasses)
  {
    assert "toString" !in BadgeClasses;
  }

  /** The badge colour lookup as meant: a known topic's classes, and the
      "Other" classes for every other topic. */
  function TopicColor(topic: string): (r: string)
    ensures topic in BadgeClasses ==> r == BadgeClasses[topic]
    ensures topic !in BadgeClasses ==> r == OtherClasses
    ensures r in BadgeClasses.Values
  {
    assert topic in BadgeClasses ==> BadgeClasses[topic] != "";
    OwnOr(BadgeClasses, topic, "Other")
  }

  /** Off the inherited member names, the lookup as written and as meant agree. */
  lemma TopicColorAgrees(topic: string)
    requires topic !in PrototypeMembers
    ensures TopicColorAsWritten(topic) == Str(TopicColor(topic))
  {
  }

  datatype Badge = Badge(text: string, classes: string)
  datatype Card = Card(key: int, title: string, summary: string, link: string, badge: Option<Badge>)
  datatype View = NoResults | Cards(cards: seq<Card>)

  /** `{result.Topic && <span …>}`: a badge for a present, non-empty topic. */
  function BadgeFor(topic: Option<string>): (b: Option<Badge>)
    ensures b.Some? <==> topic.Some? && topic.value != ""
    ensures b.Some? ==> b.value.text == topic.value && b.value.classes == TopicColor(topic.value)
  {
    if topic.Some? && topic.value != "" then Some(Badge(topic.value, TopicColor(topic.value))) else None
  }

  function CardFor(r: SearchResult): Card {
    Card(r.id, r.title, r.summary, r.link, BadgeFor(r.topic))
  }

  /** The list: the placeholder exactly when there are no results, and
      otherwise one card per result, in order, keyed by the result's id and
      showing its title, summary, link and topic badge. */
  function Render(results: seq<SearchResult>): (v: View)
    ensures v.NoResults? <==> results == []
    ensures v.Cards? ==> |v.cards| == |results|
    ensures v.Cards? ==> forall i :: 0 <= i < |results| ==>
      v.cards[i].key == results[i].id && v.cards[i].title == results[i].title
      && v.cards[i].summary == results[i].summary && v.cards[i].link == results[i].link
      && v.cards[i].badge == BadgeFor(results[i].topic)
  {
    if results == [] then NoResults else Cards(seq(|results|, i requires 0 <= i < |results| => CardFor(results[i])))
  }
}
