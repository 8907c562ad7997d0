/** The title categoriser: a publication's topic is the first topic, in table
    order, one of whose keywords occurs in the lower-cased title, else
    "Other"; the analysis tags every row and counts the topics. */
module TopicAnalyzer {
  import opened Wrappers
  import opened Text
  import opened TopicCounts

  /** A topic and the keywords that select it, in the order they are tried. */
  datatype Rule = Rule(topic: string, keywords: seq<string>)

  const OtherTopic: string := "Other"

  /** The configured keyword table, in priority order. */
  const TopicsConfig: seq<Rule> := [
    Rule("Human Health", ["bone", "muscle", "cardiovascular", "immune", "health", "skeletal", "cardiac", "blood"]),
    Rule("Plants", ["plant", "arabidopsis", "growth", "photosynthesis", "seed", "root", "leaf"]),
    Rule("Radiation", ["radiation", "dna damage", "cosmic rays", "ionizing", "radioprotection"]),
    Rule("Microgravity", ["microgravity", "weightlessness", "gravity", "spaceflight", "simulated microgravity"]),
    Rule("Cell Biology", ["cell", "cellular", "protein", "gene", "expression", "signaling"]),
    Rule("Development", ["development", "embryo", "differentiation", "morphology"]),
    Rule("Metabolism", ["metabolism", "metabolic", "nutrient", "oxidative"])
  ]

  /** The seven configured topic names, in table order. */
  const ConfiguredTopics: seq<string> :=
    ["Human Health", "Plants", "Radiation", "Microgravity", "Cell Biology", "Development", "Metabolism"]

  /** The inner loop: does some keyword of the list occur in `text`? */
  predicate KeywordHit(text: string, keywords: seq<string>)
    decreases |keywords|
  {
    keywords != [] && (Contains(text, keywords[0]) || KeywordHit(text, keywords[1..]))
  }

  lemma {:induction false} KeywordHitMeans(text: string, keywords: seq<string>)
    ensures KeywordHit(text, keywords) <==> exists k :: k in keywords && Contains(text, k)
    decreases |keywords|
  {
    if keywords != [] {
      KeywordHitMeans(text, keywords[1..]);
      if KeywordHit(text, keywords) && !Contains(text, keywords[0]) {
        var k :| k in keywords[1..] && Contains(text, k);
        assert k in keywords;
      }
      if exists k :: k in keywords && Contains(text, k) {
        var k :| k in keywords && Contains(text, k);
        if k != keywords[0] {
          assert k in keywords[1..];
        }
      }
    }
  }

  /** The outer loop with its early return: the topic of the first rule that
      hits, else "Other". */
  function FirstMatch(rules: seq<Rule>, text: string): (r: string)
    ensures r == OtherTopic || exists i :: 0 <= i < |rules| && r == rules[i].topic && KeywordHit(text, rules[i].keywords)
    ensures (forall i :: 0 <= i < |rules| ==> !KeywordHit(text, rules[i].keywords)) ==> r == OtherTopic
    ensures forall i :: 0 <= i < |rules| && KeywordHit(text, rules[i].keywords)
                        && (forall j :: 0 <= j < i ==> !KeywordHit(text, rules[j].keywords))
                        ==> r == rules[i].topic
    decreases |rules|
  {
    if rules == [] then OtherTopic
    else if KeywordHit(text, rules[0].keywords) then rules[0].topic
    else
      var r := FirstMatch(rules[1..], text);
      assert forall i :: 0 < i < |rules| ==> rules[1..][i - 1] == rules[i];
      r
  }

  /** `categorize_publication`: match the configured table against the
      lower-cased title. */
  function CategorizePublication(title: string): (topic: string)
    ensures topic == OtherTopic
         || exists i :: 0 <= i < |TopicsConfig| && topic == TopicsConfig[i].topic && HitsTopic(title, i)
  {
    FirstMatch(TopicsConfig, Lower(title))
  }

  /** The topics of a table are pairwise different and none is "Other". */
  predicate WellFormedTable(rules: seq<Rule>) {
    && (forall i, j :: 0 <= i < j < |rules| ==> rules[i].topic != rules[j].topic)
    && (forall i :: 0 <= i < |rules| ==> rules[i].topic != OtherTopic)
  }

  lemma ConfigIsWellFormed()
    ensures WellFormedTable(TopicsConfig)
    ensures |TopicsConfig| == |ConfiguredTopics|
    ensures forall i :: 0 <= i < |TopicsConfig| ==> TopicsConfig[i].topic == ConfiguredTopics[i]
  {
  }

  /** The earliest rule that hits, given that rule `i` hits. */
  lemma FirstHit(rules: seq<Rule>, text: string, i: nat) returns (f: nat)
    requires i < |rules| && KeywordHit(text, rules[i].keywords)
    ensures f <= i && KeywordHit(text, rules[f].keywords)
    ensures forall j :: 0 <= j < f ==> !KeywordHit(text, rules[j].keywords)
  {
    f := 0;
    while !KeywordHit(text, rules[f].keywords)
      invariant f <= i
      invariant forall j :: 0 <= j < f ==> !KeywordHit(text, rules[j].keywords)
      decreases i - f
    {
      f := f + 1;
    }
  }

  /** In a well-formed table, the result is "Other" exactly when no rule hits. */
  lemma FirstMatchOther(rules: seq<Rule>, text: string)
    requires WellFormedTable(rules)
    ensures FirstMatch(rules, text) == OtherTopic
        <==> forall i :: 0 <= i < |rules| ==> !KeywordHit(text, rules[i].keywords)
  {
    if exists i :: 0 <= i < |rules| && KeywordHit(text, rules[i].keywords) {
      var i :| 0 <= i < |rules| && KeywordHit(text, rules[i].keywords);
      var f := FirstHit(rules, text, i);
      assert FirstMatch(rules, text) == rules[f].topic;
    }
  }

  /** In a well-formed table, the result is the topic of rule `i` exactly when
      rule `i` hits and no earlier rule does. */
  lemma FirstMatchTopic(rules: seq<Rule>, text: string, i: nat)
    requires WellFormedTable(rules) && i < |rules|
    ensures FirstMatch(rules, text) == rules[i].topic
        <==> KeywordHit(text, rules[i].keywords)
             && forall j :: 0 <= j < i ==> !KeywordHit(text, rules[j].keywords)
  {
    var r := FirstMatch(rules, text);
    if r == rules[i].topic {
      FirstMatchOther(rules, text);
      var k :| 0 <= k < |rules| && KeywordHit(text, rules[k].keywords);
      var f := FirstHit(rules, text, k);
      assert r == rules[f].topic;
    }
  }

  /** Some keyword of the configured topic at position `i` occurs in the lower-cased title. */
  predicate HitsTopic(title: string, i: nat)
    requires i < |TopicsConfig|
  {
    KeywordHit(Lower(title), TopicsConfig[i].keywords)
  }

  /** The category is always one of the seven configured topics or "Other". */
  lemma CategoryIsKnown(title: string)
    ensures CategorizePublication(title) in ConfiguredTopics + [OtherTopic]
  {
    ConfigIsWellFormed();
  }

  /** "Other" exactly when no configured keyword occurs in the lower-cased title. */
  lemma OtherIffNoKeyword(title: string)
    ensures CategorizePublication(title) == OtherTopic
        <==> forall i :: 0 <= i < |TopicsConfig| ==> !HitsTopic(title, i)
  {
    var rules, t := TopicsConfig, Lower(title);
    assert WellFormedTable(rules) by { ConfigIsWellFormed(); }
    FirstMatchOther(rules, t);
    assert CategorizePublication(title) == FirstMatch(rules, t);
    assert forall j :: 0 <= j < |rules| ==> (HitsTopic(title, j) <==> KeywordHit(t, rules[j].keywords));
  }

  /** First-match priority: the category is topic `i` exactly when topic `i`
      hits and no earlier topic does. */
  lemma FirstMatchPriority(title: string, i: nat)
    requires i < |TopicsConfig|
    ensures CategorizePublication(title) == TopicsConfig[i].topic
        <==> HitsTopic(title, i) && forall j :: 0 <= j < i ==> !HitsTopic(title, j)
  {
    var rules, t := TopicsConfig, Lower(title);
    assert WellFormedTable(rules) by { ConfigIsWellFormed(); }
    FirstMatchTopic(rules, t, i);
    assert CategorizePublication(title) == FirstMatch(rules, t);
    assert forall j :: 0 <= j < |rules| ==> (HitsTopic(title, j) <==> KeywordHit(t, rules[j].keywords));
  }

  /** A title mentioning both "bone" and "plant" is a Human Health title. */
  lemma BoneBeatsPlant()
    ensures CategorizePublication("Bone and Plant Growth") == "Human Health"
  {
    var t := Lower("Bone and Plant Growth");
    assert t[..4] == "bone";
    assert Contains(t, "bone");
    assert KeywordHit(t, TopicsConfig[0].keywords);
  }

  /** Categorisation ignores case. */
  lemma CaseInsensitive(title: string)
    ensures CategorizePublication(Lower(title)) == CategorizePublication(title)
  {
    LowerIdempotent(title);
  }

  /** The table without the two keywords that can never decide: every title
      containing "simulated microgravity" already contains "microgravity",
      listed before it, and every title containing "cellular" contains "cell". */
  const PrunedConfig: seq<Rule> := [
    TopicsConfig[0], TopicsConfig[1], TopicsConfig[2],
    Rule("Microgravity", ["microgravity", "weightlessness", "gravity", "spaceflight"]),
    Rule("Cell Biology", ["cell", "protein", "gene", "expression", "signaling"]),
    TopicsConfig[5], TopicsConfig[6]
  ]

  lemma DropShadowedKeyword(text: string, front: seq<string>, shadow: string, k: string, back: seq<string>)
    requires shadow in front && Contains(k, shadow)
    ensures KeywordHit(text, front + [k] + back) <==> KeywordHit(text, front + back)
  {
    var whole := front + [k] + back;
    var pruned := front + back;
    KeywordHitMeans(text, whole);
    KeywordHitMeans(text, pruned);
    if KeywordHit(text, whole) {
      var w :| w in whole && Contains(text, w);
      if w == k {
        ContainsTransitive(text, k, shadow);
        assert shadow in pruned;
      } else {
        assert w in pruned;
      }
    }
    if KeywordHit(text, pruned) {
      var w :| w in pruned && Contains(text, w);
      assert w in whole;
    }
  }

  lemma MicrogravityRuleUnchanged(t: string)
    ensures KeywordHit(t, TopicsConfig[3].keywords) <==> KeywordHit(t, PrunedConfig[3].keywords)
  {
    var front := ["microgravity", "weightlessness", "gravity", "spaceflight"];
    ContainsAt("simulated microgravity", "microgravity", 10);
    DropShadowedKeyword(t, front, "microgravity", "simulated microgravity", []);
    assert front + ["simulated microgravity"] + [] == TopicsConfig[3].keywords;
    assert front + [] == PrunedConfig[3].keywords;
  }

  lemma CellRuleUnchanged(t: string)
    ensures KeywordHit(t, TopicsConfig[4].keywords) <==> KeywordHit(t, PrunedConfig[4].keywords)
  {
    var back := ["protein", "gene", "expression", "signaling"];
    ContainsAt("cellular", "cell", 0);
    DropShadowedKeyword(t, ["cell"], "cell", "cellular", back);
    assert ["cell"] + ["cellular"] + back == TopicsConfig[4].keywords;
    assert ["cell"] + back == PrunedConfig[4].keywords;
  }

  /** "simulated microgravity" and "cellular" never change a category. */
  lemma ShadowedKeywordsNeverDecide(title: string)
    ensures CategorizePublication(title) == FirstMatch(PrunedConfig, Lower(title))
  {
    var t := Lower(title);
    RulesAgree(t);
    SameHits(TopicsConfig, PrunedConfig, t);
  }

  /** The two tables name the same topics in the same order, and each rule
      of one hits exactly when the same rule of the other does. */
  lemma RulesAgree(t: string)
    ensures |TopicsConfig| == |PrunedConfig|
    ensures forall i :: 0 <= i < |TopicsConfig| ==> TopicsConfig[i].topic == PrunedConfig[i].topic
    ensures forall i :: 0 <= i < |TopicsConfig| ==>
      (KeywordHit(t, TopicsConfig[i].keywords) <==> KeywordHit(t, PrunedConfig[i].keywords))
  {
    forall i | 0 <= i < |TopicsConfig|
      ensures TopicsConfig[i].topic == PrunedConfig[i].topic
      ensures KeywordHit(t, TopicsConfig[i].keywords) <==> KeywordHit(t, PrunedConfig[i].keywords)
    {
      if i == 3 {
        MicrogravityRuleUnchanged(t);
      } else if i == 4 {
        CellRuleUnchanged(t);
      } else {
        assert TopicsConfig[i] == PrunedConfig[i];
      }
    }
  }

  lemma {:induction false} SameHits(a: seq<Rule>, b: seq<Rule>, text: string)
    requires |a| == |b|
    requires forall i :: 0 <= i < |a| ==> a[i].topic == b[i].topic
    requires forall i :: 0 <= i < |a| ==> (KeywordHit(text, a[i].keywords) <==> KeywordHit(text, b[i].keywords))
    ensures FirstMatch(a, text) == FirstMatch(b, text)
    decreases |a|
  {
    if a != [] {
      SameHits(a[1..], b[1..], text);
    }
  }

  // ---------------------------------------------------------------------
  // analyze_csv
  // ---------------------------------------------------------------------

  /** The Topic column added to the table, and the topic distribution. */
  datatype Analysis = Analysis(topics: seq<string>, topicsList: seq<TopicCount>)

  /** `analyze_csv` on the Title column (None is a missing cell): every row is
      tagged with its title's category, then the tags are counted. A missing
      title makes the source raise, modelled as None. */
  function AnalyzeCsv(titles: seq<Option<string>>): (r: Option<Analysis>)
    ensures r.Some? <==> forall i :: 0 <= i < |titles| ==> titles[i].Some?
    ensures r.Some? ==> |r.value.topics| == |titles|
    ensures r.Some? ==> forall i :: 0 <= i < |titles| ==>
              r.value.topics[i] == CategorizePublication(titles[i].value)
  {
    if exists i :: 0 <= i < |titles| && titles[i].None? then None
    else
      var topics := seq(|titles|, i requires 0 <= i < |titles| => CategorizePublication(titles[i].value));
      Some(Analysis(topics, ValueCounts(topics)))
  }

  /** The distribution names only known topics, once each, with counts of at
      least 1 that add up to the number of rows, ordered by non-increasing
      count. */
  lemma AnalyzeCsvDistribution(titles: seq<Option<string>>)
    requires forall i :: 0 <= i < |titles| ==> titles[i].Some?
    ensures var a := AnalyzeCsv(titles).value;
      && DistinctNames(a.topicsList)
      && (forall i :: 0 <= i < |a.topicsList| ==> a.topicsList[i].name in ConfiguredTopics + [OtherTopic])
      && (forall i :: 0 <= i < |a.topicsList| ==> a.topicsList[i].count == Occurrences(a.topics, a.topicsList[i].name) >= 1)
      && Total(a.topicsList) == |titles|
      && ByCountDescending(a.topicsList)
  {
    var a := AnalyzeCsv(titles).value;
    ValueCountsSpec(a.topics);
    forall i | 0 <= i < |a.topicsList|
      ensures a.topicsList[i].name in ConfiguredTopics + [OtherTopic]
    {
      assert a.topicsList[i].name in Names(a.topicsList);
      var k :| 0 <= k < |a.topics| && a.topics[k] == a.topicsList[i].name;
      CategoryIsKnown(titles[k].value);
    }
  }
}
