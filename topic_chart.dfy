/** The topic bar chart: one bar cell per topic, in the order given, filled
    with the topic's colour from a palette that matches the topic badges. */
module TopicChart {
  import opened Text
  import opened JsRecord
  import opened TopicCounts
  import ResultsList

  /** Bar colours by topic, with the "Other" entry as the fallback. */
  const Palette: map<string, string> := map[
    "Human Health" := "#ef4444",
    "Microgravity" := "#a855f7",
    "Plants" := "#22c55e",
    "Cell Biology" := "#3b82f6",
    "Radiation" := "#eab308",
    "Development" := "#ec4899",
    "Metabolism" := "#f97316",
    "Other" := "#6b7280"
  ]

  const OtherFill: string := "#6b7280"
  const CellOpacity: real := 0.8

  /** The palette has a colour for exactly the topics that have badge classes. */
  lemma PaletteMatchesBadges()
    ensures Palette.Keys == ResultsList.BadgeClasses.Keys
  {
  }

  /** The fill lookup as written, `COLORS[entry.name] || COLORS["Other"]`. */
  function FillAsWritten(name: string): (v: JsValue)
    ensures name in Palette ==> v == Str(Palette[name])
    ensures name !in Palette && name !in PrototypeMembers ==> v == Str(OtherFill)
  {
    GetOr(Palette, name, "Other")
  }

  /** A topic named after an inherited object member gets that member as its
      fill from the lookup as written. */
  lemma InheritedTopicBreaksFill()
    ensures FillAsWritten("constructor") == Inherited("constructor")
    ensures FillAsWritten("constructor") != Str(OtherFill)
  {
    assert "constructor" !in Palette;
  }

  /** The fill as meant: a known topic's colour, grey for every other topic. */
  function Fill(name: string): (r: string)
    ensures name in Palette ==> r == Palette[name]
    ensures name !in Palette ==> r == OtherFill
    ensures r in Palette.Values
  {
    assert name in Palette ==> Palette[name] != "";
    OwnOr(Palette, name, "Other")
  }

  datatype BarCell = BarCell(key: string, fill: string, opacity: real)

  /** The cell key `cell-${index}`. */
  function CellKey(index: nat): string {
    "cell-" + NatToString(index)
  }

  /** The bar cells: one per topic, in order, each filled with its topic's
      colour. */
  function Cells(topics: seq<TopicCount>): (cells: seq<BarCell>)
    ensures |cells| == |topics|
    ensures forall i :: 0 <= i < |topics| ==>
      cells[i].fill == Fill(topics[i].name) && cells[i].opacity == CellOpacity
  {
    seq(|topics|, i requires 0 <= i < |topics| => BarCell(CellKey(i), Fill(topics[i].name), CellOpacity))
  }

  /** Different positions give different cell keys, so React can tell the
      cells apart even when two entries share a name. */
  lemma CellKeysDistinct(topics: seq<TopicCount>, i: nat, j: nat)
    requires i < j < |topics|
    ensures Cells(topics)[i].key != Cells(topics)[j].key
  {
    var cells := Cells(topics);
    if cells[i].key == cells[j].key {
      assert CellKey(i)[5..] == NatToString(i);
      assert CellKey(j)[5..] == NatToString(j);
      NatToStringInjective(i, j);
    }
  }
}
