/** The positional style classes `buildSegments` puts on each segment node. */
module Styling {

  /** Where a segment stands in the bar, for styling. */
  datatype Position = Only | First | Last | Middle

  /** The position of index `i` in a bar of `size` segments. A single segment
      is `Only`; otherwise index 0 is `First`, index `size - 1` is `Last` and
      every other index is `Middle`. */
  function PositionOf(i: nat, size: nat): (p: Position)
    requires i < size
    ensures p == Only <==> size == 1
    ensures p == First <==> i == 0 && size > 1
    ensures p == Last <==> i == size - 1 && size > 1
    ensures p == Middle <==> 0 < i < size - 1
  {
    if i == 0 then
      if size == 1 then Only else First
    else if i == size - 1 then Last
    else Middle
  }

  /** The style class naming a position. */
  function PositionClass(p: Position): (c: string) {
    match p
    case Only => "only-segment"
    case First => "first-segment"
    case Last => "last-segment"
    case Middle => "middle-segment"
  }

  /** The style class every segment node gets. */
  const SegmentClass: string := "segment"

  /** The four positional classes, which a segment node gets exactly one of. */
  const PositionClasses: set<string> := {"only-segment", "first-segment", "last-segment", "middle-segment"}

  /** What `buildSegments` appends to the style classes of node `i`. */
  function AddedClasses(i: nat, size: nat): (c: seq<string>)
    requires i < size
    ensures |c| == 2 && c[0] == SegmentClass && c[1] in PositionClasses
  {
    [SegmentClass, PositionClass(PositionOf(i, size))]
  }

  /** The added classes are "segment" plus exactly one positional class: the
      positional class determines the position, and "segment" is not one. */
  lemma PositionClassInjective(p: Position, q: Position)
    ensures PositionClass(p) == PositionClass(q) <==> p == q
    ensures PositionClass(p) != SegmentClass
  {
    match p
    case Only => assert PositionClass(p)[0] == 'o';
    case First => assert PositionClass(p)[0] == 'f';
    case Last => assert PositionClass(p)[0] == 'l' && PositionClass(p)[1] == 'a';
    case Middle => assert PositionClass(p)[0] == 'm';
  }

  /** A bar of three segments is styled first, middle, last. */
  lemma ThreeSegments()
    ensures [PositionOf(0, 3), PositionOf(1, 3), PositionOf(2, 3)] == [First, Middle, Last]
    ensures [PositionClass(First), PositionClass(Middle), PositionClass(Last)]
         == ["first-segment", "middle-segment", "last-segment"]
  {
  }
}
