/** The six size queries of the skin: the bar is as thick as its thickest
    child across its orientation, and fully elastic along it. Children are
    any node handles; their preferred sizes (`prefHeight(-1)`,
    `prefWidth(-1)`) are given as functions. */
module Sizing {
  import opened Layout

  /** `Double.MAX_VALUE`, exactly: (2^53 - 1) * 2^971. */
  const DoubleMaxValue: real := 179769313486231570814527423731704356798070567525844996598917476803157260780028538760589558632766878171540458953514382464234321326889464182768467546703537516986049910576551282076245490090389328944075868508455133942304583236903222948165808559332123348274797826204144723168738177180919299881250404026184124858368.0

  /** The stream maximum of `size` over the non-empty sequence `nodes`. */
  function MaxOver<N>(nodes: seq<N>, size: N -> real): (r: real)
    requires nodes != []
    ensures forall i :: 0 <= i < |nodes| ==> size(nodes[i]) <= r
    ensures exists i :: 0 <= i < |nodes| && r == size(nodes[i])
    decreases |nodes|
  {
    if |nodes| == 1 then size(nodes[0])
    else
      var rest := MaxOver(nodes[1..], size);
      assert forall i :: 1 <= i < |nodes| ==> nodes[i] == nodes[1..][i - 1];
      if size(nodes[0]) >= rest then size(nodes[0]) else rest
  }

  /** Preferred height: horizontally the largest preferred height of the
      children, 0 without children; vertically 0. */
  function PrefHeight<N>(orientation: Orientation, children: seq<N>, prefHeightOf: N -> real): (r: real)
    ensures orientation == Horizontal && children != [] ==>
      (forall i :: 0 <= i < |children| ==> prefHeightOf(children[i]) <= r)
      && (exists i :: 0 <= i < |children| && r == prefHeightOf(children[i]))
    ensures orientation == Vertical || children == [] ==> r == 0.0
  {
    if orientation == Horizontal && children != [] then MaxOver(children, prefHeightOf) else 0.0
  }

  /** Preferred width: the mirror rule, vertically the largest preferred width. */
  function PrefWidth<N>(orientation: Orientation, children: seq<N>, prefWidthOf: N -> real): (r: real)
    ensures orientation == Vertical && children != [] ==>
      (forall i :: 0 <= i < |children| ==> prefWidthOf(children[i]) <= r)
      && (exists i :: 0 <= i < |children| && r == prefWidthOf(children[i]))
    ensures orientation == Horizontal || children == [] ==> r == 0.0
  {
    if orientation == Vertical && children != [] then MaxOver(children, prefWidthOf) else 0.0
  }

  /** Minimum height: the preferred height horizontally, 0 vertically. */
  function MinHeight<N>(orientation: Orientation, children: seq<N>, prefHeightOf: N -> real): (r: real)
  {
    if orientation == Horizontal then PrefHeight(orientation, children, prefHeightOf) else 0.0
  }

  /** Minimum width: the preferred width vertically, 0 horizontally. */
  function MinWidth<N>(orientation: Orientation, children: seq<N>, prefWidthOf: N -> real): (r: real)
  {
    if orientation == Vertical then PrefWidth(orientation, children, prefWidthOf) else 0.0
  }

  /** Maximum height: the preferred height horizontally, unbounded vertically. */
  function MaxHeight<N>(orientation: Orientation, children: seq<N>, prefHeightOf: N -> real): (r: real)
  {
    if orientation == Horizontal then PrefHeight(orientation, children, prefHeightOf) else DoubleMaxValue
  }

  /** Maximum width: the preferred width vertically, unbounded horizontally. */
  function MaxWidth<N>(orientation: Orientation, children: seq<N>, prefWidthOf: N -> real): (r: real)
  {
    if orientation == Vertical then PrefWidth(orientation, children, prefWidthOf) else DoubleMaxValue
  }

  /** The sizing policy of a horizontal bar: its height is fixed at the tallest
      child's preferred height (min = pref = max), and its width ranges from 0
      to `Double.MAX_VALUE` with preferred width 0. */
  lemma HorizontalPolicy<N>(children: seq<N>, prefWidthOf: N -> real, prefHeightOf: N -> real)
    ensures var h := PrefHeight(Horizontal, children, prefHeightOf);
      && MinHeight(Horizontal, children, prefHeightOf) == h
      && MaxHeight(Horizontal, children, prefHeightOf) == h
      && (children == [] ==> h == 0.0)
      && (children != [] ==> exists i :: 0 <= i < |children| && h == prefHeightOf(children[i]))
      && (forall i :: 0 <= i < |children| ==> prefHeightOf(children[i]) <= h)
    ensures PrefWidth(Horizontal, children, prefWidthOf) == 0.0
    ensures MinWidth(Horizontal, children, prefWidthOf) == 0.0
    ensures MaxWidth(Horizontal, children, prefWidthOf) == DoubleMaxValue
  {
  }

  /** The sizing policy of a vertical bar: the mirror image. */
  lemma VerticalPolicy<N>(children: seq<N>, prefWidthOf: N -> real, prefHeightOf: N -> real)
    ensures var w := PrefWidth(Vertical, children, prefWidthOf);
      && MinWidth(Vertical, children, prefWidthOf) == w
      && MaxWidth(Vertical, children, prefWidthOf) == w
      && (children == [] ==> w == 0.0)
      && (children != [] ==> exists i :: 0 <= i < |children| && w == prefWidthOf(children[i]))
      && (forall i :: 0 <= i < |children| ==> prefWidthOf(children[i]) <= w)
    ensures PrefHeight(Vertical, children, prefHeightOf) == 0.0
    ensures MinHeight(Vertical, children, prefHeightOf) == 0.0
    ensures MaxHeight(Vertical, children, prefHeightOf) == DoubleMaxValue
  {
  }

  /** On both axes and in both orientations, min <= pref <= max. */
  lemma SizesOrdered<N>(orientation: Orientation, children: seq<N>, prefWidthOf: N -> real, prefHeightOf: N -> real)
    ensures MinHeight(orientation, children, prefHeightOf) <= PrefHeight(orientation, children, prefHeightOf)
                                                         <= MaxHeight(orientation, children, prefHeightOf)
    ensures MinWidth(orientation, children, prefWidthOf) <= PrefWidth(orientation, children, prefWidthOf)
                                                       <= MaxWidth(orientation, children, prefWidthOf)
  {
  }

  /** Three children of preferred heights 10, 30 and 20 in a horizontal bar:
      preferred height 30, preferred width 0. */
  lemma PrefHeightExample(prefWidthOf: int -> real)
    ensures PrefHeight(Horizontal, [10, 30, 20], (n: int) => n as real) == 30.0
    ensures PrefWidth(Horizontal, [10, 30, 20], prefWidthOf) == 0.0
  {
    var s: seq<int> := [10, 30, 20];
    assert s[1..] == [30, 20] && s[1..][1..] == [20];
  }
}
