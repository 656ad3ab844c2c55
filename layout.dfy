/** The proportional partition of a content rectangle among segments: the
    placements that `layoutChildren` issues, stated in closed form (prefix sums)
    rather than with the running cursor the skin uses. Arithmetic is over
    `real`, so the statements are exact. */
module Layout {

  datatype Orientation = Horizontal | Vertical

  /** A placement `resizeRelocate(x, y, width, height)`; also the content area. */
  datatype Rect = Rect(x: real, y: real, width: real, height: real)

  /** Sum of a sequence, accumulated from the left. */
  function Sum(s: seq<real>): (r: real)
    decreases |s|
  {
    if s == [] then 0.0 else Sum(s[..|s| - 1]) + s[|s| - 1]
  }

  /** Adding one more piece to a prefix adds its extent. */
  lemma SumPrefixStep(s: seq<real>, i: nat)
    requires i < |s|
    ensures Sum(s[..i + 1]) == Sum(s[..i]) + s[i]
  {
    assert s[..i + 1][..i] == s[..i];
  }

  /** Each segment's share of a length: `value / total * length`. */
  function Extents(values: seq<real>, total: real, length: real): (e: seq<real>)
    requires total != 0.0
    ensures |e| == |values|
  {
    seq(|values|, i requires 0 <= i < |values| => values[i] / total * length)
  }

  /** The placement of segment `i` inside `content`. Horizontally the segments
      run left to right from `content.x`; vertically they stack upward from the
      bottom edge `content.y + content.height`. The cross axis is filled. */
  function Slot(values: seq<real>, total: real, orientation: Orientation, content: Rect, i: nat): (r: Rect)
    requires total != 0.0
    requires i < |values|
  {
    match orientation
    case Horizontal =>
      var e := Extents(values, total, content.width);
      Rect(content.x + Sum(e[..i]), content.y, e[i], content.height)
    case Vertical =>
      var e := Extents(values, total, content.height);
      Rect(content.x, content.y + content.height - Sum(e[..i]) - e[i], content.width, e[i])
  }

  /** All placements of one layout pass, in segment order. */
  function Plan(values: seq<real>, total: real, orientation: Orientation, content: Rect): (p: seq<Rect>)
    requires total != 0.0
    ensures |p| == |values|
  {
    seq(|values|, i requires 0 <= i < |values| => Slot(values, total, orientation, content, i))
  }

  /** The placement of segment `i` in terms of the running cursors of the
      layout loop: the horizontal cursor `content.x + Sum(widths[..i])` and the
      vertical cursor `content.y + content.height - Sum(heights[..i])`. */
  lemma SlotFromCursor(values: seq<real>, total: real, orientation: Orientation, content: Rect, i: nat, cursor: real)
    requires total != 0.0
    requires i < |values|
    ensures orientation == Horizontal && cursor == content.x + Sum(Extents(values, total, content.width)[..i]) ==>
      Plan(values, total, orientation, content)[i]
        == Rect(cursor, content.y, values[i] / total * content.width, content.height)
    ensures orientation == Vertical && cursor == content.y + content.height - Sum(Extents(values, total, content.height)[..i]) ==>
      Plan(values, total, orientation, content)[i]
        == Rect(content.x, cursor - values[i] / total * content.height, content.width, values[i] / total * content.height)
  {
    assert Plan(values, total, orientation, content)[i] == Slot(values, total, orientation, content, i);
  }

  /** Taking a prefix of the values takes the same prefix of the extents. */
  lemma ExtentsPrefix(values: seq<real>, total: real, length: real, n: nat)
    requires total != 0.0
    requires n <= |values|
    ensures Extents(values, total, length)[..n] == Extents(values[..n], total, length)
  {
    var a, b := Extents(values, total, length)[..n], Extents(values[..n], total, length);
    forall k | 0 <= k < n
      ensures a[k] == b[k]
    {
      assert values[..n][k] == values[k];
    }
  }

  /** Dividing by `total` and scaling by `length` distributes over addition. */
  lemma ShareAdds(a: real, b: real, total: real, length: real)
    requires total != 0.0
    ensures a / total * length + b / total * length == (a + b) / total * length
  {
    calc {
      (a + b) / total * length;
      (a / total + b / total) * length;
      a / total * length + b / total * length;
    }
  }

  /** Scaling every value by the same factor scales the sum. */
  lemma {:induction false} SumExtents(values: seq<real>, total: real, length: real)
    requires total != 0.0
    ensures Sum(Extents(values, total, length)) == Sum(values) / total * length
  {
    if values != [] {
      var n := |values| - 1;
      SumExtents(values[..n], total, length);
      ExtentsPrefix(values, total, length, n);
      ShareAdds(Sum(values[..n]), values[n], total, length);
    }
  }

  /** Horizontal layout: every segment spans the content height at `content.y`,
      its width is its share of the content width, the first starts at
      `content.x`, and each starts where the previous one ends. */
  lemma HorizontalTiling(values: seq<real>, total: real, content: Rect)
    requires total != 0.0
    ensures var p := Plan(values, total, Horizontal, content);
      && (|p| > 0 ==> p[0].x == content.x)
      && (forall i :: 0 <= i < |p| ==>
            p[i].y == content.y && p[i].height == content.height
            && p[i].width == values[i] / total * content.width)
      && (forall i :: 0 <= i < |p| - 1 ==> p[i + 1].x == p[i].x + p[i].width)
  {
    var p := Plan(values, total, Horizontal, content);
    if |p| > 0 {
      assert p[0] == Slot(values, total, Horizontal, content, 0);
      assert Extents(values, total, content.width)[..0] == [];
    }
    forall i | 0 <= i < |p|
      ensures p[i].y == content.y && p[i].height == content.height
      ensures p[i].width == values[i] / total * content.width
    {
      assert p[i] == Slot(values, total, Horizontal, content, i);
    }
    forall i | 0 <= i < |p| - 1
      ensures p[i + 1].x == p[i].x + p[i].width
    {
      HorizontalStep(values, total, content, i);
    }
  }

  lemma HorizontalStep(values: seq<real>, total: real, content: Rect, i: nat)
    requires total != 0.0
    requires i + 1 < |values|
    ensures Plan(values, total, Horizontal, content)[i + 1].x
         == Plan(values, total, Horizontal, content)[i].x + Plan(values, total, Horizontal, content)[i].width
  {
    var a := Slot(values, total, Horizontal, content, i);
    var b := Slot(values, total, Horizontal, content, i + 1);
    var e := Extents(values, total, content.width);
    assert a.x == content.x + Sum(e[..i]) && a.width == e[i];
    assert b.x == content.x + Sum(e[..i + 1]);
    SumPrefixStep(e, i);
  }

  /** Vertical layout: every segment spans the content width at `content.x`,
      its height is its share of the content height, the first one's bottom
      edge is the content's bottom edge, and each sits directly on top of the
      previous one. */
  lemma VerticalTiling(values: seq<real>, total: real, content: Rect)
    requires total != 0.0
    ensures var p := Plan(values, total, Vertical, content);
      && (|p| > 0 ==> p[0].y + p[0].height == content.y + content.height)
      && (forall i :: 0 <= i < |p| ==>
            p[i].x == content.x && p[i].width == content.width
            && p[i].height == values[i] / total * content.height)
      && (forall i :: 0 <= i < |p| - 1 ==> p[i + 1].y + p[i + 1].height == p[i].y)
  {
    var p := Plan(values, total, Vertical, content);
    if |p| > 0 {
      assert p[0] == Slot(values, total, Vertical, content, 0);
      assert Extents(values, total, content.height)[..0] == [];
    }
    forall i | 0 <= i < |p|
      ensures p[i].x == content.x && p[i].width == content.width
      ensures p[i].height == values[i] / total * content.height
    {
      assert p[i] == Slot(values, total, Vertical, content, i);
    }
    forall i | 0 <= i < |p| - 1
      ensures p[i + 1].y + p[i + 1].height == p[i].y
    {
      VerticalStep(values, total, content, i);
    }
  }

  lemma VerticalStep(values: seq<real>, total: real, content: Rect, i: nat)
    requires total != 0.0
    requires i + 1 < |values|
    ensures Plan(values, total, Vertical, content)[i + 1].y + Plan(values, total, Vertical, content)[i + 1].height
         == Plan(values, total, Vertical, content)[i].y
  {
    var a := Slot(values, total, Vertical, content, i);
    var b := Slot(values, total, Vertical, content, i + 1);
    var e := Extents(values, total, content.height);
    assert a.y == content.y + content.height - Sum(e[..i]) - e[i];
    assert b.y + b.height == content.y + content.height - Sum(e[..i + 1]);
    SumPrefixStep(e, i);
  }

  /** Where the horizontal cursor stands after segment `i`: `content.x` plus
      the widths of segments 0..i, i.e. the sum of their values over `total`
      times the content width. */
  lemma HorizontalEnd(values: seq<real>, total: real, content: Rect, i: nat)
    requires total != 0.0
    requires i < |values|
    ensures var p := Plan(values, total, Horizontal, content);
      p[i].x + p[i].width == content.x + Sum(values[..i + 1]) / total * content.width
  {
    var e := Extents(values, total, content.width);
    SumPrefixStep(e, i);
    ExtentsPrefix(values, total, content.width, i + 1);
    SumExtents(values[..i + 1], total, content.width);
  }

  /** Where the vertical cursor stands after segment `i`: the bottom edge minus
      the heights of segments 0..i. */
  lemma VerticalEnd(values: seq<real>, total: real, content: Rect, i: nat)
    requires total != 0.0
    requires i < |values|
    ensures var p := Plan(values, total, Vertical, content);
      p[i].y == content.y + content.height - Sum(values[..i + 1]) / total * content.height
  {
    var e := Extents(values, total, content.height);
    SumPrefixStep(e, i);
    ExtentsPrefix(values, total, content.height, i + 1);
    SumExtents(values[..i + 1], total, content.height);
  }

  /** When the values add up to `total`, the last segment ends exactly at the
      far edge: the right edge horizontally, the top edge vertically. */
  lemma FullBarReachesEdge(values: seq<real>, total: real, content: Rect)
    requires total != 0.0
    requires values != []
    requires Sum(values) == total
    ensures var h := Plan(values, total, Horizontal, content)[|values| - 1];
      h.x + h.width == content.x + content.width
    ensures Plan(values, total, Vertical, content)[|values| - 1].y == content.y
  {
    var n := |values| - 1;
    assert values[..n + 1] == values;
    HorizontalEnd(values, total, content, n);
    VerticalEnd(values, total, content, n);
    WholeShare(Sum(values), total, content.width);
    WholeShare(Sum(values), total, content.height);
  }

  /** The share of the whole is the whole length. */
  lemma WholeShare(a: real, total: real, length: real)
    requires total != 0.0 && a == total
    ensures a / total * length == length
  {
  }

  /** Values [1, 1, 2] over a total of 4 in a 100 x 20 area: widths 25, 25, 50
      placed at x = 0, 25, 50. */
  lemma HorizontalExample()
    ensures Plan([1.0, 1.0, 2.0], 4.0, Horizontal, Rect(0.0, 0.0, 100.0, 20.0))
         == [Rect(0.0, 0.0, 25.0, 20.0), Rect(25.0, 0.0, 25.0, 20.0), Rect(50.0, 0.0, 50.0, 20.0)]
  {
    var e := Extents([1.0, 1.0, 2.0], 4.0, 100.0);
    assert e == [25.0, 25.0, 50.0];
    assert e[..1] == [25.0] && e[..2] == [25.0, 25.0];
    assert Sum(e[..1]) == 25.0;
    assert Sum(e[..2]) == 50.0;
  }

  /** The same values in a 20 x 100 area, vertically: heights 25, 25, 50 with
      top edges at y = 75, 50, 0. */
  lemma VerticalExample()
    ensures Plan([1.0, 1.0, 2.0], 4.0, Vertical, Rect(0.0, 0.0, 20.0, 100.0))
         == [Rect(0.0, 75.0, 20.0, 25.0), Rect(0.0, 50.0, 20.0, 25.0), Rect(0.0, 0.0, 20.0, 50.0)]
  {
    var e := Extents([1.0, 1.0, 2.0], 4.0, 100.0);
    assert e == [25.0, 25.0, 50.0];
    assert e[..1] == [25.0] && e[..2] == [25.0, 25.0];
    assert Sum(e[..1]) == 25.0;
    assert Sum(e[..2]) == 50.0;
  }
}
