/** The segmented bar skin: the segment-to-node registry that `buildSegments`
    rebuilds, and the layout pass `layoutChildren` that places the nodes.

    Nodes are handles into an arena: node `n` is the `n`-th node the segment
    view factory has produced, `styleClass[n]` is its style-class list, and
    `placement[n]` its last `resizeRelocate`. The factory is modelled as
    producing a fresh node whose style-class list is `factoryStyle(segment)`. */
module Skin {
  import opened Maps
  import opened Layout
  import opened Styling

  type NodeId = nat

  /** What the skin reads from its bar: the segment list, each segment's value,
      the total, the orientation and the segment view factory. */
  datatype Bar<!T> = Bar(
    segments: seq<T>,
    valueOf: T -> real,
    total: real,
    orientation: Orientation,
    factoryStyle: T -> seq<string>)
  {
    /** The segment values in segment order. */
    function Values(): (v: seq<real>)
      ensures |v| == |segments|
      ensures forall i :: 0 <= i < |segments| ==> v[i] == valueOf(segments[i])
    {
      seq(|segments|, i requires 0 <= i < |segments| => valueOf(segments[i]))
    }
  }

  /** The ids of `n` nodes created one after another, starting at `first`. */
  function FreshIds(first: nat, n: nat): (ids: seq<NodeId>)
    ensures |ids| == n
    ensures forall i :: 0 <= i < n ==> ids[i] == first + i
  {
    seq(n, i requires 0 <= i < n => first + i)
  }

  class SegmentedBarSkin<T(==)> {
    /** segment -> node, filled by `put` in segment order */
    var segmentNodes: map<T, NodeId>
    /** the displayed nodes, in order */
    var children: seq<NodeId>
    /** the style-class list of every node produced so far */
    var styleClass: seq<seq<string>>
    /** the segment each factory call was made for, in call order */
    ghost var createdFor: seq<T>
    /** the last `resizeRelocate` of each node */
    var placement: map<NodeId, Rect>

    /** Every node the skin refers to has been produced by the factory. */
    ghost predicate Valid()
      reads this
    {
      && |createdFor| == |styleClass|
      && (forall i :: 0 <= i < |children| ==> children[i] < |styleClass|)
      && (forall s :: s in segmentNodes ==> segmentNodes[s] < |styleClass|)
    }

    /** The registry is the result of a build from `segments`: one child per
        segment, in order, and the map filled by putting segment i to child i. */
    ghost predicate Built(segments: seq<T>)
      reads this
    {
      && |children| == |segments|
      && Distinct(children)
      && segmentNodes == PutAll(segments, children)
    }

    /** The node each segment of `segments` is laid out with. */
    function NodesFor(segments: seq<T>): (ns: seq<NodeId>)
      reads this
      requires forall s :: s in segments ==> s in segmentNodes
      ensures |ns| == |segments|
    {
      var m := segmentNodes;
      seq(|segments|, i requires 0 <= i < |segments| => m[segments[i]])
    }

    /** Builds the skin for `bar`, as the source's constructor does by calling
        `buildSegments`. */
    constructor (bar: Bar<T>)
      ensures Valid() && Built(bar.segments)
      ensures children == FreshIds(0, |bar.segments|)
      ensures createdFor == bar.segments
      ensures styleClass == BuildStyles(bar, |bar.segments|)
      ensures placement == map[]
    {
      segmentNodes := map[];
      children := [];
      styleClass := [];
      createdFor := [];
      placement := map[];
      new;
      BuildSegments(bar);
    }

    /** One call of the segment view factory: a fresh node for `segment`. */
    method CallFactory(bar: Bar<T>, segment: T) returns (node: NodeId)
      modifies this`styleClass, this`createdFor
      ensures node == old(|styleClass|)
      ensures styleClass == old(styleClass) + [bar.factoryStyle(segment)]
      ensures createdFor == old(createdFor) + [segment]
    {
      node := |styleClass|;
      styleClass := styleClass + [bar.factoryStyle(segment)];
      createdFor := createdFor + [segment];
    }

    /** `node.getStyleClass().add(c)`. */
    method AddStyleClass(node: NodeId, c: string)
      requires node < |styleClass|
      modifies this`styleClass
      ensures styleClass == old(styleClass)[node := old(styleClass)[node] + [c]]
    {
      styleClass := styleClass[node := styleClass[node] + [c]];
    }

    /** Tags the node of segment `i` of `size`: "segment", then its one
        positional class. */
    method TagSegment(node: NodeId, i: nat, size: nat)
      requires node < |styleClass| && i < size
      modifies this`styleClass
      ensures styleClass == old(styleClass)[node := old(styleClass)[node] + AddedClasses(i, size)]
    {
      AddStyleClass(node, "segment");
      if i == 0 {
        if size == 1 {
          AddStyleClass(node, "only-segment");
        } else {
          AddStyleClass(node, "first-segment");
        }
      } else if i == size - 1 {
        AddStyleClass(node, "last-segment");
      } else {
        AddStyleClass(node, "middle-segment");
      }
      assert styleClass[node] == old(styleClass)[node] + AddedClasses(i, size);
      assert |styleClass| == |old(styleClass)|;
      assert forall j :: 0 <= j < |styleClass| && j != node ==> styleClass[j] == old(styleClass)[j];
    }

    /** `segmentNodes.put(segment, node)` and `getChildren().add(node)`. */
    method Register(segment: T, node: NodeId)
      modifies this`segmentNodes, this`children
      ensures segmentNodes == old(segmentNodes)[segment := node]
      ensures children == old(children) + [node]
    {
      segmentNodes := segmentNodes[segment := node];
      children := children + [node];
    }

    /** The body of the build loop for segment `i` of `size`: one factory
        call, the registry and the children updated, the node tagged. */
    method AddSegmentNode(bar: Bar<T>, segment: T, i: nat, size: nat) returns (node: NodeId)
      requires i < size
      modifies this`segmentNodes, this`children, this`styleClass, this`createdFor
      ensures node == old(|styleClass|)
      ensures createdFor == old(createdFor) + [segment]
      ensures segmentNodes == old(segmentNodes)[segment := node]
      ensures children == old(children) + [node]
      ensures styleClass == old(styleClass) + [bar.factoryStyle(segment) + AddedClasses(i, size)]
    {
      node := CallFactory(bar, segment);
      Register(segment, node);
      TagSegment(node, i, size);
    }

    /** Discards the registry and the children, then, for each segment in
        order, calls the factory once, puts the node in the registry, appends it
        to the children and tags it "segment" plus its positional class. */
    method BuildSegments(bar: Bar<T>)
      requires Valid()
      modifies this`segmentNodes, this`children, this`styleClass, this`createdFor
      ensures Valid() && Built(bar.segments)
      // the factory was called once per segment, in segment order, and the
      // children are the nodes of those calls, in order
      ensures createdFor == old(createdFor) + bar.segments
      ensures children == FreshIds(old(|styleClass|), |bar.segments|)
      // older nodes keep their style classes; the new ones get the factory's
      // classes, "segment" and their positional class
      ensures styleClass == old(styleClass) + BuildStyles(bar, |bar.segments|)
      // nothing displayed before the build is displayed after it
      ensures forall n :: n in old(children) ==> n !in children
    {
      segmentNodes := map[];
      children := [];

      var segments := bar.segments;
      var size := |segments|;
      ghost var first := |styleClass|;

      var i := 0;
      while i < size
        invariant 0 <= i <= size
        invariant |createdFor| == |styleClass|
        invariant createdFor == old(createdFor) + segments[..i]
        invariant styleClass == old(styleClass) + BuildStyles(bar, i)
        invariant children == FreshIds(first, i)
        invariant segmentNodes == PutAll(segments[..i], children)
      {
        var segment := segments[i];
        PutAllSnoc(segments[..i], children, segment, first + i);
        assert segments[..i + 1] == segments[..i] + [segment];
        FreshIdsSnoc(first, i);
        BuildStylesSnoc(old(styleClass), bar, i);
        var segmentNode := AddSegmentNode(bar, segment, i, size);
        i := i + 1;
      }
      assert segments[..size] == segments;
      BuiltRegistry(segments, first);
    }

    /** What the build loop leaves behind satisfies the object invariant and
        is a build from `segments`. */
    lemma BuiltRegistry(segments: seq<T>, first: nat)
      requires |createdFor| == |styleClass| == first + |segments|
      requires children == FreshIds(first, |segments|)
      requires segmentNodes == PutAll(segments, children)
      ensures Valid() && Built(segments)
    {
      forall s | s in segmentNodes
        ensures segmentNodes[s] < |styleClass|
      {
        PutAllValues(segments, children, s);
      }
    }

    /** After a build the map holds exactly the current segments, each mapped
        to a displayed node; with distinct segments there is one entry per
        segment, and segment i maps to child i. */
    lemma RegistryAfterBuild(segments: seq<T>)
      requires Built(segments)
      ensures forall s :: s in segmentNodes <==> s in segments
      ensures forall s :: s in segmentNodes ==> segmentNodes[s] in children
      ensures Distinct(segments) ==>
        |segmentNodes| == |segments|
        && forall i :: 0 <= i < |segments| ==> segmentNodes[segments[i]] == children[i]
    {
      PutAllKeys(segments, children);
      forall s | s in segmentNodes
        ensures segmentNodes[s] in children
      {
        PutAllValues(segments, children, s);
      }
      if Distinct(segments) {
        PutAllDistinct(segments, children);
      }
    }

    /** After a build, child i carries the factory's classes of segment i,
        then "segment" and the positional class of index i. */
    lemma StylesAfterBuild(bar: Bar<T>, base: seq<seq<string>>)
      requires children == FreshIds(|base|, |bar.segments|)
      requires styleClass == base + BuildStyles(bar, |bar.segments|)
      ensures forall i :: 0 <= i < |children| ==>
        styleClass[children[i]] == bar.factoryStyle(bar.segments[i]) + AddedClasses(i, |bar.segments|)
    {
      forall i | 0 <= i < |children|
        ensures styleClass[children[i]] == bar.factoryStyle(bar.segments[i]) + AddedClasses(i, |bar.segments|)
      {
        assert styleClass[children[i]] == BuildStyles(bar, |bar.segments|)[i];
      }
    }

    /** `node.resizeRelocate(x, y, width, height)`, recorded. */
    method ResizeRelocate(node: NodeId, x: real, y: real, width: real, height: real)
      modifies this`placement
      ensures placement == old(placement)[node := Rect(x, y, width, height)]
    {
      placement := placement[node := Rect(x, y, width, height)];
    }

    /** The body of the layout loop for segment `i`: size the segment's node
        by its share, place it at the cursor of the orientation, and advance
        that cursor. */
    method LayoutSegment(bar: Bar<T>, content: Rect, i: nat, x: real, y: real) returns (x': real, y': real)
      requires bar.total != 0.0
      requires i < |bar.segments| && bar.segments[i] in segmentNodes
      requires bar.orientation == Horizontal ==> x == content.x + Sum(Extents(bar.Values(), bar.total, content.width)[..i])
      requires bar.orientation == Vertical ==>
        y == content.y + content.height - Sum(Extents(bar.Values(), bar.total, content.height)[..i])
      modifies this`placement
      ensures placement == old(placement)[segmentNodes[bar.segments[i]] := Plan(bar.Values(), bar.total, bar.orientation, content)[i]]
      ensures bar.orientation == Horizontal ==>
        x' == content.x + Sum(Extents(bar.Values(), bar.total, content.width)[..i + 1])
      ensures bar.orientation == Vertical ==>
        y' == content.y + content.height - Sum(Extents(bar.Values(), bar.total, content.height)[..i + 1])
    {
      var total := bar.total;
      var segment := bar.segments[i];
      var segmentNode := segmentNodes[segment];
      var segmentValue := bar.valueOf(segment);
      ghost var values := bar.Values();
      ghost var slot := Plan(values, total, bar.orientation, content)[i];
      assert values[i] == segmentValue;

      x', y' := x, y;
      if bar.orientation == Horizontal {
        var segmentWidth := segmentValue / total * content.width;
        SlotFromCursor(values, total, bar.orientation, content, i, x);
        assert slot == Rect(x, content.y, segmentWidth, content.height);
        ResizeRelocate(segmentNode, x, content.y, segmentWidth, content.height);
        x' := x + segmentWidth;
        SumPrefixStep(Extents(values, total, content.width), i);
      } else {
        var segmentHeight := segmentValue / total * content.height;
        SlotFromCursor(values, total, bar.orientation, content, i, y);
        assert slot == Rect(content.x, y - segmentHeight, content.width, segmentHeight);
        ResizeRelocate(segmentNode, content.x, y - segmentHeight, content.width, segmentHeight);
        y' := y - segmentHeight;
        SumPrefixStep(Extents(values, total, content.height), i);
      }
    }

    /** Walks the segments in order with a running cursor, giving each
        segment's node its share of the content area (see `Layout.Plan`). A
        node that serves several segments keeps its last placement. */
    method LayoutChildren(bar: Bar<T>, contentX: real, contentY: real, contentWidth: real, contentHeight: real)
      requires bar.total != 0.0
      requires forall s :: s in bar.segments ==> s in segmentNodes
      modifies this`placement
      ensures placement == old(placement)
        + PutAll(NodesFor(bar.segments),
                 Plan(bar.Values(), bar.total, bar.orientation, Rect(contentX, contentY, contentWidth, contentHeight)))
      ensures Built(bar.segments) && Distinct(bar.segments) ==>
        forall i :: 0 <= i < |children| ==>
          children[i] in placement
          && placement[children[i]]
             == Plan(bar.Values(), bar.total, bar.orientation, Rect(contentX, contentY, contentWidth, contentHeight))[i]
    {
      var content := Rect(contentX, contentY, contentWidth, contentHeight);
      ghost var plan := Plan(bar.Values(), bar.total, bar.orientation, content);
      ghost var nodes := NodesFor(bar.segments);

      var x := contentX;
      var y := contentY + contentHeight;
      assert Extents(bar.Values(), bar.total, contentWidth)[..0] == [];
      assert Extents(bar.Values(), bar.total, contentHeight)[..0] == [];

      var i := 0;
      while i < |bar.segments|
        invariant 0 <= i <= |bar.segments|
        invariant bar.orientation == Horizontal ==> x == contentX + Sum(Extents(bar.Values(), bar.total, contentWidth)[..i])
        invariant bar.orientation == Vertical ==>
          y == contentY + contentHeight - Sum(Extents(bar.Values(), bar.total, contentHeight)[..i])
        invariant placement == old(placement) + PutAll(nodes[..i], plan[..i])
      {
        PutAllPrefixStep(old(placement), nodes, plan, i);
        x, y := LayoutSegment(bar, content, i, x, y);
        i := i + 1;
      }
      assert nodes[..i] == nodes && plan[..i] == plan;
      if Built(bar.segments) && Distinct(bar.segments) {
        LaidOutNodesAreChildren(bar.segments);
        PutAllDistinct(nodes, plan);
      }
    }

    /** After a build from distinct segments, the layout pass visits exactly
        the children, in order. */
    lemma LaidOutNodesAreChildren(segments: seq<T>)
      requires Built(segments) && Distinct(segments)
      ensures forall s :: s in segments ==> s in segmentNodes
      ensures NodesFor(segments) == children
    {
      PutAllDistinct(segments, children);
    }

    /** With a repeated segment, the map only remembers the node built for its
        last occurrence: the layout pass places that node once per occurrence,
        and the nodes built for earlier occurrences stay displayed but are
        never placed. */
    lemma RepeatedSegmentShadowsNode(segments: seq<T>, i: nat, j: nat)
      requires Built(segments)
      requires i < j < |segments| && segments[i] == segments[j]
      ensures forall s :: s in segments ==> s in segmentNodes
      ensures children[i] !in NodesFor(segments)
    {
      PutAllKeys(segments, children);
      var ns := NodesFor(segments);
      forall k | 0 <= k < |segments|
        ensures ns[k] != children[i]
      {
        var m := LastIndexOf(segments, k);
        PutAllLastWins(segments, children, m);
        assert ns[k] == children[m];
        assert m != i by {
          assert i < j && segments[j] == segments[i];
        }
      }
    }
  }

  /** The style-class lists of the first `n` nodes a build from `bar` makes:
      the factory's own classes, then "segment" and the positional class. */
  function BuildStyles<T>(bar: Bar<T>, n: nat): (styles: seq<seq<string>>)
    requires n <= |bar.segments|
    ensures |styles| == n
  {
    seq(n, k requires 0 <= k < n => bar.factoryStyle(bar.segments[k]) + AddedClasses(k, |bar.segments|))
  }

  /** One more fresh node extends the ids by the next id. */
  lemma FreshIdsSnoc(first: nat, n: nat)
    ensures FreshIds(first, n + 1) == FreshIds(first, n) + [first + n]
  {
  }

  /** One more node of a build extends the style lists by that node's. */
  lemma BuildStylesSnoc<T>(base: seq<seq<string>>, bar: Bar<T>, n: nat)
    requires n < |bar.segments|
    ensures base + BuildStyles(bar, n + 1)
         == (base + BuildStyles(bar, n)) + [bar.factoryStyle(bar.segments[n]) + AddedClasses(n, |bar.segments|)]
  {
    assert BuildStyles(bar, n + 1)
        == BuildStyles(bar, n) + [bar.factoryStyle(bar.segments[n]) + AddedClasses(n, |bar.segments|)];
  }

  /** The last position of `s` that holds `s[k]`. */
  function LastIndexOf<X(==)>(s: seq<X>, k: nat): (m: nat)
    requires k < |s|
    ensures k <= m < |s| && s[m] == s[k] && LastOccurrence(s, m)
    decreases |s| - k
  {
    if forall j :: k < j < |s| ==> s[j] != s[k] then k
    else
      var j :| k < j < |s| && s[j] == s[k];
      LastIndexOf(s, j)
  }

  /** Laying out twice with the same inputs and no rebuild in between gives the
      same placements. */
  method RelayoutIsIdempotent<T(==)>(skin: SegmentedBarSkin<T>, bar: Bar<T>, x: real, y: real, w: real, h: real)
    returns (first: map<NodeId, Rect>, second: map<NodeId, Rect>)
    requires bar.total != 0.0
    requires forall s :: s in bar.segments ==> s in skin.segmentNodes
    modifies skin`placement
    ensures first == second
  {
    skin.LayoutChildren(bar, x, y, w, h);
    first := skin.placement;
    skin.LayoutChildren(bar, x, y, w, h);
    second := skin.placement;
  }
}
