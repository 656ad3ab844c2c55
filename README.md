# SegmentedBarSkin, modelled in Dafny

ControlsFX's `SegmentedBar` shows a list of segments as one bar. Each segment
has a value, and each segment takes a share of the bar's length proportional
to that value over the bar's `total`. The skin `SegmentedBarSkin` does three
things:

- **It rebuilds** its segment-to-node map and its child list (`buildSegments`).
  - It calls the segment view factory once per segment, in order.
  - It tags every node `segment` plus one positional class: `only-segment`,
    `first-segment`, `last-segment` or `middle-segment`.
- **It lays the nodes out** (`layoutChildren`) with one running cursor.
  - Horizontal bars run left to right from the content's left edge.
  - Vertical bars stack upward from the content's bottom edge.
  - Every node fills the cross axis.
- **It answers the six size queries** (`computePref/Min/Max{Width,Height}`).
  - The bar is as thick as its thickest child across its orientation.
  - Along its orientation it can have any length from 0 to `Double.MAX_VALUE`.

The model has five modules, one per file:

- `Maps` (`maps.dfy`): a table filled by a sequence of `put`s, where the last
  put of a key wins. It models the `HashMap` keyed by segment. The same
  fold, over a base map, models the placement record that repeated
  `resizeRelocate` calls leave.
- `Styling` (`styling.dfy`): the positional classification as a pure
  function, proved against the code's `if` chain.
- `Layout` (`layout.dfy`): the placements of one layout pass in closed form.
  Segment i is placed by `Plan`, which uses prefix sums of the extents
  `value / total * length` instead of the cursor. The module proves tiling,
  adjacency, sums and end points about `Plan`.
- `Sizing` (`sizing.dfy`): the six size queries as pure functions of the
  orientation, the children and the children's preferred sizes.
- `Skin` (`skin.dfy`): the class `SegmentedBarSkin` with the fields the
  source updates in place.
  - `segmentNodes` is the map.
  - `children` is the child list.
  - `styleClass` holds the style-class list of every node produced so far.
  - `placement` records each node's last `resizeRelocate`.
  - `BuildSegments` and `LayoutChildren` are the two loops. Their contracts
    tie the new state to `Maps.PutAll`, `BuildStyles` and `Layout.Plan`.

Nodes are handles into an arena: node `n` is the n-th node the factory
produced. The factory is modelled as producing a fresh node. Its initial
style-class list is `factoryStyle(segment)`. What the skin reads from its bar
is passed in a `Bar` value:

- the segment list;
- each segment's value (`getValue`, as the function `valueOf`);
- the total;
- the orientation;
- the factory.

Numbers are Dafny `real`, so every layout statement is exact.

## Model

| member | source | states |
|---|---|---|
| Skin.SegmentedBarSkin.constructor | controlsfx/src/main/java/impl/org/controlsfx/skin/SegmentedBarSkin.java:48-55 | A new skin is a build from the bar's segments. Its children are nodes 0..n-1, made for the segments in order. Their style lists are `BuildStyles`. No node has been placed. |
| Skin.SegmentedBarSkin.CallFactory | controlsfx/src/main/java/impl/org/controlsfx/skin/SegmentedBarSkin.java:124-128 | One factory call yields the next fresh node. That node starts with the factory's style list, and the call is logged for its segment. |
| Skin.SegmentedBarSkin.AddStyleClass | controlsfx/src/main/java/impl/org/controlsfx/skin/SegmentedBarSkin.java:132 | Adding a style class appends it to that node's list and changes no other list. |
| Skin.SegmentedBarSkin.TagSegment | controlsfx/src/main/java/impl/org/controlsfx/skin/SegmentedBarSkin.java:132-144 | The `if` chain appends exactly `AddedClasses(i, size)` to the node: `segment`, then the class of `PositionOf(i, size)`. Other nodes are untouched. |
| Skin.SegmentedBarSkin.Register | controlsfx/src/main/java/impl/org/controlsfx/skin/SegmentedBarSkin.java:129-130 | `put` overwrites the segment's entry, and the node is appended to the children. |
| Skin.SegmentedBarSkin.AddSegmentNode | controlsfx/src/main/java/impl/org/controlsfx/skin/SegmentedBarSkin.java:127-144 | One loop iteration: one fresh node, the map updated at the segment, the node appended to the children, and its style list the factory's plus `AddedClasses(i, size)`. |
| Skin.SegmentedBarSkin.BuildSegments | controlsfx/src/main/java/impl/org/controlsfx/skin/SegmentedBarSkin.java:117-145 | After a rebuild the map is exactly the puts of segment i to child i, in order (`Built`). The children are the n fresh nodes of n factory calls, made once per index in index order. No previously displayed node remains. Older nodes keep their style lists. The new nodes' lists are `BuildStyles`. |
| Skin.SegmentedBarSkin.BuiltRegistry | controlsfx/src/main/java/impl/org/controlsfx/skin/SegmentedBarSkin.java:126-130 | What the build loop leaves satisfies the object invariant: every node in the map or the children was produced by the factory. |
| Skin.SegmentedBarSkin.RegistryAfterBuild | controlsfx/src/main/java/impl/org/controlsfx/skin/SegmentedBarSkin.java:118-130 | After a build, the map's keys are exactly the current segments, so no stale segment remains. Every value is a displayed child. With distinct segments there is one entry per segment, and segment i maps to child i. |
| Skin.SegmentedBarSkin.StylesAfterBuild | controlsfx/src/main/java/impl/org/controlsfx/skin/SegmentedBarSkin.java:128-144 | After a build, child i carries the factory's classes for segment i, then `segment` and the positional class of index i. |
| Skin.SegmentedBarSkin.RepeatedSegmentShadowsNode | controlsfx/src/main/java/impl/org/controlsfx/skin/SegmentedBarSkin.java:129-162 | If segment i recurs later in the list, the node built for occurrence i stays a child but is never looked up by layout: the map keeps only the last occurrence's node. |
| Skin.SegmentedBarSkin.ResizeRelocate | controlsfx/src/main/java/impl/org/controlsfx/skin/SegmentedBarSkin.java:167-171 | `resizeRelocate` records the node's new rectangle and changes no other node's placement. |
| Skin.SegmentedBarSkin.LayoutSegment | controlsfx/src/main/java/impl/org/controlsfx/skin/SegmentedBarSkin.java:161-173 | Given the cursor in closed form before segment i, the iteration places that segment's node at `Plan[i]`. It then leaves the cursor in closed form after segment i. |
| Skin.SegmentedBarSkin.LayoutChildren | controlsfx/src/main/java/impl/org/controlsfx/skin/SegmentedBarSkin.java:151-175 | The pass leaves the old placements overridden by putting `Plan[i]` at the node of segment i, in order. It changes only placements. After a build from distinct segments, child i is placed exactly at `Plan[i]`. |
| Skin.SegmentedBarSkin.LaidOutNodesAreChildren | controlsfx/src/main/java/impl/org/controlsfx/skin/SegmentedBarSkin.java:160-162 | After a build from distinct segments, every segment is in the map and layout visits exactly the children, in order. |
| Skin.RelayoutIsIdempotent | controlsfx/src/main/java/impl/org/controlsfx/skin/SegmentedBarSkin.java:151-175 | Two layout passes on the same inputs leave the same placements. |
| Skin.BuildStyles | controlsfx/src/main/java/impl/org/controlsfx/skin/SegmentedBarSkin.java:128-144 | The style lists of the first n nodes of a build, one per node. |
| Skin.LastIndexOf | controlsfx/src/main/java/impl/org/controlsfx/skin/SegmentedBarSkin.java:129 | The last occurrence of a segment: a later position holding the same segment, with none after it. |
| Maps.PutAllKeys | controlsfx/src/main/java/impl/org/controlsfx/skin/SegmentedBarSkin.java:129 | A sequence of puts has an entry for exactly the keys put. |
| Maps.PutAllLastWins | controlsfx/src/main/java/impl/org/controlsfx/skin/SegmentedBarSkin.java:129 | A key's entry is the value of its last put. |
| Maps.PutAllDistinct | controlsfx/src/main/java/impl/org/controlsfx/skin/SegmentedBarSkin.java:129 | With distinct keys there is one entry per key, and key i maps to value i. |
| Maps.PutAllValues | controlsfx/src/main/java/impl/org/controlsfx/skin/SegmentedBarSkin.java:129 | Every entry's value is one of the values put, for that key. |
| Maps.PutAllPrefixStep | controlsfx/src/main/java/impl/org/controlsfx/skin/SegmentedBarSkin.java:160-173 | The state after i+1 puts over a base map is the state after i puts, updated at key i. |
| Styling.PositionOf | controlsfx/src/main/java/impl/org/controlsfx/skin/SegmentedBarSkin.java:134-144 | Exactly one position per index, as four iffs. `Only` iff the bar has one segment. `First` iff i = 0 of more than one. `Last` iff i = size-1 of more than one. `Middle` iff 0 < i < size-1. |
| Styling.AddedClasses | controlsfx/src/main/java/impl/org/controlsfx/skin/SegmentedBarSkin.java:132-144 | A node gets two classes: `segment`, then one of the four positional classes. |
| Styling.PositionClassInjective | controlsfx/src/main/java/impl/org/controlsfx/skin/SegmentedBarSkin.java:136-143 | Distinct positions get distinct class names, and none of them is `segment`. |
| Styling.ThreeSegments | controlsfx/src/main/java/impl/org/controlsfx/skin/SegmentedBarSkin.java:134-144 | A three-segment bar is tagged `first-segment`, `middle-segment`, `last-segment`. |
| Layout.Extents | controlsfx/src/main/java/impl/org/controlsfx/skin/SegmentedBarSkin.java:166-170 | One extent per segment. |
| Layout.Plan | controlsfx/src/main/java/impl/org/controlsfx/skin/SegmentedBarSkin.java:157-173 | One placement per segment. |
| Layout.SlotFromCursor | controlsfx/src/main/java/impl/org/controlsfx/skin/SegmentedBarSkin.java:165-172 | With the cursor equal to its closed form, the code's `resizeRelocate` arguments for segment i are exactly `Plan[i]`, in both orientations. |
| Layout.SumExtents | controlsfx/src/main/java/impl/org/controlsfx/skin/SegmentedBarSkin.java:166-170 | The extents add up to (sum of the values) / total times the length. |
| Layout.HorizontalTiling | controlsfx/src/main/java/impl/org/controlsfx/skin/SegmentedBarSkin.java:157-168 | Horizontally, the first segment starts at contentX. Every segment sits at contentY with height contentHeight and width v_i/total*contentWidth. Each starts where the previous one ends. |
| Layout.HorizontalStep | controlsfx/src/main/java/impl/org/controlsfx/skin/SegmentedBarSkin.java:167-168 | Segment i+1's left edge is segment i's right edge. |
| Layout.VerticalTiling | controlsfx/src/main/java/impl/org/controlsfx/skin/SegmentedBarSkin.java:158-172 | Vertically, the first segment's bottom edge is contentY+contentHeight. Every segment sits at contentX with width contentWidth and height v_i/total*contentHeight. Each sits directly on the previous one. |
| Layout.VerticalStep | controlsfx/src/main/java/impl/org/controlsfx/skin/SegmentedBarSkin.java:171-172 | Segment i+1's bottom edge is segment i's top edge. |
| Layout.HorizontalEnd | controlsfx/src/main/java/impl/org/controlsfx/skin/SegmentedBarSkin.java:157-168 | Segment i ends at contentX + (v_0+...+v_i)/total*contentWidth. |
| Layout.VerticalEnd | controlsfx/src/main/java/impl/org/controlsfx/skin/SegmentedBarSkin.java:158-172 | Segment i's top is contentY+contentHeight - (v_0+...+v_i)/total*contentHeight. |
| Layout.FullBarReachesEdge | controlsfx/src/main/java/impl/org/controlsfx/skin/SegmentedBarSkin.java:151-175 | When the values add up to total, the last segment ends exactly at contentX+contentWidth when horizontal, and at contentY when vertical. |
| Layout.HorizontalExample | controlsfx/src/main/java/impl/org/controlsfx/skin/SegmentedBarSkin.java:165-168 | Values 1, 1, 2 of total 4 across width 100 give widths 25, 25, 50 at x = 0, 25, 50. |
| Layout.VerticalExample | controlsfx/src/main/java/impl/org/controlsfx/skin/SegmentedBarSkin.java:169-172 | The same values up a height of 100 give heights 25, 25, 50 with tops at 75, 50, 0. |
| Sizing.MaxOver | controlsfx/src/main/java/impl/org/controlsfx/skin/SegmentedBarSkin.java:60-72 | The stream maximum bounds every element and is attained by one of them. |
| Sizing.PrefHeight | controlsfx/src/main/java/impl/org/controlsfx/skin/SegmentedBarSkin.java:58-67 | A horizontal bar with children: the largest preferred height of any child, attained by one. Vertical, or no children: 0. |
| Sizing.PrefWidth | controlsfx/src/main/java/impl/org/controlsfx/skin/SegmentedBarSkin.java:70-79 | The mirror rule: the widest child's preferred width when vertical with children, 0 otherwise. |
| Sizing.HorizontalPolicy | controlsfx/src/main/java/impl/org/controlsfx/skin/SegmentedBarSkin.java:58-115 | Horizontally, min, pref and max height are all the tallest child's preferred height, or 0 without children. The width ranges from min 0 through pref 0 to max `Double.MAX_VALUE`. |
| Sizing.VerticalPolicy | controlsfx/src/main/java/impl/org/controlsfx/skin/SegmentedBarSkin.java:58-115 | The mirror image: the width is fixed at the widest child's preferred width. The height ranges from 0 to `Double.MAX_VALUE`. |
| Sizing.SizesOrdered | controlsfx/src/main/java/impl/org/controlsfx/skin/SegmentedBarSkin.java:82-115 | On both axes and in both orientations, min <= pref <= max. |
| Sizing.PrefHeightExample | controlsfx/src/main/java/impl/org/controlsfx/skin/SegmentedBarSkin.java:58-79 | Children of preferred heights 10, 30 and 20 in a horizontal bar: preferred height 30, preferred width 0. |

## Left out

- Listener wiring (lines 44-52) is left out. The skin rebuilds whenever the segment list or the factory changes. That is change-notification plumbing, so `BuildSegments` is simply a method one calls.
- `requestLayout` (line 147) is left out: it only schedules a layout pass, which is `LayoutChildren`.
- The real JavaFX `Node`, CSS styling and rendering are left out.
  - Nodes are arena ids.
  - Style classes are a list of strings per node.
  - `resizeRelocate` is recorded in `placement`.
  - `prefHeight(-1)` and `prefWidth(-1)` are given functions from node to size.
- The factory is assumed to return a fresh node every time. The model does not cover:
  - a factory that returns `null`. The code does not check for it: line 129 puts the null into the map, which a `HashMap` accepts, and the failure comes only at line 130 (adding null to the children) or at the latest at line 132 (`getStyleClass()` on null), leaving the null entry in the map;
  - a factory that returns a node it returned before, or that has other effects.
- IEEE double rounding is left out. Arithmetic is over `real`. The code corrects no drift, so over doubles the last edge can miss the far edge by rounding, which `FullBarReachesEdge` does not capture.
- NaN and infinite segment values are left out, and so is `max` over a stream of NaNs.
- `LayoutChildren` requires `total != 0`. The code divides by the total without a guard (lines 166 and 170), and a Java division by zero gives infinities or NaN. The model does not say what those placements are.
- `LayoutChildren` requires every segment to be in the map. The code dereferences the looked-up node (line 162). A segment missing from the map, for instance after the segment list changed and before the rebuild, would throw a null-pointer exception, which the model does not cover.
- The `SegmentedBar` and `Segment` classes are not part of this model. A segment is any value with equality, and its value is `valueOf(segment)`.
- The width and height arguments and the insets of the six `compute*` methods are left out. The code ignores them.
- `Sizing.MinHeight`, `Sizing.MinWidth`, `Sizing.MaxHeight` and `Sizing.MaxWidth` carry no contract of their own. What they return is stated by `Sizing.HorizontalPolicy`, `Sizing.VerticalPolicy` and `Sizing.SizesOrdered`.
