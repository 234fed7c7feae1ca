/** The tidy-tree layout of the mind-map renderer: every node gets a column
    from its depth, a fixed height and a width from its label length; the
    children of a node are stacked around the node's own centre line, each in a
    band as tall as its subtree, and then moved into place by `PositionSubtree`.

    `PositionSubtree` moves a node and its direct children only: after
    `c.y += dy` it recurses with `positionSubtree(c, c.y)`, whose delta is zero.
    The model keeps that behaviour; `Counterexample` shows its consequence. */
module Layout {
  import opened Seqs
  import opened Outline

  const NodeHeight: int := 44
  const SpacingY: int := 16
  const LevelSpacingX: int := 220

  /** A positioned node: `x` is the left edge, `y` the vertical centre. */
  datatype LayoutNode = LayoutNode(
    text: string, color: nat, x: int, y: real, width: int, height: int, children: seq<LayoutNode>)

  /** `Math.min(Math.max(len * 8 + 30, 100), 200)`. */
  function NodeWidth(len: nat): (w: int)
    ensures 100 <= w <= 200
    ensures len * 8 + 30 < 100 ==> w == 100
    ensures len * 8 + 30 > 200 ==> w == 200
    ensures 100 <= len * 8 + 30 <= 200 ==> w == len * 8 + 30
  {
    var raw := len * 8 + 30;
    var atLeast := if raw > 100 then raw else 100;
    if atLeast < 200 then atLeast else 200
  }

  /** Longer labels never get narrower boxes. */
  lemma NodeWidthMonotone(a: nat, b: nat)
    requires a <= b
    ensures NodeWidth(a) <= NodeWidth(b)
  {
  }

  /** `getSubtreeHeight(node, 44, 16)`: 44 for a leaf, else the larger of 44 and
      the children's subtree heights plus the gaps between them. */
  function SubtreeHeight(t: LayoutNode): (h: int)
    ensures h >= NodeHeight
    decreases t
  {
    if t.children == [] then NodeHeight
    else
      var stacked := Sum(Heights(t.children)) + (|t.children| - 1) * SpacingY;
      if stacked > NodeHeight then stacked else NodeHeight
  }

  /** The subtree heights of a list of siblings, in order. */
  function Heights(ts: seq<LayoutNode>): (hs: seq<int>)
    ensures |hs| == |ts|
    decreases ts
  {
    seq(|ts|, i requires 0 <= i < |ts| => SubtreeHeight(ts[i]))
  }

  /** Height of the stack of sibling bands: the bands plus a gap of 16 between neighbours. */
  function Total(hs: seq<int>): int
    requires |hs| >= 1
  {
    Sum(hs) + (|hs| - 1) * SpacingY
  }

  /** Centre of sibling `i`: the stack starts at `-Total/2`, and the band of
      sibling `i` starts after the earlier bands and their gaps. */
  function Slot(hs: seq<int>, i: nat): real
    requires i < |hs|
  {
    -(Total(hs) as real) / 2.0 + (Sum(hs[..i]) + i * SpacingY) as real + (hs[i] as real) / 2.0
  }

  /** `c.y += d`. */
  function ShiftY(t: LayoutNode, d: real): LayoutNode {
    t.(y := t.y + d)
  }

  /** What `positionSubtree(t, cy)` leaves: `t` centred at `cy`, each direct child
      moved by the same delta, everything deeper where it was. */
  function Moved(t: LayoutNode, cy: real): LayoutNode {
    t.(y := cy, children := seq(|t.children|, j requires 0 <= j < |t.children| => ShiftY(t.children[j], cy - t.y)))
  }

  /** Siblings laid out at the origin, each moved to its slot. */
  function Place(raw: seq<LayoutNode>): (placed: seq<LayoutNode>)
    ensures |placed| == |raw|
  {
    var hs := Heights(raw);
    seq(|raw|, i requires 0 <= i < |raw| => Moved(raw[i], Slot(hs, i)))
  }

  /** `computeLayout(node, depth, _)`: the layout of `node` with its own centre at 0. */
  function LayoutOf(node: OutlineNode, depth: nat): (t: LayoutNode)
    decreases node
  {
    LayoutNode(node.text, node.color, depth * LevelSpacingX, 0.0, NodeWidth(|node.text|), NodeHeight,
               Place(LayoutAll(node.children, depth + 1)))
  }

  function LayoutAll(ns: seq<OutlineNode>, depth: nat): (ts: seq<LayoutNode>)
    ensures |ts| == |ns|
    decreases ns
  {
    if ns == [] then [] else [LayoutOf(ns[0], depth)] + LayoutAll(ns[1..], depth)
  }

  lemma {:induction false} LayoutAllAt(ns: seq<OutlineNode>, depth: nat, j: nat)
    requires j < |ns|
    ensures LayoutAll(ns, depth)[j] == LayoutOf(ns[j], depth)
    decreases j
  {
    if j > 0 {
      LayoutAllAt(ns[1..], depth, j - 1);
    }
  }

  /** Repositioning a node at its own centre changes nothing. */
  lemma MovedInPlace(t: LayoutNode)
    ensures Moved(t, t.y) == t
  {
    var m := Moved(t, t.y);
    assert m.children == t.children by {
      forall j | 0 <= j < |t.children| ensures m.children[j] == t.children[j] {
        assert ShiftY(t.children[j], 0.0) == t.children[j];
      }
    }
  }

  /** `positionSubtree`: set the centre, move each direct child by the delta,
      then recurse on that child at its new centre. */
  method PositionSubtree(node: LayoutNode, centerY: real) returns (r: LayoutNode)
    ensures r == Moved(node, centerY)
    decreases node.children
  {
    var dy := centerY - node.y;
    var kids := node.children;
    for i := 0 to |kids|
      invariant |kids| == |node.children|
      invariant forall j :: 0 <= j < i ==> kids[j] == ShiftY(node.children[j], dy)
      invariant forall j :: i <= j < |kids| ==> kids[j] == node.children[j]
    {
      var c := ShiftY(kids[i], dy);
      assert c.children == node.children[i].children;
      MovedInPlace(c);
      c := PositionSubtree(c, c.y);
      kids := kids[i := c];
    }
    r := node.(y := centerY, children := kids);
  }

  /** The placement loop of `computeLayout`: measure the children's subtrees, then
      walk `currentY` down the stack, centring each child in its band. */
  method PlaceChildren(raw: seq<LayoutNode>) returns (kids: seq<LayoutNode>)
    requires |raw| > 0
    ensures kids == Place(raw)
  {
    kids := raw;
    var hs := Heights(raw);
    var total := Sum(hs) + (|kids| - 1) * SpacingY;
    var currentY: real := -(total as real) / 2.0;
    for i := 0 to |kids|
      invariant |kids| == |raw|
      invariant i < |kids| ==> currentY + (hs[i] as real) / 2.0 == Slot(hs, i)
      invariant forall j :: 0 <= j < i ==> kids[j] == Moved(raw[j], Slot(hs, j))
      invariant forall j :: i <= j < |kids| ==> kids[j] == raw[j]
    {
      var sh := hs[i];
      var placed := PositionSubtree(kids[i], currentY + (sh as real) / 2.0);
      kids := kids[i := placed];
      currentY := currentY + (sh + SpacingY) as real;
      if i + 1 < |kids| {
        SlotGap(hs, i);
      }
    }
    PlaceIs(raw, kids);
  }

  lemma PlaceIs(raw: seq<LayoutNode>, kids: seq<LayoutNode>)
    requires |kids| == |raw|
    requires forall j :: 0 <= j < |kids| ==> kids[j] == Moved(raw[j], Slot(Heights(raw), j))
    ensures kids == Place(raw)
  {
  }

  /** `computeLayout`: lay out the children one level deeper, then place them.
      The unused `index` argument of the source is dropped. */
  method ComputeLayout(node: OutlineNode, depth: nat) returns (r: LayoutNode)
    ensures r == LayoutOf(node, depth)
    decreases node
  {
    var kids: seq<LayoutNode> := [];
    for i := 0 to |node.children|
      invariant |kids| == i
      invariant forall j :: 0 <= j < i ==> kids[j] == LayoutOf(node.children[j], depth + 1)
    {
      var c := ComputeLayout(node.children[i], depth + 1);
      kids := kids + [c];
    }
    assert kids == LayoutAll(node.children, depth + 1) by {
      forall j | 0 <= j < |kids| ensures kids[j] == LayoutAll(node.children, depth + 1)[j] {
        LayoutAllAt(node.children, depth + 1, j);
      }
    }
    if |kids| > 0 {
      kids := PlaceChildren(kids);
    }
    r := LayoutNode(node.text, node.color, depth * LevelSpacingX, 0.0, NodeWidth(|node.text|), NodeHeight, kids);
  }

  // ---------------------------------------------------------------------------
  // Sibling slots

  lemma SumPrefixMono(s: seq<int>, k: nat, m: nat)
    requires forall i :: 0 <= i < |s| ==> s[i] >= 0
    requires k <= m <= |s|
    ensures Sum(s[..k]) <= Sum(s[..m])
  {
    assert s[..m][..k] == s[..k];
    SumBoundsPrefix(s[..m], k);
  }

  /** Neighbouring centres are half of both bands plus the gap apart. */
  lemma SlotGap(hs: seq<int>, i: nat)
    requires i + 1 < |hs|
    ensures Slot(hs, i + 1) - Slot(hs, i) == ((hs[i] + hs[i + 1]) as real) / 2.0 + SpacingY as real
  {
    SumPrefixStep(hs, i);
  }

  /** The first band starts at `-Total/2`. */
  lemma SlotFirst(hs: seq<int>)
    requires |hs| >= 1
    ensures Slot(hs, 0) - (hs[0] as real) / 2.0 == -(Total(hs) as real) / 2.0
  {
    assert hs[..0] == [];
  }

  /** The last band ends at `Total/2`: the stack is centred on the parent. */
  lemma SlotLast(hs: seq<int>)
    requires |hs| >= 1
    ensures Slot(hs, |hs| - 1) + (hs[|hs| - 1] as real) / 2.0 == (Total(hs) as real) / 2.0
  {
    SumPrefixStep(hs, |hs| - 1);
    assert hs[..|hs|] == hs;
  }

  /** Every band lies inside `[-Total/2, Total/2]`. */
  lemma SlotBand(hs: seq<int>, i: nat)
    requires i < |hs| && forall k :: 0 <= k < |hs| ==> hs[k] >= 0
    ensures -(Total(hs) as real) / 2.0 <= Slot(hs, i) - (hs[i] as real) / 2.0
    ensures Slot(hs, i) + (hs[i] as real) / 2.0 <= (Total(hs) as real) / 2.0
  {
    SumPrefixMono(hs, 0, i);
    assert hs[..0] == [];
    SumPrefixStep(hs, i);
    SumPrefixMono(hs, i + 1, |hs|);
    assert hs[..|hs|] == hs;
  }

  /** A later band starts at least one gap after an earlier band ends. */
  lemma BandGap(hs: seq<int>, i: nat, j: nat)
    requires i < j < |hs| && forall k :: 0 <= k < |hs| ==> hs[k] >= 0
    ensures Slot(hs, i) + (hs[i] as real) / 2.0 + SpacingY as real <= Slot(hs, j) - (hs[j] as real) / 2.0
  {
    SumPrefixStep(hs, i);
    SumPrefixMono(hs, i + 1, j);
  }

  // ---------------------------------------------------------------------------
  // Sizes and structure

  /** Every node at depth `d` sits in column `d * 220`, is 44 high and as wide as its label asks. */
  ghost predicate WellSized(t: LayoutNode, d: nat)
    decreases t
  {
    && t.x == d * LevelSpacingX && t.height == NodeHeight && t.width == NodeWidth(|t.text|)
    && forall c :: c in t.children ==> WellSized(c, d + 1)
  }

  lemma ShiftWellSized(t: LayoutNode, dy: real, d: nat)
    requires WellSized(t, d)
    ensures WellSized(ShiftY(t, dy), d)
  {
    assert ShiftY(t, dy).children == t.children;
  }

  lemma MovedWellSized(t: LayoutNode, cy: real, d: nat)
    requires WellSized(t, d)
    ensures WellSized(Moved(t, cy), d)
  {
    var m := Moved(t, cy);
    forall c | c in m.children ensures WellSized(c, d + 1) {
      var j :| 0 <= j < |m.children| && m.children[j] == c;
      assert t.children[j] in t.children;
      ShiftWellSized(t.children[j], cy - t.y, d + 1);
    }
  }

  lemma {:induction false} LayoutWellSized(node: OutlineNode, depth: nat)
    ensures WellSized(LayoutOf(node, depth), depth)
    decreases node
  {
    var t := LayoutOf(node, depth);
    var raw := LayoutAll(node.children, depth + 1);
    forall c | c in t.children ensures WellSized(c, depth + 1) {
      var j :| 0 <= j < |t.children| && t.children[j] == c;
      LayoutAllAt(node.children, depth + 1, j);
      LayoutWellSized(node.children[j], depth + 1);
      MovedWellSized(raw[j], Slot(Heights(raw), j), depth + 1);
    }
  }

  /** The outline tree a layout draws: labels, colours and shape. */
  function Strip(t: LayoutNode): OutlineNode
    decreases t
  {
    OutlineNode(t.text, t.color, StripAll(t.children))
  }

  function StripAll(ts: seq<LayoutNode>): (ns: seq<OutlineNode>)
    ensures |ns| == |ts|
    ensures forall j :: 0 <= j < |ts| ==> ns[j] == Strip(ts[j])
    decreases ts
  {
    if ts == [] then [] else [Strip(ts[0])] + StripAll(ts[1..])
  }

  lemma MovedStrip(t: LayoutNode, cy: real)
    ensures Strip(Moved(t, cy)) == Strip(t)
  {
    var m := Moved(t, cy);
    assert StripAll(m.children) == StripAll(t.children);
  }

  /** Layout keeps every label, colour and child, in order: it only adds geometry. */
  lemma {:induction false} LayoutKeepsTree(node: OutlineNode, depth: nat)
    ensures Strip(LayoutOf(node, depth)) == node
    decreases node
  {
    var t := LayoutOf(node, depth);
    var raw := LayoutAll(node.children, depth + 1);
    forall j | 0 <= j < |node.children| ensures Strip(t.children[j]) == node.children[j] {
      LayoutAllAt(node.children, depth + 1, j);
      LayoutKeepsTree(node.children[j], depth + 1);
      MovedStrip(raw[j], Slot(Heights(raw), j));
    }
    assert StripAll(t.children) == node.children;
  }

  // ---------------------------------------------------------------------------
  // Spacing that survives to the final layout

  lemma ShiftHeight(t: LayoutNode, dy: real)
    ensures SubtreeHeight(ShiftY(t, dy)) == SubtreeHeight(t)
  {
    assert ShiftY(t, dy).children == t.children;
  }

  lemma MovedHeights(t: LayoutNode, cy: real)
    ensures Heights(Moved(t, cy).children) == Heights(t.children)
  {
    var m := Moved(t, cy);
    forall j | 0 <= j < |t.children| ensures Heights(m.children)[j] == Heights(t.children)[j] {
      ShiftHeight(t.children[j], cy - t.y);
    }
  }

  lemma MovedHeight(t: LayoutNode, cy: real)
    ensures SubtreeHeight(Moved(t, cy)) == SubtreeHeight(t)
  {
    MovedHeights(t, cy);
  }

  /** At every node, consecutive children sit exactly half their two bands plus
      the gap apart. */
  ghost predicate Spaced(t: LayoutNode)
    decreases t
  {
    var hs := Heights(t.children);
    && (forall i :: 0 <= i < |t.children| - 1 ==>
          t.children[i + 1].y - t.children[i].y == ((hs[i] + hs[i + 1]) as real) / 2.0 + SpacingY as real)
    && forall c :: c in t.children ==> Spaced(c)
  }

  lemma ShiftSpaced(t: LayoutNode, d: real)
    requires Spaced(t)
    ensures Spaced(ShiftY(t, d))
  {
    assert ShiftY(t, d).children == t.children;
  }

  /** Moving a node shifts all its children by one delta, so their spacing stays. */
  lemma MovedSpaced(t: LayoutNode, cy: real)
    requires Spaced(t)
    ensures Spaced(Moved(t, cy))
  {
    var m := Moved(t, cy);
    var hs := Heights(t.children);
    MovedHeights(t, cy);
    forall i | 0 <= i < |m.children| - 1
      ensures m.children[i + 1].y - m.children[i].y == ((hs[i] + hs[i + 1]) as real) / 2.0 + SpacingY as real
    {
      assert m.children[i + 1].y - m.children[i].y == t.children[i + 1].y - t.children[i].y;
    }
    forall c | c in m.children ensures Spaced(c) {
      var j :| 0 <= j < |m.children| && m.children[j] == c;
      assert t.children[j] in t.children;
      ShiftSpaced(t.children[j], cy - t.y);
    }
  }

  lemma PlacedHeights(raw: seq<LayoutNode>)
    ensures Heights(Place(raw)) == Heights(raw)
  {
    var placed := Place(raw);
    forall j | 0 <= j < |raw| ensures Heights(placed)[j] == Heights(raw)[j] {
      MovedHeight(raw[j], Slot(Heights(raw), j));
    }
  }

  /** In the final layout every node's children keep the exact sibling spacing,
      whatever the depth, so sibling order is the outline order. */
  lemma {:induction false} LayoutSpaced(node: OutlineNode, depth: nat)
    ensures Spaced(LayoutOf(node, depth))
    decreases node
  {
    var t := LayoutOf(node, depth);
    var raw := LayoutAll(node.children, depth + 1);
    var hs := Heights(raw);
    LayoutGaps(node, depth);
    forall c | c in t.children ensures Spaced(c) {
      var j :| 0 <= j < |t.children| && t.children[j] == c;
      LayoutAllAt(node.children, depth + 1, j);
      LayoutSpaced(node.children[j], depth + 1);
      MovedSpaced(raw[j], Slot(hs, j));
    }
  }

  /** The children of a laid-out node sit at the sibling spacing. */
  lemma LayoutGaps(node: OutlineNode, depth: nat)
    ensures var t := LayoutOf(node, depth);
            var hs := Heights(t.children);
            forall i :: 0 <= i < |t.children| - 1 ==>
              t.children[i + 1].y - t.children[i].y == ((hs[i] + hs[i + 1]) as real) / 2.0 + SpacingY as real
  {
    var t := LayoutOf(node, depth);
    var raw := LayoutAll(node.children, depth + 1);
    var hs := Heights(raw);
    PlacedHeights(raw);
    forall i | 0 <= i < |t.children| - 1
      ensures t.children[i + 1].y - t.children[i].y == ((hs[i] + hs[i + 1]) as real) / 2.0 + SpacingY as real
    {
      SlotGap(hs, i);
    }
  }

  /** Consequently the boxes of any two siblings are at least one gap apart. */
  lemma {:induction false} SiblingBoxesApart(t: LayoutNode, i: nat, j: nat)
    requires Spaced(t) && i < j < |t.children|
    requires forall k :: 0 <= k < |t.children| ==> t.children[k].height == NodeHeight
    ensures t.children[i].y + (NodeHeight / 2) as real + SpacingY as real <= t.children[j].y - (NodeHeight / 2) as real
    decreases j - i
  {
    var hs := Heights(t.children);
    assert hs[j - 1] >= NodeHeight && hs[j] >= NodeHeight;
    if i < j - 1 {
      SiblingBoxesApart(t, i, j - 1);
    }
  }

  // ---------------------------------------------------------------------------
  // Whole subtrees: tidy for shallow trees only

  /** Every node box of `t` lies within the vertical band `[lo, hi]`. */
  ghost predicate Within(t: LayoutNode, lo: real, hi: real)
    decreases t
  {
    && lo <= t.y - (t.height as real) / 2.0 && t.y + (t.height as real) / 2.0 <= hi
    && forall c :: c in t.children ==> Within(c, lo, hi)
  }

  /** Every node box of `t` lies in the band of `t`'s subtree height centred on `t`'s row 0. */
  ghost predicate InOwnBand(t: LayoutNode) {
    Within(t, -HalfHeight(t), HalfHeight(t))
  }

  function HalfHeight(t: LayoutNode): real {
    (SubtreeHeight(t) as real) / 2.0
  }

  lemma OwnBandWithin(t: LayoutNode)
    requires InOwnBand(t)
    ensures Within(t, -HalfHeight(t), HalfHeight(t))
  {
  }

  /** Top and bottom of the band of sibling `i`. */
  function BandLo(hs: seq<int>, i: nat): real
    requires i < |hs|
  {
    Slot(hs, i) - (hs[i] as real) / 2.0
  }

  function BandHi(hs: seq<int>, i: nat): real
    requires i < |hs|
  {
    Slot(hs, i) + (hs[i] as real) / 2.0
  }

  lemma {:induction false} WithinWiden(t: LayoutNode, lo: real, hi: real, lo': real, hi': real)
    requires Within(t, lo, hi) && lo' <= lo && hi <= hi'
    ensures Within(t, lo', hi')
    decreases t
  {
    forall c | c in t.children ensures Within(c, lo', hi') {
      WithinWiden(c, lo, hi, lo', hi');
    }
  }

  /** `n` has at most `k` levels below it. */
  ghost predicate LevelsAtMost(n: OutlineNode, k: nat)
    decreases n
  {
    if k == 0 then n.children == [] else forall c :: c in n.children ==> LevelsAtMost(c, k - 1)
  }

  lemma LeafHeight(t: LayoutNode)
    requires t.children == []
    ensures SubtreeHeight(t) == NodeHeight
  {
  }

  /** A subtree is at least as tall as the stack of its children's bands. */
  lemma StackHeight(t: LayoutNode)
    requires t.children != []
    ensures Total(Heights(t.children)) <= SubtreeHeight(t)
  {
  }

  /** No child's subtree is taller than its parent's. */
  lemma ChildNoTaller(t: LayoutNode, j: nat)
    requires j < |t.children|
    ensures SubtreeHeight(t.children[j]) <= SubtreeHeight(t)
  {
    var hs := Heights(t.children);
    assert hs[j] == SubtreeHeight(t.children[j]);
    SumBoundsTerm(hs, j);
  }

  /** A laid-out node is centred at 0 and its children sit at their slots. */
  lemma LayoutStacked(node: OutlineNode, depth: nat)
    ensures var t := LayoutOf(node, depth);
            && t.y == 0.0 && t.height == NodeHeight && |t.children| == |node.children|
            && forall j :: 0 <= j < |t.children| ==> t.children[j].y == Slot(Heights(t.children), j)
  {
    PlacedHeights(LayoutAll(node.children, depth + 1));
  }

  /** Below a node with at most one level under it, the laid-out children are leaves. */
  lemma LayoutLeaves(node: OutlineNode, depth: nat)
    requires LevelsAtMost(node, 1)
    ensures forall g :: g in LayoutOf(node, depth).children ==> g.children == [] && g.height == NodeHeight
  {
    var t := LayoutOf(node, depth);
    var raw := LayoutAll(node.children, depth + 1);
    forall g | g in t.children ensures g.children == [] && g.height == NodeHeight {
      var j :| 0 <= j < |t.children| && t.children[j] == g;
      LayoutAllAt(node.children, depth + 1, j);
      assert node.children[j] in node.children;
    }
  }

  /** A stacked node centred at 0 whose children are leaves fits its subtree band. */
  lemma FlatBand(t: LayoutNode)
    requires t.y == 0.0 && t.height == NodeHeight
    requires forall j :: 0 <= j < |t.children| ==> t.children[j].y == Slot(Heights(t.children), j)
    requires forall g :: g in t.children ==> g.children == [] && g.height == NodeHeight
    ensures InOwnBand(t)
  {
    FlatBandChildren(t);
    WithinOf(t, -HalfHeight(t), HalfHeight(t));
  }

  lemma FlatBandChildren(t: LayoutNode)
    requires forall j :: 0 <= j < |t.children| ==> t.children[j].y == Slot(Heights(t.children), j)
    requires forall g :: g in t.children ==> g.children == [] && g.height == NodeHeight
    ensures forall g :: g in t.children ==> Within(g, -HalfHeight(t), HalfHeight(t))
  {
    forall g | g in t.children ensures Within(g, -HalfHeight(t), HalfHeight(t)) {
      var j :| 0 <= j < |t.children| && t.children[j] == g;
      FlatBandChild(t, j);
    }
  }

  lemma FlatBandChild(t: LayoutNode, j: nat)
    requires j < |t.children| && t.children[j].y == Slot(Heights(t.children), j)
    requires t.children[j].children == [] && t.children[j].height == NodeHeight
    ensures Within(t.children[j], -HalfHeight(t), HalfHeight(t))
  {
    var g := t.children[j];
    var hs := Heights(t.children);
    var total := (Total(hs) as real) / 2.0;
    StackHeight(t);
    LeafHeight(g);
    assert forall k :: 0 <= k < |hs| ==> hs[k] >= 0;
    SlotBand(hs, j);
    WithinOf(g, -total, total);
    WithinWiden(g, -total, total, -HalfHeight(t), HalfHeight(t));
  }

  lemma WithinOf(t: LayoutNode, lo: real, hi: real)
    requires lo <= t.y - (t.height as real) / 2.0 && t.y + (t.height as real) / 2.0 <= hi
    requires forall c :: c in t.children ==> Within(c, lo, hi)
    ensures Within(t, lo, hi)
  {
  }

  /** A node whose children are leaves fits its subtree band, centred on itself. */
  lemma FlatInBand(node: OutlineNode, depth: nat)
    requires LevelsAtMost(node, 1)
    ensures InOwnBand(LayoutOf(node, depth))
    ensures forall g :: g in LayoutOf(node, depth).children ==> g.children == []
  {
    LayoutStacked(node, depth);
    LayoutLeaves(node, depth);
    FlatBand(LayoutOf(node, depth));
  }

  /** Moving a node whose children are leaves moves its whole band. */
  lemma MovedBand(t: LayoutNode, cy: real, lo: real, hi: real, lo': real, hi': real)
    requires Within(t, lo, hi)
    requires forall c :: c in t.children ==> c.children == []
    requires lo' == lo + (cy - t.y) && hi' == hi + (cy - t.y)
    ensures Within(Moved(t, cy), lo', hi')
  {
    var m := Moved(t, cy);
    forall c | c in m.children ensures Within(c, lo', hi') {
      var j :| 0 <= j < |m.children| && m.children[j] == c;
      assert t.children[j] in t.children;
      assert Within(t.children[j], lo, hi);
    }
  }

  /** In a tree at most two levels deep, each child's whole subtree stays in
      the band of its slot. */
  lemma ChildInBand(node: OutlineNode, depth: nat, k: nat)
    requires LevelsAtMost(node, 2) && k < |node.children|
    ensures k < |LayoutOf(node, depth).children|
    ensures Within(LayoutOf(node, depth).children[k],
                   BandLo(Heights(LayoutOf(node, depth).children), k),
                   BandHi(Heights(LayoutOf(node, depth).children), k))
  {
    var raw := LayoutAll(node.children, depth + 1);
    var hs := Heights(raw);
    var kids := LayoutOf(node, depth).children;
    assert kids == Place(raw);
    PlacedHeights(raw);
    assert node.children[k] in node.children;
    LayoutAllAt(node.children, depth + 1, k);
    FlatInBand(node.children[k], depth + 1);
    var r := raw[k];
    assert r == LayoutOf(node.children[k], depth + 1);
    LayoutStacked(node.children[k], depth + 1);
    assert r.y == 0.0 && hs[k] == SubtreeHeight(r);
    assert BandLo(hs, k) == -HalfHeight(r) + (Slot(hs, k) - r.y);
    assert BandHi(hs, k) == HalfHeight(r) + (Slot(hs, k) - r.y);
    OwnBandWithin(r);
    assert Within(r, -HalfHeight(r), HalfHeight(r));
    assert forall c :: c in r.children ==> c.children == [];
    MovedBand(r, Slot(hs, k), -HalfHeight(r), HalfHeight(r), BandLo(hs, k), BandHi(hs, k));
    assert kids[k] == Moved(raw[k], Slot(hs, k));
  }

  /** For a tree at most two levels deep the layout is tidy: each child's whole
      subtree stays in that child's band, and the bands of different children
      are a gap apart, so no two subtrees share a row. */
  lemma TidyWhenShallow(node: OutlineNode, depth: nat, i: nat, j: nat)
    requires LevelsAtMost(node, 2) && i < j < |node.children|
    ensures j < |LayoutOf(node, depth).children|
    ensures Within(LayoutOf(node, depth).children[i],
                   BandLo(Heights(LayoutOf(node, depth).children), i),
                   BandHi(Heights(LayoutOf(node, depth).children), i))
    ensures Within(LayoutOf(node, depth).children[j],
                   BandLo(Heights(LayoutOf(node, depth).children), j),
                   BandHi(Heights(LayoutOf(node, depth).children), j))
    ensures BandHi(Heights(LayoutOf(node, depth).children), i) + SpacingY as real
            <= BandLo(Heights(LayoutOf(node, depth).children), j)
  {
    ChildInBand(node, depth, i);
    ChildInBand(node, depth, j);
    var hs := Heights(LayoutOf(node, depth).children);
    assert forall k :: 0 <= k < |hs| ==> hs[k] >= 0;
    BandGap(hs, i, j);
  }

  // ---------------------------------------------------------------------------
  // ... but not once a tree is three levels deep

  function Leaf(text: string): OutlineNode {
    OutlineNode(text, 0, [])
  }

  /** root -> {A -> B -> {C, D}, X -> Y -> Z} */
  function DeepExample(): OutlineNode {
    OutlineNode("R", 0, [
      OutlineNode("A", 0, [OutlineNode("B", 0, [Leaf("C"), Leaf("D")])]),
      OutlineNode("X", 0, [OutlineNode("Y", 0, [Leaf("Z")])])])
  }

  lemma LayoutOfLeaf(n: OutlineNode, depth: nat)
    requires n.children == []
    ensures LayoutOf(n, depth) == LayoutNode(n.text, n.color, depth * LevelSpacingX, 0.0, NodeWidth(|n.text|), NodeHeight, [])
  {
    assert LayoutAll(n.children, depth + 1) == [];
  }

  lemma LayoutAllPair(a: OutlineNode, b: OutlineNode, depth: nat)
    ensures LayoutAll([a, b], depth) == [LayoutOf(a, depth), LayoutOf(b, depth)]
  {
    assert [a, b][1..] == [b];
  }

  /** A lone child centred at 0 stays where it is. */
  lemma PlaceOne(r: LayoutNode)
    requires r.y == 0.0
    ensures Place([r]) == [r]
  {
    assert [r][..0] == [];
    MovedInPlace(r);
  }

  /** Two leaves are placed at -30 and 30. */
  lemma PlaceTwoLeaves(c: LayoutNode, d: LayoutNode)
    requires c.children == [] && d.children == []
    ensures Place([c, d]) == [Moved(c, -30.0), Moved(d, 30.0)]
  {
    var hs := Heights([c, d]);
    LeafHeight(c);
    LeafHeight(d);
    assert hs[0] == 44 && hs[1] == 44;
    assert hs == [44, 44];
    assert hs[..0] == [] && hs[..1] == [44];
    assert Sum(hs) == 88 by {
      assert hs[..|hs| - 1] == [44];
      assert [44][..0] == [];
    }
  }

  lemma BranchB()
    ensures var b := LayoutOf(OutlineNode("B", 0, [Leaf("C"), Leaf("D")]), 2);
            && b.y == 0.0 && |b.children| == 2
            && b.children[1].y == 30.0 && b.children[1].x == 3 * LevelSpacingX
            && SubtreeHeight(b) == 104
  {
    LayoutAllPair(Leaf("C"), Leaf("D"), 3);
    LayoutOfLeaf(Leaf("C"), 3);
    LayoutOfLeaf(Leaf("D"), 3);
    PlaceTwoLeaves(LayoutOf(Leaf("C"), 3), LayoutOf(Leaf("D"), 3));
    var b := LayoutOf(OutlineNode("B", 0, [Leaf("C"), Leaf("D")]), 2);
    var hs := Heights(b.children);
    assert hs == [44, 44];
    assert Sum(hs) == 88 by {
      assert hs[..|hs| - 1] == [44];
      assert [44][..0] == [];
    }
  }

  lemma BranchY()
    ensures var y := LayoutOf(OutlineNode("Y", 0, [Leaf("Z")]), 2);
            && y.y == 0.0 && |y.children| == 1
            && y.children[0].y == 0.0 && y.children[0].x == 3 * LevelSpacingX
            && SubtreeHeight(y) == 44
  {
    assert LayoutAll([Leaf("Z")], 3) == [LayoutOf(Leaf("Z"), 3)];
    LayoutOfLeaf(Leaf("Z"), 3);
    PlaceOne(LayoutOf(Leaf("Z"), 3));
    var y := LayoutOf(OutlineNode("Y", 0, [Leaf("Z")]), 2);
    assert Heights(y.children) == [44];
    assert [44][..0] == [];
  }

  /** A node with one child keeps that child's layout unchanged and its height. */
  lemma SingleChild(n: OutlineNode, depth: nat)
    requires |n.children| == 1
    ensures LayoutOf(n, depth).children == [LayoutOf(n.children[0], depth + 1)]
    ensures SubtreeHeight(LayoutOf(n, depth)) == SubtreeHeight(LayoutOf(n.children[0], depth + 1))
  {
    var c := LayoutOf(n.children[0], depth + 1);
    assert n.children[1..] == [];
    assert LayoutAll(n.children, depth + 1) == [c];
    PlaceOne(c);
    var hs := Heights([c]);
    assert hs[..|hs| - 1] == [];
  }

  /** In `DeepExample`, D (under A) and Z (under X) both end in column 660, D
      centred at 30 and Z at 0: their 44-high boxes overlap, because moving A to
      its slot left B's children behind. */
  lemma SubtreesOverlapAtDepthThree()
    ensures var l := LayoutOf(DeepExample(), 0);
            && |l.children| == 2
            && |l.children[0].children| == 1 && |l.children[0].children[0].children| == 2
            && |l.children[1].children| == 1 && |l.children[1].children[0].children| == 1
            && var d := l.children[0].children[0].children[1];
               var z := l.children[1].children[0].children[0];
               && d.x == z.x == 3 * LevelSpacingX
               && d.y == 30.0 && z.y == 0.0
               && d.y - z.y < NodeHeight as real
  {
    var bn := OutlineNode("B", 0, [Leaf("C"), Leaf("D")]);
    var yn := OutlineNode("Y", 0, [Leaf("Z")]);
    var an := OutlineNode("A", 0, [bn]);
    var xn := OutlineNode("X", 0, [yn]);
    BranchB();
    BranchY();
    SingleChild(an, 1);
    SingleChild(xn, 1);
    var a := LayoutOf(an, 1);
    var x := LayoutOf(xn, 1);
    LayoutAllPair(an, xn, 1);
    var l := LayoutOf(DeepExample(), 0);
    assert l.children == Place([a, x]);
    assert l.children[0] == Moved(a, Slot(Heights([a, x]), 0));
    assert l.children[1] == Moved(x, Slot(Heights([a, x]), 1));
  }
}
