/** The layout `positionSubtree` evidently intends: moving a node to its slot
    moves its whole subtree by the same delta, not only its direct children.
    With that one change the subtree of every child stays inside the child's
    band at every depth, so the subtrees of different siblings never share a
    row. `Layout.SubtreesOverlapAtDepthThree` shows that the layout as written
    loses this once a tree is three levels deep. */
module Tidy {
  import opened Seqs
  import opened Outline
  import opened Layout

  /** `t` and all its descendants moved down by `d`. */
  function DeepShift(t: LayoutNode, d: real): LayoutNode
    decreases t
  {
    t.(y := t.y + d, children := DeepShiftAll(t.children, d))
  }

  function DeepShiftAll(ts: seq<LayoutNode>, d: real): (r: seq<LayoutNode>)
    ensures |r| == |ts|
    decreases ts
  {
    if ts == [] then [] else [DeepShift(ts[0], d)] + DeepShiftAll(ts[1..], d)
  }

  lemma {:induction false} DeepShiftAllAt(ts: seq<LayoutNode>, d: real, j: nat)
    requires j < |ts|
    ensures DeepShiftAll(ts, d)[j] == DeepShift(ts[j], d)
    decreases j
  {
    if j > 0 {
      DeepShiftAllAt(ts[1..], d, j - 1);
    }
  }

  /** `positionSubtree` as intended: the node and everything under it move together. */
  method PositionWhole(node: LayoutNode, centerY: real) returns (r: LayoutNode)
    ensures r == DeepShift(node, centerY - node.y)
    decreases node
  {
    var dy := centerY - node.y;
    var kids := node.children;
    for i := 0 to |kids|
      invariant |kids| == |node.children|
      invariant forall j :: 0 <= j < i ==> kids[j] == DeepShift(node.children[j], dy)
      invariant forall j :: i <= j < |kids| ==> kids[j] == node.children[j]
    {
      var c := PositionWhole(kids[i], kids[i].y + dy);
      kids := kids[i := c];
    }
    forall j | 0 <= j < |kids| ensures kids[j] == DeepShiftAll(node.children, dy)[j] {
      DeepShiftAllAt(node.children, dy, j);
    }
    r := node.(y := centerY, children := kids);
  }

  /** Siblings laid out at the origin, each moved with its whole subtree to its slot. */
  function PlaceWhole(raw: seq<LayoutNode>): (placed: seq<LayoutNode>)
    ensures |placed| == |raw|
  {
    Shifted(raw, SlotOffsets(raw))
  }

  /** How far each sibling must move to reach its slot. */
  function SlotOffsets(raw: seq<LayoutNode>): (offs: seq<real>)
    ensures |offs| == |raw|
  {
    var hs := Heights(raw);
    seq(|raw|, i requires 0 <= i < |raw| => Slot(hs, i) - raw[i].y)
  }

  /** Each tree moved, whole, by its own offset. */
  function Shifted(ts: seq<LayoutNode>, offs: seq<real>): (r: seq<LayoutNode>)
    requires |offs| == |ts|
    ensures |r| == |ts|
  {
    seq(|ts|, i requires 0 <= i < |ts| => DeepShift(ts[i], offs[i]))
  }

  /** The corrected `computeLayout`. */
  function TidyLayoutOf(node: OutlineNode, depth: nat): LayoutNode
    decreases node
  {
    LayoutNode(node.text, node.color, depth * LevelSpacingX, 0.0, NodeWidth(|node.text|), NodeHeight,
               PlaceWhole(TidyAll(node.children, depth + 1)))
  }

  function TidyAll(ns: seq<OutlineNode>, depth: nat): (ts: seq<LayoutNode>)
    ensures |ts| == |ns|
    decreases ns
  {
    if ns == [] then [] else [TidyLayoutOf(ns[0], depth)] + TidyAll(ns[1..], depth)
  }

  lemma {:induction false} TidyAllAt(ns: seq<OutlineNode>, depth: nat, j: nat)
    requires j < |ns|
    ensures TidyAll(ns, depth)[j] == TidyLayoutOf(ns[j], depth)
    decreases j
  {
    if j > 0 {
      TidyAllAt(ns[1..], depth, j - 1);
    }
  }

  /** Shifting a whole subtree does not change its height. */
  lemma {:induction false} DeepShiftHeight(t: LayoutNode, d: real)
    ensures SubtreeHeight(DeepShift(t, d)) == SubtreeHeight(t)
    decreases t
  {
    var m := DeepShift(t, d);
    forall j | 0 <= j < |t.children| ensures Heights(m.children)[j] == Heights(t.children)[j] {
      DeepShiftAllAt(t.children, d, j);
      DeepShiftHeight(t.children[j], d);
    }
    assert Heights(m.children) == Heights(t.children);
  }

  lemma ShiftedHeights(ts: seq<LayoutNode>, offs: seq<real>)
    requires |offs| == |ts|
    ensures Heights(Shifted(ts, offs)) == Heights(ts)
  {
    var moved := Shifted(ts, offs);
    forall j | 0 <= j < |ts| ensures Heights(moved)[j] == Heights(ts)[j] {
      DeepShiftHeight(ts[j], offs[j]);
    }
  }

  lemma PlacedWholeHeights(raw: seq<LayoutNode>)
    ensures Heights(PlaceWhole(raw)) == Heights(raw)
  {
    ShiftedHeights(raw, SlotOffsets(raw));
  }

  /** Shifting a whole subtree shifts the band it lies in. */
  lemma {:induction false} DeepShiftWithin(t: LayoutNode, d: real, lo: real, hi: real)
    requires Within(t, lo, hi)
    ensures Within(DeepShift(t, d), lo + d, hi + d)
    decreases t
  {
    var m := DeepShift(t, d);
    forall c | c in m.children ensures Within(c, lo + d, hi + d) {
      var j :| 0 <= j < |m.children| && m.children[j] == c;
      assert t.children[j] in t.children;
      DeepShiftAllAt(t.children, d, j);
      DeepShiftWithin(t.children[j], d, lo, hi);
    }
    WithinOf(m, lo + d, hi + d);
  }

  /** A node centred at 0 whose children's subtrees lie in their bands lies in
      its own band. */
  lemma StackInBand(t: LayoutNode)
    requires t.y == 0.0 && t.height == NodeHeight
    requires forall k :: 0 <= k < |t.children| ==>
               Within(t.children[k], BandLo(Heights(t.children), k), BandHi(Heights(t.children), k))
    ensures InOwnBand(t)
  {
    BandsInStack(t);
    WithinOf(t, -HalfHeight(t), HalfHeight(t));
  }

  lemma BandsInStack(t: LayoutNode)
    requires forall k :: 0 <= k < |t.children| ==>
               Within(t.children[k], BandLo(Heights(t.children), k), BandHi(Heights(t.children), k))
    ensures forall c :: c in t.children ==> Within(c, -HalfHeight(t), HalfHeight(t))
  {
    forall k | 0 <= k < |t.children| ensures Within(t.children[k], -HalfHeight(t), HalfHeight(t)) {
      BandInStack(t, k);
    }
  }

  /** The band of a child lies inside the band of its parent's subtree. */
  lemma BandInStack(t: LayoutNode, k: nat)
    requires k < |t.children|
    requires Within(t.children[k], BandLo(Heights(t.children), k), BandHi(Heights(t.children), k))
    ensures Within(t.children[k], -HalfHeight(t), HalfHeight(t))
  {
    var hs := Heights(t.children);
    StackHeight(t);
    assert forall i :: 0 <= i < |hs| ==> hs[i] >= 0;
    SlotBand(hs, k);
    WithinWiden(t.children[k], BandLo(hs, k), BandHi(hs, k), -HalfHeight(t), HalfHeight(t));
  }

  /** A subtree in its own band, moved whole to slot `k`, lies in band `k`. */
  lemma ShiftIntoBand(r: LayoutNode, hs: seq<int>, k: nat, d: real)
    requires InOwnBand(r) && k < |hs| && hs[k] == SubtreeHeight(r) && d == Slot(hs, k) - r.y && r.y == 0.0
    ensures Within(DeepShift(r, d), BandLo(hs, k), BandHi(hs, k))
  {
    OwnBandWithin(r);
    DeepShiftWithin(r, d, -HalfHeight(r), HalfHeight(r));
  }

  /** With whole subtrees moved, every laid-out subtree lies in its own band,
      at any depth. */
  lemma {:induction false} TidyInOwnBand(node: OutlineNode, depth: nat)
    ensures InOwnBand(TidyLayoutOf(node, depth))
    ensures TidyLayoutOf(node, depth).y == 0.0
    decreases node, 1
  {
    var t := TidyLayoutOf(node, depth);
    forall k | 0 <= k < |t.children|
      ensures Within(t.children[k], BandLo(Heights(t.children), k), BandHi(Heights(t.children), k))
    {
      TidyChildInBand(node, depth, k);
    }
    StackInBand(t);
  }

  /** Each child's whole subtree lies in the band of its slot. */
  lemma {:induction false} TidyChildInBand(node: OutlineNode, depth: nat, k: nat)
    requires k < |node.children|
    ensures k < |TidyLayoutOf(node, depth).children|
    ensures Within(TidyLayoutOf(node, depth).children[k],
                   BandLo(Heights(TidyLayoutOf(node, depth).children), k),
                   BandHi(Heights(TidyLayoutOf(node, depth).children), k))
    decreases node, 0
  {
    var raw := TidyAll(node.children, depth + 1);
    var hs := Heights(raw);
    var kids := TidyLayoutOf(node, depth).children;
    assert kids == PlaceWhole(raw);
    PlacedWholeHeights(raw);
    TidyAllAt(node.children, depth + 1, k);
    var r := raw[k];
    assert node.children[k] < node;
    TidyInOwnBand(node.children[k], depth + 1);
    var d := SlotOffsets(raw)[k];
    ShiftIntoBand(r, hs, k, d);
    assert kids[k] == DeepShift(r, d);
  }

  /** The property the as-written layout only has for shallow trees, now at every
      depth: the subtrees of two siblings lie in bands a gap apart. */
  lemma SiblingSubtreesApart(node: OutlineNode, depth: nat, i: nat, j: nat)
    requires i < j < |node.children|
    ensures j < |TidyLayoutOf(node, depth).children|
    ensures Within(TidyLayoutOf(node, depth).children[i],
                   BandLo(Heights(TidyLayoutOf(node, depth).children), i),
                   BandHi(Heights(TidyLayoutOf(node, depth).children), i))
    ensures Within(TidyLayoutOf(node, depth).children[j],
                   BandLo(Heights(TidyLayoutOf(node, depth).children), j),
                   BandHi(Heights(TidyLayoutOf(node, depth).children), j))
    ensures BandHi(Heights(TidyLayoutOf(node, depth).children), i) + SpacingY as real
            <= BandLo(Heights(TidyLayoutOf(node, depth).children), j)
  {
    TidyChildInBand(node, depth, i);
    TidyChildInBand(node, depth, j);
    var hs := Heights(TidyLayoutOf(node, depth).children);
    assert forall k :: 0 <= k < |hs| ==> hs[k] >= 0;
    BandGap(hs, i, j);
  }
}
