/** What the renderer draws for a laid-out tree: the bounding box of all node
    rectangles (`getBounds`), the offset and canvas size `renderSVG` derives from
    it, one connector per parent-child edge (`renderConnections`) and one
    rounded rectangle with a label per node (`renderNodes`). Markup strings are
    not modelled; each drawn element is a record of the numbers it carries. */
module Scene {
  import opened Text
  import opened Outline
  import opened Layout

  const Padding: int := 60
  const CornerRadius: int := 10
  const MaxLabel: nat := 24
  const LabelKeep: nat := 22

  /** `{ minX, maxX, minY, maxY }`. */
  datatype Bounds = Bounds(minX: int, maxX: int, minY: real, maxY: real)

  /** The rectangle of one node: `[x, x + width] × [y - height/2, y + height/2]`. */
  function Box(t: LayoutNode): Bounds {
    Bounds(t.x, t.x + t.width, t.y - (t.height as real) / 2.0, t.y + (t.height as real) / 2.0)
  }

  function MinInt(a: int, b: int): int { if a <= b then a else b }
  function MaxInt(a: int, b: int): int { if a >= b then a else b }
  function MinReal(a: real, b: real): real { if a <= b then a else b }
  function MaxReal(a: real, b: real): real { if a >= b then a else b }

  /** The smallest box holding both boxes. */
  function Join(a: Bounds, b: Bounds): Bounds {
    Bounds(MinInt(a.minX, b.minX), MaxInt(a.maxX, b.maxX), MinReal(a.minY, b.minY), MaxReal(a.maxY, b.maxY))
  }

  /** `getBounds`: start from the node's own rectangle, then widen by each
      child's bounds in turn. */
  function GetBounds(t: LayoutNode): (r: Bounds)
    ensures r.minX <= t.x && t.x + t.width <= r.maxX
    ensures r.minY <= Box(t).minY && Box(t).maxY <= r.maxY
    decreases t
  {
    JoinChildren(Box(t), t.children)
  }

  /** Widening never shrinks the box folded into. */
  function JoinChildren(b: Bounds, cs: seq<LayoutNode>): (r: Bounds)
    ensures r.minX <= b.minX && b.maxX <= r.maxX && r.minY <= b.minY && b.maxY <= r.maxY
    decreases cs
  {
    if cs == [] then b else JoinChildren(Join(b, GetBounds(cs[0])), cs[1..])
  }

  /** All nodes of a tree in pre-order. */
  function Nodes(t: LayoutNode): (ns: seq<LayoutNode>)
    ensures |ns| >= 1 && ns[0] == t
    decreases t
  {
    [t] + NodesAll(t.children)
  }

  function NodesAll(ts: seq<LayoutNode>): seq<LayoutNode>
    decreases ts
  {
    if ts == [] then [] else Nodes(ts[0]) + NodesAll(ts[1..])
  }

  /** Reference definition: the join of the boxes of a non-empty list of nodes. */
  function BoundsOf(ns: seq<LayoutNode>): Bounds
    requires |ns| >= 1
  {
    if |ns| == 1 then Box(ns[0]) else Join(Box(ns[0]), BoundsOf(ns[1..]))
  }

  lemma JoinAssoc(a: Bounds, b: Bounds, c: Bounds)
    ensures Join(Join(a, b), c) == Join(a, Join(b, c))
  {
  }

  lemma {:induction false} BoundsOfAppend(a: seq<LayoutNode>, b: seq<LayoutNode>)
    requires |a| >= 1 && |b| >= 1
    ensures BoundsOf(a + b) == Join(BoundsOf(a), BoundsOf(b))
  {
    if |a| == 1 {
      assert (a + b)[1..] == b;
    } else {
      assert (a + b)[1..] == a[1..] + b;
      BoundsOfAppend(a[1..], b);
      JoinAssoc(Box(a[0]), BoundsOf(a[1..]), BoundsOf(b));
    }
  }

  /** Folding the children's bounds into `b` joins `b` with the boxes of every
      node under them. */
  lemma {:induction false} JoinChildrenFlat(b: Bounds, cs: seq<LayoutNode>)
    ensures NodesAll(cs) == [] ==> JoinChildren(b, cs) == b
    ensures NodesAll(cs) != [] ==> JoinChildren(b, cs) == Join(b, BoundsOf(NodesAll(cs)))
    decreases cs, 0
  {
    if cs != [] {
      GetBoundsFlat(cs[0]);
      var first := Nodes(cs[0]);
      var rest := NodesAll(cs[1..]);
      JoinChildrenFlat(Join(b, GetBounds(cs[0])), cs[1..]);
      if rest != [] {
        BoundsOfAppend(first, rest);
        JoinAssoc(b, BoundsOf(first), BoundsOf(rest));
      } else {
        assert first + rest == first;
      }
    }
  }

  /** `getBounds` is exactly the join of every node rectangle of the tree. */
  lemma {:induction false} GetBoundsFlat(t: LayoutNode)
    ensures GetBounds(t) == BoundsOf(Nodes(t))
    decreases t, 1
  {
    JoinChildrenFlat(Box(t), t.children);
    var rest := NodesAll(t.children);
    if rest != [] {
      assert ([t] + rest)[1..] == rest;
    }
  }

  /** Each bound of `BoundsOf` holds every box ... */
  lemma {:induction false} BoundsOfHolds(ns: seq<LayoutNode>, i: nat)
    requires i < |ns|
    ensures var b := BoundsOf(ns);
            && b.minX <= Box(ns[i]).minX && Box(ns[i]).maxX <= b.maxX
            && b.minY <= Box(ns[i]).minY && Box(ns[i]).maxY <= b.maxY
  {
    if i > 0 {
      BoundsOfHolds(ns[1..], i - 1);
    }
  }

  /** ... and is attained by one. */
  lemma {:induction false} BoundsOfAttained(ns: seq<LayoutNode>)
    requires |ns| >= 1
    ensures var b := BoundsOf(ns);
            && (exists i :: 0 <= i < |ns| && Box(ns[i]).minX == b.minX)
            && (exists i :: 0 <= i < |ns| && Box(ns[i]).maxX == b.maxX)
            && (exists i :: 0 <= i < |ns| && Box(ns[i]).minY == b.minY)
            && (exists i :: 0 <= i < |ns| && Box(ns[i]).maxY == b.maxY)
  {
    var b0 := Box(ns[0]);
    if |ns| == 1 {
      assert BoundsOf(ns) == b0;
    } else {
      var tail := ns[1..];
      BoundsOfAttained(tail);
      var b := BoundsOf(tail);
      forall i | 0 <= i < |tail| ensures Box(tail[i]) == Box(ns[i + 1]) {
      }
      if b.minX < Box(ns[0]).minX {
        var i :| 0 <= i < |tail| && Box(tail[i]).minX == b.minX;
        assert Box(ns[i + 1]).minX == b.minX;
      }
      if b.maxX > Box(ns[0]).maxX {
        var i :| 0 <= i < |tail| && Box(tail[i]).maxX == b.maxX;
        assert Box(ns[i + 1]).maxX == b.maxX;
      }
      if b.minY < Box(ns[0]).minY {
        var i :| 0 <= i < |tail| && Box(tail[i]).minY == b.minY;
        assert Box(ns[i + 1]).minY == b.minY;
      }
      if b.maxY > Box(ns[0]).maxY {
        var i :| 0 <= i < |tail| && Box(tail[i]).maxY == b.maxY;
        assert Box(ns[i + 1]).maxY == b.maxY;
      }
    }
  }

  /** `getBounds` holds every node rectangle of the tree, and each of its four
      sides touches some node rectangle: it is exactly their extent. */
  lemma GetBoundsExact(t: LayoutNode)
    ensures var b := GetBounds(t);
            var ns := Nodes(t);
            && (forall i :: 0 <= i < |ns| ==>
                  b.minX <= Box(ns[i]).minX && Box(ns[i]).maxX <= b.maxX
                  && b.minY <= Box(ns[i]).minY && Box(ns[i]).maxY <= b.maxY)
            && (exists i :: 0 <= i < |ns| && Box(ns[i]).minX == b.minX)
            && (exists i :: 0 <= i < |ns| && Box(ns[i]).maxX == b.maxX)
            && (exists i :: 0 <= i < |ns| && Box(ns[i]).minY == b.minY)
            && (exists i :: 0 <= i < |ns| && Box(ns[i]).maxY == b.maxY)
  {
    GetBoundsFlat(t);
    forall i | 0 <= i < |Nodes(t)| ensures
      var b := BoundsOf(Nodes(t));
      b.minX <= Box(Nodes(t)[i]).minX && Box(Nodes(t)[i]).maxX <= b.maxX
      && b.minY <= Box(Nodes(t)[i]).minY && Box(Nodes(t)[i]).maxY <= b.maxY
    {
      BoundsOfHolds(Nodes(t), i);
    }
    BoundsOfAttained(Nodes(t));
  }

  // ---------------------------------------------------------------------------
  // What is drawn

  /** A cubic connector from `(x1, y1)` to `(x2, y2)` with both control points
      at `x = cx`, stroked in the child's colour. */
  datatype Connector = Connector(x1: int, y1: real, cx: real, x2: int, y2: real, color: nat)

  /** A node's rounded rectangle and its centred label. */
  datatype Shape = Shape(rectX: int, rectY: real, width: int, height: int, radius: int, color: nat,
                         labelX: real, labelY: real, fontSize: nat, fontWeight: nat, caption: string)

  /** The canvas: its size, then the connectors, then the nodes drawn over them. */
  datatype Svg = Svg(width: int, height: real, connectors: seq<Connector>, shapes: seq<Shape>)

  /** Labels longer than 24 characters are cut to 22 and get `...`. */
  function DisplayText(s: string): (r: string)
    ensures |r| <= MaxLabel + 1
    ensures |s| <= MaxLabel ==> r == s
    ensures |s| > MaxLabel ==> |r| == MaxLabel + 1 && r[..LabelKeep] == s[..LabelKeep] && r[LabelKeep..] == "..."
  {
    if |s| > MaxLabel then s[..LabelKeep] + "..." else s
  }

  /** The connector from the right edge of `p` to the left edge of its child `c`. */
  function Edge(p: LayoutNode, c: LayoutNode, ox: int, oy: real): Connector {
    var x1 := p.x + p.width + ox;
    var x2 := c.x + ox;
    Connector(x1, p.y + oy, ((x1 + x2) as real) / 2.0, x2, c.y + oy, c.color)
  }

  /** `renderConnections`: for each child, its edge, then the child's own connectors. */
  function Connections(t: LayoutNode, ox: int, oy: real): seq<Connector>
    decreases t
  {
    ConnectionsFrom(t, t.children, ox, oy)
  }

  function ConnectionsFrom(p: LayoutNode, cs: seq<LayoutNode>, ox: int, oy: real): seq<Connector>
    decreases cs
  {
    if cs == [] then []
    else [Edge(p, cs[0], ox, oy)] + Connections(cs[0], ox, oy) + ConnectionsFrom(p, cs[1..], ox, oy)
  }

  /** The parent-child pairs of a tree, listed in pre-order of the child. */
  function Edges(t: LayoutNode): seq<(LayoutNode, LayoutNode)>
    decreases t
  {
    EdgesFrom(t, t.children)
  }

  function EdgesFrom(p: LayoutNode, cs: seq<LayoutNode>): seq<(LayoutNode, LayoutNode)>
    decreases cs
  {
    if cs == [] then [] else [(p, cs[0])] + Edges(cs[0]) + EdgesFrom(p, cs[1..])
  }

  /** One node as drawn; the node in column 0 is the root and gets the larger, bolder label. */
  function NodeShape(t: LayoutNode, ox: int, oy: real): Shape {
    var x := t.x + ox;
    var y := t.y + oy;
    var isRoot := t.x == 0;
    Shape(x, y - (t.height as real) / 2.0, t.width, t.height, CornerRadius, t.color,
          (x as real) + (t.width as real) / 2.0, y + 1.0,
          if isRoot then 15 else 13, if isRoot then 700 else 600, DisplayText(t.text))
  }

  /** `renderNodes`: the node, then its children's subtrees in order. */
  function Shapes(t: LayoutNode, ox: int, oy: real): seq<Shape>
    decreases t
  {
    [NodeShape(t, ox, oy)] + ShapesAll(t.children, ox, oy)
  }

  function ShapesAll(ts: seq<LayoutNode>, ox: int, oy: real): seq<Shape>
    decreases ts
  {
    if ts == [] then [] else Shapes(ts[0], ox, oy) + ShapesAll(ts[1..], ox, oy)
  }

  /** `renderSVG`: lay the tree out from column 0, measure it, shift everything
      so the extent starts at the padding, and size the canvas to the extent
      plus the padding on both sides. */
  function RenderSvg(root: OutlineNode): Svg {
    SvgOf(LayoutOf(root, 0))
  }

  /** The canvas for a laid-out tree. */
  function SvgOf(l: LayoutNode): Svg {
    var b := GetBounds(l);
    var ox := -b.minX + Padding;
    var oy := -b.minY + Padding as real;
    Svg(b.maxX - b.minX + 2 * Padding, b.maxY - b.minY + (2 * Padding) as real,
        Connections(l, ox, oy), Shapes(l, ox, oy))
  }

  // ---------------------------------------------------------------------------
  // Properties of the drawing

  /** One shape per node, in pre-order. */
  lemma {:induction false} ShapesFollowNodes(t: LayoutNode, ox: int, oy: real)
    ensures |Shapes(t, ox, oy)| == |Nodes(t)|
    ensures forall i :: 0 <= i < |Nodes(t)| ==> Shapes(t, ox, oy)[i] == NodeShape(Nodes(t)[i], ox, oy)
    decreases t, 1
  {
    ShapesAllFollowNodes(t.children, ox, oy);
  }

  lemma {:induction false} ShapesAllFollowNodes(ts: seq<LayoutNode>, ox: int, oy: real)
    ensures |ShapesAll(ts, ox, oy)| == |NodesAll(ts)|
    ensures forall i :: 0 <= i < |NodesAll(ts)| ==> ShapesAll(ts, ox, oy)[i] == NodeShape(NodesAll(ts)[i], ox, oy)
    decreases ts, 0
  {
    if ts != [] {
      ShapesFollowNodes(ts[0], ox, oy);
      ShapesAllFollowNodes(ts[1..], ox, oy);
    }
  }

  /** One connector per parent-child edge: one fewer than there are nodes. */
  lemma {:induction false} ConnectionCount(t: LayoutNode, ox: int, oy: real)
    ensures |Connections(t, ox, oy)| == |Nodes(t)| - 1
    decreases t, 1
  {
    ConnectionFromCount(t, t.children, ox, oy);
  }

  lemma {:induction false} ConnectionFromCount(p: LayoutNode, cs: seq<LayoutNode>, ox: int, oy: real)
    ensures |ConnectionsFrom(p, cs, ox, oy)| == |NodesAll(cs)|
    decreases cs, 0
  {
    if cs != [] {
      ConnectionCount(cs[0], ox, oy);
      ConnectionFromCount(p, cs[1..], ox, oy);
    }
  }

  /** The k-th connector is the edge of the k-th parent-child pair. */
  lemma {:induction false} ConnectionsAreEdges(t: LayoutNode, ox: int, oy: real)
    ensures |Connections(t, ox, oy)| == |Edges(t)|
    ensures forall k :: 0 <= k < |Edges(t)| ==>
      Connections(t, ox, oy)[k] == Edge(Edges(t)[k].0, Edges(t)[k].1, ox, oy)
    decreases t, 1
  {
    ConnectionsFromAreEdges(t, t.children, ox, oy);
  }

  lemma {:induction false} ConnectionsFromAreEdges(p: LayoutNode, cs: seq<LayoutNode>, ox: int, oy: real)
    ensures |ConnectionsFrom(p, cs, ox, oy)| == |EdgesFrom(p, cs)|
    ensures forall k :: 0 <= k < |EdgesFrom(p, cs)| ==>
      ConnectionsFrom(p, cs, ox, oy)[k] == Edge(EdgesFrom(p, cs)[k].0, EdgesFrom(p, cs)[k].1, ox, oy)
    decreases cs, 0
  {
    if cs != [] {
      ConnectionsAreEdges(cs[0], ox, oy);
      ConnectionsFromAreEdges(p, cs[1..], ox, oy);
      var cx := [Edge(p, cs[0], ox, oy)] + Connections(cs[0], ox, oy);
      var ex := [(p, cs[0])] + Edges(cs[0]);
      assert ConnectionsFrom(p, cs, ox, oy) == cx + ConnectionsFrom(p, cs[1..], ox, oy);
      assert EdgesFrom(p, cs) == ex + EdgesFrom(p, cs[1..]);
      assert forall k :: 0 <= k < |ex| ==> cx[k] == Edge(ex[k].0, ex[k].1, ox, oy);
    }
  }

  /** The pairs follow the nodes: pair k joins node k + 1 (in pre-order) to one
      of the earlier nodes, which has it as a child. */
  lemma {:induction false} EdgesFollowNodes(t: LayoutNode)
    ensures |Edges(t)| == |Nodes(t)| - 1
    ensures forall k :: 0 <= k < |Edges(t)| ==>
      && Edges(t)[k].1 == Nodes(t)[k + 1]
      && Edges(t)[k].1 in Edges(t)[k].0.children
      && Edges(t)[k].0 in Nodes(t)[..k + 1]
    decreases t, 1
  {
    EdgesFromFollowNodes(t, t.children);
    var ns := NodesAll(t.children);
    assert Nodes(t) == [t] + ns;
    forall k | 0 <= k < |Edges(t)|
      ensures Edges(t)[k].0 in Nodes(t)[..k + 1]
    {
      assert Nodes(t)[..k + 1] == [t] + ns[..k];
    }
  }

  lemma {:induction false} EdgesFromFollowNodes(p: LayoutNode, cs: seq<LayoutNode>)
    requires forall c :: c in cs ==> c in p.children
    ensures |EdgesFrom(p, cs)| == |NodesAll(cs)|
    ensures forall k :: 0 <= k < |EdgesFrom(p, cs)| ==>
      && EdgesFrom(p, cs)[k].1 == NodesAll(cs)[k]
      && EdgesFrom(p, cs)[k].1 in EdgesFrom(p, cs)[k].0.children
      && (EdgesFrom(p, cs)[k].0 == p || EdgesFrom(p, cs)[k].0 in NodesAll(cs)[..k])
    decreases cs, 0
  {
    if cs != [] {
      var c := cs[0];
      EdgesFollowNodes(c);
      EdgesFromFollowNodes(p, cs[1..]);
      var a: seq<(LayoutNode, LayoutNode)> := [(p, c)] + Edges(c);
      var b: seq<(LayoutNode, LayoutNode)> := EdgesFrom(p, cs[1..]);
      var na: seq<LayoutNode> := Nodes(c);
      var nb: seq<LayoutNode> := NodesAll(cs[1..]);
      var e := EdgesFrom(p, cs);
      var ns := NodesAll(cs);
      assert e == a + b;
      assert ns == na + nb;
      forall k | 0 <= k < |e|
        ensures && e[k].1 == ns[k]
                && e[k].1 in e[k].0.children
                && (e[k].0 == p || e[k].0 in ns[..k])
      {
        if k == 0 {
        } else if k < |a| {
          assert e[k] == Edges(c)[k - 1];
          assert ns[..k] == na[..k];
        } else {
          var j := k - |a|;
          assert e[k] == b[j];
          assert ns[k] == nb[j];
          assert ns[..k] == na + nb[..j];
        }
      }
    }
  }

  /** `renderConnections` draws one connector per parent-child edge, in
      pre-order of the child: from the parent's right edge at the parent's
      centre height to the child's left edge at the child's centre height,
      with both control points at the x mid-point, in the child's colour. */
  lemma ConnectorPerEdge(t: LayoutNode, ox: int, oy: real)
    ensures |Connections(t, ox, oy)| == |Edges(t)| == |Nodes(t)| - 1
    ensures forall k :: 0 <= k < |Connections(t, ox, oy)| ==>
      var p := Edges(t)[k].0;
      var c := Nodes(t)[k + 1];
      && c in p.children && p in Nodes(t)[..k + 1]
      && Connections(t, ox, oy)[k] == Edge(p, c, ox, oy)
      && Connections(t, ox, oy)[k].x1 == p.x + p.width + ox
      && Connections(t, ox, oy)[k].y1 == p.y + oy
      && Connections(t, ox, oy)[k].x2 == c.x + ox
      && Connections(t, ox, oy)[k].y2 == c.y + oy
      && Connections(t, ox, oy)[k].cx == ((p.x + p.width + c.x + 2 * ox) as real) / 2.0
      && Connections(t, ox, oy)[k].color == c.color
  {
    ConnectionsAreEdges(t, ox, oy);
    EdgesFollowNodes(t);
  }

  /** In a well-sized layout every connector runs rightwards, from a parent's
      right edge to its child's left edge at least 20 further on (a box is at
      most 200 wide, a column 220), with its control points half-way. */
  lemma {:induction false} ConnectorsRunRight(t: LayoutNode, d: nat, ox: int, oy: real)
    requires WellSized(t, d)
    ensures forall c :: c in Connections(t, ox, oy) ==>
              c.x2 - c.x1 >= LevelSpacingX - 200 && c.x1 as real < c.cx < c.x2 as real
    decreases t, 1
  {
    ConnectorsFromRunRight(t, t.children, d, ox, oy);
  }

  lemma {:induction false} ConnectorsFromRunRight(p: LayoutNode, cs: seq<LayoutNode>, d: nat, ox: int, oy: real)
    requires p.x == d * LevelSpacingX && p.width == NodeWidth(|p.text|)
    requires forall c :: c in cs ==> WellSized(c, d + 1)
    ensures forall c :: c in ConnectionsFrom(p, cs, ox, oy) ==>
              c.x2 - c.x1 >= LevelSpacingX - 200 && c.x1 as real < c.cx < c.x2 as real
    decreases cs, 0
  {
    if cs != [] {
      assert cs[0] in cs;
      ConnectorsRunRight(cs[0], d + 1, ox, oy);
      assert forall c :: c in cs[1..] ==> c in cs;
      ConnectorsFromRunRight(p, cs[1..], d, ox, oy);
    }
  }

  /** Every node of a well-sized layout rooted in column `d` is in column `d` or later. */
  lemma {:induction false} NodesFromColumn(t: LayoutNode, d: nat)
    requires WellSized(t, d)
    ensures forall n :: n in Nodes(t) ==> n.x >= d * LevelSpacingX
    ensures forall n :: n in NodesAll(t.children) ==> n.x >= (d + 1) * LevelSpacingX
    decreases t, 1
  {
    NodesAllFromColumn(t.children, d + 1);
  }

  lemma {:induction false} NodesAllFromColumn(ts: seq<LayoutNode>, d: nat)
    requires forall c :: c in ts ==> WellSized(c, d)
    ensures forall n :: n in NodesAll(ts) ==> n.x >= d * LevelSpacingX
    decreases ts, 0
  {
    if ts != [] {
      assert ts[0] in ts;
      NodesFromColumn(ts[0], d);
      assert forall c :: c in ts[1..] ==> c in ts;
      NodesAllFromColumn(ts[1..], d);
    }
  }

  /** Drawing a layout rooted in column 0, exactly the first shape, the root's,
      gets the root's label style. */
  lemma OnlyRootStyled(t: LayoutNode, ox: int, oy: real)
    requires WellSized(t, 0)
    ensures forall i :: 0 <= i < |Shapes(t, ox, oy)| ==>
              (Shapes(t, ox, oy)[i].fontSize == 15 <==> i == 0)
  {
    ShapesFollowNodes(t, ox, oy);
    NodesFromColumn(t, 0);
    var ns := Nodes(t);
    forall i | 1 <= i < |ns| ensures ns[i].x != 0 {
      assert ns[i] == NodesAll(t.children)[i - 1];
      assert ns[i] in NodesAll(t.children);
    }
  }

  /** The drawing fits its canvas: after the offset every node rectangle lies
      within the padding on all four sides, and touches the padding on each. */
  lemma SvgFits(l: LayoutNode)
    ensures var s := SvgOf(l);
            && (forall k :: 0 <= k < |s.shapes| ==>
                  && Padding <= s.shapes[k].rectX
                  && s.shapes[k].rectX + s.shapes[k].width <= s.width - Padding
                  && Padding as real <= s.shapes[k].rectY
                  && s.shapes[k].rectY + s.shapes[k].height as real <= s.height - Padding as real)
            && (exists k :: 0 <= k < |s.shapes| && s.shapes[k].rectX == Padding)
            && (exists k :: 0 <= k < |s.shapes| && s.shapes[k].rectY == Padding as real)
            && (exists k :: 0 <= k < |s.shapes| && s.shapes[k].rectX + s.shapes[k].width == s.width - Padding)
            && (exists k :: 0 <= k < |s.shapes| && s.shapes[k].rectY + s.shapes[k].height as real == s.height - Padding as real)
  {
    var b := GetBounds(l);
    var s := SvgOf(l);
    var ns := Nodes(l);
    GetBoundsExact(l);
    ShapeCount(l);
    forall k | 0 <= k < |s.shapes| ensures
      && Padding <= s.shapes[k].rectX
      && s.shapes[k].rectX + s.shapes[k].width <= s.width - Padding
      && Padding as real <= s.shapes[k].rectY
      && s.shapes[k].rectY + s.shapes[k].height as real <= s.height - Padding as real
    {
      ShapeInCanvas(l, k);
    }
    var i0 :| 0 <= i0 < |ns| && Box(ns[i0]).minX == b.minX;
    ShapeInCanvas(l, i0);
    var i1 :| 0 <= i1 < |ns| && Box(ns[i1]).minY == b.minY;
    ShapeInCanvas(l, i1);
    var i2 :| 0 <= i2 < |ns| && Box(ns[i2]).maxX == b.maxX;
    ShapeInCanvas(l, i2);
    var i3 :| 0 <= i3 < |ns| && Box(ns[i3]).maxY == b.maxY;
    ShapeInCanvas(l, i3);
  }

  lemma ShapeCount(l: LayoutNode)
    ensures |SvgOf(l).shapes| == |Nodes(l)|
  {
    var b := GetBounds(l);
    ShapesFollowNodes(l, -b.minX + Padding, -b.minY + Padding as real);
  }

  /** The shape of node `k` is its box moved by the offset. */
  lemma ShapeInCanvas(l: LayoutNode, k: nat)
    requires k < |Nodes(l)|
    ensures var s := SvgOf(l);
            var b := GetBounds(l);
            var n := Nodes(l)[k];
            && k < |s.shapes|
            && s.shapes[k].rectX == Box(n).minX - b.minX + Padding
            && s.shapes[k].rectX + s.shapes[k].width == Box(n).maxX - b.minX + Padding
            && s.shapes[k].rectY == Box(n).minY - b.minY + Padding as real
            && s.shapes[k].rectY + s.shapes[k].height as real == Box(n).maxY - b.minY + Padding as real
            && s.width == b.maxX - b.minX + 2 * Padding
            && s.height == b.maxY - b.minY + (2 * Padding) as real
  {
    var b := GetBounds(l);
    ShapesFollowNodes(l, -b.minX + Padding, -b.minY + Padding as real);
  }

  // ---------------------------------------------------------------------------
  // From outline text to drawn labels

  /** The pre-order node list of a layout carries the labels and colours of the
      tree it draws, in the same order. */
  lemma {:induction false} NodesKeys(t: LayoutNode)
    ensures |Nodes(t)| == |Preorder(Strip(t))|
    ensures forall i :: 0 <= i < |Nodes(t)| ==> (Nodes(t)[i].text, Nodes(t)[i].color) == Preorder(Strip(t))[i]
    decreases t, 1
  {
    NodesAllKeys(t.children);
  }

  lemma {:induction false} NodesAllKeys(ts: seq<LayoutNode>)
    ensures |NodesAll(ts)| == |PreorderForest(StripAll(ts))|
    ensures forall i :: 0 <= i < |NodesAll(ts)| ==>
              (NodesAll(ts)[i].text, NodesAll(ts)[i].color) == PreorderForest(StripAll(ts))[i]
    decreases ts, 0
  {
    if ts != [] {
      NodesKeys(ts[0]);
      NodesAllKeys(ts[1..]);
      assert StripAll(ts)[1..] == StripAll(ts[1..]);
    }
  }

  /** For outline text with a visible line, the canvas draws one node per visible
      line, in order: the k-th shape shows the k-th visible line trimmed (cut to
      fit) in palette colour k mod 10, and only the first, the root, is styled
      as the root. */
  lemma DrawnLabels(text: string)
    requires Lines(text) != []
    ensures var lines := Lines(text);
            var s := RenderSvg(OutlineTree(text));
            && |s.shapes| == |lines|
            && forall k :: 0 <= k < |lines| ==>
                 && s.shapes[k].caption == DisplayText(Trim(lines[k]))
                 && s.shapes[k].color == k % PaletteSize
                 && (s.shapes[k].fontSize == 15 <==> k == 0)
  {
    var lines := Lines(text);
    var root := OutlineTree(text);
    var l := LayoutOf(root, 0);
    var b := GetBounds(l);
    var ox := -b.minX + Padding;
    var oy := -b.minY + Padding as real;
    PreorderOfParse(text);
    LayoutKeepsTree(root, 0);
    NodesKeys(l);
    ShapesFollowNodes(l, ox, oy);
    LayoutWellSized(root, 0);
    OnlyRootStyled(l, ox, oy);
    var s := RenderSvg(OutlineTree(text));
    assert s.shapes == Shapes(l, ox, oy);
    forall k | 0 <= k < |lines|
      ensures s.shapes[k].caption == DisplayText(Trim(lines[k])) && s.shapes[k].color == k % PaletteSize
    {
      assert s.shapes[k] == NodeShape(Nodes(l)[k], ox, oy);
      assert (Nodes(l)[k].text, Nodes(l)[k].color) == Preorder(root)[k];
    }
  }
}
