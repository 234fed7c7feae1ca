/** The outline parser of the mind-map builder, as the source writes it: one
    pass over the visible lines with a stack of (node, depth) pairs seeded with
    the root at depth -1, popping every entry at least as deep as the current
    line before attaching the line under the entry left on top.

    Nodes live in an arena: a node is an index, `kids[p]` is the `children`
    array of node `p`, and `children.push` is an append to `kids[p]`. The tree
    value is assembled from the arena once the loop ends. */
module Parser {
  import opened Text
  import opened Outline

  /** Item sequences of a parse: the root first at depth -1, every other line at depth >= 0. */
  ghost predicate Rooted(items: seq<Item>) {
    |items| >= 1 && items[0].depth == -1 && forall k :: 1 <= k < |items| ==> items[k].depth >= 0
  }

  function NearestFrom(items: seq<Item>, k: nat, j: nat): (p: nat)
    requires Rooted(items) && 1 <= k < |items| && j < k
    ensures p <= j && items[p].depth < items[k].depth
    ensures forall i :: p < i <= j ==> items[i].depth >= items[k].depth
    decreases j
  {
    if items[j].depth < items[k].depth then j else NearestFrom(items, k, j - 1)
  }

  /** The node line `k` is attached under: the nearest earlier line whose depth is
      strictly smaller, which is the root when no other line qualifies. */
  function Parent(items: seq<Item>, k: nat): (p: nat)
    requires Rooted(items) && 1 <= k < |items|
    ensures p < k && items[p].depth < items[k].depth
    ensures forall i :: p < i < k ==> items[i].depth >= items[k].depth
  {
    NearestFrom(items, k, k - 1)
  }

  lemma ParentUnique(items: seq<Item>, k: nat, p: nat)
    requires Rooted(items) && 1 <= k < |items| && p < k
    requires items[p].depth < items[k].depth
    requires forall i :: p < i < k ==> items[i].depth >= items[k].depth
    ensures Parent(items, k) == p
  {
  }

  /** The lines in `[a, b)` attached under `p`, in line order. */
  function KidsIn(items: seq<Item>, p: nat, a: nat, b: nat): (r: seq<nat>)
    requires Rooted(items) && 1 <= a && b <= |items|
    ensures forall t :: 0 <= t < |r| ==> a <= r[t] < b && p < r[t]
    decreases b
  {
    if b <= a then []
    else KidsIn(items, p, a, b - 1) + (if Parent(items, b - 1) == p then [b - 1] else [])
  }

  /** Every child index is a later, existing node: the arena is a forest. */
  ghost predicate Arena(kids: seq<seq<nat>>) {
    forall p, t :: 0 <= p < |kids| && 0 <= t < |kids[p]| ==> p < kids[p][t] < |kids|
  }

  /** The tree hanging from node `k` of the arena. */
  function Assemble(items: seq<Item>, kids: seq<seq<nat>>, k: nat): OutlineNode
    requires |kids| == |items| && Arena(kids) && k < |kids|
    decreases |kids| - k, 1, 0
  {
    OutlineNode(items[k].text, items[k].color, AssembleAll(items, kids, kids[k], k))
  }

  function AssembleAll(items: seq<Item>, kids: seq<seq<nat>>, xs: seq<nat>, lo: nat): seq<OutlineNode>
    requires |kids| == |items| && Arena(kids) && lo < |kids|
    requires forall t :: 0 <= t < |xs| ==> lo < xs[t] < |kids|
    decreases |kids| - lo, 0, |xs|
  {
    if xs == [] then []
    else [Assemble(items, kids, xs[0])] + AssembleAll(items, kids, xs[1..], lo)
  }

  function EndFrom(items: seq<Item>, p: nat, e: nat): (r: nat)
    requires p < e <= |items|
    ensures e <= r <= |items|
    ensures forall i :: e <= i < r ==> items[i].depth > items[p].depth
    ensures r == |items| || items[r].depth <= items[p].depth
    decreases |items| - e
  {
    if e == |items| || items[e].depth <= items[p].depth then e else EndFrom(items, p, e + 1)
  }

  /** One past the last line of the run of deeper lines after `p`. */
  function End(items: seq<Item>, p: nat): (r: nat)
    requires p < |items|
    ensures p < r <= |items|
    ensures forall i :: p < i < r ==> items[i].depth > items[p].depth
    ensures r == |items| || items[r].depth <= items[p].depth
  {
    EndFrom(items, p, p + 1)
  }

  lemma {:induction false} KidsSplit(items: seq<Item>, p: nat, a: nat, b: nat, c: nat)
    requires Rooted(items) && 1 <= a <= b <= c <= |items|
    ensures KidsIn(items, p, a, c) == KidsIn(items, p, a, b) + KidsIn(items, p, b, c)
    decreases c
  {
    if c > b {
      KidsSplit(items, p, a, b, c - 1);
      var last := if Parent(items, c - 1) == p then [c - 1] else [];
      AppendAssoc(KidsIn(items, p, a, c), KidsIn(items, p, a, c - 1), last,
                  KidsIn(items, p, a, b), KidsIn(items, p, b, c - 1), KidsIn(items, p, b, c));
    }
  }

  lemma AppendAssoc(x: seq<nat>, y: seq<nat>, l: seq<nat>, u: seq<nat>, v: seq<nat>, z: seq<nat>)
    requires x == y + l && y == u + v && z == v + l
    ensures x == u + z
  {
  }

  lemma {:induction false} KidsNone(items: seq<Item>, p: nat, a: nat, b: nat)
    requires Rooted(items) && 1 <= a && b <= |items|
    requires forall j :: a <= j < b ==> Parent(items, j) != p
    ensures KidsIn(items, p, a, b) == []
    decreases b
  {
    if b > a {
      KidsNone(items, p, a, b - 1);
    }
  }

  /** A line past the run of `p` is never attached under `p`. */
  lemma AfterEnd(items: seq<Item>, p: nat, j: nat)
    requires Rooted(items) && p < |items| && End(items, p) <= j < |items| && 1 <= j
    ensures Parent(items, j) != p
  {
  }

  /** For a child `a` of `p`, the run of `a` ends inside the run of `p`, at the
      next child of `p` or at the end of the run of `p`. */
  lemma ChildEnd(items: seq<Item>, p: nat, a: nat)
    requires Rooted(items) && p < |items| && p < a < End(items, p) && Parent(items, a) == p
    ensures End(items, a) <= End(items, p)
    ensures End(items, a) == End(items, p) || Parent(items, End(items, a)) == p
  {
    var ep, ea := End(items, p), End(items, a);
    if ea < ep {
      forall i | p < i < ea ensures items[i].depth >= items[ea].depth {
        if i < a {
          assert items[i].depth >= items[a].depth;
        }
      }
      ParentUnique(items, ea, p);
    }
  }

  lemma RunEndOfSlice(items: seq<Item>, a: nat, e: nat, ea: nat)
    requires a < ea <= e <= |items|
    requires forall i :: a < i < ea ==> items[i].depth > items[a].depth
    requires ea == e || items[ea].depth <= items[a].depth
    ensures RunEnd(items[a..e], 1) == ea - a
  {
  }

  /** The forest of a slice starting at `a` whose first run ends at `ea`. */
  lemma ForestHead(items: seq<Item>, a: nat, e: nat, ea: nat)
    requires a < ea <= e <= |items|
    requires forall i :: a < i < ea ==> items[i].depth > items[a].depth
    requires ea == e || items[ea].depth <= items[a].depth
    ensures Forest(items[a..e])
            == [OutlineNode(items[a].text, items[a].color, Forest(items[a + 1..ea]))] + Forest(items[ea..e])
  {
    RunEndOfSlice(items, a, e, ea);
    var s, run := items[a..e], ea - a;
    assert s[1..run] == items[a + 1..ea] by {
      forall i | 0 <= i < run - 1 ensures s[1..run][i] == items[a + 1..ea][i] {
        assert s[1..run][i] == s[i + 1] == items[a + 1 + i];
      }
    }
    assert s[run..] == items[ea..e];
  }

  lemma KidsOne(items: seq<Item>, p: nat, a: nat)
    requires Rooted(items) && 1 <= a < |items| && Parent(items, a) == p
    ensures KidsIn(items, p, a, a + 1) == [a]
  {
    assert KidsIn(items, p, a, a) == [];
  }

  /** No line inside the run of `a` is attached under a line before `a`. */
  lemma KidsInsideRun(items: seq<Item>, p: nat, a: nat)
    requires Rooted(items) && p < a < |items|
    ensures KidsIn(items, p, a + 1, End(items, a)) == []
  {
    var ea := End(items, a);
    forall j | a + 1 <= j < ea ensures Parent(items, j) != p {
      assert items[a].depth < items[j].depth;
    }
    KidsNone(items, p, a + 1, ea);
  }

  /** The children of `p` from a child `a` on: `a` itself, then those from the end of the run of `a`. */
  lemma ChainHead(items: seq<Item>, p: nat, a: nat)
    requires Rooted(items) && p < |items| && p < a < End(items, p) && Parent(items, a) == p
    ensures End(items, a) <= End(items, p)
    ensures End(items, a) == End(items, p) || Parent(items, End(items, a)) == p
    ensures KidsIn(items, p, a, End(items, p)) == [a] + KidsIn(items, p, End(items, a), End(items, p))
  {
    ChildEnd(items, p, a);
    ChainKids(items, p, a);
  }

  lemma ChainKids(items: seq<Item>, p: nat, a: nat)
    requires Rooted(items) && p < |items| && p < a < End(items, p) && Parent(items, a) == p
    requires End(items, a) <= End(items, p)
    ensures KidsIn(items, p, a, End(items, p)) == [a] + KidsIn(items, p, End(items, a), End(items, p))
  {
    KidsFront(items, p, a, End(items, p));
    KidsSkipRun(items, p, a, End(items, p));
  }

  /** A child `a` of `p` heads the children of `p` from `a` on. */
  lemma KidsFront(items: seq<Item>, p: nat, a: nat, e: nat)
    requires Rooted(items) && 1 <= a < e <= |items| && Parent(items, a) == p
    ensures KidsIn(items, p, a, e) == [a] + KidsIn(items, p, a + 1, e)
  {
    KidsSplit(items, p, a, a + 1, e);
    KidsOne(items, p, a);
  }

  /** The run of a line after `p` holds no children of `p`. */
  lemma KidsSkipRun(items: seq<Item>, p: nat, a: nat, e: nat)
    requires Rooted(items) && p < a < |items| && End(items, a) <= e <= |items|
    ensures KidsIn(items, p, a + 1, e) == KidsIn(items, p, End(items, a), e)
  {
    KidsSplit(items, p, a + 1, End(items, a), e);
    KidsInsideRun(items, p, a);
  }

  /** The children the stack rule gives line `k` are exactly its children within its own run. */
  lemma KidsOfRun(items: seq<Item>, k: nat)
    requires Rooted(items) && k < |items|
    ensures KidsIn(items, k, 1, |items|) == KidsIn(items, k, k + 1, End(items, k))
    ensures k + 1 == End(items, k) || Parent(items, k + 1) == k
  {
    var n, e := |items|, End(items, k);
    KidsSplit(items, k, 1, k + 1, n);
    KidsSplit(items, k, k + 1, e, n);
    KidsNone(items, k, 1, k + 1);
    forall j | e <= j < n ensures Parent(items, j) != k {
      AfterEnd(items, k, j);
    }
    KidsNone(items, k, e, n);
    if k + 1 < e {
      ParentUnique(items, k + 1, k);
    }
  }

  /** Entry `p` of `kids` holds the children the stack rule gives line `p`. */
  ghost predicate KidsEntry(items: seq<Item>, kids: seq<seq<nat>>, p: nat)
    requires Rooted(items) && p < |kids|
  {
    kids[p] == KidsIn(items, p, 1, |items|)
  }

  /** `kids` holds, for every line, the children the stack rule gives it. */
  ghost predicate KidsAre(items: seq<Item>, kids: seq<seq<nat>>)
    requires Rooted(items)
  {
    |kids| == |items| && forall p :: 0 <= p < |kids| ==> KidsEntry(items, kids, p)
  }

  lemma KidsArena(items: seq<Item>, kids: seq<seq<nat>>)
    requires Rooted(items) && KidsAre(items, kids)
    ensures Arena(kids)
  {
    forall p, t | 0 <= p < |kids| && 0 <= t < |kids[p]| ensures p < kids[p][t] < |kids| {
      assert KidsEntry(items, kids, p);
    }
  }

  lemma AssembleAllCons(items: seq<Item>, kids: seq<seq<nat>>, x: nat, rest: seq<nat>, lo: nat)
    requires |kids| == |items| && Arena(kids) && lo < x < |kids|
    requires forall t :: 0 <= t < |rest| ==> lo < rest[t] < |kids|
    ensures AssembleAll(items, kids, [x] + rest, lo) == [Assemble(items, kids, x)] + AssembleAll(items, kids, rest, lo)
  {
    assert ([x] + rest)[1..] == rest;
  }

  /** The arena node `k` holds the forest of the run of lines after it. */
  lemma {:induction false} AssembleIsForest(items: seq<Item>, kids: seq<seq<nat>>, k: nat)
    requires Rooted(items) && KidsAre(items, kids) && Arena(kids) && k < |items|
    ensures Assemble(items, kids, k)
            == OutlineNode(items[k].text, items[k].color, Forest(items[k + 1..End(items, k)]))
    decreases |items| - k, 1, 0
  {
    var xs := KidsIn(items, k, k + 1, End(items, k));
    KidsOfRun(items, k);
    assert KidsEntry(items, kids, k);
    assert kids[k] == xs;
    ChainIsForest(items, kids, k, k + 1);
    assert Assemble(items, kids, k) == OutlineNode(items[k].text, items[k].color, AssembleAll(items, kids, xs, k));
  }

  /** Assembling the children of `p` from line `a` on gives the forest of the
      lines from `a` to the end of the run of `p`. */
  lemma {:induction false} ChainIsForest(items: seq<Item>, kids: seq<seq<nat>>, p: nat, a: nat)
    requires Rooted(items) && KidsAre(items, kids) && Arena(kids)
    requires p < |items| && p < a <= End(items, p)
    requires a == End(items, p) || Parent(items, a) == p
    ensures AssembleAll(items, kids, KidsIn(items, p, a, End(items, p)), p)
            == Forest(items[a..End(items, p)])
    decreases |items| - p, 0, End(items, p) - a
  {
    var e := End(items, p);
    if a < e {
      var ea := End(items, a);
      ChainHead(items, p, a);
      var rest := KidsIn(items, p, ea, e);
      AssembleAllCons(items, kids, a, rest, p);
      AssembleIsForest(items, kids, a);
      ChainIsForest(items, kids, p, ea);
      ForestHead(items, a, e, ea);
    }
  }

  /** Every line after `from` and before `upto` is at least `d` deep. */
  ghost predicate DeeperAfter(items: seq<Item>, from: nat, upto: nat, d: int) {
    forall j :: from < j < upto && j < |items| ==> items[j].depth >= d
  }

  /** The stack after `i` lines: the root at the bottom, entries naming earlier
      lines with their depths, depths strictly increasing, and every line after
      an entry at least as deep as the entry above it. */
  ghost predicate StackShape(items: seq<Item>, stack: seq<(nat, int)>, i: nat) {
    && |stack| >= 1 && stack[0] == (0, -1)
    && (forall u :: 0 <= u < |stack| ==> stack[u].0 < i && stack[u].0 < |items| && stack[u].1 == items[stack[u].0].depth)
    && (forall u, v :: 0 <= u < v < |stack| ==> stack[u].1 < stack[v].1)
    && (forall u :: 0 <= u < |stack| - 1 ==> DeeperAfter(items, stack[u].0, i, stack[u + 1].1))
  }

  /** Popping an entry at least as deep as the current line keeps the shape, and
      every line after the new top is still at least that deep. */
  lemma PopStep(items: seq<Item>, stack: seq<(nat, int)>, i: nat, depth: int)
    requires StackShape(items, stack, i) && |stack| > 1
    requires stack[|stack| - 1].1 >= depth
    requires DeeperAfter(items, stack[|stack| - 1].0, i, depth)
    ensures StackShape(items, stack[..|stack| - 1], i)
    ensures DeeperAfter(items, stack[|stack| - 2].0, i, depth)
  {
    var top := |stack| - 1;
    assert DeeperAfter(items, stack[top - 1].0, i, stack[top].1);
  }

  /** Pushing line `i` above a shallower top keeps the shape for `i + 1` lines. */
  lemma PushStep(items: seq<Item>, stack: seq<(nat, int)>, i: nat, depth: int)
    requires StackShape(items, stack, i) && i < |items| && items[i].depth == depth
    requires stack[|stack| - 1].1 < depth
    requires DeeperAfter(items, stack[|stack| - 1].0, i, depth)
    ensures StackShape(items, stack + [(i, depth)], i + 1)
  {
    var s := stack + [(i, depth)];
    forall u | 0 <= u < |s| - 1 ensures DeeperAfter(items, s[u].0, i + 1, s[u + 1].1) {
      if u < |stack| - 1 {
        assert DeeperAfter(items, stack[u].0, i, stack[u + 1].1);
        assert stack[u + 1].1 <= stack[|stack| - 1].1;
      }
    }
  }

  /** Appending line `i` to the children of its parent extends every children list by one line. */
  lemma KidsStep(items: seq<Item>, kids: seq<seq<nat>>, i: nat, parent: nat)
    requires Rooted(items) && 1 <= i < |items| && |kids| == i
    requires forall p :: 0 <= p < i ==> kids[p] == KidsIn(items, p, 1, i)
    requires Parent(items, i) == parent
    ensures var next := (kids + [[]])[parent := kids[parent] + [i]];
            forall p :: 0 <= p <= i ==> next[p] == KidsIn(items, p, 1, i + 1)
  {
    KidsNone(items, i, 1, i);
  }

  lemma RootedItems(lines: seq<string>)
    requires lines != []
    ensures Rooted(Items(lines))
  {
    ItemsAt(lines);
  }

  /** The arena root is the tree the outline denotes. */
  lemma ArenaRootIsTree(lines: seq<string>, kids: seq<seq<nat>>)
    requires lines != [] && Rooted(Items(lines)) && KidsAre(Items(lines), kids) && Arena(kids)
    ensures Assemble(Items(lines), kids, 0) == OutlineNode(Trim(lines[0]), 0, Forest(Items(lines)[1..]))
  {
    var all := Items(lines);
    AssembleIsForest(all, kids, 0);
    RootEnd(all);
    ItemIndex(lines, 0);
  }

  /** The root's run is every other line. */
  lemma RootEnd(items: seq<Item>)
    requires Rooted(items)
    ensures End(items, 0) == |items| && items[1..End(items, 0)] == items[1..]
  {
  }

  /** The stack invariant after `i` lines. */
  ghost predicate StackAfter(items: seq<Item>, stack: seq<(nat, int)>, i: nat) {
    StackShape(items, stack, i) && stack[|stack| - 1].0 == i - 1
  }

  /** The children lists after `i` lines: each line's children among lines `1..i-1`. */
  ghost predicate KidsAfter(items: seq<Item>, kids: seq<seq<nat>>, i: nat)
    requires Rooted(items) && i <= |items|
  {
    |kids| == i && forall p :: 0 <= p < i ==> kids[p] == KidsIn(items, p, 1, i)
  }

  /** The body of the loop once line `i` has its depth: pop every entry at least
      as deep, push the line into the children of the entry left on top, then
      push the line itself. Line `i` lands under `Parent(items, i)`. */
  method Attach(ghost items: seq<Item>, stack: seq<(nat, int)>, kids: seq<seq<nat>>, i: nat, depth: int)
    returns (stack': seq<(nat, int)>, kids': seq<seq<nat>>)
    requires Rooted(items) && 1 <= i < |items| && items[i].depth == depth
    requires StackAfter(items, stack, i) && KidsAfter(items, kids, i)
    ensures StackAfter(items, stack', i + 1) && KidsAfter(items, kids', i + 1)
  {
    stack' := stack;
    while |stack'| > 1 && stack'[|stack'| - 1].1 >= depth
      invariant StackShape(items, stack', i)
      invariant DeeperAfter(items, stack'[|stack'| - 1].0, i, depth)
    {
      PopStep(items, stack', i, depth);
      stack' := stack'[..|stack'| - 1];
    }
    var parent := stack'[|stack'| - 1].0;
    ParentUnique(items, i, parent);
    KidsStep(items, kids, i, parent);
    PushStep(items, stack', i, depth);
    kids' := (kids + [[]])[parent := kids[parent] + [i]];
    stack' := stack' + [(i, depth)];
  }

  /** The loop of `parseOutline` over the lines after the first: every line
      becomes a node, attached under the entry the stack leaves on top. */
  method BuildArena(lines: seq<string>) returns (nodes: seq<Item>, kids: seq<seq<nat>>)
    requires lines != []
    ensures Rooted(nodes) && nodes == Items(lines) && KidsAre(nodes, kids)
  {
    ghost var all := Items(lines);
    RootedItems(lines);
    ItemIndex(lines, 0);
    nodes := [Item(Trim(lines[0]), 0, -1)];
    kids := [[]];
    var stack: seq<(nat, int)> := [(0, -1)];
    for i := 1 to |lines|
      invariant nodes == all[..i]
      invariant StackAfter(all, stack, i) && KidsAfter(all, kids, i)
    {
      var line := lines[i];
      var depth := LineDepth(line);
      var node := Item(Trim(line), i % PaletteSize, depth);
      ItemIndex(lines, i);
      stack, kids := Attach(all, stack, kids, i, depth);
      nodes := nodes + [node];
    }
    assert nodes == all;
  }

  /** `parseOutline`: the stack-and-arena loop of the source, returning the tree
      `OutlineTree` describes. */
  method ParseOutline(text: string) returns (root: OutlineNode)
    ensures root == OutlineTree(text)
  {
    var lines := Lines(text);
    if |lines| == 0 {
      return OutlineNode(Placeholder, 0, []);
    }
    var nodes, kids := BuildArena(lines);
    KidsArena(nodes, kids);
    ArenaRootIsTree(lines, kids);
    root := Assemble(nodes, kids, 0);
  }
}
