/** The outline text the builder writes for a book, the loops that write it,
    and what the parser makes of it; then `createFromBook`, which looks the
    book up, writes the outline, parses it and saves the new map. */
module Builder {
  import opened Seqs
  import opened Text
  import opened Outline
  import opened Store
  import opened Synthesis
  import Parser

  // ---------------------------------------------------------------------------
  // Outline lines

  /** `x` behind `n` tabs. */
  function Indent(n: nat, x: string): string {
    Repeat('\t', n) + x
  }

  /** One top-level entry of the outline: a line at one tab, and lines at two
      tabs under it. A chapter is a block with its highlights as leaves; a
      highlight without a chapter is a block with no leaves. */
  datatype Block = Block(head: string, leaves: seq<string>)

  function LeafLines(leaves: seq<string>): seq<string> {
    seq(|leaves|, i requires 0 <= i < |leaves| => Indent(2, leaves[i]))
  }

  function BlockLines(b: Block): seq<string> {
    [Indent(1, b.head)] + LeafLines(b.leaves)
  }

  function BlocksLines(bs: seq<Block>): seq<string> {
    Concat(seq(|bs|, i requires 0 <= i < |bs| => BlockLines(bs[i])))
  }

  /** Lines joined with a newline after each: what repeated `+= line + '\n'` builds. */
  function Unlines(ls: seq<string>): string {
    if ls == [] then [] else ls[0] + "\n" + Unlines(ls[1..])
  }

  /** `h.text.slice(0, 80)`. */
  function Clip(text: string): string {
    SliceTo(text, ClipLength)
  }

  function Clips(hs: seq<Highlight>): seq<string> {
    seq(|hs|, i requires 0 <= i < |hs| => Clip(hs[i].text))
  }

  /** The chapter blocks, in `Object.entries` order of the grouping object. */
  function ChapterBlocks(hs: seq<Highlight>): seq<Block> {
    BlocksFor(EntryOrder(ChapterOrder(hs)), hs)
  }

  /** One block per chapter of `order`, holding that chapter's highlights. */
  function BlocksFor(order: seq<string>, hs: seq<Highlight>): seq<Block> {
    seq(|order|, j requires 0 <= j < |order| => Block(order[j], Clips(InChapter(hs, order[j]))))
  }

  /** One block per highlight without a chapter. */
  function LooseBlocks(loose: seq<Highlight>): seq<Block> {
    seq(|loose|, j requires 0 <= j < |loose| => Block(Clip(loose[j].text), []))
  }

  /** The outline text for a book with this title and these highlights. */
  function OutlineOf(title: string, hs: seq<Highlight>): string {
    Unlines([title] + BlocksLines(ChapterBlocks(hs) + LooseBlocks(InChapter(hs, ""))))
  }

  // ---------------------------------------------------------------------------
  // Facts about the line helpers

  lemma {:induction false} UnlinesAppend(a: seq<string>, b: seq<string>)
    ensures Unlines(a + b) == Unlines(a) + Unlines(b)
  {
    if a == [] {
      assert a + b == b;
    } else {
      assert (a + b)[1..] == a[1..] + b;
      UnlinesAppend(a[1..], b);
    }
  }

  /** Appending a line to the text appends it to the lines. */
  lemma UnlinesSnoc(a: seq<string>, l: string)
    ensures Unlines(a + [l]) == Unlines(a) + l + "\n"
  {
    UnlinesAppend(a, [l]);
    assert Unlines([l]) == l + "\n" + Unlines([]);
  }

  lemma BlocksLinesAppend(a: seq<Block>, b: seq<Block>)
    ensures BlocksLines(a + b) == BlocksLines(a) + BlocksLines(b)
  {
    var la := seq(|a|, i requires 0 <= i < |a| => BlockLines(a[i]));
    var lb := seq(|b|, i requires 0 <= i < |b| => BlockLines(b[i]));
    assert seq(|a + b|, i requires 0 <= i < |a + b| => BlockLines((a + b)[i])) == la + lb;
    ConcatAppend(la, lb);
  }

  lemma BlocksLinesOne(b: Block)
    ensures BlocksLines([b]) == BlockLines(b)
  {
    assert seq(1, i requires 0 <= i < 1 => BlockLines([b][i])) == [BlockLines(b)];
    ConcatSingle(BlockLines(b));
  }

  lemma BlocksLinesCons(bs: seq<Block>)
    requires bs != []
    ensures BlocksLines(bs) == BlockLines(bs[0]) + BlocksLines(bs[1..])
  {
    assert bs == [bs[0]] + bs[1..];
    BlocksLinesAppend([bs[0]], bs[1..]);
    BlocksLinesOne(bs[0]);
  }

  lemma BlocksLinesSnoc(bs: seq<Block>, j: nat)
    requires j < |bs|
    ensures BlocksLines(bs[..j + 1]) == BlocksLines(bs[..j]) + BlockLines(bs[j])
  {
    assert bs[..j + 1] == bs[..j] + [bs[j]];
    BlocksLinesAppend(bs[..j], [bs[j]]);
    BlocksLinesOne(bs[j]);
  }

  lemma LeafLinesSnoc(leaves: seq<string>, k: nat)
    requires k < |leaves|
    ensures LeafLines(leaves[..k + 1]) == LeafLines(leaves[..k]) + [Indent(2, leaves[k])]
  {
  }

  // ---------------------------------------------------------------------------
  // The builder's loops

  /** The inner loop: one line at two tabs per highlight, clipped. */
  method WriteLeaves(text: string, hls: seq<Highlight>) returns (out: string)
    ensures out == text + Unlines(LeafLines(Clips(hls)))
  {
    ghost var clips := Clips(hls);
    out := text;
    assert clips[..0] == [];
    for k := 0 to |hls|
      invariant out == text + Unlines(LeafLines(clips[..k]))
    {
      LeafLinesSnoc(clips, k);
      UnlinesSnoc(LeafLines(clips[..k]), Indent(2, clips[k]));
      assert Repeat('\t', 2) == "\t\t";
      out := out + "\t\t" + SliceTo(hls[k].text, ClipLength) + "\n";
    }
    assert clips[..|hls|] == clips;
  }

  /** One chapter: its name at one tab, then its highlights. */
  method WriteChapter(text: string, ch: string, hls: seq<Highlight>) returns (out: string)
    ensures out == text + Unlines(BlockLines(Block(ch, Clips(hls))))
  {
    assert Repeat('\t', 1) == "\t";
    ghost var ls := BlockLines(Block(ch, Clips(hls)));
    assert ls[1..] == LeafLines(Clips(hls));
    out := WriteLeaves(text + "\t" + ch + "\n", hls);
  }

  /** The last loop: one line at one tab per highlight without a chapter. */
  method WriteLoose(text: string, loose: seq<Highlight>) returns (out: string)
    ensures out == text + Unlines(BlocksLines(LooseBlocks(loose)))
  {
    ghost var lbs := LooseBlocks(loose);
    out := text;
    assert lbs[..0] == [];
    assert BlocksLines([]) == [];
    for k := 0 to |loose|
      invariant out == text + Unlines(BlocksLines(lbs[..k]))
    {
      BlocksLinesSnoc(lbs, k);
      assert BlockLines(lbs[k]) == [Indent(1, Clip(loose[k].text))];
      UnlinesSnoc(BlocksLines(lbs[..k]), Indent(1, Clip(loose[k].text)));
      assert Repeat('\t', 1) == "\t";
      out := out + "\t" + SliceTo(loose[k].text, ClipLength) + "\n";
    }
    assert lbs[..|loose|] == lbs;
  }

  /** The chapter loop, over the chapters in `order`, each looked up in the
      grouping object. */
  method WriteChapters(text: string, order: seq<string>, groups: map<string, seq<Highlight>>,
                       ghost hs: seq<Highlight>) returns (out: string)
    requires forall ch :: ch in order ==> ch in groups && groups[ch] == InChapter(hs, ch)
    ensures out == text + Unlines(BlocksLines(BlocksFor(order, hs)))
  {
    ghost var cbs := BlocksFor(order, hs);
    out := text;
    assert cbs[..0] == [];
    assert BlocksLines([]) == [];
    for j := 0 to |order|
      invariant out == text + Unlines(BlocksLines(cbs[..j]))
    {
      ghost var before := BlocksLines(cbs[..j]);
      assert order[j] in order;
      assert cbs[j] == Block(order[j], Clips(groups[order[j]]));
      out := WriteChapter(out, order[j], groups[order[j]]);
      BlocksLinesSnoc(cbs, j);
      UnlinesAppend(before, BlockLines(cbs[j]));
      assert out == text + (Unlines(before) + Unlines(BlockLines(cbs[j])));
    }
    assert cbs[..|order|] == cbs;
  }

  /** Every chapter in entry order has its group in the grouping object. */
  lemma EntriesGrouped(hs: seq<Highlight>)
    ensures var g := Grouped(hs);
            forall ch :: ch in EntryOrder(g.keys) ==> ch in g.groups && g.groups[ch] == InChapter(hs, ch)
  {
    var g := Grouped(hs);
    EntryOrderSpec(g.keys);
    forall ch | ch in EntryOrder(g.keys) ensures ch in g.groups && g.groups[ch] == InChapter(hs, ch) {
      assert ch in multiset(EntryOrder(g.keys));
    }
  }

  /** The outline is the title line, the chapter lines, then the loose lines. */
  lemma OutlineParts(title: string, hs: seq<Highlight>)
    ensures OutlineOf(title, hs)
         == title + "\n" + Unlines(BlocksLines(ChapterBlocks(hs))) + Unlines(BlocksLines(LooseBlocks(InChapter(hs, ""))))
  {
    var cbs := ChapterBlocks(hs);
    var lbs := LooseBlocks(InChapter(hs, ""));
    assert Unlines([title]) == title + "\n";
    BlocksLinesAppend(cbs, lbs);
    assert [title] + BlocksLines(cbs + lbs) == [title] + BlocksLines(cbs) + BlocksLines(lbs);
    UnlinesAppend([title], BlocksLines(cbs));
    UnlinesAppend([title] + BlocksLines(cbs), BlocksLines(lbs));
  }

  /** The outline-writing part of `createFromBook`: group the highlights, write
      the title line, each chapter with its clipped highlights in entry order
      (only when some highlight has a chapter), then the clipped highlights
      that have no chapter. */
  method BuildOutline(title: string, hs: seq<Highlight>) returns (text: string)
    ensures text == OutlineOf(title, hs)
  {
    var g := GroupHighlights(hs);
    text := title + "\n";
    if |g.keys| > 0 {
      EntriesGrouped(hs);
      text := WriteChapters(text, EntryOrder(g.keys), g.groups, hs);
    } else {
      assert ChapterBlocks(hs) == [];
      assert BlocksLines([]) == [];
    }
    text := WriteLoose(text, g.loose);
    OutlineParts(title, hs);
  }

  // ---------------------------------------------------------------------------
  // Reading the outline back

  /** A label the outline convention reads back unchanged up to trailing white
      space: non-empty, starting with a visible character, on one line. */
  predicate Piece(x: string) {
    x != [] && !IsSpace(x[0]) && '\n' !in x
  }

  predicate BlockOk(b: Block) {
    Piece(b.head) && forall i :: 0 <= i < |b.leaves| ==> Piece(b.leaves[i])
  }

  /** An indented label is a visible line at depth `n` whose trimmed label is
      the label's. */
  lemma IndentedLine(n: nat, x: string)
    requires 1 <= n && Piece(x)
    ensures var l := Indent(n, x);
            '\n' !in l && Trim(l) == Trim(x) && Trim(l) != [] && LineDepth(l) == n
  {
    var pre := Repeat('\t', n);
    var l := pre + x;
    assert IsBlank(pre);
    TrimStartAfterSpaces(pre, x);
    TrimEmptyIffBlank(x);
    assert !IsBlank(l) by { assert l[n] == x[0]; }
    LeadingCountAfterRepeat('\t', n, x);
    forall i | 0 <= i < |l| ensures l[i] != '\n' {
      if i >= n {
        assert l[i] == x[i - n];
      }
    }
  }

  lemma ClipPiece(x: string)
    requires Piece(x)
    ensures Piece(Clip(x))
  {
    var c := Clip(x);
    assert c[0] == x[0];
    forall i | 0 <= i < |c| ensures c[i] != '\n' {
      assert c[i] == x[i];
    }
  }

  /** Splitting joined newline-free lines gives the lines and a last empty piece. */
  lemma {:induction false} SplitUnlines(ls: seq<string>)
    requires forall i :: 0 <= i < |ls| ==> '\n' !in ls[i]
    ensures Split(Unlines(ls)) == ls + [""]
  {
    if ls != [] {
      SplitLine(ls[0], Unlines(ls[1..]));
      SplitUnlines(ls[1..]);
    }
  }

  lemma {:induction false} NonBlankVisible(ls: seq<string>)
    requires forall i :: 0 <= i < |ls| ==> Trim(ls[i]) != []
    ensures NonBlank(ls + [""]) == ls
  {
    if ls == [] {
      assert NonBlank([""]) == [] + NonBlank([]);
    } else {
      assert (ls + [""])[1..] == ls[1..] + [""];
      NonBlankVisible(ls[1..]);
    }
  }

  /** Visible newline-free lines, joined, are read back as exactly those lines. */
  lemma LinesOfUnlines(ls: seq<string>)
    requires forall i :: 0 <= i < |ls| ==> '\n' !in ls[i] && Trim(ls[i]) != []
    ensures Lines(Unlines(ls)) == ls
  {
    SplitUnlines(ls);
    NonBlankVisible(ls);
  }

  /** Every line of well-formed blocks is an indented label. */
  lemma BlocksLinesVisible(bs: seq<Block>)
    requires forall i :: 0 <= i < |bs| ==> BlockOk(bs[i])
    ensures forall l :: l in BlocksLines(bs) ==> '\n' !in l && Trim(l) != []
  {
    var ss := seq(|bs|, i requires 0 <= i < |bs| => BlockLines(bs[i]));
    forall l | l in BlocksLines(bs) ensures '\n' !in l && Trim(l) != [] {
      InConcat(ss, l);
      var i :| 0 <= i < |ss| && l in ss[i];
      var b := bs[i];
      if l == Indent(1, b.head) {
        IndentedLine(1, b.head);
      } else {
        var j :| 0 <= j < |b.leaves| && LeafLines(b.leaves)[j] == l;
        IndentedLine(2, b.leaves[j]);
      }
    }
  }

  /** A node's label and subtopics without colours: what the outline's reader sees. */
  datatype Topic = Topic(text: string, subtopics: seq<Topic>)

  function Untinted(t: OutlineNode): Topic
    decreases t, 1
  {
    Topic(t.text, UntintedAll(t.children))
  }

  function UntintedAll(ts: seq<OutlineNode>): (r: seq<Topic>)
    ensures |r| == |ts|
    decreases ts, 0
  {
    if ts == [] then [] else [Untinted(ts[0])] + UntintedAll(ts[1..])
  }

  lemma UntintedAllCons(t: OutlineNode, ts: seq<OutlineNode>)
    ensures UntintedAll([t] + ts) == [Untinted(t)] + UntintedAll(ts)
  {
    assert ([t] + ts)[1..] == ts;
  }

  /** Topics without subtopics. */
  function Leaves(labels: seq<string>): seq<Topic> {
    seq(|labels|, j requires 0 <= j < |labels| => Topic(labels[j], []))
  }

  /** One topic per block, its leaves below it. */
  function BlockTopics(bs: seq<Block>): seq<Topic> {
    seq(|bs|, i requires 0 <= i < |bs| => Topic(bs[i].head, Leaves(bs[i].leaves)))
  }

  /** Label and depth of each item, colours aside. */
  function Marks(items: seq<Item>): seq<(string, int)> {
    seq(|items|, k requires 0 <= k < |items| => (items[k].text, items[k].depth))
  }

  function Labels(items: seq<Item>): seq<string> {
    seq(|items|, k requires 0 <= k < |items| => items[k].text)
  }

  /** The label and depth of each line of a block. */
  function BlockShape(b: Block): seq<(string, int)> {
    [(b.head, 1)] + seq(|b.leaves|, j requires 0 <= j < |b.leaves| => (b.leaves[j], 2))
  }

  function Shape(bs: seq<Block>): seq<(string, int)> {
    Concat(seq(|bs|, i requires 0 <= i < |bs| => BlockShape(bs[i])))
  }

  lemma ShapeCons(bs: seq<Block>)
    requires bs != []
    ensures Shape(bs) == BlockShape(bs[0]) + Shape(bs[1..])
  {
    var ss := seq(|bs|, i requires 0 <= i < |bs| => BlockShape(bs[i]));
    assert ss[1..] == seq(|bs| - 1, i requires 0 <= i < |bs| - 1 => BlockShape(bs[1..][i]));
  }

  /** `RunEnd` stops exactly at the first item not deeper than the first. */
  lemma {:induction false} RunEndAt(items: seq<Item>, j: nat, e: nat)
    requires 1 <= j <= e <= |items|
    requires forall k :: j <= k < e ==> items[k].depth > items[0].depth
    requires e == |items| || items[e].depth <= items[0].depth
    ensures RunEnd(items, j) == e
    decreases e - j
  {
    if j < e {
      RunEndAt(items, j + 1, e);
    }
  }

  /** An item followed by one no deeper is a leaf of the forest. */
  lemma ForestLeafFirst(items: seq<Item>)
    requires items != [] && (|items| == 1 || items[1].depth <= items[0].depth)
    ensures UntintedAll(Forest(items)) == [Topic(items[0].text, [])] + UntintedAll(Forest(items[1..]))
  {
    RunEndAt(items, 1, 1);
    assert items[1..1] == [];
    UntintedAllCons(OutlineNode(items[0].text, items[0].color, []), Forest(items[1..]));
  }

  /** Items all at depth two form a forest of leaves. */
  lemma {:induction false} LeafForest(items: seq<Item>)
    requires forall k :: 0 <= k < |items| ==> items[k].depth == 2
    ensures UntintedAll(Forest(items)) == Leaves(Labels(items))
    decreases |items|
  {
    if items != [] {
      ForestLeafFirst(items);
      LeafForest(items[1..]);
    }
  }

  /** The items of block lines split at the end of the first block. */
  lemma BlockPrefix(items: seq<Item>, bs: seq<Block>)
    requires bs != [] && Marks(items) == Shape(bs)
    ensures var n := 1 + |bs[0].leaves|;
            && n <= |items|
            && Marks(items[..n]) == BlockShape(bs[0])
            && Marks(items[n..]) == Shape(bs[1..])
  {
    var n := 1 + |bs[0].leaves|;
    ShapeCons(bs);
    assert Marks(items[..n]) == Marks(items)[..n];
    assert Marks(items[n..]) == Marks(items)[n..];
  }

  /** The items of one block: a head at depth one, leaves at depth two. */
  lemma BlockItems(items: seq<Item>, b: Block)
    requires Marks(items) == BlockShape(b)
    ensures |items| == 1 + |b.leaves|
    ensures items[0].text == b.head && items[0].depth == 1
    ensures forall k :: 1 <= k < |items| ==> items[k].depth == 2
    ensures Labels(items[1..]) == b.leaves
  {
    assert Marks(items)[0] == (b.head, 1);
    forall k | 1 <= k < |items| ensures items[k].depth == 2 && items[k].text == b.leaves[k - 1] {
      assert Marks(items)[k] == BlockShape(b)[k];
    }
  }

  /** After the first block's items comes the next block's head, at depth one. */
  lemma NextHead(items: seq<Item>, bs: seq<Block>)
    requires bs != [] && Marks(items) == Shape(bs)
    ensures var n := 1 + |bs[0].leaves|;
            n <= |items| && (n == |items| || items[n].depth == 1)
  {
    var n := 1 + |bs[0].leaves|;
    BlockPrefix(items, bs);
    if |bs| > 1 {
      var rest := items[n..];
      BlockPrefix(rest, bs[1..]);
      BlockItems(rest[..1 + |bs[1].leaves|], bs[1]);
    } else {
      assert Marks(items[n..]) == [];
    }
  }

  /** The first block's items: its head, then its leaves at depth two; the
      other blocks' items follow. */
  lemma FirstBlockItems(items: seq<Item>, bs: seq<Block>)
    requires bs != [] && Marks(items) == Shape(bs)
    ensures var n := 1 + |bs[0].leaves|;
            && n <= |items|
            && items[0].text == bs[0].head
            && (forall k :: 1 <= k < n ==> items[k].depth == 2)
            && Labels(items[1..n]) == bs[0].leaves
            && Marks(items[n..]) == Shape(bs[1..])
  {
    var n := 1 + |bs[0].leaves|;
    BlockPrefix(items, bs);
    BlockItems(items[..n], bs[0]);
    assert items[..n][1..] == items[1..n];
  }

  /** The depths of the first block's items and of the item after them. */
  lemma FirstBlockDepths(items: seq<Item>, bs: seq<Block>)
    requires bs != [] && Marks(items) == Shape(bs)
    ensures var n := 1 + |bs[0].leaves|;
            && n <= |items| && items[0].depth == 1
            && (forall k :: 1 <= k < n ==> items[k].depth == 2)
            && (n == |items| || items[n].depth == 1)
  {
    var n := 1 + |bs[0].leaves|;
    BlockPrefix(items, bs);
    BlockItems(items[..n], bs[0]);
    NextHead(items, bs);
  }

  /** The run of the first block's head ends where the next head begins. */
  lemma FirstBlockRun(items: seq<Item>, bs: seq<Block>)
    requires bs != [] && Marks(items) == Shape(bs)
    ensures 1 + |bs[0].leaves| <= |items| && RunEnd(items, 1) == 1 + |bs[0].leaves|
  {
    FirstBlockDepths(items, bs);
    RunEndAt(items, 1, 1 + |bs[0].leaves|);
  }

  /** The forest of block items has one node per block, its leaves below it. */
  lemma {:induction false} ForestOfBlocks(items: seq<Item>, bs: seq<Block>)
    requires Marks(items) == Shape(bs)
    ensures UntintedAll(Forest(items)) == BlockTopics(bs)
    decreases |bs|
  {
    if bs == [] {
      assert |items| == |Concat<(string, int)>([])|;
    } else {
      var n := 1 + |bs[0].leaves|;
      FirstBlockForest(items, bs);
      ForestOfBlocks(items[n..], bs[1..]);
      BlockTopicsCons(bs);
    }
  }

  lemma BlockTopicsCons(bs: seq<Block>)
    requires bs != []
    ensures BlockTopics(bs) == [Topic(bs[0].head, Leaves(bs[0].leaves))] + BlockTopics(bs[1..])
  {
    assert BlockTopics(bs)[1..] == BlockTopics(bs[1..]);
  }

  /** The first node of the forest of block items is the first block's topic. */
  lemma FirstBlockForest(items: seq<Item>, bs: seq<Block>)
    requires bs != [] && Marks(items) == Shape(bs)
    ensures var n := 1 + |bs[0].leaves|;
            && n <= |items| && Marks(items[n..]) == Shape(bs[1..])
            && UntintedAll(Forest(items))
               == [Topic(bs[0].head, Leaves(bs[0].leaves))] + UntintedAll(Forest(items[n..]))
  {
    var n := 1 + |bs[0].leaves|;
    FirstBlockItems(items, bs);
    FirstBlockRun(items, bs);
    LeafForest(items[1..n]);
    UntintedAllCons(OutlineNode(items[0].text, items[0].color, Forest(items[1..n])), Forest(items[n..]));
  }

  /** A block with its labels trimmed. */
  function TrimBlock(b: Block): Block {
    Block(Trim(b.head), seq(|b.leaves|, j requires 0 <= j < |b.leaves| => Trim(b.leaves[j])))
  }

  function Trimmed(bs: seq<Block>): seq<Block> {
    seq(|bs|, i requires 0 <= i < |bs| => TrimBlock(bs[i]))
  }

  /** Trimmed label and depth of each line, as the parser reads them. */
  function LineMarks(ls: seq<string>): seq<(string, int)> {
    seq(|ls|, k requires 0 <= k < |ls| => (Trim(ls[k]), LineDepth(ls[k])))
  }

  lemma LineMarksOfBlock(b: Block)
    requires BlockOk(b)
    ensures LineMarks(BlockLines(b)) == BlockShape(TrimBlock(b))
  {
    var ls := BlockLines(b);
    IndentedLine(1, b.head);
    forall k | 1 <= k < |ls| ensures LineMarks(ls)[k] == BlockShape(TrimBlock(b))[k] {
      IndentedLine(2, b.leaves[k - 1]);
    }
  }

  /** Read line by line, the lines of well-formed blocks give back the blocks'
      trimmed labels at depth one and two. */
  lemma {:induction false} LineMarksOfBlocks(bs: seq<Block>)
    requires forall i :: 0 <= i < |bs| ==> BlockOk(bs[i])
    ensures LineMarks(BlocksLines(bs)) == Shape(Trimmed(bs))
    decreases |bs|
  {
    if bs == [] {
      assert BlocksLines(bs) == Concat([]);
      assert Shape(Trimmed(bs)) == Concat([]);
    } else {
      BlocksLinesCons(bs);
      ShapeCons(Trimmed(bs));
      assert Trimmed(bs)[1..] == Trimmed(bs[1..]);
      LineMarksOfBlock(bs[0]);
      LineMarksOfBlocks(bs[1..]);
      assert LineMarks(BlockLines(bs[0]) + BlocksLines(bs[1..]))
          == LineMarks(BlockLines(bs[0])) + LineMarks(BlocksLines(bs[1..]));
    }
  }

  /** The parsed tree of a title line above well-formed blocks. */
  lemma TreeOfBlocks(title: string, bs: seq<Block>)
    requires Piece(title) && forall i :: 0 <= i < |bs| ==> BlockOk(bs[i])
    ensures Untinted(OutlineTree(Unlines([title] + BlocksLines(bs)))) == Topic(Trim(title), BlockTopics(Trimmed(bs)))
  {
    var ls := [title] + BlocksLines(bs);
    BlocksLinesVisible(bs);
    TrimEmptyIffBlank(title);
    forall i | 0 <= i < |ls| ensures '\n' !in ls[i] && Trim(ls[i]) != [] {
      if i > 0 {
        assert ls[i] in BlocksLines(bs);
      }
    }
    LinesOfUnlines(ls);
    var items := Items(ls);
    ItemsAt(ls);
    assert Marks(items[1..]) == LineMarks(ls[1..]);
    assert ls[1..] == BlocksLines(bs);
    LineMarksOfBlocks(bs);
    ForestOfBlocks(items[1..], Trimmed(bs));
  }

  lemma ClipsOk(hs: seq<Highlight>)
    requires forall h :: h in hs ==> Piece(Clip(h.text))
    ensures forall m :: 0 <= m < |hs| ==> Piece(Clips(hs)[m])
  {
    forall m | 0 <= m < |hs| ensures Piece(Clips(hs)[m]) {
      assert hs[m] in hs;
    }
  }

  lemma EntryMember(keys: seq<string>, ch: string)
    requires ch in EntryOrder(keys)
    ensures ch in keys
  {
    EntryOrderSpec(keys);
    assert ch in multiset(EntryOrder(keys));
  }

  /** A chapter that names a group is the chapter of some highlight. */
  lemma ChapterPiece(hs: seq<Highlight>, ch: string)
    requires forall h :: h in hs ==> h.chapter == "" || Piece(h.chapter)
    requires ch in ChapterOrder(hs)
    ensures Piece(ch)
  {
    ChapterOrderSpec(hs);
    var i :| 0 <= i < |hs| && hs[i].chapter == ch;
    assert hs[i] in hs;
  }

  lemma MembersOk(hs: seq<Highlight>, ch: string)
    requires forall h :: h in hs ==> Piece(Clip(h.text))
    ensures forall m :: 0 <= m < |InChapter(hs, ch)| ==> Piece(Clips(InChapter(hs, ch))[m])
  {
    InChapterMembers(hs, ch);
    ClipsOk(InChapter(hs, ch));
  }

  /** Every chapter block is well formed when every chapter name and clipped
      highlight text is. */
  lemma ChapterBlockOk(hs: seq<Highlight>, j: nat)
    requires forall h :: h in hs ==> Piece(Clip(h.text)) && (h.chapter == "" || Piece(h.chapter))
    requires j < |ChapterBlocks(hs)|
    ensures BlockOk(ChapterBlocks(hs)[j])
  {
    var ch := EntryOrder(ChapterOrder(hs))[j];
    EntryMember(ChapterOrder(hs), ch);
    ChapterPiece(hs, ch);
    MembersOk(hs, ch);
  }

  lemma LooseBlocksOk(loose: seq<Highlight>)
    requires forall h :: h in loose ==> Piece(Clip(h.text))
    ensures forall j :: 0 <= j < |LooseBlocks(loose)| ==> BlockOk(LooseBlocks(loose)[j])
  {
    ClipsOk(loose);
    forall j | 0 <= j < |loose| ensures BlockOk(LooseBlocks(loose)[j]) {
      assert Clips(loose)[j] == Clip(loose[j].text);
    }
  }

  /** Clipped highlight labels as topics without subtopics. */
  function ClipTopics(hs: seq<Highlight>): seq<Topic> {
    seq(|hs|, i requires 0 <= i < |hs| => Topic(Trim(Clip(hs[i].text)), []))
  }

  lemma ChapterTopic(hs: seq<Highlight>, j: nat)
    requires j < |ChapterBlocks(hs)|
    ensures var ch := EntryOrder(ChapterOrder(hs))[j];
            BlockTopics(Trimmed(ChapterBlocks(hs)))[j] == Topic(Trim(ch), ClipTopics(InChapter(hs, ch)))
  {
    var ch := EntryOrder(ChapterOrder(hs))[j];
    var b := TrimBlock(ChapterBlocks(hs)[j]);
    assert Leaves(b.leaves) == ClipTopics(InChapter(hs, ch));
  }

  /** The blocks the builder writes are well formed when every clipped
      highlight text and every chapter name is. */
  lemma BuiltBlocksOk(hs: seq<Highlight>, bs: seq<Block>)
    requires forall h :: h in hs ==> Piece(Clip(h.text)) && (h.chapter == "" || Piece(h.chapter))
    requires bs == ChapterBlocks(hs) + LooseBlocks(InChapter(hs, ""))
    ensures forall i :: 0 <= i < |bs| ==> BlockOk(bs[i])
  {
    var cbs := ChapterBlocks(hs);
    InChapterMembers(hs, "");
    LooseBlocksOk(InChapter(hs, ""));
    forall i | 0 <= i < |bs| ensures BlockOk(bs[i]) {
      if i < |cbs| {
        ChapterBlockOk(hs, i);
      } else {
        assert bs[i] == LooseBlocks(InChapter(hs, ""))[i - |cbs|];
      }
    }
  }

  /** The topics of the builder's blocks: each chapter with its clipped
      highlights, then each loose highlight. */
  lemma BuiltTopics(hs: seq<Highlight>, bs: seq<Block>)
    requires bs == ChapterBlocks(hs) + LooseBlocks(InChapter(hs, ""))
    ensures var topics := BlockTopics(Trimmed(bs));
            var order := EntryOrder(ChapterOrder(hs));
            var loose := InChapter(hs, "");
            && |topics| == |order| + |loose|
            && (forall j :: 0 <= j < |order| ==>
                  topics[j] == Topic(Trim(order[j]), ClipTopics(InChapter(hs, order[j]))))
            && (forall j :: 0 <= j < |loose| ==> topics[|order| + j] == Topic(Trim(Clip(loose[j].text)), []))
  {
    ChapterTopics(hs, bs);
    LooseTopics(hs, bs);
  }

  lemma ChapterTopics(hs: seq<Highlight>, bs: seq<Block>)
    requires bs == ChapterBlocks(hs) + LooseBlocks(InChapter(hs, ""))
    ensures var order := EntryOrder(ChapterOrder(hs));
            forall j :: 0 <= j < |order| ==>
              BlockTopics(Trimmed(bs))[j] == Topic(Trim(order[j]), ClipTopics(InChapter(hs, order[j])))
  {
    var order := EntryOrder(ChapterOrder(hs));
    forall j | 0 <= j < |order|
      ensures BlockTopics(Trimmed(bs))[j] == Topic(Trim(order[j]), ClipTopics(InChapter(hs, order[j])))
    {
      ChapterTopic(hs, j);
      assert bs[j] == ChapterBlocks(hs)[j];
    }
  }

  /** The topic of a loose block placed after some other blocks. */
  lemma LooseBlockTopic(cbs: seq<Block>, loose: seq<Highlight>, j: nat)
    requires j < |loose|
    ensures BlockTopics(Trimmed(cbs + LooseBlocks(loose)))[|cbs| + j] == Topic(Trim(Clip(loose[j].text)), [])
  {
    var bs := cbs + LooseBlocks(loose);
    var b := bs[|cbs| + j];
    assert b == LooseBlocks(loose)[j];
    assert Trimmed(bs)[|cbs| + j] == TrimBlock(b);
    assert TrimBlock(b).leaves == [];
  }

  lemma LooseTopics(hs: seq<Highlight>, bs: seq<Block>)
    requires bs == ChapterBlocks(hs) + LooseBlocks(InChapter(hs, ""))
    ensures var n := |EntryOrder(ChapterOrder(hs))|;
            var loose := InChapter(hs, "");
            forall j :: 0 <= j < |loose| ==> BlockTopics(Trimmed(bs))[n + j] == Topic(Trim(Clip(loose[j].text)), [])
  {
    forall j | 0 <= j < |InChapter(hs, "")| {
      LooseBlockTopic(ChapterBlocks(hs), InChapter(hs, ""), j);
    }
  }

  /** Reading back the outline the builder writes gives the title as root, one
      topic per chapter in `Object.entries` order holding its highlights'
      clipped texts in book order, then one topic per highlight without a
      chapter, in book order. It needs the title, each chapter name and the
      first 80 characters of each highlight to be one visible line (see
      `MultiLineHighlightMisnests` for a text that breaks this). Labels come
      back trimmed; colours are left aside here (`PreorderOfParse` gives them). */
  lemma OutlineRoundTrip(title: string, hs: seq<Highlight>)
    requires Piece(title)
    requires forall h :: h in hs ==> Piece(Clip(h.text)) && (h.chapter == "" || Piece(h.chapter))
    ensures var t := Untinted(OutlineTree(OutlineOf(title, hs)));
            var order := EntryOrder(ChapterOrder(hs));
            var loose := InChapter(hs, "");
            && t.text == Trim(title)
            && |t.subtopics| == |order| + |loose|
            && (forall j :: 0 <= j < |order| ==>
                  t.subtopics[j] == Topic(Trim(order[j]), ClipTopics(InChapter(hs, order[j]))))
            && (forall j :: 0 <= j < |loose| ==> t.subtopics[|order| + j] == Topic(Trim(Clip(loose[j].text)), []))
  {
    var bs := ChapterBlocks(hs) + LooseBlocks(InChapter(hs, ""));
    BuiltBlocksOk(hs, bs);
    TreeOfBlocks(title, bs);
    BuiltTopics(hs, bs);
  }

  /** A highlight text with a line break escapes its indentation: the builder
      writes its second line at depth 0, so it becomes a branch of the root and
      the highlights after it nest under it. For chapter "C" holding
      "first\nsecond" and then "x", the root's branches are "C" (holding only
      "first") and "second" (holding "x"), where `OutlineRoundTrip` promises
      the single branch "C" holding both clipped texts. */
  lemma MultiLineHighlightMisnests()
    ensures var hs := [Highlight("first\nsecond", "C"), Highlight("x", "C")];
            Untinted(OutlineTree(OutlineOf("T", hs)))
            == Topic("T", [Topic("C", [Topic("first", [])]), Topic("second", [Topic("x", [])])])
  {
    var hs := [Highlight("first\nsecond", "C"), Highlight("x", "C")];
    MultiLineText(hs);
    var ls := ["T", "\tC", "\t\tfirst", "second", "\t\tx"];
    MultiLineLines(ls);
    MultiLineItems(ls);
    MultiLineForest(Items(ls)[1..]);
  }

  /** The outline written for the counterexample, line by line. */
  lemma MultiLineText(hs: seq<Highlight>)
    requires hs == [Highlight("first\nsecond", "C"), Highlight("x", "C")]
    ensures OutlineOf("T", hs) == Unlines(["T", "\tC", "\t\tfirst", "second", "\t\tx"])
  {
    MultiLineChapters(hs);
    var b := Block("C", ["first\nsecond", "x"]);
    assert ChapterBlocks(hs) + LooseBlocks([]) == [b];
    BlocksLinesOne(b);
    MultiLineBlock(b);
    assert OutlineOf("T", hs) == Unlines(["T", "\tC", "\t\tfirst\nsecond", "\t\tx"]);
    MultiLineJoin();
  }

  /** The line break inside the highlight splits its line in two. */
  lemma MultiLineJoin()
    ensures Unlines(["T", "\tC", "\t\tfirst\nsecond", "\t\tx"])
         == Unlines(["T", "\tC", "\t\tfirst", "second", "\t\tx"])
  {
    var a, b := ["T", "\tC"], ["\t\tx"];
    var x, y := "\t\tfirst", "second";
    assert x + "\n" + y == "\t\tfirst\nsecond";
    UnlinesBreak(a, x, y, b);
    assert a + [x + "\n" + y] + b == ["T", "\tC", "\t\tfirst\nsecond", "\t\tx"];
    assert a + [x, y] + b == ["T", "\tC", "\t\tfirst", "second", "\t\tx"];
  }

  /** A line holding a line break is written as the two lines around it. */
  lemma UnlinesBreak(a: seq<string>, x: string, y: string, b: seq<string>)
    ensures Unlines(a + [x + "\n" + y] + b) == Unlines(a + [x, y] + b)
  {
    UnlinesAppend(a + [x + "\n" + y], b);
    UnlinesAppend(a + [x, y], b);
    UnlinesSnoc(a, x + "\n" + y);
    UnlinesSnoc(a + [x], y);
    UnlinesSnoc(a, x);
    assert a + [x, y] == a + [x] + [y];
  }

  /** The counterexample's grouping: one chapter "C" holding both highlights. */
  lemma MultiLineChapters(hs: seq<Highlight>)
    requires hs == [Highlight("first\nsecond", "C"), Highlight("x", "C")]
    ensures EntryOrder(ChapterOrder(hs)) == ["C"]
    ensures InChapter(hs, "C") == hs && InChapter(hs, "") == []
    ensures Clips(hs) == ["first\nsecond", "x"]
  {
    var c := "C";
    assert c != [];
    assert hs[..1] == [hs[0]] && hs[..1][..0] == [];
    assert ChapterOrder(hs[..1]) == [c];
    assert ChapterOrder(hs) == [c];
    assert !IsArrayIndex(c) by { assert c[0] == 'C'; }
    assert Filter([c], IsArrayIndex) == [];
    assert Filter([c], NotArrayIndex) == [c];
    assert hs[0].text != [] && hs[1].text != [];
  }

  /** The lines of the counterexample's chapter block. */
  lemma MultiLineBlock(b: Block)
    requires b == Block("C", ["first\nsecond", "x"])
    ensures BlockLines(b) == ["\tC", "\t\tfirst\nsecond", "\t\tx"]
  {
    assert Repeat('\t', 1) == "\t";
    assert Repeat('\t', 2) == "\t\t";
    assert Indent(1, b.head) == "\tC";
    assert Indent(2, b.leaves[0]) == "\t\tfirst\nsecond";
    assert Indent(2, b.leaves[1]) == "\t\tx";
    assert LeafLines(b.leaves) == [Indent(2, b.leaves[0]), Indent(2, b.leaves[1])];
    assert BlockLines(b) == [Indent(1, b.head)] + LeafLines(b.leaves);
  }

  /** A one-line word with visible ends is its own trimmed label, at depth 0. */
  lemma PlainWord(x: string)
    requires x != [] && !IsSpace(x[0]) && !IsSpace(x[|x| - 1]) && '\n' !in x
    ensures Piece(x) && Trim(x) == x && LineDepth(x) == 0
  {
  }

  /** A word behind `n` tabs is read as that word at depth `n`. */
  lemma TabbedWord(n: nat, x: string, l: string)
    requires 1 <= n && l == Indent(n, x)
    requires x != [] && !IsSpace(x[0]) && !IsSpace(x[|x| - 1]) && '\n' !in x
    ensures '\n' !in l && Trim(l) == x && LineDepth(l) == n
  {
    PlainWord(x);
    IndentedLine(n, x);
  }

  /** Each line of the counterexample outline is kept by the reader. */
  lemma MultiLineLines(ls: seq<string>)
    requires ls == ["T", "\tC", "\t\tfirst", "second", "\t\tx"]
    ensures Lines(Unlines(ls)) == ls
  {
    MultiLineHead(ls);
    MultiLineTail(ls);
    LinesOfUnlines(ls);
  }

  /** The first three lines of the counterexample: the title, the chapter and
      the highlight's first line. */
  lemma MultiLineHead(ls: seq<string>)
    requires ls == ["T", "\tC", "\t\tfirst", "second", "\t\tx"]
    ensures '\n' !in ls[0] && Trim(ls[0]) == "T"
    ensures '\n' !in ls[1] && Trim(ls[1]) == "C" && LineDepth(ls[1]) == 1
    ensures '\n' !in ls[2] && Trim(ls[2]) == "first" && LineDepth(ls[2]) == 2
  {
    PlainWord(ls[0]);
    var c, f := "C", "first";
    assert Indent(1, c) == ls[1] by { assert Repeat('\t', 1) == "\t"; }
    TabbedWord(1, c, ls[1]);
    assert Indent(2, f) == ls[2] by { assert Repeat('\t', 2) == "\t\t"; }
    TabbedWord(2, f, ls[2]);
  }

  /** The last two lines: the highlight's second line, unindented, and the
      next highlight. */
  lemma MultiLineTail(ls: seq<string>)
    requires ls == ["T", "\tC", "\t\tfirst", "second", "\t\tx"]
    ensures '\n' !in ls[3] && Trim(ls[3]) == "second" && LineDepth(ls[3]) == 0
    ensures '\n' !in ls[4] && Trim(ls[4]) == "x" && LineDepth(ls[4]) == 2
  {
    var w, x := "second", "x";
    assert '\n' !in w by { assert forall i :: 0 <= i < |w| ==> w[i] != '\n'; }
    PlainWord(ls[3]);
    assert Indent(2, x) == ls[4] by { assert Repeat('\t', 2) == "\t\t"; }
    TabbedWord(2, x, ls[4]);
  }

  /** The labels and depths the reader gives the counterexample's lines. */
  lemma MultiLineItems(ls: seq<string>)
    requires ls == ["T", "\tC", "\t\tfirst", "second", "\t\tx"]
    ensures Trim(ls[0]) == "T"
    ensures var items := Items(ls)[1..];
            && |items| == 4
            && items[0].text == "C" && items[0].depth == 1
            && items[1].text == "first" && items[1].depth == 2
            && items[2].text == "second" && items[2].depth == 0
            && items[3].text == "x" && items[3].depth == 2
  {
    ItemsAt(ls);
    MultiLineHead(ls);
    MultiLineTail(ls);
  }

  /** Items at depths 1, 2, 0, 2 form two trees of one leaf each. */
  lemma MultiLineForest(items: seq<Item>)
    requires |items| == 4
    requires items[0].depth == 1 && items[1].depth == 2 && items[2].depth == 0 && items[3].depth == 2
    ensures UntintedAll(Forest(items))
            == [Topic(items[0].text, [Topic(items[1].text, [])]), Topic(items[2].text, [Topic(items[3].text, [])])]
  {
    assert RunEnd(items, 1) == 2;
    var first := items[1..2];
    var rest := items[2..];
    assert RunEnd(first, 1) == 1;
    assert first[1..1] == [] && first[1..] == [];
    var n1 := OutlineNode(items[1].text, items[1].color, []);
    assert Forest(first) == [n1];
    assert RunEnd(rest, 1) == 2;
    var leaf := rest[1..2];
    assert RunEnd(leaf, 1) == 1;
    assert leaf[1..1] == [] && leaf[1..] == [] && rest[2..] == [];
    var n3 := OutlineNode(items[3].text, items[3].color, []);
    assert Forest(leaf) == [n3];
    var n2 := OutlineNode(items[2].text, items[2].color, [n3]);
    assert Forest(rest) == [n2];
    var n0 := OutlineNode(items[0].text, items[0].color, [n1]);
    assert Forest(items) == [n0, n2];
    assert UntintedAll([n1]) == [Untinted(n1)];
    assert UntintedAll([n3]) == [Untinted(n3)];
    UntintedAllCons(n0, [n2]);
    assert [n0] + [n2] == [n0, n2];
  }

  // ---------------------------------------------------------------------------
  // Making a map from a book

  /** `createFromBook`: nothing happens unless the book exists and has
      highlights; otherwise the highlights are grouped, the outline is written
      and parsed, and the new map (linked to the book, titled after it) is
      saved. The grouping is the page's own: a chapter named like an inherited
      property makes it throw before anything is saved. The new id and the
      creation time are parameters. */
  method CreateFromBook(store: Store, bookId: string, newId: string, createdAt: string)
    returns (made: Option<MindMap>)
    modifies store
    ensures var book := old(store.GetBook(bookId));
            made.None? <==>
              || book.None? || book.value.highlights == []
              || exists i :: 0 <= i < |book.value.highlights| && book.value.highlights[i].chapter in InheritedNames
    ensures made.None? ==> store.books == old(store.books) && store.maps == old(store.maps)
    ensures made.Some? ==>
              var b := old(store.GetBook(bookId)).value;
              var text := OutlineOf(b.title, b.highlights);
              && made.value == MindMap(newId, Some(b.id), "Mind Map: " + b.title, createdAt, text, OutlineTree(text))
              && store.maps == Upsert(old(store.maps), MapKey, made.value)
              && store.books == old(store.books)
              && store.GetMindMap(newId) == made
  {
    var book := store.GetBook(bookId);
    if book.None? || |book.value.highlights| == 0 {
      return None;
    }
    var b := book.value;
    var grouping := GroupHighlightsAsWritten(b.highlights);
    if grouping.None? {
      return None;
    }
    var text := BuildOutline(b.title, b.highlights);
    var root := Parser.ParseOutline(text);
    var m := MindMap(newId, Some(b.id), "Mind Map: " + b.title, createdAt, text, root);
    store.SaveMindMap(m);
    made := Some(m);
  }
}
