/** The outline convention the mind-map builder reads: one node label per
    non-blank line, depth given by leading tabs or by pairs of leading spaces,
    the first non-blank line being the root. This module gives the meaning of
    that convention as functions; module Parser holds the stack-based loop of
    the source and proves that it computes `OutlineTree`. */
module Outline {
  import opened Text
  import opened Seqs

  /** Size of the node colour palette; a node's colour is its line index modulo it. */
  const PaletteSize: nat := 10

  /** Label of the root when the outline holds no visible line. */
  const Placeholder: string := "Central Topic"

  /** A parsed node: label, colour as an index into the palette, ordered children. */
  datatype OutlineNode = OutlineNode(text: string, color: nat, children: seq<OutlineNode>)

  /** One non-blank line of the outline, ready to be placed: its trimmed label,
      its colour and its depth (-1 for the root line). */
  datatype Item = Item(text: string, color: nat, depth: int)

  /** `text.split('\n').filter(l => l.trim())`, with the filter written out. */
  function NonBlank(ls: seq<string>): (r: seq<string>)
    ensures |r| <= |ls|
  {
    if ls == [] then []
    else (if Trim(ls[0]) != [] then [ls[0]] else []) + NonBlank(ls[1..])
  }

  /** Every line the filter keeps has a non-empty trimmed label. */
  lemma {:induction false} NonBlankKeepsVisible(ls: seq<string>)
    ensures forall i :: 0 <= i < |NonBlank(ls)| ==> Trim(NonBlank(ls)[i]) != []
  {
    if ls != [] {
      NonBlankKeepsVisible(ls[1..]);
    }
  }

  function Lines(text: string): seq<string> {
    NonBlank(Split(text))
  }

  /** Depth of a non-root line: its number of leading tabs when that is positive,
      else half its number of leading spaces, rounded down; 0 for a blank line. */
  function LineDepth(line: string): nat {
    if IsBlank(line) then 0
    else
      var tabs := LeadingCount(line, '\t');
      if tabs > 0 then tabs else LeadingCount(line, ' ') / 2
  }

  /** The item for the visible line at index `k`. */
  function ItemOf(line: string, k: nat): Item {
    Item(Trim(line), k % PaletteSize, if k == 0 then -1 else LineDepth(line))
  }

  function Items(lines: seq<string>): (items: seq<Item>)
    ensures |items| == |lines|
  {
    if lines == [] then []
    else Items(lines[..|lines| - 1]) + [ItemOf(lines[|lines| - 1], |lines| - 1)]
  }

  lemma {:induction false} ItemsAt(lines: seq<string>)
    ensures forall k :: 0 <= k < |lines| ==> Items(lines)[k] == ItemOf(lines[k], k)
  {
    if lines != [] {
      var init := lines[..|lines| - 1];
      ItemsAt(init);
      forall k | 0 <= k < |lines| ensures Items(lines)[k] == ItemOf(lines[k], k) {
        if k < |init| {
          assert lines[k] == init[k];
        }
      }
    }
  }

  lemma ItemIndex(lines: seq<string>, k: nat)
    requires k < |lines|
    ensures Items(lines)[k] == ItemOf(lines[k], k)
  {
    ItemsAt(lines);
  }

  /** First index at or after `j` whose item is not deeper than the first item:
      the end of the run of lines the first item owns. */
  function RunEnd(items: seq<Item>, j: nat): (e: nat)
    requires 1 <= j <= |items|
    ensures j <= e <= |items|
    ensures forall k :: j <= k < e ==> items[k].depth > items[0].depth
    ensures e == |items| || items[e].depth <= items[0].depth
    decreases |items| - j
  {
    if j == |items| || items[j].depth <= items[0].depth then j else RunEnd(items, j + 1)
  }

  /** The forest an item sequence denotes: the first item is a tree whose
      children are the forest of the run of deeper items after it; the items
      after that run form the following trees. */
  function Forest(items: seq<Item>): seq<OutlineNode>
    decreases |items|
  {
    if items == [] then []
    else
      var e := RunEnd(items, 1);
      [OutlineNode(items[0].text, items[0].color, Forest(items[1..e]))] + Forest(items[e..])
  }

  /** The tree an outline text denotes. */
  function OutlineTree(text: string): OutlineNode {
    var lines := Lines(text);
    if lines == [] then OutlineNode(Placeholder, 0, [])
    else OutlineNode(Trim(lines[0]), 0, Forest(Items(lines)[1..]))
  }

  /** Labels and colours of a tree in pre-order (node, then each child's subtree). */
  function Preorder(t: OutlineNode): seq<(string, nat)>
    decreases t
  {
    [(t.text, t.color)] + PreorderForest(t.children)
  }

  function PreorderForest(ts: seq<OutlineNode>): seq<(string, nat)>
    decreases ts
  {
    if ts == [] then [] else Preorder(ts[0]) + PreorderForest(ts[1..])
  }

  function Keys(items: seq<Item>): seq<(string, nat)> {
    seq(|items|, k requires 0 <= k < |items| => (items[k].text, items[k].color))
  }

  lemma PreorderForestCons(t: OutlineNode, ts: seq<OutlineNode>)
    ensures PreorderForest([t] + ts) == Preorder(t) + PreorderForest(ts)
  {
    assert ([t] + ts)[1..] == ts;
  }

  /** The forest keeps every item, once, in order: its pre-order walk lists the
      items' labels and colours exactly as they come. */
  lemma {:induction false} PreorderOfForest(items: seq<Item>)
    ensures PreorderForest(Forest(items)) == Keys(items)
    decreases |items|
  {
    if items != [] {
      var e := RunEnd(items, 1);
      var head := OutlineNode(items[0].text, items[0].color, Forest(items[1..e]));
      PreorderForestCons(head, Forest(items[e..]));
      PreorderOfForest(items[1..e]);
      PreorderOfForest(items[e..]);
      KeysSplit(items, e);
    }
  }

  lemma KeysSplit(items: seq<Item>, e: nat)
    requires 1 <= e <= |items|
    ensures Keys(items) == [(items[0].text, items[0].color)] + Keys(items[1..e]) + Keys(items[e..])
  {
    assert Keys(items) == [(items[0].text, items[0].color)] + Keys(items[1..e]) + Keys(items[e..]);
  }

  /** The two checks inside the source's loop — a line with no visible character
      gets depth 0, an empty trimmed label is skipped — never apply: every line
      that reaches the loop has a visible character and a non-empty label. */
  lemma ParseGuardsNeverFire(text: string)
    ensures forall l :: l in Lines(text) ==> !IsBlank(l) && Trim(l) != []
  {
    NonBlankKeepsVisible(Split(text));
    forall l | l in Lines(text) ensures !IsBlank(l) && Trim(l) != [] {
      TrimEmptyIffBlank(l);
    }
  }

  lemma {:induction false} NonBlankOfBlanks(ls: seq<string>)
    requires forall i :: 0 <= i < |ls| ==> IsBlank(ls[i])
    ensures NonBlank(ls) == []
  {
    if ls != [] {
      TrimEmptyIffBlank(ls[0]);
      NonBlankOfBlanks(ls[1..]);
    }
  }

  /** Empty or all-blank text parses to a lone placeholder root. */
  lemma BlankTextParsesToPlaceholder(text: string)
    requires IsBlank(text)
    ensures OutlineTree(text) == OutlineNode(Placeholder, 0, [])
  {
    var pieces := Split(text);
    forall i | 0 <= i < |pieces| ensures IsBlank(pieces[i]) {
      forall j | 0 <= j < |pieces[i]| ensures IsSpace(pieces[i][j]) {
        SplitPieceChars(text, i, pieces[i][j]);
      }
    }
    NonBlankOfBlanks(pieces);
  }

  /** Otherwise the root is the first visible line, trimmed, and a pre-order
      walk meets every visible line, trimmed, once each and in order, the line
      at index k (among visible lines) carrying colour k mod 10. */
  lemma PreorderOfParse(text: string)
    requires Lines(text) != []
    ensures var lines := Lines(text);
            Preorder(OutlineTree(text))
            == seq(|lines|, k requires 0 <= k < |lines| => (Trim(lines[k]), k % PaletteSize))
  {
    PreorderOfLines(Lines(text));
  }

  lemma PreorderOfLines(lines: seq<string>)
    requires lines != []
    ensures Preorder(OutlineNode(Trim(lines[0]), 0, Forest(Items(lines)[1..])))
            == seq(|lines|, k requires 0 <= k < |lines| => (Trim(lines[k]), k % PaletteSize))
  {
    var items := Items(lines);
    var forest := Forest(items[1..]);
    PreorderOfForest(items[1..]);
    KeysOfItems(lines);
    KeysCons(items);
    assert Keys(items)[0] == (Trim(lines[0]), 0);
    calc {
      Preorder(OutlineNode(Trim(lines[0]), 0, forest));
      [(Trim(lines[0]), 0)] + PreorderForest(forest);
      [(items[0].text, items[0].color)] + Keys(items[1..]);
      Keys(items);
    }
  }

  lemma KeysCons(items: seq<Item>)
    requires items != []
    ensures Keys(items) == [(items[0].text, items[0].color)] + Keys(items[1..])
  {
  }

  lemma KeysOfItems(lines: seq<string>)
    ensures Keys(Items(lines)) == seq(|lines|, k requires 0 <= k < |lines| => (Trim(lines[k]), k % PaletteSize))
  {
    ItemsAt(lines);
  }
}
