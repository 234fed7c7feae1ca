/** How the builder turns a book into outline text: the book's title as the
    first line; then, for each chapter in the key order of the grouping object,
    the chapter at one tab and its highlights' first 80 characters at two tabs;
    then the highlights with no chapter at one tab. The grouping object is a
    plain object, so its keys come out in `Object.entries` order, and chapter
    names that are also inherited property names break it. */
module Synthesis {
  import opened Seqs
  import opened Text
  import opened Outline
  import opened Store

  /** How many characters of a highlight go into its outline line. */
  const ClipLength: nat := 80

  /** The property names every plain object inherits from `Object.prototype`.
      Reading one of them off `{}` gives an inherited function or object, not
      `undefined`. */
  const InheritedNames: set<string> := {
    "constructor", "__proto__", "hasOwnProperty", "isPrototypeOf",
    "propertyIsEnumerable", "toString", "valueOf", "toLocaleString",
    "__defineGetter__", "__defineSetter__", "__lookupGetter__", "__lookupSetter__"
  }

  // ---------------------------------------------------------------------------
  // Grouping highlights by chapter

  /** Chapter names in order of first appearance; the empty chapter ("no
      chapter") is not a key. */
  function ChapterOrder(hs: seq<Highlight>): seq<string> {
    if hs == [] then []
    else
      var keys := ChapterOrder(hs[..|hs| - 1]);
      var ch := hs[|hs| - 1].chapter;
      if ch != "" && ch !in keys then keys + [ch] else keys
  }

  /** The highlights of chapter `ch`, in order. */
  function InChapter(hs: seq<Highlight>, ch: string): (r: seq<Highlight>)
    ensures |r| <= |hs|
  {
    if hs == [] then []
    else InChapter(hs[..|hs| - 1], ch) + (if hs[|hs| - 1].chapter == ch then [hs[|hs| - 1]] else [])
  }

  /** The grouping object: its keys in insertion order, the array under each
      key, and the list of highlights with no chapter. */
  datatype Grouping = Grouping(keys: seq<string>, groups: map<string, seq<Highlight>>, loose: seq<Highlight>)

  function Grouped(hs: seq<Highlight>): Grouping {
    var keys := ChapterOrder(hs);
    Grouping(keys, map k | k in keys :: InChapter(hs, k), InChapter(hs, ""))
  }

  lemma ChapterOrderStep(hs: seq<Highlight>, i: nat)
    requires i < |hs|
    ensures var keys := ChapterOrder(hs[..i]);
            var ch := hs[i].chapter;
            ChapterOrder(hs[..i + 1]) == if ch != "" && ch !in keys then keys + [ch] else keys
  {
    assert hs[..i + 1][..i] == hs[..i];
  }

  lemma InChapterStep(hs: seq<Highlight>, i: nat, ch: string)
    requires i < |hs|
    ensures InChapter(hs[..i + 1], ch) == InChapter(hs[..i], ch) + (if hs[i].chapter == ch then [hs[i]] else [])
  {
    assert hs[..i + 1][..i] == hs[..i];
  }

  /** The keys are exactly the non-empty chapters that occur, each once. */
  lemma {:induction false} ChapterOrderSpec(hs: seq<Highlight>)
    ensures forall k :: k in ChapterOrder(hs) <==> k != "" && exists i :: 0 <= i < |hs| && hs[i].chapter == k
    ensures forall a, b :: 0 <= a < b < |ChapterOrder(hs)| ==> ChapterOrder(hs)[a] != ChapterOrder(hs)[b]
  {
    if hs != [] {
      var init := hs[..|hs| - 1];
      ChapterOrderSpec(init);
      forall k ensures k in ChapterOrder(hs) <==> k != "" && exists i :: 0 <= i < |hs| && hs[i].chapter == k {
        if k != "" && exists i :: 0 <= i < |hs| && hs[i].chapter == k {
          var i :| 0 <= i < |hs| && hs[i].chapter == k;
          if i < |hs| - 1 {
            assert init[i].chapter == k;
          }
        }
        if k in ChapterOrder(init) {
          var i :| 0 <= i < |init| && init[i].chapter == k;
          assert hs[i].chapter == k;
        }
      }
    }
  }

  /** Every highlight of a chapter's group has that chapter and comes from the
      book. */
  lemma {:induction false} InChapterMembers(hs: seq<Highlight>, ch: string)
    ensures forall h :: h in InChapter(hs, ch) ==> h in hs && h.chapter == ch
  {
    if hs != [] {
      InChapterMembers(hs[..|hs| - 1], ch);
      assert forall h :: h in hs[..|hs| - 1] ==> h in hs;
    }
  }

  /** No highlight is lost: each is in the group of its own chapter, or in the
      loose list when it has none. */
  lemma {:induction false} InChapterComplete(hs: seq<Highlight>)
    ensures forall i :: 0 <= i < |hs| ==> hs[i] in InChapter(hs, hs[i].chapter)
  {
    if hs != [] {
      var init := hs[..|hs| - 1];
      InChapterComplete(init);
      forall i | 0 <= i < |hs| ensures hs[i] in InChapter(hs, hs[i].chapter) {
        if i < |init| {
          assert init[i] == hs[i];
          assert InChapter(init, hs[i].chapter) <= InChapter(hs, hs[i].chapter);
        }
      }
    }
  }

  /** One step of the grouping loop on the grouping so far. */
  function AddHighlight(g: Grouping, h: Highlight): Grouping {
    var ch := h.chapter;
    if ch == "" then g.(loose := g.loose + [h])
    else if ch in g.groups then g.(groups := g.groups[ch := g.groups[ch] + [h]])
    else g.(keys := g.keys + [ch], groups := g.groups[ch := [h]])
  }

  /** Grouping one more highlight is one more step. */
  lemma GroupedStep(hs: seq<Highlight>, i: nat)
    requires i < |hs|
    ensures Grouped(hs[..i + 1]) == AddHighlight(Grouped(hs[..i]), hs[i])
  {
    var g' := Grouped(hs[..i + 1]);
    var a := AddHighlight(Grouped(hs[..i]), hs[i]);
    ChapterOrderStep(hs, i);
    InChapterStep(hs, i, "");
    NoEmptyKey(hs[..i]);
    assert g'.keys == a.keys && g'.loose == a.loose;
    forall k | k in g'.keys ensures k in a.groups && g'.groups[k] == a.groups[k] {
      GroupedStepAt(hs, i, k);
    }
    assert g'.groups == a.groups;
  }

  lemma GroupedStepAt(hs: seq<Highlight>, i: nat, k: string)
    requires i < |hs| && k in ChapterOrder(hs[..i + 1])
    ensures k in AddHighlight(Grouped(hs[..i]), hs[i]).groups
    ensures InChapter(hs[..i + 1], k) == AddHighlight(Grouped(hs[..i]), hs[i]).groups[k]
  {
    var g := Grouped(hs[..i]);
    var ch := hs[i].chapter;
    ChapterOrderStep(hs, i);
    InChapterStep(hs, i, k);
    NoEmptyKey(hs[..i + 1]);
    if k != ch {
      assert k in g.keys;
    } else if ch !in g.keys {
      NewChapterEmpty(hs[..i], ch);
    }
  }

  lemma {:induction false} NoEmptyKey(hs: seq<Highlight>)
    ensures "" !in ChapterOrder(hs)
  {
    if hs != [] {
      NoEmptyKey(hs[..|hs| - 1]);
    }
  }

  /** A chapter that is not yet a key has no highlights yet. */
  lemma NewChapterEmpty(hs: seq<Highlight>, ch: string)
    requires ch != "" && ch !in ChapterOrder(hs)
    ensures InChapter(hs, ch) == []
  {
    ChapterOrderSpec(hs);
    InChapterMembers(hs, ch);
  }

  /** The grouping loop of the builder as intended: a highlight with a chapter
      goes into that chapter's array, created the first time the chapter is
      seen; one without goes into the loose list. */
  method GroupHighlights(hs: seq<Highlight>) returns (g: Grouping)
    ensures g == Grouped(hs)
  {
    var keys: seq<string> := [];
    var groups: map<string, seq<Highlight>> := map[];
    var loose: seq<Highlight> := [];
    for i := 0 to |hs|
      invariant Grouping(keys, groups, loose) == Grouped(hs[..i])
    {
      var h := hs[i];
      ghost var before := Grouping(keys, groups, loose);
      GroupedStep(hs, i);
      if h.chapter != "" {
        if h.chapter !in groups {
          groups := groups[h.chapter := []];
          keys := keys + [h.chapter];
        }
        groups := groups[h.chapter := groups[h.chapter] + [h]];
      } else {
        loose := loose + [h];
      }
      assert Grouping(keys, groups, loose) == AddHighlight(before, h);
    }
    assert hs[..|hs|] == hs;
    g := Grouping(keys, groups, loose);
  }

  /** While no inherited name has come up, none is a key of the grouping. */
  lemma NoInheritedKey(hs: seq<Highlight>, i: nat)
    requires i < |hs| && forall j :: 0 <= j < i ==> hs[j].chapter !in InheritedNames
    ensures hs[i].chapter in InheritedNames ==> hs[i].chapter !in Grouped(hs[..i]).groups
  {
    ChapterOrderSpec(hs[..i]);
  }

  /** The grouping loop as written. The grouping object is a plain `{}`, so
      reading `chapters[name]` for an inherited name gives the inherited value,
      which is truthy: no array is created, and the following `push` on the
      inherited value fails with a TypeError (modelled as `None`). */
  method GroupHighlightsAsWritten(hs: seq<Highlight>) returns (r: Option<Grouping>)
    ensures r.None? <==> exists i :: 0 <= i < |hs| && hs[i].chapter in InheritedNames
    ensures r.Some? ==> r.value == Grouped(hs)
  {
    var g := Grouping([], map[], []);
    for i := 0 to |hs|
      invariant g == Grouped(hs[..i])
      invariant forall j :: 0 <= j < i ==> hs[j].chapter !in InheritedNames
    {
      GroupedStep(hs, i);
      NoInheritedKey(hs, i);
      var ok;
      ok, g := AddAsWritten(g, hs[i]);
      if !ok {
        return None;
      }
    }
    assert hs[..|hs|] == hs;
    r := Some(g);
  }

  /** One pass of the grouping loop as written. Only a chapter that is not yet
      a key and not an inherited name gets a fresh array; pushing onto an
      inherited value fails (`ok` false). */
  method AddAsWritten(g: Grouping, h: Highlight) returns (ok: bool, g': Grouping)
    requires h.chapter in InheritedNames ==> h.chapter !in g.groups
    ensures ok <==> h.chapter !in InheritedNames
    ensures ok ==> g' == AddHighlight(g, h)
  {
    var keys, groups, loose := g.keys, g.groups, g.loose;
    if h.chapter != "" {
      // `if (!chapters[h.chapter]) chapters[h.chapter] = []`
      if !(h.chapter in groups || h.chapter in InheritedNames) {
        groups := groups[h.chapter := []];
        keys := keys + [h.chapter];
      }
      // `chapters[h.chapter].push(h)`: an inherited value has no `push`
      if h.chapter !in groups {
        return false, g;
      }
      groups := groups[h.chapter := groups[h.chapter] + [h]];
      if h.chapter !in g.groups {
        assert [] + [h] == [h];
        assert groups == g.groups[h.chapter := [h]];
      }
    } else {
      loose := loose + [h];
    }
    ok, g' := true, Grouping(keys, groups, loose);
  }

  // ---------------------------------------------------------------------------
  // The key order of `Object.entries`

  function DigitValue(c: char): nat { if '0' <= c <= '9' then c as nat - '0' as nat else 0 }

  /** The number a string of decimal digits denotes. */
  function DigitsValue(s: string): nat {
    if s == [] then 0 else DigitsValue(s[..|s| - 1]) * 10 + DigitValue(s[|s| - 1])
  }

  /** A key that is an array index: the canonical decimal form ("0", or digits
      with no leading zero) of an integer below 2^32 - 1. Own keys of this kind
      come first in `Object.entries`, in ascending numeric order. */
  predicate IsArrayIndex(s: string) {
    && s != []
    && (forall i :: 0 <= i < |s| ==> '0' <= s[i] <= '9')
    && (s[0] != '0' || |s| == 1)
    && DigitsValue(s) < 0xFFFF_FFFF
  }

  function NotArrayIndex(s: string): bool { !IsArrayIndex(s) }

  /** `x` put into a list ordered by numeric value, before the first larger one. */
  function InsertByValue(x: string, ks: seq<string>): (r: seq<string>)
    ensures |r| == |ks| + 1
  {
    if ks == [] || DigitsValue(x) <= DigitsValue(ks[0]) then [x] + ks
    else [ks[0]] + InsertByValue(x, ks[1..])
  }

  function SortByValue(ks: seq<string>): (r: seq<string>)
    ensures |r| == |ks|
  {
    if ks == [] then [] else InsertByValue(ks[0], SortByValue(ks[1..]))
  }

  ghost predicate AscendingByValue(ks: seq<string>) {
    forall a, b :: 0 <= a < b < |ks| ==> DigitsValue(ks[a]) <= DigitsValue(ks[b])
  }

  ghost predicate AtLeast(v: nat, ks: seq<string>) {
    forall b :: 0 <= b < |ks| ==> v <= DigitsValue(ks[b])
  }

  /** The order `Object.entries` lists an object's keys in, given the order the
      keys were created in: array indices ascending, then the other keys in
      creation order. */
  function EntryOrder(keys: seq<string>): seq<string> {
    SortByValue(Filter(keys, IsArrayIndex)) + Filter(keys, NotArrayIndex)
  }

  lemma {:induction false} InsertByValueKeeps(x: string, ks: seq<string>)
    ensures multiset(InsertByValue(x, ks)) == multiset(ks) + multiset{x}
  {
    if ks != [] && DigitsValue(x) > DigitsValue(ks[0]) {
      InsertByValueKeeps(x, ks[1..]);
      assert ks == [ks[0]] + ks[1..];
    }
  }

  lemma {:induction false} InsertByValueAtLeast(v: nat, x: string, ks: seq<string>)
    requires AtLeast(v, ks) && v <= DigitsValue(x)
    ensures AtLeast(v, InsertByValue(x, ks))
  {
    if ks != [] && DigitsValue(x) > DigitsValue(ks[0]) {
      InsertByValueAtLeast(v, x, ks[1..]);
    }
  }

  lemma {:induction false} InsertByValueSorted(x: string, ks: seq<string>)
    requires AscendingByValue(ks)
    ensures AscendingByValue(InsertByValue(x, ks))
  {
    if ks != [] && DigitsValue(x) > DigitsValue(ks[0]) {
      InsertByValueSorted(x, ks[1..]);
      InsertByValueAtLeast(DigitsValue(ks[0]), x, ks[1..]);
    }
  }

  /** Sorting by value orders the keys and keeps each of them. */
  lemma {:induction false} SortByValueSpec(ks: seq<string>)
    ensures AscendingByValue(SortByValue(ks))
    ensures multiset(SortByValue(ks)) == multiset(ks)
  {
    if ks != [] {
      SortByValueSpec(ks[1..]);
      InsertByValueKeeps(ks[0], SortByValue(ks[1..]));
      InsertByValueSorted(ks[0], SortByValue(ks[1..]));
      assert ks == [ks[0]] + ks[1..];
    }
  }

  /** Together the two filters keep every key once. */
  lemma {:induction false} IndexSplit(keys: seq<string>)
    ensures multiset(Filter(keys, IsArrayIndex)) + multiset(Filter(keys, NotArrayIndex)) == multiset(keys)
  {
    if keys != [] {
      var k := keys[0];
      IndexSplit(keys[1..]);
      assert multiset(keys) == multiset{k} + multiset(keys[1..]) by {
        assert keys == [k] + keys[1..];
      }
      if IsArrayIndex(k) {
        assert Filter(keys, IsArrayIndex) == [k] + Filter(keys[1..], IsArrayIndex);
        assert Filter(keys, NotArrayIndex) == Filter(keys[1..], NotArrayIndex);
      } else {
        assert Filter(keys, IsArrayIndex) == Filter(keys[1..], IsArrayIndex);
        assert Filter(keys, NotArrayIndex) == [k] + Filter(keys[1..], NotArrayIndex);
      }
    }
  }

  /** `Object.entries` lists every key once: the keys that are array indices
      first, in ascending numeric order, then the others in creation order.
      Keys that are not array indices keep their creation order exactly. */
  lemma EntryOrderSpec(keys: seq<string>)
    ensures multiset(EntryOrder(keys)) == multiset(keys)
    ensures var n := |Filter(keys, IsArrayIndex)|;
            && (forall i :: 0 <= i < n ==> IsArrayIndex(EntryOrder(keys)[i]))
            && AscendingByValue(EntryOrder(keys)[..n])
            && EntryOrder(keys)[n..] == Filter(keys, NotArrayIndex)
    ensures (forall i :: 0 <= i < |keys| ==> !IsArrayIndex(keys[i])) ==> EntryOrder(keys) == keys
  {
    var idx := Filter(keys, IsArrayIndex);
    var sorted := SortByValue(idx);
    SortByValueSpec(idx);
    IndexSplit(keys);
    FilterMembers(keys, IsArrayIndex);
    var e := EntryOrder(keys);
    assert e[..|idx|] == sorted;
    assert e[|idx|..] == Filter(keys, NotArrayIndex);
    forall i | 0 <= i < |idx| ensures IsArrayIndex(e[i]) {
      assert e[i] in multiset(idx);
    }
    if forall i :: 0 <= i < |keys| ==> !IsArrayIndex(keys[i]) {
      FilterAllOrNone(keys, NotArrayIndex);
      assert |multiset(idx)| == 0;
    }
  }

  lemma {:induction false} FilterAllOrNone<T>(s: seq<T>, p: T -> bool)
    requires forall i :: 0 <= i < |s| ==> p(s[i])
    ensures Filter(s, p) == s
  {
    if s != [] {
      FilterAllOrNone(s[1..], p);
      assert s == [s[0]] + s[1..];
    }
  }

  /** A book with one highlight filed under the chapter "constructor" cannot be
      turned into a mind map by the builder as written. */
  method ChapterNamedConstructor() returns (r: Option<Grouping>)
    ensures r == None
  {
    var hs := [Highlight("Call me Ishmael.", "constructor")];
    assert hs[0].chapter in InheritedNames;
    r := GroupHighlightsAsWritten(hs);
  }
}
