/** The Tab key in the outline editor: Tab indents the caret's line by one tab,
    Shift+Tab removes one leading tab from it. The handler is a pure transform
    of the editor's text and caret position. `TabKeyAsWritten` is the
    handler's arithmetic exactly as written; `TabKey` is the corrected transform
    that keeps the caret on its line (see the counterexample lemmas). */
module Editor {
  import opened Text

  /** The editor's text and caret after a key press. */
  datatype Edit = Edit(text: string, caret: nat)

  /** Assigning `pos` to a textarea's `selectionStart` and `selectionEnd`: the
      value is converted to an unsigned 32-bit integer and then clamped to the
      text length, so -1 becomes 4294967295 and puts the caret at the end. */
  function SetCaret(text: string, pos: int): (c: nat)
    ensures c <= |text|
    ensures 0 <= pos <= |text| && pos < 0x1_0000_0000 ==> c == pos
    ensures pos == -1 && |text| < 0xFFFF_FFFF ==> c == |text|
  {
    var u := pos % 0x1_0000_0000;
    if u > |text| then |text| else u
  }

  /** The handler's line start: one past the last newline at or before
      `caret - 1`. A negative search position is clamped to 0 by `lastIndexOf`,
      so with the caret at 0 a newline at index 0 is found and the "line start"
      is 1. */
  function SourceLineStart(value: string, caret: nat): (ls: nat)
    requires caret <= |value|
    ensures ls <= |value| && (ls == 0 || value[ls - 1] == '\n')
    ensures caret > 0 ==> ls <= caret && forall j :: ls <= j < caret ==> value[j] != '\n'
    ensures caret == 0 ==> ls == (if value != [] && value[0] == '\n' then 1 else 0)
  {
    LastIndexOf(value, '\n', caret - 1) + 1
  }

  /** Where the line holding the caret begins. */
  function LineStartOf(value: string, caret: nat): (ls: nat)
    requires caret <= |value|
    ensures ls <= caret && (ls == 0 || value[ls - 1] == '\n')
    ensures forall j :: ls <= j < caret ==> value[j] != '\n'
  {
    if caret == 0 then 0 else SourceLineStart(value, caret)
  }

  /** Any index with a newline (or the text start) before it and no newline
      between it and the caret is the caret's line start. */
  lemma LineStartUnique(value: string, caret: nat, ls: nat)
    requires ls <= caret <= |value|
    requires ls == 0 || value[ls - 1] == '\n'
    requires forall j :: ls <= j < caret ==> value[j] != '\n'
    ensures LineStartOf(value, caret) == ls
  {
  }

  /** `handleTabKey` as written. Tab inserts a tab at the line start and moves
      the caret one right; Shift+Tab removes a tab found at the line start and
      moves the caret one left, and otherwise changes nothing. The new caret
      goes through the textarea's setter. */
  function TabKeyAsWritten(value: string, caret: nat, shift: bool): (r: Edit)
    requires caret <= |value|
    ensures r.caret <= |r.text|
    ensures !shift ==> |r.text| == |value| + 1
    ensures shift ==> |r.text| + 1 == |value| || r == Edit(value, caret)
  {
    var ls := SourceLineStart(value, caret);
    if shift then
      if ls < |value| && value[ls] == '\t' then
        var t := value[..ls] + value[ls + 1..];
        Edit(t, SetCaret(t, caret - 1))
      else Edit(value, caret)
    else
      var t := value[..ls] + "\t" + value[ls..];
      Edit(t, SetCaret(t, caret + 1))
  }

  /** The handler as intended: the line start is that of the caret's own line,
      and removing a tab never moves the caret in front of its line. */
  function TabKey(value: string, caret: nat, shift: bool): (r: Edit)
    requires caret <= |value|
    ensures r.caret <= |r.text|
    ensures !shift ==> |r.text| == |value| + 1
    ensures shift ==> |r.text| + 1 == |value| || r == Edit(value, caret)
  {
    var ls := LineStartOf(value, caret);
    if shift then
      if ls < |value| && value[ls] == '\t' then
        Edit(value[..ls] + value[ls + 1..], if caret > ls then caret - 1 else ls)
      else Edit(value, caret)
    else Edit(value[..ls] + "\t" + value[ls..], caret + 1)
  }

  // ---------------------------------------------------------------------------
  // The handler as written

  /** With the caret at the start
      of a line that begins with a tab, Shift+Tab puts the caret on the line
      above: in "a\n\tb" with the caret before the tab (index 2) the result is
      "a\nb" with the caret at index 1, the end of line "a". */
  lemma ShiftTabLeavesLine()
    ensures LineStartOf("a\n\tb", 2) == 2
    ensures TabKeyAsWritten("a\n\tb", 2, true) == Edit("a\nb", 1)
    ensures LineStartOf("a\nb", 1) == 0
  {
    var v := "a\n\tb";
    assert v[1] == '\n';
    LineStartUnique(v, 2, 2);
    var w := "a\nb";
    assert v[..2] + v[3..] == w;
    LineStartUnique(w, 1, 0);
  }

  /** With the caret at the very start of text that begins with a tab,
      Shift+Tab computes the caret -1, which the textarea turns into the end of
      the text: "\ta\nb" becomes "a\nb" with the caret at 3, on the last line. */
  lemma ShiftTabAtTopJumpsToEnd()
    ensures LineStartOf("\ta\nb", 0) == 0
    ensures TabKeyAsWritten("\ta\nb", 0, true) == Edit("a\nb", 3)
    ensures LineStartOf("a\nb", 3) == 2
  {
  }

  /** With the caret at the very start of text whose first line is empty, Tab
      indents the second line instead of the first: "\nb" becomes "\n\tb". */
  lemma TabAtTopIndentsNextLine()
    ensures LineStartOf("\nb", 0) == 0
    ensures TabKeyAsWritten("\nb", 0, false) == Edit("\n\tb", 1)
  {
    var v := "\nb";
    assert v[..1] + "\t" + v[1..] == "\n\tb";
  }

  /** Inserting a tab at a line start keeps that index the line start for the
      caret one further right. */
  lemma InsertKeepsLineStart(value: string, caret: nat, ls: nat)
    requires caret <= |value| && ls <= caret + 1 && ls <= |value|
    requires ls == 0 || value[ls - 1] == '\n'
    requires forall j :: ls <= j < caret ==> value[j] != '\n'
    ensures LineStartOf(value[..ls] + "\t" + value[ls..], caret + 1) == ls
  {
    var t := value[..ls] + "\t" + value[ls..];
    assert t[ls] == '\t';
    forall j | ls <= j < caret + 1 ensures t[j] != '\n' {
      if j > ls {
        assert t[j] == value[j - 1];
      }
    }
    if ls > 0 {
      assert t[ls - 1] == value[ls - 1];
    }
    LineStartUnique(t, caret + 1, ls);
  }

  /** Removing the tab just inserted gives the text back. */
  lemma RemoveInserted(value: string, ls: nat)
    requires ls <= |value|
    ensures var t := value[..ls] + "\t" + value[ls..];
            ls < |t| && t[ls] == '\t' && t[..ls] + t[ls + 1..] == value
  {
    var t := value[..ls] + "\t" + value[ls..];
    assert t[..ls] == value[..ls];
    assert t[ls + 1..] == value[ls..];
  }

  /** Shift+Tab undoes Tab in the handler as written: text and caret come back
      (for any text whose length fits the textarea's 32-bit selection offsets). */
  lemma UndoTabAsWritten(value: string, caret: nat)
    requires caret <= |value| < 0xFFFF_FFFF
    ensures var e := TabKeyAsWritten(value, caret, false);
            0 <= e.caret <= |e.text| && TabKeyAsWritten(e.text, e.caret, true) == Edit(value, caret)
  {
    var ls := SourceLineStart(value, caret);
    var t := value[..ls] + "\t" + value[ls..];
    assert TabKeyAsWritten(value, caret, false) == Edit(t, caret + 1);
    InsertKeepsLineStart(value, caret, ls);
    assert SourceLineStart(t, caret + 1) == ls;
    RemoveInserted(value, ls);
  }

  // ---------------------------------------------------------------------------
  // The handler as intended

  /** Tab gives the caret's line exactly one more leading tab (one level deeper
      in the outline), leaves every other character where it was relative to
      that line, and keeps the caret on the same character of the same line. */
  lemma TabIndentsCaretLine(value: string, caret: nat)
    requires caret <= |value|
    ensures var ls := LineStartOf(value, caret);
            var e := TabKey(value, caret, false);
            && 0 <= e.caret <= |e.text| && |e.text| == |value| + 1
            && e.text[..ls] == value[..ls]
            && e.text[ls + 1..] == value[ls..]
            && LeadingCount(e.text[ls..], '\t') == LeadingCount(value[ls..], '\t') + 1
            && LineStartOf(e.text, e.caret) == ls
            && (caret < |value| ==> e.text[e.caret] == value[caret])
  {
    var ls := LineStartOf(value, caret);
    var t := value[..ls] + "\t" + value[ls..];
    InsertKeepsLineStart(value, caret, ls);
    assert t[ls..] == "\t" + value[ls..];
    assert t[ls + 1..] == value[ls..];
    assert t[..ls] == value[..ls];
    if caret < |value| {
      assert t[caret + 1] == value[caret];
    }
  }

  /** Shift+Tab removes exactly one leading tab from the caret's line when it
      has one and otherwise changes nothing; the caret stays on its line and,
      unless it was at the line start, on the same character. */
  lemma ShiftTabOutdentsCaretLine(value: string, caret: nat)
    requires caret <= |value|
    ensures var ls := LineStartOf(value, caret);
            var e := TabKey(value, caret, true);
            && 0 <= e.caret <= |e.text|
            && LineStartOf(e.text, e.caret) == ls
            && (ls < |value| && value[ls] == '\t' ==>
                  && e.text[..ls] == value[..ls]
                  && e.text[ls..] == value[ls + 1..]
                  && LeadingCount(e.text[ls..], '\t') + 1 == LeadingCount(value[ls..], '\t')
                  && (ls < caret < |value| ==> e.text[e.caret] == value[caret]))
            && (!(ls < |value| && value[ls] == '\t') ==> e == Edit(value, caret))
  {
    var ls := LineStartOf(value, caret);
    if ls < |value| && value[ls] == '\t' {
      var t := value[..ls] + value[ls + 1..];
      var c := if caret > ls then caret - 1 else ls;
      assert TabKey(value, caret, true) == Edit(t, c);
      RemoveKeepsLineStart(value, caret, ls);
      assert value[ls..] == "\t" + value[ls + 1..];
    }
  }


  /** Removing the tab at a line start keeps that index the line start of the
      caret one to the left (or of the line start itself), and shifts the rest
      of the line left by one. */
  lemma RemoveKeepsLineStart(value: string, caret: nat, ls: nat)
    requires ls <= caret <= |value| && ls < |value|
    requires ls == 0 || value[ls - 1] == '\n'
    requires forall j :: ls <= j < caret ==> value[j] != '\n'
    ensures var t := value[..ls] + value[ls + 1..];
            var c := if caret > ls then caret - 1 else ls;
            && c <= |t| && LineStartOf(t, c) == ls
            && t[..ls] == value[..ls] && t[ls..] == value[ls + 1..]
            && (ls < caret < |value| ==> t[c] == value[caret])
  {
    var t := value[..ls] + value[ls + 1..];
    var c := if caret > ls then caret - 1 else ls;
    forall j | ls <= j < c ensures t[j] != '\n' {
      assert t[j] == value[j + 1];
    }
    if ls > 0 {
      assert t[ls - 1] == value[ls - 1];
    }
    LineStartUnique(t, c, ls);
    assert t[..ls] == value[..ls];
    assert t[ls..] == value[ls + 1..];
    if ls < caret < |value| {
      assert t[c] == value[caret];
    }
  }

  /** Shift+Tab undoes Tab. */
  lemma UndoTab(value: string, caret: nat)
    requires caret <= |value|
    ensures var e := TabKey(value, caret, false);
            0 <= e.caret <= |e.text| && TabKey(e.text, e.caret, true) == Edit(value, caret)
  {
    var ls := LineStartOf(value, caret);
    var t := value[..ls] + "\t" + value[ls..];
    assert TabKey(value, caret, false) == Edit(t, caret + 1);
    InsertKeepsLineStart(value, caret, ls);
    RemoveInserted(value, ls);
  }

  /** The two handlers differ only where the counterexamples show: at caret 0
      before a newline, and for Shift+Tab with the caret at its line start. */
  lemma AsWrittenAgreesElsewhere(value: string, caret: nat, shift: bool)
    requires caret <= |value|
    requires caret > 0 || value == [] || value[0] != '\n'
    requires shift ==> caret != LineStartOf(value, caret)
    requires |value| < 0xFFFF_FFFF
    ensures TabKeyAsWritten(value, caret, shift) == TabKey(value, caret, shift)
  {
  }
}
