/** The string operations the mind-map code relies on, with JavaScript's meaning:
    `trim()`, the regex classes `\s`/`\S`, `split('\n')`, `slice(0, n)` and
    `lastIndexOf(c, from)`. Strings are sequences of characters. */
module Text {

  /** White space as ECMAScript defines it for `trim()` and `\s`: the WhiteSpace
      characters (tab, vertical tab, form feed, the byte-order mark and every
      space separator) and the LineTerminator characters. */
  predicate IsSpace(c: char) {
    var n := c as int;
    n == 0x09 || n == 0x0A || n == 0x0B || n == 0x0C || n == 0x0D || n == 0x20
    || n == 0xA0 || n == 0x1680 || (0x2000 <= n <= 0x200A) || n == 0x2028
    || n == 0x2029 || n == 0x202F || n == 0x205F || n == 0x3000 || n == 0xFEFF
  }

  /** `s.search(/\S/) === -1`: no character of `s` is visible. */
  predicate IsBlank(s: string) {
    forall i :: 0 <= i < |s| ==> IsSpace(s[i])
  }

  /** `s` without its leading white space. */
  function TrimStart(s: string): (r: string)
    ensures |r| <= |s|
  {
    if s != [] && IsSpace(s[0]) then TrimStart(s[1..]) else s
  }

  /** `s` without its trailing white space. */
  function TrimEnd(s: string): (r: string)
    ensures |r| <= |s|
  {
    if s != [] && IsSpace(s[|s| - 1]) then TrimEnd(s[..|s| - 1]) else s
  }

  /** `TrimStart` drops a blank prefix and keeps a suffix that starts visibly. */
  lemma {:induction false} TrimStartSpec(s: string)
    ensures var r := TrimStart(s);
            r == s[|s| - |r|..] && IsBlank(s[..|s| - |r|]) && (r == [] || !IsSpace(r[0]))
  {
    if s != [] && IsSpace(s[0]) {
      TrimStartSpec(s[1..]);
      var r := TrimStart(s);
      assert s[1..][..|s| - 1 - |r|] == s[1..|s| - |r|];
    }
  }

  /** `TrimEnd` drops a blank suffix and keeps a prefix that ends visibly. */
  lemma {:induction false} TrimEndSpec(s: string)
    ensures var r := TrimEnd(s);
            r == s[..|r|] && IsBlank(s[|r|..]) && (r == [] || !IsSpace(r[|r| - 1]))
  {
    if s != [] && IsSpace(s[|s| - 1]) {
      var init := s[..|s| - 1];
      TrimEndSpec(init);
      var r := TrimEnd(s);
      assert r == TrimEnd(init);
      assert init[..|r|] == s[..|r|];
      assert init[|r|..] == s[|r|..|s| - 1];
      assert IsBlank(s[|r|..]) by {
        forall i | 0 <= i < |s| - |r| ensures IsSpace(s[|r|..][i]) {
          if i < |s| - 1 - |r| {
            assert s[|r|..][i] == init[|r|..][i];
          }
        }
      }
    }
  }

  /** `s.trim()`: `s` with its leading and trailing white space removed. */
  function Trim(s: string): (r: string)
    ensures |r| <= |s|
  {
    TrimEnd(TrimStart(s))
  }

  /** The trimmed string neither starts nor ends with white space. */
  lemma TrimSpec(s: string)
    ensures var r := Trim(s);
            r == [] || (!IsSpace(r[0]) && !IsSpace(r[|r| - 1]))
  {
    var t := TrimStart(s);
    TrimStartSpec(s);
    TrimEndSpec(t);
    var r := TrimEnd(t);
    if r != [] {
      assert r[0] == t[0];
    }
  }

  /** `l.trim()` is falsy exactly when `l` is blank. */
  lemma TrimEmptyIffBlank(s: string)
    ensures Trim(s) == [] <==> IsBlank(s)
  {
    var t := TrimStart(s);
    var a := |s| - |t|;
    TrimStartSpec(s);
    TrimEndSpec(t);
    if t == [] {
      assert s[..a] == s;
    } else {
      assert s[a] == t[0];
    }
  }

  /** A string that starts with a visible character trims to its `TrimEnd`. */
  lemma TrimOfVisibleStart(s: string)
    requires s != [] && !IsSpace(s[0])
    ensures Trim(s) == TrimEnd(s)
  {
    TrimStartSpec(s);
  }

  /** Trimming ignores white space put in front. */
  lemma {:induction false} TrimStartAfterSpaces(pre: string, s: string)
    requires IsBlank(pre)
    ensures TrimStart(pre + s) == TrimStart(s)
  {
    if pre != [] {
      assert (pre + s)[0] == pre[0] && IsSpace(pre[0]);
      assert (pre + s)[1..] == pre[1..] + s;
      assert IsBlank(pre[1..]) by {
        forall i | 0 <= i < |pre[1..]| ensures IsSpace(pre[1..][i]) { assert pre[1..][i] == pre[i + 1]; }
      }
      TrimStartAfterSpaces(pre[1..], s);
    } else {
      assert pre + s == s;
    }
  }

  /** Number of copies of `c` at the start of `s` (`s.match(/^(c*)/)[1].length`). */
  function LeadingCount(s: string, c: char): (n: nat)
    ensures n <= |s|
  {
    if s != [] && s[0] == c then 1 + LeadingCount(s[1..], c) else 0
  }

  /** `LeadingCount` counts the longest run of `c` that starts `s`. */
  lemma {:induction false} LeadingCountSpec(s: string, c: char)
    ensures var n := LeadingCount(s, c);
            (forall i :: 0 <= i < n ==> s[i] == c) && (n == |s| || s[n] != c)
  {
    if s != [] && s[0] == c {
      LeadingCountSpec(s[1..], c);
    }
  }

  function Repeat(c: char, n: nat): (r: string)
    ensures |r| == n && forall i :: 0 <= i < n ==> r[i] == c
  {
    if n == 0 then [] else [c] + Repeat(c, n - 1)
  }

  lemma {:induction false} LeadingCountAfterRepeat(c: char, n: nat, s: string)
    requires s == [] || s[0] != c
    ensures LeadingCount(Repeat(c, n) + s, c) == n
  {
    if n > 0 {
      assert (Repeat(c, n) + s)[1..] == Repeat(c, n - 1) + s;
      LeadingCountAfterRepeat(c, n - 1, s);
    }
  }

  /** Pieces of `s` between newline characters: `s.split('\n')`. */
  function Split(s: string): (r: seq<string>)
    ensures |r| >= 1
  {
    if s == [] then [[]]
    else if s[0] == '\n' then [[]] + Split(s[1..])
    else
      var rest := Split(s[1..]);
      [[s[0]] + rest[0]] + rest[1..]
  }

  /** No piece holds a newline, and gluing the pieces back with newlines gives `s`. */
  lemma {:induction false} SplitSpec(s: string)
    ensures forall i :: 0 <= i < |Split(s)| ==> '\n' !in Split(s)[i]
    ensures Join(Split(s)) == s
  {
    if s != [] {
      var rest := Split(s[1..]);
      SplitSpec(s[1..]);
      if s[0] == '\n' {
        assert ([[]] + rest)[1..] == rest;
      } else {
        var r := [[s[0]] + rest[0]] + rest[1..];
        assert r[1..] == rest[1..];
        assert forall i :: 1 <= i < |r| ==> r[i] == rest[i];
        if |rest| > 1 {
          assert Join(rest) == rest[0] + "\n" + Join(rest[1..]);
        }
        assert Join(r) == [s[0]] + Join(rest);
        assert [s[0]] + s[1..] == s;
      }
    }
  }

  /** The inverse of `Split`: the pieces glued back with newlines. */
  function Join(pieces: seq<string>): string
    requires |pieces| >= 1
  {
    if |pieces| == 1 then pieces[0] else pieces[0] + "\n" + Join(pieces[1..])
  }

  /** Splitting text made of a newline-free line, a newline and more text
      yields that line first. */
  lemma {:induction false} SplitLine(line: string, rest: string)
    requires '\n' !in line
    ensures Split(line + "\n" + rest) == [line] + Split(rest)
  {
    if line == [] {
      assert line + "\n" + rest == "\n" + rest;
      assert ("\n" + rest)[1..] == rest;
    } else {
      var s := line + "\n" + rest;
      assert s[0] == line[0];
      assert s[1..] == line[1..] + "\n" + rest;
      SplitLine(line[1..], rest);
      assert [line[0]] + line[1..] == line;
    }
  }

  /** Every character of a piece of `Split(s)` is a character of `s`. */
  lemma {:induction false} SplitPieceChars(s: string, i: nat, c: char)
    requires i < |Split(s)| && c in Split(s)[i]
    ensures c in s
  {
    if s != [] {
      var rest := Split(s[1..]);
      if s[0] == '\n' {
        assert Split(s)[i] == ([[]] + rest)[i];
        if i > 0 {
          SplitPieceChars(s[1..], i - 1, c);
        }
      } else if i == 0 {
        if c != s[0] {
          assert c in rest[0];
          SplitPieceChars(s[1..], 0, c);
        }
      } else {
        assert Split(s)[i] == rest[i];
        SplitPieceChars(s[1..], i, c);
      }
    }
  }

  /** `s.slice(0, n)`: the first `n` characters, or all of `s` when it is shorter. */
  function SliceTo(s: string, n: nat): (r: string)
    ensures |r| == if |s| < n then |s| else n
    ensures r == s[..|r|]
  {
    if |s| <= n then s else s[..n]
  }

  /** `s.lastIndexOf(c, from)` for a one-character search string: the largest
      index `k <= from` holding `c`, where `from` is first clamped to `[0, |s|]`;
      -1 when there is none. */
  function LastIndexOf(s: string, c: char, from: int): (k: int)
    ensures -1 <= k < |s|
    ensures k >= 0 ==> s[k] == c && (k <= from || k == 0)
    ensures forall j :: k < j < |s| && j <= (if from < 0 then 0 else from) ==> s[j] != c
  {
    var start := if from < 0 then 0 else if from > |s| then |s| else from;
    LastIndexFrom(s, c, start)
  }

  function LastIndexFrom(s: string, c: char, j: int): (k: int)
    requires -1 <= j <= |s|
    ensures -1 <= k <= j && k < |s|
    ensures k >= 0 ==> s[k] == c
    ensures forall i :: k < i <= j && i < |s| ==> s[i] != c
    decreases j + 1
  {
    if j < 0 then -1
    else if j < |s| && s[j] == c then j
    else LastIndexFrom(s, c, j - 1)
  }
}
