/** Searching a text for a line that begins with a given pattern:
    `re.search(r"(?m)^<p>", text)` as a scan, and the same search read off
    the lines of the text. */
module LineSearch {
  import opened Values
  import opened Text

  /** An offset found in a suffix, moved to the enclosing text. */
  function Shift(r: Option<nat>, k: nat): Option<nat> {
    match r
    case None => None
    case Some(j) => Some(j + k)
  }

  /** `re.search(r"(?m)^<p>", s)`: the leftmost line start at which `p` begins. */
  function FindAtLineStart(s: string, bol: bool, p: string): Option<nat>
    decreases |s|
  {
    if bol && StartsWith(s, p) then Some(0)
    else if s == [] then None
    else
      Shift(FindAtLineStart(s[1..], s[0] == '\n', p), 1)
  }

  /** What the search finds is an occurrence of `p`. */
  lemma {:induction false} FindAtLineStartFound(s: string, bol: bool, p: string)
    ensures var r := FindAtLineStart(s, bol, p);
            r.Some? ==> r.value + |p| <= |s| && StartsWith(s[r.value..], p)
    decreases |s|
  {
    if bol && StartsWith(s, p) {
      assert s[0..] == s;
    } else if s != [] {
      FindAtLineStartFound(s[1..], s[0] == '\n', p);
      var r := FindAtLineStart(s[1..], s[0] == '\n', p);
      if r.Some? {
        assert s[1..][r.value..] == s[r.value + 1..];
      }
    }
  }

  /** What the search finds is at a line start: the start of the text when
      that is one, otherwise just after a newline. */
  lemma {:induction false} FindAtLineStartBol(s: string, bol: bool, p: string)
    ensures var r := FindAtLineStart(s, bol, p);
            r.Some? ==> r.value <= |s| && (r.value == 0 ==> bol) && (r.value > 0 ==> s[r.value - 1] == '\n')
    decreases |s|
  {
    if !(bol && StartsWith(s, p)) && s != [] {
      FindAtLineStartBol(s[1..], s[0] == '\n', p);
      var r := FindAtLineStart(s[1..], s[0] == '\n', p);
      if r.Some? && r.value > 0 {
        assert s[1..][r.value - 1] == s[r.value];
      }
    }
  }

  /** Searching from a line start finds nothing only if searching from the
      same place in mid-line finds nothing. */
  lemma BolWeaken(s: string, p: string)
    requires FindAtLineStart(s, true, p).None?
    ensures FindAtLineStart(s, false, p).None?
  {
  }

  /** A search that finds nothing from a line-interior position finds nothing
      from any later position either. */
  lemma {:induction false} FindNoneSuffix(s: string, p: string, b: nat)
    requires FindAtLineStart(s, false, p).None?
    requires b <= |s|
    ensures FindAtLineStart(s[b..], false, p).None?
    decreases b
  {
    if b > 0 {
      if s[0] == '\n' {
        BolWeaken(s[1..], p);
      }
      FindNoneSuffix(s[1..], p, b - 1);
      assert s[1..][b - 1..] == s[b..];
    }
  }

  /** Index of the first line at or after `from` that starts with `p`. */
  function FirstLine(ls: seq<string>, from: nat, p: string): (r: Option<nat>)
    ensures r.Some? ==> from <= r.value < |ls| && StartsWith(ls[r.value], p)
    decreases |ls| - from
  {
    if from >= |ls| then None
    else if StartsWith(ls[from], p) then Some(from)
    else FirstLine(ls, from + 1, p)
  }

  /** `FirstLine` finds the first matching line: none before it matches,
      and when it finds nothing no line from `from` on matches. */
  lemma {:induction false} FirstLineFirst(ls: seq<string>, from: nat, p: string)
    ensures var r := FirstLine(ls, from, p);
            (r.Some? ==> forall k | from <= k < r.value :: !StartsWith(ls[k], p)) &&
            (r.None? ==> forall k | from <= k < |ls| :: !StartsWith(ls[k], p))
    decreases |ls| - from
  {
    if from < |ls| && !StartsWith(ls[from], p) {
      FirstLineFirst(ls, from + 1, p);
    }
  }

  lemma {:induction false} FirstLineShift(ls: seq<string>, j: nat, i: nat, p: string)
    requires j + i <= |ls|
    ensures FirstLine(ls, j + i, p) ==
            Shift(FirstLine(ls[j..], i, p), j)
    decreases |ls| - j - i
  {
    if j + i < |ls| {
      assert ls[j..][i] == ls[j + i];
      FirstLineShift(ls, j, i + 1, p);
    }
  }

  lemma FirstLineDrop(ls: seq<string>, j: nat, p: string)
    requires j <= |ls|
    ensures FirstLine(ls, j, p) ==
            Shift(FirstLine(ls[j..], 0, p), j)
  {
    FirstLineShift(ls, j, 0, p);
  }

  /** Inside a line (no newline in the first `m` characters, not at a line
      start) the search skips ahead. */
  lemma {:induction false} FindSkipRun(u: string, m: nat, p: string)
    requires m <= |u|
    requires NoNewline(u[..m])
    ensures FindAtLineStart(u, false, p) ==
            Shift(FindAtLineStart(u[m..], false, p), m)
    decreases m
  {
    if m > 0 {
      assert u[0] == u[..m][0];
      assert u[1..][..m - 1] == u[..m][1..];
      FindSkipRun(u[1..], m - 1, p);
      assert u[1..][m - 1..] == u[m..];
    }
  }

  /** A line start whose line does not begin with `p`: the search goes on from
      the next line start. */
  lemma FindLineStep(t: string, p: string)
    requires !StartsWith(t, p)
    ensures var n := LineEnd(t);
            FindAtLineStart(t, true, p) ==
              (if n == |t| then None else Shift(FindAtLineStart(t[n + 1..], true, p), n + 1))
  {
    FindLineStepAtNewline(t, p);
    FindLineStepInside(t, p);
  }

  lemma FindLineStepAtNewline(t: string, p: string)
    requires !StartsWith(t, p)
    ensures var n := LineEnd(t);
            n == 0 ==>
            FindAtLineStart(t, true, p) ==
              (if n == |t| then None else Shift(FindAtLineStart(t[n + 1..], true, p), n + 1))
  {
    if t != [] && LineEnd(t) == 0 {
      assert t[0] == '\n';
      FindAtNewline(t, true, p);
    }
  }

  lemma FindAtNewline(u: string, bol: bool, p: string)
    requires u != [] && u[0] == '\n'
    requires !(bol && StartsWith(u, p))
    ensures FindAtLineStart(u, bol, p) == Shift(FindAtLineStart(u[1..], true, p), 1)
  {
  }

  lemma FindLineStepInside(t: string, p: string)
    requires !StartsWith(t, p)
    ensures var n := LineEnd(t);
            n > 0 ==>
            FindAtLineStart(t, true, p) ==
              (if n == |t| then None else Shift(FindAtLineStart(t[n + 1..], true, p), n + 1))
  {
    if LineEnd(t) > 0 {
      FindLineStepIn(t, p, LineEnd(t));
    }
  }

  lemma FindLineStepIn(t: string, p: string, n: nat)
    requires !StartsWith(t, p)
    requires 0 < n == LineEnd(t)
    ensures FindAtLineStart(t, true, p) ==
              (if n == |t| then None else Shift(FindAtLineStart(t[n + 1..], true, p), n + 1))
  {
    LineEndSpec(t);
    FindStep(t, true, p);
    FindCopyFirst(t, n, p);
    FindAfterLine(t, p);
    if n < |t| {
      ShiftShift(FindAtLineStart(t[n + 1..], true, p), 1, n);
    }
  }

  lemma FindStep(t: string, bol: bool, p: string)
    requires t != [] && !(bol && StartsWith(t, p))
    ensures FindAtLineStart(t, bol, p) == Shift(FindAtLineStart(t[1..], t[0] == '\n', p), 1)
  {
  }

  lemma FindCopyFirst(t: string, m: nat, p: string)
    requires 0 < m <= |t| && NoNewline(t[..m])
    ensures Shift(FindAtLineStart(t[1..], t[0] == '\n', p), 1) == Shift(FindAtLineStart(t[m..], false, p), m)
  {
    assert t[0] == t[..m][0];
    assert t[1..][..m - 1] == t[..m][1..];
    FindSkipRun(t[1..], m - 1, p);
    assert t[1..][m - 1..] == t[m..];
    ShiftShift(FindAtLineStart(t[m..], false, p), m - 1, 1);
  }

  /** After the first line, the search goes on from the next line start. */
  lemma FindAfterLine(t: string, p: string)
    ensures var n := LineEnd(t);
            FindAtLineStart(t[n..], false, p) ==
              (if n == |t| then None else Shift(FindAtLineStart(t[n + 1..], true, p), 1))
  {
    var n := LineEnd(t);
    LineEndSpec(t);
    var u := t[n..];
    if n < |t| {
      assert u[1..] == t[n + 1..];
      FindAtNewline(u, false, p);
    } else {
      assert u == [];
    }
  }

  /** The character offset of a line found by `FirstLine`. */
  function LineOffset(ls: seq<string>, r: Option<nat>): Option<nat> {
    match r
    case None => None
    case Some(k) => Some(Offset(ls, k))
  }

  /** The text search for `^p` finds the start of the first line that begins with `p`. */
  lemma {:induction false} FindByLines(t: string, p: string)
    requires LineKey(p)
    ensures FindAtLineStart(t, true, p) == LineOffset(Lines(t), FirstLine(Lines(t), 0, p))
    decreases |t|
  {
    var ls := Lines(t);
    var n := LineEnd(t);
    assert ls[0] == t[..n];
    StartsWithFirstLine(t, p);
    if StartsWith(t, p) {
      assert FirstLine(ls, 0, p) == Some(0);
    } else {
      FindLineStep(t, p);
      assert FirstLine(ls, 0, p) == FirstLine(ls, 1, p);
      FirstLineDrop(ls, 1, p);
      if n == |t| {
        assert |ls| == 1;
      } else {
        var rest := t[n + 1..];
        FindByLines(rest, p);
        assert ls[1..] == Lines(rest);
        FindByLinesStep(ls, FirstLine(ls[1..], 0, p));
      }
    }
  }

  /** The same, for a text given by its lines. */
  lemma FindByUnlines(ls: seq<string>, p: string)
    requires |ls| >= 1 && AllNoNewline(ls) && LineKey(p)
    ensures FindAtLineStart(Unlines(ls), true, p) == LineOffset(ls, FirstLine(ls, 0, p))
  {
    LinesOfUnlines(ls);
    FindByLines(Unlines(ls), p);
  }

  lemma FindByLinesStep(ls: seq<string>, r: Option<nat>)
    requires |ls| >= 1
    requires r.Some? ==> r.value < |ls| - 1
    ensures LineOffset(ls, Shift(r, 1)) == Shift(LineOffset(ls[1..], r), |ls[0]| + 1)
  {
  }

  lemma ShiftAtLeast(r: Option<nat>, k: nat)
    ensures Shift(r, k).Some? ==> Shift(r, k).value >= k
  {
  }

  lemma ShiftShift(r: Option<nat>, a: nat, b: nat)
    ensures Shift(Shift(r, a), b) == Shift(r, a + b)
  {
  }

  /** The search from the line start of line `j` finds the first line from
      `j` on that begins with `p`. */
  lemma FindFromLine(ls: seq<string>, j: nat, p: string)
    requires AllNoNewline(ls) && LineKey(p)
    requires j < |ls|
    ensures Shift(FindAtLineStart(Unlines(ls[j..]), true, p), Offset(ls, j)) ==
            LineOffset(ls, FirstLine(ls, j, p))
  {
    FindByUnlines(ls[j..], p);
    FirstLineDrop(ls, j, p);
    ShiftOffsets(ls, j, FirstLine(ls[j..], 0, p));
  }

  /** Offsets of lines of a suffix, moved to the whole text. */
  lemma ShiftOffsets(ls: seq<string>, j: nat, r: Option<nat>)
    requires j <= |ls|
    requires r.Some? ==> r.value <= |ls| - j
    ensures Shift(LineOffset(ls[j..], r), Offset(ls, j)) == LineOffset(ls, Shift(r, j))
  {
    match r
    case None =>
    case Some(k) => ShiftOffsetsSome(ls, j, k);
  }

  lemma ShiftOffsetsSome(ls: seq<string>, j: nat, k: nat)
    requires j + k <= |ls|
    ensures Shift(LineOffset(ls[j..], Some(k)), Offset(ls, j)) == LineOffset(ls, Some(j + k))
  {
    OffsetOfSum(ls, j, k);
    ShiftLineOffset(ls[j..], k, Offset(ls, j));
  }

  lemma OffsetOfSum(ls: seq<string>, j: nat, k: nat)
    requires j + k <= |ls|
    ensures LineOffset(ls, Some(j + k)) == Shift(Some(Offset(ls[j..], k)), Offset(ls, j))
  {
    OffsetAdd(ls, j, k);
  }

  lemma ShiftLineOffset(u: seq<string>, k: nat, a: nat)
    ensures Shift(LineOffset(u, Some(k)), a) == Shift(Some(Offset(u, k)), a)
  {
  }

  lemma FindPastRun(u: string, a: string, w: string, p: string)
    requires u == a + w && NoNewline(a)
    ensures FindAtLineStart(u, false, p) == Shift(FindAtLineStart(w, false, p), |a|)
  {
    SplitAppend(a, w);
    FindSkipRun(u, |a|, p);
  }

  /** From a newline that ends line `j - 1`, the search finds the first line
      from `j` on that begins with `p`. */
  lemma FindAfterNewline(ls: seq<string>, j: nat, w: string, d: nat, p: string)
    requires AllNoNewline(ls) && LineKey(p)
    requires j < |ls| && d + 1 == Offset(ls, j)
    requires w == "\n" + Unlines(ls[j..])
    ensures Shift(FindAtLineStart(w, false, p), d) == LineOffset(ls, FirstLine(ls, j, p))
  {
    var x := Unlines(ls[j..]);
    assert w[1..] == x;
    FindAtNewline(w, false, p);
    ShiftShift(FindAtLineStart(x, true, p), 1, d);
    FindFromLine(ls, j, p);
  }
}
