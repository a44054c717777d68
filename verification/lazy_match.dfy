/** The lazy two-line pattern `(?m)^<head>.*?^<tail>` under DOTALL, as the
    regular-expression engine runs it, and the same match read off the lines
    of the text.

    For each candidate `head` line start, from left to right, the lazy `.*?`
    stops at the first later line start that begins with `tail`. The position
    right after `head` is not a line start, since `head` has no newline. */
module LazyMatch {
  import opened Values
  import opened Text
  import opened LineSearch

  /** The scan `re.search` performs: the offset at which `tail` is matched by
      the leftmost successful match, or None. */
  function LazyScan(s: string, bol: bool, head: string, tail: string): Option<nat>
    decreases |s|
  {
    if bol && StartsWith(s, head) && FindAtLineStart(s[|head|..], false, tail).Some? then
      Some(|head| + FindAtLineStart(s[|head|..], false, tail).value)
    else if s == [] then None
    else Shift(LazyScan(s[1..], s[0] == '\n', head, tail), 1)
  }

  /** What the scan finds is an occurrence of `tail` at a line start, that
      is, just after a newline. */
  lemma {:induction false} LazyScanFound(s: string, bol: bool, head: string, tail: string)
    ensures var r := LazyScan(s, bol, head, tail);
            r.Some? ==> r.value + |tail| <= |s| && StartsWith(s[r.value..], tail) &&
                        r.value > 0 && s[r.value - 1] == '\n'
    decreases |s|
  {
    if bol && StartsWith(s, head) && FindAtLineStart(s[|head|..], false, tail).Some? {
      var u := s[|head|..];
      var q := FindAtLineStart(u, false, tail).value;
      FindAtLineStartFound(u, false, tail);
      FindAtLineStartBol(u, false, tail);
      assert u[q..] == s[|head| + q..];
      assert u[q - 1] == s[|head| + q - 1];
    } else if s != [] {
      LazyScanFound(s[1..], s[0] == '\n', head, tail);
      var r := LazyScan(s[1..], s[0] == '\n', head, tail);
      if r.Some? {
        assert s[1..][r.value..] == s[r.value + 1..];
        assert s[1..][r.value - 1] == s[r.value];
      }
    }
  }

  /** Reference reading of the same match: only the FIRST `head` line start
      is tried, and the match is the first `tail` line start after it. */
  function LazyLeftmost(s: string, bol: bool, head: string, tail: string): Option<nat> {
    match FindAtLineStart(s, bol, head)
    case None => None
    case Some(p) =>
      if p + |head| <= |s| then Shift(FindAtLineStart(s[p + |head|..], false, tail), p + |head|)
      else None
  }

  /** A text that starts with a line key does not start with a newline. */
  lemma HeadNotNewline(s: string, head: string)
    requires LineKey(head) && StartsWith(s, head)
    ensures s != [] && s[0] != '\n'
  {
    assert s[0] == s[..|head|][0];
  }

  /** A header whose lazy search fails: no later header can succeed either,
      since every later search looks at a suffix of the same text. */
  lemma LeftmostHeaderFails(s: string, head: string, tail: string)
    requires LineKey(head) && StartsWith(s, head)
    requires FindAtLineStart(s[|head|..], false, tail).None?
    requires LazyScan(s[1..], false, head, tail) == LazyLeftmost(s[1..], false, head, tail)
    ensures LazyScan(s, true, head, tail) == None
    ensures LazyLeftmost(s, true, head, tail) == None
  {
    var h := |head|;
    HeadNotNewline(s, head);
    assert LazyLeftmost(s, true, head, tail) == None by {
      assert FindAtLineStart(s, true, head) == Some(0);
      assert s[0 + h..] == s[h..];
    }
    LeftmostPastHeader(s, head, tail);
    assert LazyScan(s, true, head, tail) == Shift(LazyScan(s[1..], false, head, tail), 1);
  }

  /** Just past a header whose lazy search fails, the first-header reading
      finds nothing: the next header's search covers a suffix of the same text. */
  lemma LeftmostPastHeader(s: string, head: string, tail: string)
    requires StartsWith(s, head) && |head| > 0
    requires FindAtLineStart(s[|head|..], false, tail).None?
    ensures LazyLeftmost(s[1..], false, head, tail) == None
  {
    var h := |head|;
    var f := FindAtLineStart(s[1..], false, head);
    FindAtLineStartFound(s[1..], false, head);
    if f.Some? {
      var p' := f.value;
      assert s[1..][p' + h..] == s[h..][p' + 1..];
      FindNoneSuffix(s[h..], tail, p' + 1);
      LazyLeftmostAt(s[1..], false, p', head, tail);
    }
  }

  /** A position that does not start with `head`: both readings move on. */
  lemma LeftmostShift(s: string, bol: bool, head: string, tail: string)
    requires s != []
    requires !(bol && StartsWith(s, head))
    requires LazyScan(s[1..], s[0] == '\n', head, tail) == LazyLeftmost(s[1..], s[0] == '\n', head, tail)
    ensures LazyScan(s, bol, head, tail) == LazyLeftmost(s, bol, head, tail)
  {
    var h := |head|;
    var first := FindAtLineStart(s[1..], s[0] == '\n', head);
    FindAtLineStartFound(s[1..], s[0] == '\n', head);
    assert FindAtLineStart(s, bol, head) == Shift(first, 1);
    match first
    case None =>
    case Some(p') =>
      assert s[1..][p' + h..] == s[p' + 1 + h..];
  }

  /** The engine's scan and the first-header reading agree: trying later
      headers never helps. */
  lemma {:induction false} LazyScanLeftmost(s: string, bol: bool, head: string, tail: string)
    requires LineKey(head)
    ensures LazyScan(s, bol, head, tail) == LazyLeftmost(s, bol, head, tail)
    decreases |s|
  {
    var h := |head|;
    if bol && StartsWith(s, head) {
      assert FindAtLineStart(s, bol, head) == Some(0);
      assert s[0 + h..] == s[h..];
      if FindAtLineStart(s[h..], false, tail).None? {
        HeadNotNewline(s, head);
        LazyScanLeftmost(s[1..], false, head, tail);
        LeftmostHeaderFails(s, head, tail);
      }
    } else if s != [] {
      LazyScanLeftmost(s[1..], s[0] == '\n', head, tail);
      LeftmostShift(s, bol, head, tail);
    }
  }

  /** The match lies past the end of the first `head`. */
  lemma LazyScanPastHead(t: string, p: nat, head: string, tail: string)
    requires LineKey(head)
    requires FindAtLineStart(t, true, head) == Some(p)
    ensures p + |head| <= |t|
    ensures var z := LazyScan(t, true, head, tail); z.Some? ==> z.value >= p + |head|
  {
    FindAtLineStartFound(t, true, head);
    LazyScanLeftmost(t, true, head, tail);
    LazyLeftmostAt(t, true, p, head, tail);
    ShiftAtLeast(FindAtLineStart(t[p + |head|..], false, tail), p + |head|);
  }

  /*** Line-level reading ***/

  /** Index of the first line starting with `tail` after the first line
      starting with `head`, whichever section it belongs to. */
  function FirstAfter(ls: seq<string>, head: string, tail: string): (r: Option<nat>)
    ensures r.Some? ==> r.value < |ls| && StartsWith(ls[r.value], tail)
  {
    match FirstLine(ls, 0, head)
    case None => None
    case Some(e) => FirstLine(ls, e + 1, tail)
  }

  /** `FirstAfter` finds the first `tail` line after the first `head` line. */
  lemma FirstAfterSpec(ls: seq<string>, head: string, tail: string)
    ensures var r := FirstAfter(ls, head, tail);
            r.Some? <==> exists e, k | 0 <= e < k < |ls| ::
                           StartsWith(ls[e], head) && StartsWith(ls[k], tail)
    ensures var r := FirstAfter(ls, head, tail);
            r.Some? ==> exists e | 0 <= e < r.value ::
                          StartsWith(ls[e], head) &&
                          (forall j | 0 <= j < e :: !StartsWith(ls[j], head)) &&
                          (forall j | e < j < r.value :: !StartsWith(ls[j], tail))
  {
    FirstLineFirst(ls, 0, head);
    var f := FirstLine(ls, 0, head);
    if f.Some? {
      FirstLineFirst(ls, f.value + 1, tail);
    }
  }

  /** With the first header at `p`, the match is the first `tail` line start
      after it. */
  lemma LazyLeftmostAt(t: string, bol: bool, p: nat, head: string, tail: string)
    requires FindAtLineStart(t, bol, head) == Some(p)
    requires p + |head| <= |t|
    ensures LazyLeftmost(t, bol, head, tail) ==
            Shift(FindAtLineStart(t[p + |head|..], false, tail), p + |head|)
  {
  }

  /** After a `head` line, the lazy search for `^tail` lands on the first
      later line that begins with `tail`. */
  lemma FindAfterHeader(ls: seq<string>, e: nat, head: string, tail: string)
    requires AllNoNewline(ls) && LineKey(tail)
    requires e < |ls| && StartsWith(ls[e], head)
    ensures Offset(ls, e) + |head| <= |Unlines(ls)|
    ensures Shift(FindAtLineStart(Unlines(ls)[Offset(ls, e) + |head|..], false, tail),
                  Offset(ls, e) + |head|) ==
            LineOffset(ls, FirstLine(ls, e + 1, tail))
  {
    var h := |head|;
    var q := Offset(ls, e) + h;
    TextFromInsideLine(ls, e, h);
    var a := ls[e][h..];
    var w := if e + 1 == |ls| then [] else "\n" + Unlines(ls[e + 1..]);
    NoNewlineDrop(ls[e], h);
    FindRestOfHeaderLine(ls, e, w, |a| + q, tail);
    FindPastRunShift(Unlines(ls)[q..], a, w, q, tail, LineOffset(ls, FirstLine(ls, e + 1, tail)));
  }

  /** Skipping the newline-free rest of a line moves every result by its length. */
  lemma FindPastRunShift(u: string, a: string, w: string, q: nat, tail: string, goal: Option<nat>)
    requires u == a + w && NoNewline(a)
    requires Shift(FindAtLineStart(w, false, tail), |a| + q) == goal
    ensures Shift(FindAtLineStart(u, false, tail), q) == goal
  {
    FindPastRun(u, a, w, tail);
    ShiftShift(FindAtLineStart(w, false, tail), |a|, q);
  }

  /** From the end of line `e`, the search finds the first later line that
      begins with `tail`. */
  lemma FindRestOfHeaderLine(ls: seq<string>, e: nat, w: string, d: nat, tail: string)
    requires AllNoNewline(ls) && LineKey(tail)
    requires e < |ls| && d == Offset(ls, e) + |ls[e]|
    requires w == if e + 1 == |ls| then [] else "\n" + Unlines(ls[e + 1..])
    ensures Shift(FindAtLineStart(w, false, tail), d) == LineOffset(ls, FirstLine(ls, e + 1, tail))
  {
    if e + 1 < |ls| {
      OffsetNext(ls, e);
      FindAfterNewline(ls, e + 1, w, d, tail);
    }
  }

  /** The first-header reading, read off the lines. */
  lemma LeftmostByUnlines(ls: seq<string>, head: string, tail: string)
    requires |ls| >= 1 && AllNoNewline(ls) && LineKey(head) && LineKey(tail)
    ensures LazyLeftmost(Unlines(ls), true, head, tail) == LineOffset(ls, FirstAfter(ls, head, tail))
  {
    var t := Unlines(ls);
    FindByUnlines(ls, head);
    match FirstLine(ls, 0, head)
    case None =>
    case Some(e) =>
      assert FindAtLineStart(t, true, head) == Some(Offset(ls, e));
      LeftmostAtHeaderLine(ls, e, head, tail);
      assert FirstAfter(ls, head, tail) == FirstLine(ls, e + 1, tail);
  }

  lemma LeftmostAtHeaderLine(ls: seq<string>, e: nat, head: string, tail: string)
    requires AllNoNewline(ls) && LineKey(tail)
    requires e < |ls| && StartsWith(ls[e], head)
    requires FindAtLineStart(Unlines(ls), true, head) == Some(Offset(ls, e))
    ensures LazyLeftmost(Unlines(ls), true, head, tail) == LineOffset(ls, FirstLine(ls, e + 1, tail))
  {
    FindAfterHeader(ls, e, head, tail);
    LazyLeftmostAt(Unlines(ls), true, Offset(ls, e), head, tail);
  }

  /** The engine's match, read off the lines: the line start of the first
      `tail` line after the first `head` line. */
  lemma LazyScanByUnlines(ls: seq<string>, head: string, tail: string)
    requires |ls| >= 1 && AllNoNewline(ls) && LineKey(head) && LineKey(tail)
    ensures LazyScan(Unlines(ls), true, head, tail) == LineOffset(ls, FirstAfter(ls, head, tail))
  {
    LazyScanLeftmost(Unlines(ls), true, head, tail);
    LeftmostByUnlines(ls, head, tail);
  }
}
