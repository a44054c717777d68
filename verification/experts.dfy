/** The third rewrite of `_prepare_ini`:
    `re.sub(r"(?m)^(\[Experts\].*?^Enabled=)0", r"\g<1>1", text, count=1, flags=re.DOTALL)`.

    The leftmost match starts at the first `[Experts]` line start; the lazy
    `.*?` (which crosses newlines under DOTALL) stops at the first later line
    start that begins with `Enabled=0`, and that line's `0` becomes `1`. The
    match is not confined to the `[Experts]` section: when that section has no
    `Enabled=0`, the first one of a later section is switched instead. */
module Experts {
  import opened Values
  import opened Text
  import opened LineSearch
  import opened LazyMatch

  const ExpertsHeader: string := "[Experts]"
  const EnabledOff: string := "Enabled=0"
  const EnabledOn: string := "Enabled=1"

  lemma PatternsAreLineKeys()
    ensures LineKey(ExpertsHeader) && LineKey(EnabledOff)
    ensures |ExpertsHeader| == 9 && |EnabledOff| == 9 && |EnabledOn| == 9
  {
  }

  /** The last character of an `Enabled=0` prefix is the `0`. */
  lemma ZeroEndsEnabledOff(u: string)
    requires StartsWith(u, EnabledOff)
    ensures |EnabledOff| <= |u| && u[|EnabledOff| - 1] == '0'
  {
    assert u[..|EnabledOff|][|EnabledOff| - 1] == '0';
  }

  /** The rewritten text: the `0` the match ends with becomes `1`, and
      without a match the text is returned as it is. */
  function EnableExperts(text: string): (r: string)
    ensures |r| == |text|
  {
    match LazyScan(text, true, ExpertsHeader, EnabledOff)
    case None => text
    case Some(z) =>
      LazyScanFound(text, true, ExpertsHeader, EnabledOff);
      ZeroEndsEnabledOff(text[z..]);
      text[z + |EnabledOff| - 1 := '1']
  }

  /** At most one character changes, and only from `0` to `1`. */
  lemma EnableExpertsOneZero(text: string)
    ensures var r := EnableExperts(text);
            forall i | 0 <= i < |text| && r[i] != text[i] :: text[i] == '0' && r[i] == '1'
    ensures var r := EnableExperts(text);
            forall i, j | 0 <= i < j < |text| :: r[i] == text[i] || r[j] == text[j]
  {
    match LazyScan(text, true, ExpertsHeader, EnabledOff)
    case None =>
    case Some(z) =>
      LazyScanFound(text, true, ExpertsHeader, EnabledOff);
      ZeroEndsEnabledOff(text[z..]);
      assert text[z..][|EnabledOff| - 1] == text[z + |EnabledOff| - 1];
  }

  /*** Line-level reading ***/

  /** The line `Enabled=0...` with its leading `Enabled=0` turned into `Enabled=1`. */
  function SwitchOn(l: string): string
    requires StartsWith(l, EnabledOff)
  {
    EnabledOn + l[|EnabledOff|..]
  }

  /** Switching a line on is changing the character at offset 8 to `1`. */
  lemma SwitchOnIsUpdate(l: string)
    requires StartsWith(l, EnabledOff)
    ensures |EnabledOff| - 1 < |l|
    ensures l[|EnabledOff| - 1 := '1'] == SwitchOn(l)
  {
    var r := l[|EnabledOff| - 1 := '1'];
    var s := SwitchOn(l);
    forall i | 0 <= i < |l|
      ensures r[i] == s[i]
    {
      if i < |EnabledOff| {
        assert l[i] == l[..|EnabledOff|][i];
      }
    }
  }

  /** The Experts rewrite line by line: the first line starting `Enabled=0`
      after the first line starting `[Experts]` is switched on, whichever
      section it belongs to; without such a pair nothing changes. */
  function EnableExpertsLines(ls: seq<string>): (r: seq<string>)
    ensures |r| == |ls|
  {
    match FirstAfter(ls, ExpertsHeader, EnabledOff)
    case None => ls
    case Some(k) => ls[k := SwitchOn(ls[k])]
  }

  lemma SwitchOnNoNewline(l: string)
    requires StartsWith(l, EnabledOff) && NoNewline(l)
    ensures NoNewline(SwitchOn(l))
  {
    NoNewlineDrop(l, |EnabledOff|);
    var s := SwitchOn(l);
    forall i | 0 <= i < |s|
      ensures s[i] != '\n'
    {
      if i >= |EnabledOn| {
        assert s[i] == l[|EnabledOff|..][i - |EnabledOn|];
      }
    }
  }

  lemma EnableExpertsLinesNoNewline(ls: seq<string>)
    requires AllNoNewline(ls)
    ensures AllNoNewline(EnableExpertsLines(ls))
  {
    match FirstAfter(ls, ExpertsHeader, EnabledOff)
    case None =>
    case Some(k) => SwitchOnNoNewline(ls[k]);
  }

  /** Without a match the text is unchanged. */
  lemma EnableExpertsNone(t: string, ls: seq<string>)
    requires Unlines(ls) == t
    requires LazyScan(t, true, ExpertsHeader, EnabledOff) == LineOffset(ls, FirstAfter(ls, ExpertsHeader, EnabledOff))
    ensures FirstAfter(ls, ExpertsHeader, EnabledOff).None? ==> EnableExperts(t) == Unlines(EnableExpertsLines(ls))
  {
  }

  /** With a match on line `k`, the switched character is that line's `0`. */
  lemma EnableExpertsSome(t: string, ls: seq<string>)
    requires Unlines(ls) == t
    requires LazyScan(t, true, ExpertsHeader, EnabledOff) == LineOffset(ls, FirstAfter(ls, ExpertsHeader, EnabledOff))
    ensures FirstAfter(ls, ExpertsHeader, EnabledOff).Some? ==> EnableExperts(t) == Unlines(EnableExpertsLines(ls))
  {
    var f := FirstAfter(ls, ExpertsHeader, EnabledOff);
    if f.Some? {
      var k := f.value;
      var c := |EnabledOff| - 1;
      SwitchOnIsUpdate(ls[k]);
      UnlinesUpdate(ls, k, c, '1');
      assert EnableExperts(t) == t[Offset(ls, k) + c := '1'];
    }
  }

  /** The Experts rewrite of the text is the line-level rewrite of its lines. */
  lemma EnableExpertsByLines(t: string)
    ensures EnableExperts(t) == Unlines(EnableExpertsLines(Lines(t)))
  {
    var ls := Lines(t);
    LinesSpec(t);
    PatternsAreLineKeys();
    LazyScanByUnlines(ls, ExpertsHeader, EnabledOff);
    EnableExpertsNone(t, ls);
    EnableExpertsSome(t, ls);
  }

  /** Splitting the rewritten text gives the rewritten lines: the line count
      is preserved, and the only line that changes is the first `Enabled=0`
      line after the first `[Experts]` line, which becomes `Enabled=1...`. */
  lemma EnableExpertsLinesOf(t: string)
    ensures Lines(EnableExperts(t)) == EnableExpertsLines(Lines(t))
    ensures |Lines(EnableExperts(t))| == |Lines(t)|
  {
    EnableExpertsByLines(t);
    LinesSpec(t);
    EnableExpertsLinesNoNewline(Lines(t));
    LinesOfUnlines(EnableExpertsLines(Lines(t)));
  }

  /** Without an `[Experts]` line start nothing changes. */
  lemma EnableExpertsNoHeader(t: string)
    ensures FindAtLineStart(t, true, ExpertsHeader).None? ==> EnableExperts(t) == t
  {
    PatternsAreLineKeys();
    LazyScanLeftmost(t, true, ExpertsHeader, EnabledOff);
  }

  /** With no `Enabled=0` line start anywhere after the first `[Experts]`
      line, the text is left as it is. */
  lemma EnableExpertsNoSwitch(t: string)
    requires FirstAfter(Lines(t), ExpertsHeader, EnabledOff).None?
    ensures EnableExperts(t) == t
  {
    EnableExpertsByLines(t);
    LinesSpec(t);
  }

  /** Everything up to the end of the first `[Experts]` header is untouched. */
  lemma EnableExpertsKeepsHead(t: string)
    ensures var f := FindAtLineStart(t, true, ExpertsHeader);
            f.Some? ==> f.value + |ExpertsHeader| <= |t| &&
                        EnableExperts(t)[..f.value + |ExpertsHeader|] == t[..f.value + |ExpertsHeader|]
  {
    var f := FindAtLineStart(t, true, ExpertsHeader);
    if f.Some? {
      KeepsHeadAt(t, f.value);
    }
  }

  lemma KeepsHeadAt(t: string, p: nat)
    requires FindAtLineStart(t, true, ExpertsHeader) == Some(p)
    ensures p + |ExpertsHeader| <= |t|
    ensures EnableExperts(t)[..p + |ExpertsHeader|] == t[..p + |ExpertsHeader|]
  {
    PatternsAreLineKeys();
    LazyScanPastHead(t, p, ExpertsHeader, EnabledOff);
    KeepsPrefix(t, p + |ExpertsHeader|);
  }

  /** A rewrite whose match lies at or after `m` keeps the first `m` characters. */
  lemma KeepsPrefix(t: string, m: nat)
    requires m <= |t|
    requires var z := LazyScan(t, true, ExpertsHeader, EnabledOff); z.Some? ==> z.value >= m
    ensures EnableExperts(t)[..m] == t[..m]
  {
  }
}
