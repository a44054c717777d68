/** The three regular-expression rewrites `_prepare_ini` applies to the text of
    the terminal's `common.ini`.

    Each rewrite is modelled the way the regular-expression engine runs it: a
    left-to-right scan over the text in which `bol` records whether the current
    position is a line start (the start of the text, or just after a newline),
    which is what `^` tests under the MULTILINE flag. Lemmas then relate each
    scan to a line-level description over `Lines(text)`. */
module IniRewrite {
  import opened Values
  import opened Text

  const LoginKey: string := "Login="
  const ServerKey: string := "Server="

  lemma KeysAreLineKeys()
    ensures LineKey(LoginKey) && LineKey(ServerKey)
  {
  }

  /*** Login= and Server= ***/

  /** `re.sub(r"(?m)^<key>.*", repl, s)`: wherever a line starts with `key`,
      the key and the rest of that line (`.` stops at a newline) are replaced by
      `repl`, taken literally. */
  function SubScan(s: string, bol: bool, key: string, repl: string): string
    decreases |s|, if bol then 1 else 0
  {
    if bol && StartsWith(s, key) then
      repl + SubScan(s[LineEnd(s)..], false, key, repl)
    else if s == [] then []
    else [s[0]] + SubScan(s[1..], s[0] == '\n', key, repl)
  }

  /** The line-level meaning of the substitution for one line. */
  function RewriteLine(l: string, key: string, repl: string): string {
    if StartsWith(l, key) then repl else l
  }

  function RewriteLines(ls: seq<string>, key: string, repl: string): (r: seq<string>)
    ensures |r| == |ls|
    ensures forall k | 0 <= k < |ls| :: r[k] == RewriteLine(ls[k], key, repl)
  {
    seq(|ls|, k requires 0 <= k < |ls| => RewriteLine(ls[k], key, repl))
  }

  /** `if value is not None: text = re.sub(r"(?m)^<key>.*", f"<key>{value}", text)` */
  function SetKey(text: string, key: string, value: Option<Scalar>): string {
    match value
    case None => text
    case Some(v) => SubScan(text, true, key, key + Render(v))
  }

  /** A run of non-newline characters in mid-line is copied unchanged. */
  lemma {:induction false} SubScanCopyRun(s: string, m: nat, key: string, repl: string)
    requires m <= |s|
    requires NoNewline(s[..m])
    ensures SubScan(s, false, key, repl) == s[..m] + SubScan(s[m..], false, key, repl)
    decreases m
  {
    if m > 0 {
      assert s[0] == s[..m][0];
      assert s[1..][..m - 1] == s[..m][1..];
      SubScanCopyRun(s[1..], m - 1, key, repl);
      assert s[1..][m - 1..] == s[m..];
      assert s[..m] == [s[0]] + s[1..][..m - 1];
    }
  }


  /** One line of the scan: the first line is rewritten, then the scan goes on
      from the next line start. */
  lemma SubScanLine(t: string, key: string, repl: string)
    requires LineKey(key)
    ensures var n := LineEnd(t);
            SubScan(t, true, key, repl) ==
              RewriteLine(t[..n], key, repl) + SubScanRest(t, key, repl)
  {
    var n := LineEnd(t);
    LineEndSpec(t);
    StartsWithFirstLine(t, key);
    SubScanAfterLine(t, key, repl);
    if StartsWith(t, key) {
      assert SubScan(t, true, key, repl) == repl + SubScan(t[n..], false, key, repl);
    } else if t == [] {
      assert t[..n] == [];
    } else if n == 0 {
      SubScanAtNewline(t, true, key, repl);
    } else {
      SubScanInsideLine(t, key, repl);
    }
  }

  /** What the scan produces for the text after the first line: nothing at
      the end of the text, otherwise the newline and the scan of the next line. */
  function SubScanRest(t: string, key: string, repl: string): string {
    var n := LineEnd(t);
    if n == |t| then [] else "\n" + SubScan(t[n + 1..], true, key, repl)
  }

  lemma SubScanAtNewline(u: string, bol: bool, key: string, repl: string)
    requires LineKey(key)
    requires u != [] && u[0] == '\n'
    ensures SubScan(u, bol, key, repl) == "\n" + SubScan(u[1..], true, key, repl)
  {
    NotStartsAtNewline(u, key);
  }

  lemma SubScanAfterLine(t: string, key: string, repl: string)
    requires LineKey(key)
    ensures SubScan(t[LineEnd(t)..], false, key, repl) == SubScanRest(t, key, repl)
  {
    var n := LineEnd(t);
    LineEndSpec(t);
    var u := t[n..];
    if n < |t| {
      assert u[1..] == t[n + 1..];
      SubScanAtNewline(u, false, key, repl);
    } else {
      assert u == [];
    }
  }

  lemma SubScanInsideLine(t: string, key: string, repl: string)
    requires LineKey(key)
    requires !StartsWith(t, key) && 0 < LineEnd(t)
    ensures SubScan(t, true, key, repl) == t[..LineEnd(t)] + SubScan(t[LineEnd(t)..], false, key, repl)
  {
    LineEndSpec(t);
    SubScanStep(t, true, key, repl);
    SubScanCopyFirst(t, LineEnd(t), key, repl);
  }

  /** A position that does not start a match copies its character. */
  lemma SubScanStep(t: string, bol: bool, key: string, repl: string)
    requires t != [] && !(bol && StartsWith(t, key))
    ensures SubScan(t, bol, key, repl) == [t[0]] + SubScan(t[1..], t[0] == '\n', key, repl)
  {
  }

  lemma SubScanCopyFirst(t: string, m: nat, key: string, repl: string)
    requires 0 < m <= |t| && NoNewline(t[..m])
    ensures [t[0]] + SubScan(t[1..], t[0] == '\n', key, repl) == t[..m] + SubScan(t[m..], false, key, repl)
  {
    assert t[0] == t[..m][0];
    assert t[1..][..m - 1] == t[..m][1..];
    SubScanCopyRun(t[1..], m - 1, key, repl);
    assert t[1..][m - 1..] == t[m..];
    assert t[..m] == [t[0]] + t[1..][..m - 1];
  }

  /** The scan rewrites the text line by line. */
  lemma {:induction false} SubScanByLines(t: string, key: string, repl: string)
    requires LineKey(key)
    ensures SubScan(t, true, key, repl) == Unlines(RewriteLines(Lines(t), key, repl))
    decreases |t|
  {
    var n := LineEnd(t);
    SubScanLine(t, key, repl);
    if n == |t| {
      assert t[..n] == t;
    } else {
      var rest := t[n + 1..];
      SubScanByLines(rest, key, repl);
      RewriteLinesCons(t[..n], Lines(rest), key, repl);
      UnlinesCons(RewriteLine(t[..n], key, repl), RewriteLines(Lines(rest), key, repl));
    }
  }

  lemma RewriteLinesCons(l: string, ls: seq<string>, key: string, repl: string)
    ensures RewriteLines([l] + ls, key, repl) == [RewriteLine(l, key, repl)] + RewriteLines(ls, key, repl)
  {
  }

  /** Every line that starts with the key becomes exactly `key + value`; every
      other line, and the number of lines, stays as it was. */
  lemma SetKeyLines(text: string, key: string, v: Scalar)
    requires LineKey(key)
    requires NoNewline(Render(v))
    ensures var ls, rs := Lines(text), Lines(SetKey(text, key, Some(v)));
            |rs| == |ls| &&
            forall k | 0 <= k < |ls| ::
              rs[k] == (if StartsWith(ls[k], key) then key + Render(v) else ls[k])
  {
    var repl := key + Render(v);
    LinesSpec(text);
    SubScanByLines(text, key, repl);
    var ls := RewriteLines(Lines(text), key, repl);
    assert NoNewline(repl);
    LinesOfUnlines(ls);
  }

  /** The line-level reading of `SetKey`. */
  function KeyLines(ls: seq<string>, key: string, value: Option<Scalar>): seq<string> {
    match value
    case None => ls
    case Some(v) => RewriteLines(ls, key, key + Render(v))
  }

  /** `SetKey` is `KeyLines` on the lines of the text. */
  lemma SetKeyByLines(text: string, key: string, value: Option<Scalar>)
    requires LineKey(key)
    requires value.Some? ==> NoNewline(Render(value.value))
    ensures Lines(SetKey(text, key, value)) == KeyLines(Lines(text), key, value)
    ensures AllNoNewline(KeyLines(Lines(text), key, value))
  {
    LinesSpec(text);
    if value.Some? {
      var repl := key + Render(value.value);
      assert NoNewline(repl);
      SubScanByLines(text, key, repl);
      LinesOfUnlines(RewriteLines(Lines(text), key, repl));
    }
  }

  /** Without a value the text is not touched. */
  lemma SetKeyNone(text: string, key: string)
    ensures SetKey(text, key, None) == text
  {
  }

  /** Rewriting with the same value twice gives the same text as once. */
  lemma SetKeyIdempotent(text: string, key: string, value: Option<Scalar>)
    requires LineKey(key)
    requires value.Some? ==> NoNewline(Render(value.value))
    ensures SetKey(SetKey(text, key, value), key, value) == SetKey(text, key, value)
  {
    if value.Some? {
      var repl := key + Render(value.value);
      assert NoNewline(repl);
      var once := SetKey(text, key, value);
      var ls := Lines(text);
      var r1 := RewriteLines(ls, key, repl);
      LinesSpec(text);
      SubScanByLines(text, key, repl);
      SubScanByLines(once, key, repl);
      LinesOfUnlines(r1);
      assert StartsWith(repl, key) by {
        assert repl[..|key|] == key;
      }
      assert RewriteLines(r1, key, repl) == r1;
    }
  }

  /** Two substitutions whose keys start with different characters, and whose
      replacements keep their own key, rewrite disjoint sets of lines. */
  lemma SubScanCommute(text: string, k1: string, r1: string, k2: string, r2: string)
    requires LineKey(k1) && LineKey(k2) && NoNewline(r1) && NoNewline(r2)
    requires k1[0] != k2[0]
    requires StartsWith(r1, k1) && StartsWith(r2, k2)
    ensures SubScan(SubScan(text, true, k1, r1), true, k2, r2) ==
            SubScan(SubScan(text, true, k2, r2), true, k1, r1)
  {
    var ls := Lines(text);
    var a := RewriteLines(ls, k1, r1);
    var b := RewriteLines(ls, k2, r2);
    LinesSpec(text);
    SubScanByLines(text, k1, r1);
    SubScanByLines(text, k2, r2);
    LinesOfUnlines(a);
    LinesOfUnlines(b);
    SubScanByLines(Unlines(a), k2, r2);
    SubScanByLines(Unlines(b), k1, r1);
    var ab := RewriteLines(a, k2, r2);
    var ba := RewriteLines(b, k1, r1);
    forall k | 0 <= k < |ls|
      ensures ab[k] == ba[k]
    {
      if StartsWith(ls[k], k1) {
        assert ls[k][0] == k1[0];
        assert r1[0] == k1[0];
      } else if StartsWith(ls[k], k2) {
        assert ls[k][0] == k2[0];
        assert r2[0] == k2[0];
      }
    }
    assert ab == ba;
  }

  /** The Login and Server rewrites touch disjoint lines, so their order does
      not matter. */
  lemma SetKeysCommute(text: string, login: Option<Scalar>, server: Option<Scalar>)
    requires login.Some? ==> NoNewline(Render(login.value))
    requires server.Some? ==> NoNewline(Render(server.value))
    ensures SetKey(SetKey(text, LoginKey, login), ServerKey, server) ==
            SetKey(SetKey(text, ServerKey, server), LoginKey, login)
  {
    if login.Some? && server.Some? {
      var lr := LoginKey + Render(login.value);
      var sr := ServerKey + Render(server.value);
      assert lr[..|LoginKey|] == LoginKey;
      assert sr[..|ServerKey|] == ServerKey;
      SubScanCommute(text, LoginKey, lr, ServerKey, sr);
    }
  }
}
