/** Text as a sequence of characters and as a sequence of lines.

    `Lines` is Python's `text.split("\n")` and `Unlines` is `"\n".join(ls)`;
    the two are inverse to each other on newline-free lines. */
module Text {

  predicate NoNewline(s: string) {
    forall i | 0 <= i < |s| :: s[i] != '\n'
  }

  predicate AllNoNewline(ls: seq<string>) {
    forall k | 0 <= k < |ls| :: NoNewline(ls[k])
  }

  predicate StartsWith(s: string, p: string) {
    |p| <= |s| && s[..|p|] == p
  }

  /** Index of the first newline of `t`, or `|t|` when there is none. */
  function LineEnd(t: string): (n: nat)
    ensures n <= |t|
    decreases |t|
  {
    if t == [] || t[0] == '\n' then 0 else LineEnd(t[1..]) + 1
  }

  /** The first line has no newline, and a newline ends it unless it ends the text. */
  lemma {:induction false} LineEndSpec(t: string)
    ensures NoNewline(t[..LineEnd(t)])
    ensures LineEnd(t) < |t| ==> t[LineEnd(t)] == '\n'
    decreases |t|
  {
    if t != [] && t[0] != '\n' {
      LineEndSpec(t[1..]);
      var m := LineEnd(t[1..]);
      assert t[..m + 1] == [t[0]] + t[1..][..m];
    }
  }

  /** A newline-free prefix lies within the first line. */
  lemma {:induction false} LineEndAtLeast(t: string, m: nat)
    requires m <= |t| && NoNewline(t[..m])
    ensures m <= LineEnd(t)
    decreases m
  {
    if m > 0 {
      assert t[0] == t[..m][0];
      assert t[1..][..m - 1] == t[..m][1..];
      LineEndAtLeast(t[1..], m - 1);
    }
  }

  /** A pattern prefix the line-level lemmas can reason about: non-empty and
      newline-free, so it can only match inside one line. */
  predicate LineKey(key: string) {
    |key| > 0 && NoNewline(key)
  }

  /** A key without newlines matches a text exactly when it matches its first line. */
  lemma StartsWithFirstLine(t: string, key: string)
    requires NoNewline(key)
    ensures StartsWith(t, key) <==> StartsWith(t[..LineEnd(t)], key)
  {
    var n := LineEnd(t);
    LineEndSpec(t);
    if StartsWith(t, key) {
      LineEndAtLeast(t, |key|);
      assert t[..n][..|key|] == t[..|key|];
    }
  }

  /** A line key never matches at a newline. */
  lemma NotStartsAtNewline(u: string, key: string)
    requires LineKey(key) && u != [] && u[0] == '\n'
    ensures !StartsWith(u, key)
  {
    if |key| <= |u| {
      assert u[..|key|][0] == '\n';
      assert key[0] != '\n';
    }
  }

  lemma NoNewlineDrop(l: string, h: nat)
    requires NoNewline(l) && h <= |l|
    ensures NoNewline(l[h..])
  {
    forall i | 0 <= i < |l| - h
      ensures l[h..][i] != '\n'
    {
      assert l[h..][i] == l[h + i];
    }
  }

  /** `"\n".join(ls)`. */
  function Unlines(ls: seq<string>): string
    decreases |ls|
  {
    if ls == [] then "" else if |ls| == 1 then ls[0] else ls[0] + "\n" + Unlines(ls[1..])
  }

  lemma UnlinesCons(l: string, ls: seq<string>)
    requires |ls| >= 1
    ensures Unlines([l] + ls) == l + "\n" + Unlines(ls)
  {
    assert ([l] + ls)[1..] == ls;
  }

  /** `t.split("\n")`: the newline-free pieces between the newlines of `t`. */
  function Lines(t: string): (ls: seq<string>)
    ensures |ls| >= 1
    decreases |t|
  {
    var n := LineEnd(t);
    if n == |t| then [t] else [t[..n]] + Lines(t[n + 1..])
  }

  /** The lines have no newlines, and joining them gives back the text. */
  lemma {:induction false} LinesSpec(t: string)
    ensures AllNoNewline(Lines(t))
    ensures Unlines(Lines(t)) == t
    decreases |t|
  {
    var n := LineEnd(t);
    LineEndSpec(t);
    var ls := Lines(t);
    if n == |t| {
      assert t[..n] == t;
    } else {
      var rest := Lines(t[n + 1..]);
      LinesSpec(t[n + 1..]);
      assert ls[1..] == rest;
      assert t == t[..n] + "\n" + t[n + 1..];
    }
  }

  /** A newline-free line followed by a newline ends exactly there. */
  lemma LineEndOfLine(l: string, rest: string)
    requires NoNewline(l)
    ensures LineEnd(l) == |l|
    ensures LineEnd(l + "\n" + rest) == |l|
    decreases |l|
  {
    if l != [] {
      assert (l + "\n" + rest)[1..] == l[1..] + "\n" + rest;
      LineEndOfLine(l[1..], rest);
    }
  }

  /** Splitting a join of newline-free lines gives back the same lines. */
  lemma {:induction false} LinesOfUnlines(ls: seq<string>)
    requires |ls| >= 1
    requires AllNoNewline(ls)
    ensures Lines(Unlines(ls)) == ls
    decreases |ls|
  {
    if |ls| == 1 {
      LineEndOfLine(ls[0], "");
      assert Unlines(ls)[..|ls[0]|] == ls[0];
    } else {
      var t := Unlines(ls);
      LineEndOfLine(ls[0], Unlines(ls[1..]));
      assert t[..|ls[0]|] == ls[0];
      assert t[|ls[0]| + 1..] == Unlines(ls[1..]);
      LinesOfUnlines(ls[1..]);
      assert ls == [ls[0]] + ls[1..];
    }
  }

  /** Splitting is the unique newline-free decomposition: two texts with the
      same lines are equal, and equal lines give equal texts. */
  lemma LinesInjective(s: string, t: string)
    ensures Lines(s) == Lines(t) <==> s == t
  {
    LinesSpec(s);
    LinesSpec(t);
  }

  /** Character offset at which line `k` of `Unlines(ls)` begins. */
  function Offset(ls: seq<string>, k: nat): nat
    decreases k
  {
    if k == 0 || ls == [] then 0 else |ls[0]| + 1 + Offset(ls[1..], k - 1)
  }

  /** The text from the start of line `k` on is the join of the lines from `k` on. */
  lemma {:induction false} UnlinesSuffix(ls: seq<string>, k: nat)
    requires k < |ls|
    ensures Offset(ls, k) <= |Unlines(ls)|
    ensures Unlines(ls)[Offset(ls, k)..] == Unlines(ls[k..])
    decreases k
  {
    if k > 0 {
      UnlinesSuffix(ls[1..], k - 1);
      assert ls[1..][k - 1..] == ls[k..];
    }
  }

  /** Offsets add up across a split of the line sequence. */
  lemma {:induction false} OffsetAdd(ls: seq<string>, j: nat, k: nat)
    requires j + k <= |ls|
    ensures Offset(ls, j + k) == Offset(ls, j) + Offset(ls[j..], k)
    decreases j
  {
    if j > 0 {
      OffsetAdd(ls[1..], j - 1, k);
      assert ls[1..][j - 1..] == ls[j..];
    }
  }

  /** The next line begins just after this one and its newline. */
  lemma OffsetNext(ls: seq<string>, k: nat)
    requires k < |ls|
    ensures Offset(ls, k + 1) == Offset(ls, k) + |ls[k]| + 1
  {
    OffsetAdd(ls, k, 1);
    assert ls[k..][0] == ls[k];
  }

  /** Line `k` sits at its offset, followed by a newline unless it is the last. */
  lemma LineAtOffset(ls: seq<string>, k: nat)
    requires k < |ls|
    ensures Offset(ls, k) + |ls[k]| <= |Unlines(ls)|
    ensures Unlines(ls)[Offset(ls, k)..Offset(ls, k) + |ls[k]|] == ls[k]
    ensures k + 1 < |ls| ==> Offset(ls, k) + |ls[k]| < |Unlines(ls)| && Unlines(ls)[Offset(ls, k) + |ls[k]|] == '\n'
    ensures k + 1 < |ls| ==> Offset(ls, k + 1) == Offset(ls, k) + |ls[k]| + 1
    ensures k + 1 == |ls| ==> Offset(ls, k) + |ls[k]| == |Unlines(ls)|
  {
    UnlinesSuffix(ls, k);
    OffsetAdd(ls, k, 1);
    var s := ls[k..];
    assert s[0] == ls[k];
    if k + 1 < |ls| {
      assert Unlines(s) == ls[k] + "\n" + Unlines(s[1..]);
    }
  }

  /** Dropping a prefix of a concatenation. */
  lemma DropAppend(a: string, b: string, n: nat)
    requires n <= |a|
    ensures (a + b)[n..] == a[n..] + b
  {
  }

  /** The two halves of a concatenation. */
  lemma SplitAppend(a: string, b: string)
    ensures (a + b)[..|a|] == a && (a + b)[|a|..] == b
  {
  }

  lemma DropPast(a: string, b: string, n: nat)
    requires n <= |b|
    ensures (a + b)[|a| + n..] == b[n..]
  {
  }

  /** The text from inside line `e` on: the rest of that line, then the
      following lines. */
  lemma {:induction false} TextFromInsideLine(ls: seq<string>, e: nat, h: nat)
    requires e < |ls| && h <= |ls[e]|
    ensures Offset(ls, e) + h <= |Unlines(ls)|
    ensures Unlines(ls)[Offset(ls, e) + h..] ==
            ls[e][h..] + (if e + 1 == |ls| then [] else "\n" + Unlines(ls[e + 1..]))
    decreases e
  {
    if |ls| > 1 {
      var rest := "\n" + Unlines(ls[1..]);
      assert Unlines(ls) == ls[0] + rest;
      if e == 0 {
        DropAppend(ls[0], rest, h);
      } else {
        TextFromInsideLine(ls[1..], e - 1, h);
        assert ls[1..][e - 1] == ls[e];
        assert ls[1..][e - 1 + 1..] == ls[e + 1..];
        DropPast(ls[0], rest, 1 + Offset(ls[1..], e - 1) + h);
        assert rest[1 + Offset(ls[1..], e - 1) + h..] == Unlines(ls[1..])[Offset(ls[1..], e - 1) + h..];
      }
    }
  }

  /** Changing one character inside line `k` changes that line and nothing else. */
  lemma {:induction false} UnlinesUpdate(ls: seq<string>, k: nat, c: nat, ch: char)
    requires k < |ls|
    requires c < |ls[k]|
    ensures Offset(ls, k) + c < |Unlines(ls)|
    ensures Unlines(ls)[Offset(ls, k) + c := ch] == Unlines(ls[k := ls[k][c := ch]])
    decreases k
  {
    var t := Unlines(ls);
    var ls' := ls[k := ls[k][c := ch]];
    if k == 0 {
      if |ls| == 1 {
      } else {
        assert ls'[1..] == ls[1..];
        assert t == ls[0] + "\n" + Unlines(ls[1..]);
        assert Unlines(ls') == ls'[0] + "\n" + Unlines(ls[1..]);
      }
    } else {
      UnlinesUpdate(ls[1..], k - 1, c, ch);
      assert ls'[1..] == ls[1..][k - 1 := ls[k][c := ch]];
      assert ls'[0] == ls[0];
    }
  }

  /** Number of newline characters in a text. */
  function Newlines(t: string): nat
    decreases |t|
  {
    if t == [] then 0 else (if t[0] == '\n' then 1 else 0) + Newlines(t[1..])
  }

  /** A text of n newlines splits into n + 1 lines. */
  lemma {:induction false} LineCount(t: string)
    ensures |Lines(t)| == Newlines(t) + 1
    decreases |t|
  {
    var n := LineEnd(t);
    LineEndSpec(t);
    NewlinesOfLine(t[..n]);
    if n == |t| {
      assert t[..n] == t;
    } else {
      assert t == t[..n] + ([t[n]] + t[n + 1..]);
      NewlinesAppend(t[..n], [t[n]] + t[n + 1..]);
      assert ([t[n]] + t[n + 1..])[1..] == t[n + 1..];
      LineCount(t[n + 1..]);
    }
  }

  lemma {:induction false} NewlinesOfLine(l: string)
    requires NoNewline(l)
    ensures Newlines(l) == 0
    decreases |l|
  {
    if l != [] {
      NewlinesOfLine(l[1..]);
    }
  }

  lemma {:induction false} NewlinesAppend(a: string, b: string)
    ensures Newlines(a + b) == Newlines(a) + Newlines(b)
    decreases |a|
  {
    if a != [] {
      assert (a + b)[0] == a[0];
      assert (a + b)[1..] == a[1..] + b;
      NewlinesAppend(a[1..], b);
    } else {
      assert a + b == b;
    }
  }
}
