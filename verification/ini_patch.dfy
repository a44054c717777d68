/** The whole text rewrite `_prepare_ini` applies to one `common.ini`: the
    Login rewrite, then the Server rewrite, then the Experts switch. */
module IniPatch {
  import opened Values
  import opened Text
  import opened LineSearch
  import opened LazyMatch
  import opened IniRewrite
  import opened Experts

  /** The text written back for the text read. */
  function PatchText(text: string, login: Option<Scalar>, server: Option<Scalar>): string {
    EnableExperts(SetKey(SetKey(text, LoginKey, login), ServerKey, server))
  }

  /** The same rewrite on the lines of the text. */
  function PatchLines(ls: seq<string>, login: Option<Scalar>, server: Option<Scalar>): seq<string> {
    EnableExpertsLines(KeyLines(KeyLines(ls, LoginKey, login), ServerKey, server))
  }

  /** Login and Server values as the rewrite can insert them: without a newline. */
  predicate Insertable(v: Option<Scalar>) {
    v.Some? ==> NoNewline(Render(v.value))
  }

  /** Patching the text is patching its lines, and the line count is kept. */
  lemma PatchTextByLines(text: string, login: Option<Scalar>, server: Option<Scalar>)
    requires Insertable(login) && Insertable(server)
    ensures Lines(PatchText(text, login, server)) == PatchLines(Lines(text), login, server)
    ensures |Lines(PatchText(text, login, server))| == |Lines(text)|
  {
    KeysAreLineKeys();
    var t1 := SetKey(text, LoginKey, login);
    var t2 := SetKey(t1, ServerKey, server);
    SetKeyByLines(text, LoginKey, login);
    SetKeyByLines(t1, ServerKey, server);
    EnableExpertsLinesOf(t2);
  }

  /** A line that starts with none of `Login=`, `Server=` and `Enabled=0`
      comes out unchanged; a `Login=` line becomes `Login=<login>` when a login
      is given, and a `Server=` line `Server=<server>` when a server is given. */
  lemma PatchLinesEach(ls: seq<string>, login: Option<Scalar>, server: Option<Scalar>, k: nat)
    requires k < |ls|
    ensures |PatchLines(ls, login, server)| == |ls|
    ensures var r := PatchLines(ls, login, server)[k];
            ((!StartsWith(ls[k], LoginKey) && !StartsWith(ls[k], ServerKey) && !StartsWith(ls[k], EnabledOff))
               ==> r == ls[k]) &&
            (login.Some? && StartsWith(ls[k], LoginKey) ==> r == LoginKey + Render(login.value)) &&
            (server.Some? && StartsWith(ls[k], ServerKey) ==> r == ServerKey + Render(server.value))
  {
    var l1 := KeyLines(ls, LoginKey, login);
    var l2 := KeyLines(l1, ServerKey, server);
    var r := PatchLines(ls, login, server);
    KeyLine(ls, LoginKey, login, k);
    KeyLine(l1, ServerKey, server, k);
    KeysDiffer(ls[k]);
    KeysDiffer(l1[k]);
    KeysDiffer(l2[k]);
    SwitchedOnlyEnabledOff(l2, k);
  }

  /** One line of `KeyLines`. */
  lemma KeyLine(ls: seq<string>, key: string, value: Option<Scalar>, k: nat)
    requires k < |ls|
    ensures |KeyLines(ls, key, value)| == |ls|
    ensures KeyLines(ls, key, value)[k] ==
            (if value.Some? && StartsWith(ls[k], key) then key + Render(value.value) else ls[k])
  {
  }

  /** No line starts with two of the three patterns, and the replacements
      keep their key. */
  lemma KeysDiffer(l: string)
    ensures !(StartsWith(l, LoginKey) && StartsWith(l, ServerKey))
    ensures !(StartsWith(l, LoginKey) && StartsWith(l, EnabledOff))
    ensures !(StartsWith(l, ServerKey) && StartsWith(l, EnabledOff))
    ensures forall v :: StartsWith(LoginKey + v, LoginKey) && StartsWith(ServerKey + v, ServerKey)
  {
    if StartsWith(l, LoginKey) {
      assert l[0] == LoginKey[0];
    }
    if StartsWith(l, ServerKey) {
      assert l[0] == ServerKey[0];
    }
    forall v: string
      ensures StartsWith(LoginKey + v, LoginKey) && StartsWith(ServerKey + v, ServerKey)
    {
      assert (LoginKey + v)[..|LoginKey|] == LoginKey;
      assert (ServerKey + v)[..|ServerKey|] == ServerKey;
    }
  }

  /** The Experts switch changes at most one line, and only an `Enabled=0` line. */
  lemma SwitchedOnlyEnabledOff(ls: seq<string>, k: nat)
    requires k < |ls|
    ensures EnableExpertsLines(ls)[k] == ls[k] || StartsWith(ls[k], EnabledOff)
  {
  }

  /** The fixture of the two examples below: an `[Experts]` section and a
      later `[Email]` section, each with an `Enabled=0` line. */
  const TwoSections: seq<string> := ["[Experts]", "Enabled=0", "[Email]", "Enabled=0"]

  /** The patch is not idempotent: a second run switches on the next
      `Enabled=0` line, although it belongs to the `[Email]` section. */
  lemma PatchTwiceCrossesSections(t: string)
    requires Lines(t) == TwoSections
    ensures Lines(PatchText(t, None, None)) == TwoSections[1 := EnabledOn]
    ensures Lines(PatchText(PatchText(t, None, None), None, None)) ==
            TwoSections[1 := EnabledOn][3 := EnabledOn]
  {
    var once := PatchText(t, None, None);
    PatchTextByLines(t, None, None);
    PatchTextByLines(once, None, None);
    SwitchFirst();
    SwitchSecond();
  }

  /** The two `Enabled=...` lines differ from the other fixture lines and from each other. */
  lemma FixtureLines()
    ensures StartsWith(TwoSections[0], ExpertsHeader) && StartsWith(TwoSections[1], EnabledOff)
    ensures !StartsWith(TwoSections[2], EnabledOff) && StartsWith(TwoSections[3], EnabledOff)
    ensures !StartsWith(EnabledOn, EnabledOff) && SwitchOn(EnabledOff) == EnabledOn
  {
    assert TwoSections[2][0] != EnabledOff[0];
    assert EnabledOn[8] != EnabledOff[8];
    assert EnabledOff[|EnabledOff|..] == [];
  }

  lemma SwitchFirst()
    ensures EnableExpertsLines(TwoSections) == TwoSections[1 := EnabledOn]
  {
    FixtureLines();
    assert FirstLine(TwoSections, 0, ExpertsHeader) == Some(0);
    assert FirstLine(TwoSections, 1, EnabledOff) == Some(1);
  }

  lemma SwitchSecond()
    ensures EnableExpertsLines(TwoSections[1 := EnabledOn]) == TwoSections[1 := EnabledOn][3 := EnabledOn]
  {
    FixtureLines();
    var ls := TwoSections[1 := EnabledOn];
    assert FirstLine(ls, 0, ExpertsHeader) == Some(0);
    assert FirstLine(ls, 3, EnabledOff) == Some(3);
    assert FirstLine(ls, 2, EnabledOff) == Some(3);
    assert FirstLine(ls, 1, EnabledOff) == Some(3);
  }
}
