/** `MT5Service.exposed_initialize`: the rpyc server's initialize with its
    recovery cycle. Unlike the HTTP handler it touches the files only when
    credentials are given, deletes `accounts.dat` before rewriting the ini
    files, does not look at `trade_allowed`, and does not delete
    `accounts.dat` in its kill cycle. */
module RpycSession {
  import opened Values
  import opened Host
  import opened Session

  /** How the call ends: the boolean it returns, or an exception reaching the
      rpyc client (a locked `accounts.dat`). */
  datatype Outcome = Returned(ok: bool) | Raised(message: string)

  datatype Run = Run(trace: seq<Action>, fs: Fs, outcome: Outcome)

  function ExposedInitialize(fs: Fs, layout: Layout, script: Script,
                             login: Option<Scalar>, server: Option<Scalar>): (r: Run)
  {
    if HasCredentials(login, server) then
      var d := DeleteAccounts(fs, layout);
      if d.error.Some? then Run([AccountsDeleted], d.fs, Raised(d.error.value))
      else Attempts(PrepareIni(d.fs, layout, login, server), layout, script, login, server,
                    [AccountsDeleted, IniPrepared])
    else Attempts(fs, layout, script, login, server, [])
  }

  /** From the first initialize call on: success returns True at once; a
      recoverable code runs shutdown, kill, the ini rewrite and a two-second
      wait, and the retry's result is returned; any other failure returns
      False. */
  function Attempts(fs: Fs, layout: Layout, script: Script,
                    login: Option<Scalar>, server: Option<Scalar>, pre: seq<Action>): (r: Run)
  {
    var first := script(0);
    var tr := pre + [InitCalled];
    if first.ok then Run(tr, fs, Returned(true))
    else if Recoverable(first.error) then
      Run(tr + KillSteps + [IniPrepared, Slept(2), InitCalled],
          PrepareIni(fs, layout, login, server), Returned(script(1).ok))
    else Run(tr, fs, Returned(false))
  }

  /** The trace after the credential step `pre`, with or without the cycle. */
  function Trace(pre: seq<Action>, cycle: bool): seq<Action> {
    if cycle then pre + [InitCalled] + KillSteps + [IniPrepared, Slept(2), InitCalled]
    else pre + [InitCalled]
  }

  lemma AttemptsTrace(fs: Fs, layout: Layout, script: Script,
                      login: Option<Scalar>, server: Option<Scalar>, pre: seq<Action>)
    ensures var r := Attempts(fs, layout, script, login, server, pre);
            var cycle := !script(0).ok && Recoverable(script(0).error);
            r.trace == Trace(pre, cycle) &&
            r.outcome == Returned(if cycle then script(1).ok else script(0).ok)
  {
  }

  lemma TracePieces(pre: seq<Action>, cycle: bool, a: Action)
    ensures Occurrences(Trace(pre, cycle), a) ==
            Occurrences(pre, a) + Occurrences([InitCalled], a) +
            (if cycle then Occurrences(KillSteps, a) + Occurrences([IniPrepared, Slept(2), InitCalled], a) else 0)
  {
    var x := pre + [InitCalled];
    OccurrencesAppend(pre, [InitCalled], a);
    if cycle {
      OccurrencesAppend(x, KillSteps, a);
      OccurrencesAppend(x + KillSteps, [IniPrepared, Slept(2), InitCalled], a);
    }
  }

  lemma TraceCounts(pre: seq<Action>, cycle: bool)
    ensures var t, k := Trace(pre, cycle), if cycle then 1 else 0;
            Occurrences(t, InitCalled) == Occurrences(pre, InitCalled) + 1 + k &&
            Occurrences(t, Killed) == Occurrences(pre, Killed) + k &&
            Occurrences(t, ShutdownCalled) == Occurrences(pre, ShutdownCalled) + k &&
            Occurrences(t, AccountsDeleted) == Occurrences(pre, AccountsDeleted) &&
            Occurrences(t, IniPrepared) == Occurrences(pre, IniPrepared) + k
  {
    TracePieces(pre, cycle, InitCalled);
    TracePieces(pre, cycle, Killed);
    TracePieces(pre, cycle, ShutdownCalled);
    TracePieces(pre, cycle, AccountsDeleted);
    TracePieces(pre, cycle, IniPrepared);
  }

  /** At most two initialize calls and at most one kill, each kill preceded
      by a shutdown. The cycle runs exactly when the first call failed with a
      recoverable code; `accounts.dat` is deleted at most once, only when
      credentials are given, and never in the cycle. The result is that of
      the last initialize call. */
  lemma RpycBounded(fs: Fs, layout: Layout, script: Script, login: Option<Scalar>, server: Option<Scalar>)
    ensures var r := ExposedInitialize(fs, layout, script, login, server);
            var n, k := Occurrences(r.trace, InitCalled), Occurrences(r.trace, Killed);
            var creds := HasCredentials(login, server);
            n <= 2 && k <= 1 && Occurrences(r.trace, ShutdownCalled) == k &&
            Occurrences(r.trace, AccountsDeleted) == (if creds then 1 else 0) &&
            (r.outcome.Raised? <==> n == 0) &&
            (r.outcome.Raised? ==> creds && r.trace == [AccountsDeleted]) &&
            (n >= 1 ==> n == 1 + k && (k == 1 <==> !script(0).ok && Recoverable(script(0).error)) &&
                        r.outcome == Returned(script(n - 1).ok) &&
                        Occurrences(r.trace, IniPrepared) == (if creds then 1 else 0) + k)
  {
    var creds := HasCredentials(login, server);
    PreCounts();
    if creds {
      var d := DeleteAccounts(fs, layout);
      if d.error.None? {
        AttemptsBounded(PrepareIni(d.fs, layout, login, server), layout, script, login, server,
                        [AccountsDeleted, IniPrepared]);
      }
    } else {
      AttemptsBounded(fs, layout, script, login, server, []);
    }
  }

  /** The counts of the attempts stage on top of a credential step `pre`
      that made no initialize call and killed nothing. */
  lemma AttemptsBounded(fs: Fs, layout: Layout, script: Script,
                        login: Option<Scalar>, server: Option<Scalar>, pre: seq<Action>)
    requires Occurrences(pre, InitCalled) == 0 && Occurrences(pre, Killed) == 0
    requires Occurrences(pre, ShutdownCalled) == 0
    ensures var r := Attempts(fs, layout, script, login, server, pre);
            var n, k := Occurrences(r.trace, InitCalled), Occurrences(r.trace, Killed);
            n == 1 + k && k <= 1 && Occurrences(r.trace, ShutdownCalled) == k &&
            (k == 1 <==> !script(0).ok && Recoverable(script(0).error)) &&
            r.outcome == Returned(script(n - 1).ok) &&
            Occurrences(r.trace, AccountsDeleted) == Occurrences(pre, AccountsDeleted) &&
            Occurrences(r.trace, IniPrepared) == Occurrences(pre, IniPrepared) + k
  {
    var cycle := !script(0).ok && Recoverable(script(0).error);
    AttemptsTrace(fs, layout, script, login, server, pre);
    TraceCounts(pre, cycle);
  }

  /** The counts of the two credential steps. */
  lemma PreCounts()
    ensures forall a :: Occurrences([], a) == 0
    ensures forall a :: Occurrences([AccountsDeleted], a) == if a == AccountsDeleted then 1 else 0
    ensures forall a :: Occurrences([AccountsDeleted, IniPrepared], a) ==
                        if a == AccountsDeleted || a == IniPrepared then 1 else 0
  {
    forall a
      ensures Occurrences([AccountsDeleted, IniPrepared], a) ==
              if a == AccountsDeleted || a == IniPrepared then 1 else 0
    {
      assert [AccountsDeleted, IniPrepared][1..] == [IniPrepared];
      assert [IniPrepared][1..] == [];
    }
    forall a
      ensures Occurrences([AccountsDeleted], a) == if a == AccountsDeleted then 1 else 0
    {
      assert [AccountsDeleted][1..] == [];
    }
  }


  /** Without credentials no file is created or removed: the only writes are
      the ini rewrites of the cycle. */
  lemma RpycKeepsFilesWithoutCredentials(fs: Fs, layout: Layout, script: Script,
                                         login: Option<Scalar>, server: Option<Scalar>)
    requires !HasCredentials(login, server)
    ensures var r := ExposedInitialize(fs, layout, script, login, server);
            r.fs.files.Keys == fs.files.Keys && r.fs.locked == fs.locked
  {
    PrepareAllKeeps(fs, IniPaths(fs, layout), login, server);
  }
}
