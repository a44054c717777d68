/** `_h_initialize`: the HTTP server's initialize handler with its recovery
    cycle. */
module HttpSession {
  import opened Values
  import opened Host
  import opened Session

  /** How the handler ends: `{"ok": true}`, `{"ok": false, "last_error": ...}`,
      or an exception escaping to `do_POST` (a locked `accounts.dat`). */
  datatype Reply = Ok | Failed(error: LastError) | Raised(message: string)

  datatype Run = Run(trace: seq<Action>, fs: Fs, reply: Reply)

  /** `ti and not ti.trade_allowed`. */
  predicate TradeDisabled(a: Attempt) {
    a.info.Some? && !a.info.value.tradeAllowed
  }

  /** The handler for one request: credentials are written when given,
      `accounts.dat` is always deleted, then the terminal is initialized. A
      success with AutoTrading disabled, or a failure with a recoverable code,
      runs the kill cycle once. */
  function HandleInitialize(fs: Fs, layout: Layout, script: Script,
                            login: Option<Scalar>, server: Option<Scalar>): (r: Run)
  {
    var creds := HasCredentials(login, server);
    var fs1 := if creds then PrepareIni(fs, layout, login, server) else fs;
    AfterDeletion(DeleteAccounts(fs1, layout), layout, script, login, server,
                  if creds then [IniPrepared] else [])
  }

  /** The rest of the handler once `_delete_accounts_dat` has run. */
  function AfterDeletion(d: Removal, layout: Layout, script: Script,
                         login: Option<Scalar>, server: Option<Scalar>, pre: seq<Action>): (r: Run)
  {
    if d.error.Some? then Run(pre + [AccountsDeleted], d.fs, Raised(d.error.value))
    else
      var first := script(0);
      var tr := pre + [AccountsDeleted, InitCalled];
      if first.ok then
        if TradeDisabled(first) then Restart(d.fs, layout, script, login, server, tr)
        else Run(tr, d.fs, Ok)
      else if Recoverable(first.error) then Restart(d.fs, layout, script, login, server, tr)
      else Run(tr, d.fs, Failed(first.error))
  }

  /** The kill cycle: shutdown, kill, rewrite the ini files (whether or not
      credentials were given), delete `accounts.dat`, wait two seconds and
      initialize once more. The second result decides the reply;
      `trade_allowed` is not looked at again. */
  function Restart(fs: Fs, layout: Layout, script: Script,
                   login: Option<Scalar>, server: Option<Scalar>, tr: seq<Action>): Run
  {
    Retry(DeleteAccounts(PrepareIni(fs, layout, login, server), layout), script,
          tr + KillSteps + [IniPrepared, AccountsDeleted])
  }

  function Retry(d: Removal, script: Script, cycle: seq<Action>): Run {
    if d.error.Some? then Run(cycle, d.fs, Raised(d.error.value))
    else
      var second := script(1);
      Run(cycle + [Slept(2), InitCalled], d.fs, if second.ok then Ok else Failed(second.error))
  }

  /** The condition under which the first attempt leads to the kill cycle. */
  predicate NeedsRestart(a: Attempt) {
    if a.ok then TradeDisabled(a) else Recoverable(a.error)
  }

  /** The trace of a run, by the three decisions taken along it: whether
      credentials were written, how far the run got (0: the first deletion
      raised, 1: one initialize, 2: the cycle's deletion raised, 3: two
      initialize calls). */
  function Trace(pre: seq<Action>, stage: nat): seq<Action>
    requires stage <= 3
  {
    if stage == 0 then pre + [AccountsDeleted]
    else if stage == 1 then pre + [AccountsDeleted, InitCalled]
    else if stage == 2 then pre + [AccountsDeleted, InitCalled] + KillSteps + [IniPrepared, AccountsDeleted]
    else pre + [AccountsDeleted, InitCalled] + KillSteps + [IniPrepared, AccountsDeleted] + [Slept(2), InitCalled]
  }

  /** How far a run gets once the first deletion has run. */
  function StageAfter(d: Removal, layout: Layout, script: Script,
                      login: Option<Scalar>, server: Option<Scalar>): (s: nat)
    ensures s <= 3
  {
    if d.error.Some? then 0
    else if !NeedsRestart(script(0)) then 1
    else if DeleteAccounts(PrepareIni(d.fs, layout, login, server), layout).error.Some? then 2
    else 3
  }

  function Stage(fs: Fs, layout: Layout, script: Script, login: Option<Scalar>, server: Option<Scalar>): (s: nat)
    ensures s <= 3
  {
    var creds := HasCredentials(login, server);
    var fs1 := if creds then PrepareIni(fs, layout, login, server) else fs;
    StageAfter(DeleteAccounts(fs1, layout), layout, script, login, server)
  }

  lemma HttpTrace(fs: Fs, layout: Layout, script: Script, login: Option<Scalar>, server: Option<Scalar>)
    ensures HandleInitialize(fs, layout, script, login, server).trace ==
            Trace(if HasCredentials(login, server) then [IniPrepared] else [], Stage(fs, layout, script, login, server))
  {
    var creds := HasCredentials(login, server);
    var fs1 := if creds then PrepareIni(fs, layout, login, server) else fs;
    AfterDeletionTrace(DeleteAccounts(fs1, layout), layout, script, login, server, if creds then [IniPrepared] else []);
  }

  lemma AfterDeletionTrace(d: Removal, layout: Layout, script: Script,
                           login: Option<Scalar>, server: Option<Scalar>, pre: seq<Action>)
    ensures AfterDeletion(d, layout, script, login, server, pre).trace ==
            Trace(pre, StageAfter(d, layout, script, login, server))
  {
    if d.error.None? && NeedsRestart(script(0)) {
      var tr := pre + [AccountsDeleted, InitCalled];
      var d2 := DeleteAccounts(PrepareIni(d.fs, layout, login, server), layout);
      RetryTrace(d2, script, tr + KillSteps + [IniPrepared, AccountsDeleted]);
    }
  }

  lemma RetryTrace(d: Removal, script: Script, cycle: seq<Action>)
    ensures Retry(d, script, cycle).trace == cycle + (if d.error.Some? then [] else [Slept(2), InitCalled])
  {
  }

  lemma TracePieces(pre: seq<Action>, stage: nat, a: Action)
    requires stage <= 3
    ensures Occurrences(Trace(pre, stage), a) ==
            Occurrences(pre, a) + Occurrences([AccountsDeleted], a) +
            (if stage >= 1 then Occurrences([InitCalled], a) else 0) +
            (if stage >= 2 then Occurrences(KillSteps, a) + Occurrences([IniPrepared, AccountsDeleted], a) else 0) +
            (if stage == 3 then Occurrences([Slept(2), InitCalled], a) else 0)
  {
    var x := pre + [AccountsDeleted, InitCalled];
    var y := x + KillSteps;
    var z := y + [IniPrepared, AccountsDeleted];
    if stage == 0 {
      OccurrencesAppend(pre, [AccountsDeleted], a);
    } else {
      OccurrencesAppend(pre, [AccountsDeleted, InitCalled], a);
      assert Occurrences([AccountsDeleted, InitCalled], a) ==
             Occurrences([AccountsDeleted], a) + Occurrences([InitCalled], a);
      if stage >= 2 {
        OccurrencesAppend(x, KillSteps, a);
        OccurrencesAppend(y, [IniPrepared, AccountsDeleted], a);
        if stage == 3 {
          OccurrencesAppend(z, [Slept(2), InitCalled], a);
        }
      }
    }
  }

  lemma TraceCounts(pre: seq<Action>, stage: nat)
    requires stage <= 3
    ensures var t, k := Trace(pre, stage), if stage >= 2 then 1 else 0;
            Occurrences(t, InitCalled) == Occurrences(pre, InitCalled) + (if stage == 0 then 0 else if stage == 3 then 2 else 1) &&
            Occurrences(t, Killed) == Occurrences(pre, Killed) + k &&
            Occurrences(t, ShutdownCalled) == Occurrences(pre, ShutdownCalled) + k &&
            Occurrences(t, AccountsDeleted) == Occurrences(pre, AccountsDeleted) + 1 + k &&
            Occurrences(t, IniPrepared) == Occurrences(pre, IniPrepared) + k
  {
    TracePieces(pre, stage, InitCalled);
    TracePieces(pre, stage, Killed);
    TracePieces(pre, stage, ShutdownCalled);
    TracePieces(pre, stage, AccountsDeleted);
    TracePieces(pre, stage, IniPrepared);
  }

  /** At most two initialize calls and at most one kill, each kill preceded by
      a shutdown; the kill cycle runs exactly when the terminal was initialized
      and the first attempt calls for it. Every cycle deletes `accounts.dat`
      once more and rewrites the ini files once more, credentials or not. */
  lemma HttpBounded(fs: Fs, layout: Layout, script: Script, login: Option<Scalar>, server: Option<Scalar>)
    ensures var r := HandleInitialize(fs, layout, script, login, server);
            var n, k := Occurrences(r.trace, InitCalled), Occurrences(r.trace, Killed);
            n <= 2 && k <= 1 && Occurrences(r.trace, ShutdownCalled) == k && (n == 2 ==> k == 1) &&
            (k == 1 <==> n >= 1 && NeedsRestart(script(0))) &&
            Occurrences(r.trace, AccountsDeleted) == 1 + k &&
            Occurrences(r.trace, IniPrepared) == (if HasCredentials(login, server) then 1 else 0) + k
  {
    HttpTrace(fs, layout, script, login, server);
    var st := Stage(fs, layout, script, login, server);
    var pre: seq<Action> := if HasCredentials(login, server) then [IniPrepared] else [];
    TraceCounts(pre, st);
  }

  /** The reply by stage: an exception exactly when a deletion raised, and
      otherwise the verdict of the last initialize call. */
  lemma AfterDeletionReply(d: Removal, layout: Layout, script: Script,
                           login: Option<Scalar>, server: Option<Scalar>, pre: seq<Action>)
    ensures var r, st := AfterDeletion(d, layout, script, login, server, pre), StageAfter(d, layout, script, login, server);
            (r.reply.Raised? <==> st == 0 || st == 2) &&
            (st == 1 ==> r.reply == if script(0).ok then Ok else Failed(script(0).error)) &&
            (st == 3 ==> r.reply == if script(1).ok then Ok else Failed(script(1).error))
  {
  }

  /** The handler raises exactly when some deletion was not followed by an
      initialize call; otherwise it answers `ok: true` exactly when the last
      initialize call succeeded, and a failure carries the `last_error` read
      after that last call. */
  lemma HttpReply(fs: Fs, layout: Layout, script: Script, login: Option<Scalar>, server: Option<Scalar>)
    ensures var r := HandleInitialize(fs, layout, script, login, server);
            var n := Occurrences(r.trace, InitCalled);
            (r.reply.Raised? <==> Occurrences(r.trace, AccountsDeleted) > n) &&
            (!r.reply.Raised? ==> n >= 1 &&
                                  (r.reply.Ok? <==> script(n - 1).ok) &&
                                  (r.reply.Failed? ==> r.reply.error == script(n - 1).error))
  {
    var creds := HasCredentials(login, server);
    var fs1 := if creds then PrepareIni(fs, layout, login, server) else fs;
    var pre: seq<Action> := if creds then [IniPrepared] else [];
    var st := Stage(fs, layout, script, login, server);
    var r := HandleInitialize(fs, layout, script, login, server);
    AfterDeletionReply(DeleteAccounts(fs1, layout), layout, script, login, server, pre);
    HttpTrace(fs, layout, script, login, server);
    TraceCounts(pre, st);
    ReplyOfStage(r.reply, st, Occurrences(r.trace, InitCalled), Occurrences(r.trace, AccountsDeleted), script);
  }

  lemma ReplyOfStage(reply: Reply, st: nat, n: nat, deletions: nat, script: Script)
    requires st <= 3
    requires n == (if st == 0 then 0 else if st == 3 then 2 else 1)
    requires deletions == if st >= 2 then 2 else 1
    requires reply.Raised? <==> st == 0 || st == 2
    requires st == 1 ==> reply == if script(0).ok then Ok else Failed(script(0).error)
    requires st == 3 ==> reply == if script(1).ok then Ok else Failed(script(1).error)
    ensures reply.Raised? <==> deletions > n
    ensures !reply.Raised? ==> n >= 1 && (reply.Ok? <==> script(n - 1).ok) &&
                               (reply.Failed? ==> reply.error == script(n - 1).error)
  {
  }

  /** Unless a deletion raised, no `accounts.dat` (the fixed one or an
      AppData candidate) exists when the last `initialize` is called: both
      deletions come before it and the handler writes no file after them.
      The terminal that call starts may write `accounts.dat` again when it
      logs in; its writes are outside the model. Locks are never changed. */
  lemma HttpClearsAccounts(fs: Fs, layout: Layout, script: Script, login: Option<Scalar>, server: Option<Scalar>)
    ensures var r := HandleInitialize(fs, layout, script, login, server);
            r.fs.locked == fs.locked &&
            (!r.reply.Raised? ==> AccountsPath !in r.fs.files &&
                                  forall c | c in layout.accountsCandidates :: c !in r.fs.files)
  {
    var creds := HasCredentials(login, server);
    var fs1 := if creds then PrepareIni(fs, layout, login, server) else fs;
    if creds {
      PrepareIniKeepsLocks(fs, layout, login, server);
    }
    var d := DeleteAccounts(fs1, layout);
    Cleared(fs1, layout);
    AfterDeletionFiles(d, layout, script, login, server, if creds then [IniPrepared] else []);
    if d.error.None? && NeedsRestart(script(0)) {
      PrepareIniKeepsLocks(d.fs, layout, login, server);
      Cleared(PrepareIni(d.fs, layout, login, server), layout);
    }
  }

  /** The files after the handler, given the first deletion: the cycle's
      deletion result when the cycle ran, the first one's otherwise; the
      reply raises only when one of those deletions failed. */
  lemma AfterDeletionFiles(d: Removal, layout: Layout, script: Script,
                           login: Option<Scalar>, server: Option<Scalar>, pre: seq<Action>)
    ensures var r := AfterDeletion(d, layout, script, login, server, pre);
            var again := DeleteAccounts(PrepareIni(d.fs, layout, login, server), layout);
            var restart := d.error.None? && NeedsRestart(script(0));
            r.fs == (if restart then again.fs else d.fs) &&
            (!r.reply.Raised? ==> d.error.None? && (restart ==> again.error.None?))
  {
  }


  lemma PrepareIniKeepsLocks(fs: Fs, layout: Layout, login: Option<Scalar>, server: Option<Scalar>)
    ensures PrepareIni(fs, layout, login, server).locked == fs.locked
  {
    PrepareAllKeeps(fs, IniPaths(fs, layout), login, server);
  }

  /** A successful deletion leaves no `accounts.dat`; any deletion keeps the locks. */
  lemma Cleared(fs: Fs, layout: Layout)
    ensures var d := DeleteAccounts(fs, layout);
            d.fs.locked == fs.locked &&
            (d.error.None? ==> AccountsPath !in d.fs.files &&
                               forall c | c in layout.accountsCandidates :: c !in d.fs.files)
  {
    DeleteAccountsSpec(fs, layout);
    assert forall c | c in layout.accountsCandidates :: c in Elems(layout.accountsCandidates);
  }
}
