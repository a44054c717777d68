/** How the two initialize controllers relate on the same terminal script. */
module Adapters {
  import opened Values
  import opened Host
  import opened Session
  import HttpSession
  import RpycSession

  /** When neither raises and the first attempt is not a success with
      AutoTrading disabled, both front ends call initialize equally often and
      agree on success. */
  lemma ControllersAgree(fs: Fs, layout: Layout, script: Script, login: Option<Scalar>, server: Option<Scalar>)
    ensures var h := HttpSession.HandleInitialize(fs, layout, script, login, server);
            var p := RpycSession.ExposedInitialize(fs, layout, script, login, server);
            (!h.reply.Raised? && !p.outcome.Raised? && !(script(0).ok && HttpSession.TradeDisabled(script(0)))) ==>
              Occurrences(h.trace, InitCalled) == Occurrences(p.trace, InitCalled) &&
              (h.reply.Ok? <==> p.outcome == RpycSession.Returned(true))
  {
    HttpSession.HttpBounded(fs, layout, script, login, server);
    HttpSession.HttpReply(fs, layout, script, login, server);
    RpycSession.RpycBounded(fs, layout, script, login, server);
  }

  /** A first success with AutoTrading disabled: the HTTP handler runs its
      kill cycle, the rpyc service returns True at once. */
  lemma ControllersDifferOnTradeDisabled(fs: Fs, layout: Layout, script: Script,
                                         login: Option<Scalar>, server: Option<Scalar>)
    ensures var h := HttpSession.HandleInitialize(fs, layout, script, login, server);
            var p := RpycSession.ExposedInitialize(fs, layout, script, login, server);
            (script(0).ok && HttpSession.TradeDisabled(script(0)) && !h.reply.Raised? && !p.outcome.Raised?) ==>
              Occurrences(h.trace, Killed) == 1 && Occurrences(p.trace, Killed) == 0 &&
              p.outcome == RpycSession.Returned(true)
  {
    HttpSession.HttpBounded(fs, layout, script, login, server);
    HttpSession.HttpReply(fs, layout, script, login, server);
    RpycSession.RpycBounded(fs, layout, script, login, server);
  }

  /** A codec that encodes every text. */
  predicate EncodesAll(t: string) {
    true
  }

  /** A terminal holding only the fixed `accounts.dat`, unlocked. */
  const OneAccountsFile: Fs := Fs(map[AccountsPath := ""], map[], EncodesAll)

  /** Without credentials and after a recoverable failure, the rpyc service
      initializes the terminal a second time with `accounts.dat` still in
      place, where the HTTP handler has deleted it. */
  lemma RpycRetriesWithAccounts(script: Script)
    requires !script(0).ok && Recoverable(script(0).error)
    ensures var p := RpycSession.ExposedInitialize(OneAccountsFile, Layout([], []), script, None, None);
            Occurrences(p.trace, InitCalled) == 2 && AccountsPath in p.fs.files
    ensures var h := HttpSession.HandleInitialize(OneAccountsFile, Layout([], []), script, None, None);
            !h.reply.Raised?
    ensures var h := HttpSession.HandleInitialize(OneAccountsFile, Layout([], []), script, None, None);
            AccountsPath !in h.fs.files
  {
    var layout := Layout([], []);
    assert !Present(None);
    assert AccountsPath in OneAccountsFile.files && OneAccountsFile.locked == map[];
    HttpSession.HttpBounded(OneAccountsFile, layout, script, None, None);
    HttpSession.HttpReply(OneAccountsFile, layout, script, None, None);
    HttpSession.HttpClearsAccounts(OneAccountsFile, layout, script, None, None);
    RpycSession.RpycBounded(OneAccountsFile, layout, script, None, None);
    RpycSession.RpycKeepsFilesWithoutCredentials(OneAccountsFile, layout, script, None, None);
    DeleteAccountsSpec(OneAccountsFile, layout);
    var d := DeleteAccounts(OneAccountsFile, layout);
    var fs2 := PrepareIni(d.fs, layout, None, None);
    PrepareAllKeeps(d.fs, IniPaths(d.fs, layout), None, None);
    assert fs2.locked == map[];
    DeleteAccountsSpec(fs2, layout);
  }
}
