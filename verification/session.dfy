/** What the initialize controllers see of the MetaTrader terminal, and the
    side effects they perform, recorded as a trace of actions.

    The terminal library is not modelled: a script says what each successive
    `initialize` call of one request returns, and what `last_error()` and
    `terminal_info()` report right after it. */
module Session {
  import opened Values

  /** `mt5.last_error()`: a code and a message. */
  datatype LastError = LastError(code: int, message: string)

  /** `mt5.terminal_info()` as far as the controllers look at it. */
  datatype TerminalInfo = TerminalInfo(tradeAllowed: bool)

  /** One `initialize` call: its result, the error reported after it, and the
      terminal information (None when the library returns None). */
  datatype Attempt = Attempt(ok: bool, error: LastError, info: Option<TerminalInfo>)

  /** The n-th `initialize` call of one request. */
  type Script = nat -> Attempt

  /** The two codes after which both controllers kill the terminal and retry:
      -10005 (IPC timeout) and -10003 (IPC initialize failed). */
  const RecoverableCodes: set<int> := {-10005, -10003}

  predicate Recoverable(e: LastError) {
    e.code in RecoverableCodes
  }

  /** `if login or server:` */
  predicate HasCredentials(login: Option<Scalar>, server: Option<Scalar>) {
    Present(login) || Present(server)
  }

  /** The observable effects: the two file operations, the library calls that
      start and stop the terminal, `taskkill` and `time.sleep`. */
  datatype Action =
    | IniPrepared
    | AccountsDeleted
    | InitCalled
    | ShutdownCalled
    | Killed
    | Slept(seconds: nat)

  /** The fixed part of the kill cycle both controllers share: shut the
      library down, kill the terminal process, and wait the three seconds
      `_kill_terminal` sleeps. */
  const KillSteps: seq<Action> := [ShutdownCalled, Killed, Slept(3)]

  /** How often `a` occurs in `trace`. */
  function Occurrences(trace: seq<Action>, a: Action): (n: nat)
    ensures n <= |trace|
  {
    if trace == [] then 0
    else (if trace[0] == a then 1 else 0) + Occurrences(trace[1..], a)
  }

  /** Occurrences add up over a concatenation. */
  lemma {:induction false} OccurrencesAppend(s: seq<Action>, t: seq<Action>, a: Action)
    ensures Occurrences(s + t, a) == Occurrences(s, a) + Occurrences(t, a)
    decreases |s|
  {
    if s == [] {
      assert s + t == t;
    } else {
      assert (s + t)[0] == s[0];
      assert (s + t)[1..] == s[1..] + t;
      OccurrencesAppend(s[1..], t, a);
    }
  }
}
