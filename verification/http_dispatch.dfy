/** The HTTP front end: `do_POST` routing over `ROUTES`, `do_GET`, and the
    route handlers of `mt5_server.py`.

    The `MetaTrader5` library is an oracle: for each call a handler makes
    (its name and arguments) it says what the library returns. */
module HttpDispatch {
  import opened Values
  import opened Records
  import opened Host
  import Session
  import HttpSession

  /*** Requests and replies ***/

  /** The request body as `_read_json` reads it: no content, a decoded JSON
      document, or text `json.loads` rejects (with the message it gives). */
  datatype Body = NoContent | Parsed(json: Json) | Malformed(detail: string)

  /** What the server sends back: a JSON document with a status, or the rows
      of a numpy array (its `np.save` encoding is not modelled). A request
      whose login or server is a JSON list or object gets `Unmodelled`. */
  datatype Reply = JsonReply(status: int, body: Json) | ArrayReply(rows: seq<Record>) | Unmodelled

  /** `_send_error(msg, status)`. */
  function ErrorBody(msg: string): Json {
    JObj([("error", JBool(true)), ("message", JStr(msg))])
  }

  /** `list(mt5.last_error())`. */
  function LastErrorJson(e: Session.LastError): Json {
    JList([JInt(e.code), JStr(e.message)])
  }

  /** `{"error": True, "last_error": list(mt5.last_error())}`. */
  function LibraryError(e: Session.LastError): Json {
    JObj([("error", JBool(true)), ("last_error", LastErrorJson(e))])
  }

  function OkBody(ok: bool): Json {
    JObj([("ok", JBool(ok))])
  }

  /** `{"ok": False, "last_error": list(err)}`. */
  function FailedBody(e: Session.LastError): Json {
    JObj([("ok", JBool(false)), ("last_error", LastErrorJson(e))])
  }

  /*** Paths and routes ***/

  /** `self.path.rstrip("/")`. */
  function StripSlashes(p: string): (r: string)
    ensures |r| <= |p| && r == p[..|r|]
    decreases |p|
  {
    if p != [] && p[|p| - 1] == '/' then StripSlashes(p[..|p| - 1]) else p
  }

  /** What `rstrip("/")` removes is exactly the trailing run of slashes. */
  lemma {:induction false} StripSlashesSpec(p: string)
    ensures var r := StripSlashes(p);
            (r == [] || r[|r| - 1] != '/') && forall i | |r| <= i < |p| :: p[i] == '/'
    decreases |p|
  {
    if p != [] && p[|p| - 1] == '/' {
      var q := p[..|p| - 1];
      StripSlashesSpec(q);
      var r := StripSlashes(q);
      forall i | |r| <= i < |p|
        ensures p[i] == '/'
      {
        if i < |p| - 1 {
          assert p[i] == q[i];
        }
      }
    }
  }

  /** Stripping twice is stripping once. */
  lemma StripSlashesIdempotent(p: string)
    ensures StripSlashes(StripSlashes(p)) == StripSlashes(p)
  {
    StripSlashesSpec(p);
  }

  datatype Route =
    | Initialize | Shutdown | Login | LastErrorRoute | Version
    | AccountInfo | TerminalInfo | SymbolsTotal | SymbolsGet | SymbolInfo
    | SymbolInfoTick | SymbolSelect | OrderSend | OrderCheck | OrderCalcMargin
    | OrderCalcProfit | OrdersTotal | OrdersGet | PositionsTotal | PositionsGet
    | HistoryOrdersTotal | HistoryOrdersGet | HistoryDealsTotal | HistoryDealsGet
    | CopyRatesFrom | CopyRatesFromPos | CopyRatesRange | CopyTicksFrom | CopyTicksRange

  /** `ROUTES`. */
  const Routes: map<string, Route> := map[
    "/initialize" := Initialize,
    "/shutdown" := Shutdown,
    "/login" := Login,
    "/last_error" := LastErrorRoute,
    "/version" := Version,
    "/account_info" := AccountInfo,
    "/terminal_info" := TerminalInfo,
    "/symbols_total" := SymbolsTotal,
    "/symbols_get" := SymbolsGet,
    "/symbol_info" := SymbolInfo,
    "/symbol_info_tick" := SymbolInfoTick,
    "/symbol_select" := SymbolSelect,
    "/order_send" := OrderSend,
    "/order_check" := OrderCheck,
    "/order_calc_margin" := OrderCalcMargin,
    "/order_calc_profit" := OrderCalcProfit,
    "/orders_total" := OrdersTotal,
    "/orders_get" := OrdersGet,
    "/positions_total" := PositionsTotal,
    "/positions_get" := PositionsGet,
    "/history_orders_total" := HistoryOrdersTotal,
    "/history_orders_get" := HistoryOrdersGet,
    "/history_deals_total" := HistoryDealsTotal,
    "/history_deals_get" := HistoryDealsGet,
    "/copy_rates_from" := CopyRatesFrom,
    "/copy_rates_from_pos" := CopyRatesFromPos,
    "/copy_rates_range" := CopyRatesRange,
    "/copy_ticks_from" := CopyTicksFrom,
    "/copy_ticks_range" := CopyTicksRange
  ]

  /** The library function a route is named after. */
  function Endpoint(r: Route): string {
    match r
    case Initialize => "initialize"
    case Shutdown => "shutdown"
    case Login => "login"
    case LastErrorRoute => "last_error"
    case Version => "version"
    case AccountInfo => "account_info"
    case TerminalInfo => "terminal_info"
    case SymbolsTotal => "symbols_total"
    case SymbolsGet => "symbols_get"
    case SymbolInfo => "symbol_info"
    case SymbolInfoTick => "symbol_info_tick"
    case SymbolSelect => "symbol_select"
    case OrderSend => "order_send"
    case OrderCheck => "order_check"
    case OrderCalcMargin => "order_calc_margin"
    case OrderCalcProfit => "order_calc_profit"
    case OrdersTotal => "orders_total"
    case OrdersGet => "orders_get"
    case PositionsTotal => "positions_total"
    case PositionsGet => "positions_get"
    case HistoryOrdersTotal => "history_orders_total"
    case HistoryOrdersGet => "history_orders_get"
    case HistoryDealsTotal => "history_deals_total"
    case HistoryDealsGet => "history_deals_get"
    case CopyRatesFrom => "copy_rates_from"
    case CopyRatesFromPos => "copy_rates_from_pos"
    case CopyRatesRange => "copy_rates_range"
    case CopyTicksFrom => "copy_ticks_from"
    case CopyTicksRange => "copy_ticks_range"
  }

  /** `ROUTES.get(path)`. */
  function Lookup(path: string): Option<Route> {
    if path in Routes then Some(Routes[path]) else None
  }

  /*** Arguments of library calls ***/

  /** A point in time as `_parse_datetime` builds it. */
  datatype Instant = IsoText(text: string) | Timestamp(seconds: int)

  /** An argument of a library call: positional, a date, or a keyword. */
  datatype Arg = Pos(value: Json) | When(instant: Instant) | Named(key: string, value: Json)

  /** One library call: the function's name and its arguments in order. */
  datatype Call = Call(name: string, args: seq<Arg>)

  /** How a handler takes one argument from the body `b`:
      `b[k]`, `b.get(k, d)`, the keyword argument `k=b.get(k, d)`,
      `b.get(k, b)`, `_parse_datetime(b[k])`, `b.get(k)` passed only when
      truthy, or the keywords `{k: b[k] for k in keys if k in b}`. */
  datatype Param =
    | Key(key: string)
    | KeyOr(key: string, default: Json)
    | NamedOr(key: string, default: Json)
    | KeyOrBody(key: string)
    | DateKey(key: string)
    | IfTruthy(key: string)
    | Keywords(keys: seq<string>)

  /** What `datetime.fromisoformat` makes of a text: a date; a text that is
      not in ISO format (it raises `Invalid isoformat string: ` and the text's
      `repr`); or an ISO-shaped date with a field out of range, for which the
      range check raises its own message, such as `day is out of range for
      month` or `month must be in 1..12`. */
  datatype IsoCheck = IsoDate | IsoMalformed | IsoOutOfRange(message: string)

  /** `_parse_datetime(v)`: a string must be an ISO date (`isoDate` says how
      `datetime.fromisoformat` judges each text), anything else is taken as
      a Unix timestamp, which only integers (and booleans) are. */
  function ParseDate(v: Json, isoDate: string -> IsoCheck): (r: Either<PyError, Instant>)
    ensures r.Right? <==> (v.JStr? && isoDate(v.s).IsoDate?) || v.JInt? || v.JBool?
    ensures v.JStr? && isoDate(v.s).IsoDate? ==> r == Right(IsoText(v.s))
    ensures v.JStr? && isoDate(v.s).IsoMalformed? ==> r == Left(BadIsoDate(v.s))
    ensures v.JStr? && isoDate(v.s).IsoOutOfRange? ==> r == Left(DateOutOfRange(isoDate(v.s).message))
    ensures v.JInt? ==> r == Right(Timestamp(v.i))
    ensures !v.JStr? && !v.JInt? && !v.JBool? ==> r == Left(BadTimestamp(TypeName(v)))
  {
    match v
    case JStr(s) =>
      (match isoDate(s)
       case IsoDate => Right(IsoText(s))
       case IsoMalformed => Left(BadIsoDate(s))
       case IsoOutOfRange(m) => Left(DateOutOfRange(m)))
    case JInt(i) => Right(Timestamp(i))
    case JBool(b) => Right(Timestamp(if b then 1 else 0))
    case _ => Left(BadTimestamp(TypeName(v)))
  }

  /** `k` occurs in `s` at index `i`. */
  predicate OccursAt(k: string, s: string, i: int) {
    0 <= i && i + |k| <= |s| && s[i..i + |k|] == k
  }

  /** `k` occurs in `s` as a substring. */
  predicate Substring(k: string, s: string) {
    exists i | 0 <= i <= |s| - |k| :: OccursAt(k, s, i)
  }

  /** `k in b`: a key of a dictionary, an element of a list, a substring of
      a string; other values are no containers. */
  function Contains(b: Json, k: string): (r: Either<PyError, bool>)
    ensures b.JObj? ==> r == Right(HasKey(b.fields, k))
  {
    match b
    case JObj(fs) => Right(HasKey(fs, k))
    case JList(xs) => Right(JStr(k) in xs)
    case JStr(s) => Right(Substring(k, s))
    case _ => Left(NotContainer(TypeName(b)))
  }

  /** `{k: b[k] for k in keys if k in b}`. */
  function Keyword(b: Json, keys: seq<string>): Either<PyError, seq<Arg>>
  {
    if keys == [] then Right([])
    else
      match Contains(b, keys[0])
      case Left(e) => Left(e)
      case Right(false) => Keyword(b, keys[1..])
      case Right(true) =>
        match Index(b, keys[0])
        case Left(e) => Left(e)
        case Right(v) =>
          match Keyword(b, keys[1..])
          case Left(e) => Left(e)
          case Right(rest) => Right([Named(keys[0], v)] + rest)
  }

  /** On a dictionary the keywords are some of the listed keys, each with
      the dictionary's value for it. */
  lemma {:induction false} KeywordOfDict(fs: seq<(string, Json)>, keys: seq<string>)
    ensures var r := Keyword(JObj(fs), keys);
            r.Right? && |r.right| <= |keys| &&
            forall i | 0 <= i < |r.right| ::
              r.right[i].Named? && r.right[i].key in keys && Get(fs, r.right[i].key) == Some(r.right[i].value)
  {
    if keys != [] {
      KeywordOfDict(fs, keys[1..]);
      var rest := Keyword(JObj(fs), keys[1..]).right;
      if HasKey(fs, keys[0]) {
        var r := [Named(keys[0], Get(fs, keys[0]).value)] + rest;
        assert Keyword(JObj(fs), keys) == Right(r);
        forall i | 0 <= i < |r|
          ensures r[i].Named? && r[i].key in keys && Get(fs, r[i].key) == Some(r[i].value)
        {
          if i > 0 {
            assert r[i] == rest[i - 1];
            assert rest[i - 1].key in keys[1..];
          }
        }
      } else {
        forall i | 0 <= i < |rest|
          ensures rest[i].key in keys
        {
          assert rest[i].key in keys[1..];
        }
      }
    }
  }

  /** On a dictionary every listed key it has becomes a keyword. */
  lemma {:induction false} KeywordOfDictComplete(fs: seq<(string, Json)>, keys: seq<string>)
    ensures var r := Keyword(JObj(fs), keys);
            r.Right? && forall k | k in keys && HasKey(fs, k) ::
                          exists i | 0 <= i < |r.right| :: r.right[i].Named? && r.right[i].key == k
  {
    KeywordOfDict(fs, keys);
    if keys != [] {
      KeywordOfDictComplete(fs, keys[1..]);
      KeywordOfDict(fs, keys[1..]);
      var rest := Keyword(JObj(fs), keys[1..]).right;
      var r := Keyword(JObj(fs), keys).right;
      forall k | k in keys && HasKey(fs, k)
        ensures exists i | 0 <= i < |r| :: r[i].Named? && r[i].key == k
      {
        if HasKey(fs, keys[0]) {
          assert r == [Named(keys[0], Get(fs, keys[0]).value)] + rest;
          if k == keys[0] {
            assert r[0].key == k;
          } else {
            assert k in keys[1..];
            var i :| 0 <= i < |rest| && rest[i].Named? && rest[i].key == k;
            assert r[i + 1] == rest[i];
          }
        } else {
          assert r == rest;
          assert k in keys[1..];
        }
      }
    }
  }

  /** A list without the keys as elements gives no keywords: such a body
      passes the filter and the library is called without any. */
  lemma {:induction false} KeywordOfPlainList(xs: seq<Json>, keys: seq<string>)
    requires forall k | k in keys :: JStr(k) !in xs
    ensures Keyword(JList(xs), keys) == Right([])
  {
    if keys != [] {
      KeywordOfPlainList(xs, keys[1..]);
    }
  }

  /** The arguments a handler passes, evaluated left to right; the first
      exception stops the evaluation. */
  function Args(b: Json, ps: seq<Param>, isoDate: string -> IsoCheck): Either<PyError, seq<Arg>>
  {
    if ps == [] then Right([])
    else
      match Arg1(b, ps[0], isoDate)
      case Left(e) => Left(e)
      case Right(first) =>
        match Args(b, ps[1..], isoDate)
        case Left(e) => Left(e)
        case Right(rest) => Right(first + rest)
  }

  /** The arguments one parameter contributes. */
  function Arg1(b: Json, p: Param, isoDate: string -> IsoCheck): Either<PyError, seq<Arg>>
  {
    match p
    case Key(k) => (match Index(b, k) case Left(e) => Left(e) case Right(v) => Right([Pos(v)]))
    case KeyOr(k, d) => (match BodyGet(b, k, d) case Left(e) => Left(e) case Right(v) => Right([Pos(v)]))
    case NamedOr(k, d) => (match BodyGet(b, k, d) case Left(e) => Left(e) case Right(v) => Right([Named(k, v)]))
    case KeyOrBody(k) => (match BodyGet(b, k, b) case Left(e) => Left(e) case Right(v) => Right([Pos(v)]))
    case DateKey(k) =>
      (match Index(b, k)
       case Left(e) => Left(e)
       case Right(v) => (match ParseDate(v, isoDate) case Left(e) => Left(e) case Right(t) => Right([When(t)])))
    case IfTruthy(k) =>
      (match BodyGet(b, k, JNull) case Left(e) => Left(e) case Right(v) => Right(if Truthy(v) then [Pos(v)] else []))
    case Keywords(keys) => Keyword(b, keys)
  }

  /** The first parameter that raises decides the error. */
  lemma ArgsFirstError(b: Json, ps: seq<Param>, isoDate: string -> IsoCheck)
    requires ps != [] && Arg1(b, ps[0], isoDate).Left?
    ensures Args(b, ps, isoDate) == Left(Arg1(b, ps[0], isoDate).left)
  {
  }

  /** One parameter gives its own arguments. */
  lemma ArgsSingle(b: Json, p: Param, isoDate: string -> IsoCheck)
    ensures Args(b, [p], isoDate) == Arg1(b, p, isoDate)
  {
    assert [p][1..] == [];
    var a := Arg1(b, p, isoDate);
    if a.Right? {
      assert a.right + [] == a.right;
    }
  }

  /** Arguments are evaluated left to right: the first parameter's, then
      the rest's. */
  lemma ArgsCons(b: Json, p: Param, ps: seq<Param>, isoDate: string -> IsoCheck)
    requires Arg1(b, p, isoDate).Right? && Args(b, ps, isoDate).Right?
    ensures Args(b, [p] + ps, isoDate) == Right(Arg1(b, p, isoDate).right + Args(b, ps, isoDate).right)
  {
    assert ([p] + ps)[0] == p && ([p] + ps)[1..] == ps;
  }

  /*** The library ***/

  /** What the `MetaTrader5` library returns, per call: `last_error()`,
      `version()`, plain values (counts, `symbol_select`, `login`), records
      or None, rows or None (lists and numpy arrays), and margin or profit
      amounts or None. */
  datatype Library = Library(
    lastError: Session.LastError,
    version: Option<seq<Json>>,
    value: Call -> Json,
    record: Call -> Option<Record>,
    rows: Call -> Option<seq<Record>>,
    amount: Call -> Option<Json>)

  /** Everything a POST request depends on besides its path and body: the
      host's files, the terminal's scripted `initialize` results, the
      library and which texts are ISO dates. */
  datatype Env = Env(fs: Fs, layout: Layout, script: Session.Script, lib: Library, isoDate: string -> IsoCheck)

  /*** Handlers ***/

  /** What a handler does with the library's answer. */
  datatype Kind =
    | InitializeKind
    | ShutdownKind
    | LoginKind
    | LastErrorKind
    | VersionKind
    | RecordKind
    | RowsKind
    | FieldKind(field: string)
    | AmountKind(field: string)
    | ArrayKind

  datatype Handler = Handler(kind: Kind, params: seq<Param>)

  const HistoryDates: seq<Param> := [DateKey("date_from"), DateKey("date_to")]
  const LiveFilters: seq<string> := ["symbol", "ticket", "group"]
  const HistoryFilters: seq<string> := ["ticket", "group", "position"]

  /** The default `path` of `/initialize`. */
  const DefaultTerminal := "C:\\Program Files\\MetaTrader 5\\terminal64.exe"

  /** The handler `ROUTES` maps each route to. */
  function HandlerOf(r: Route): Handler {
    match r
    case Initialize => Handler(InitializeKind, [])
    case Shutdown => Handler(ShutdownKind, [])
    case Login => Handler(LoginKind, [Key("login"), NamedOr("password", JStr("")), NamedOr("server", JStr(""))])
    case LastErrorRoute => Handler(LastErrorKind, [])
    case Version => Handler(VersionKind, [])
    case AccountInfo => Handler(RecordKind, [])
    case TerminalInfo => Handler(RecordKind, [])
    case SymbolsTotal => Handler(FieldKind("total"), [])
    case SymbolsGet => Handler(RowsKind, [IfTruthy("group")])
    case SymbolInfo => Handler(RecordKind, [Key("symbol")])
    case SymbolInfoTick => Handler(RecordKind, [Key("symbol")])
    case SymbolSelect => Handler(FieldKind("ok"), [Key("symbol"), KeyOr("enable", JBool(true))])
    case OrderSend => Handler(RecordKind, [KeyOrBody("request")])
    case OrderCheck => Handler(RecordKind, [KeyOrBody("request")])
    case OrderCalcMargin => Handler(AmountKind("margin"), [Key("action"), Key("symbol"), Key("volume"), Key("price")])
    case OrderCalcProfit =>
      Handler(AmountKind("profit"), [Key("action"), Key("symbol"), Key("volume"), Key("price_open"), Key("price_close")])
    case OrdersTotal => Handler(FieldKind("total"), [])
    case OrdersGet => Handler(RowsKind, [Keywords(LiveFilters)])
    case PositionsTotal => Handler(FieldKind("total"), [])
    case PositionsGet => Handler(RowsKind, [Keywords(LiveFilters)])
    case HistoryOrdersTotal => Handler(FieldKind("total"), HistoryDates)
    case HistoryOrdersGet => Handler(RowsKind, HistoryDates + [Keywords(HistoryFilters)])
    case HistoryDealsTotal => Handler(FieldKind("total"), HistoryDates)
    case HistoryDealsGet => Handler(RowsKind, HistoryDates + [Keywords(HistoryFilters)])
    case CopyRatesFrom => Handler(ArrayKind, [Key("symbol"), Key("timeframe"), DateKey("date_from"), Key("count")])
    case CopyRatesFromPos => Handler(ArrayKind, [Key("symbol"), Key("timeframe"), Key("start_pos"), Key("count")])
    case CopyRatesRange => Handler(ArrayKind, [Key("symbol"), Key("timeframe"), DateKey("date_from"), DateKey("date_to")])
    case CopyTicksFrom => Handler(ArrayKind, [Key("symbol"), DateKey("date_from"), Key("count"), Key("flags")])
    case CopyTicksRange => Handler(ArrayKind, [Key("symbol"), DateKey("date_from"), DateKey("date_to"), Key("flags")])
  }

  /** A record, or the library error when the library returned None. */
  function RecordReply(lib: Library, result: Option<Record>): Json {
    match result
    case None => LibraryError(lib.lastError)
    case Some(rec) => AsDict(rec)
  }

  /** The list handlers' reply: `_namedtuple_list(result)`, or the library
      error when that is None. */
  function RowsReply(lib: Library, result: Option<seq<Record>>): Json {
    match NamedTupleList(result)
    case None => LibraryError(lib.lastError)
    case Some(ds) => JList(ds)
  }

  /** What a handler other than `/initialize` sends for the call it made. */
  function Respond(lib: Library, kind: Kind, call: Call): Either<PyError, Reply> {
    match kind
    case LoginKind =>
      Right(JsonReply(200, if Truthy(lib.value(call)) then OkBody(true) else FailedBody(lib.lastError)))
    case LastErrorKind =>
      Right(JsonReply(200, JObj([("code", JInt(lib.lastError.code)), ("message", JStr(lib.lastError.message))])))
    case VersionKind =>
      (match lib.version
       case None => Left(NotIterable("NoneType"))
       case Some(v) => Right(JsonReply(200, JObj([("version", JList(v))]))))
    case RecordKind => Right(JsonReply(200, RecordReply(lib, lib.record(call))))
    case RowsKind => Right(JsonReply(200, RowsReply(lib, lib.rows(call))))
    case FieldKind(f) => Right(JsonReply(200, JObj([(f, lib.value(call))])))
    case AmountKind(f) =>
      Right(JsonReply(200, match lib.amount(call) case None => LibraryError(lib.lastError) case Some(a) => JObj([(f, a)])))
    case ArrayKind =>
      Right(match lib.rows(call) case None => JsonReply(200, LibraryError(lib.lastError)) case Some(rs) => ArrayReply(rs))
    case _ => Right(JsonReply(200, OkBody(true)))
  }

  /** A handler's outcome: a reply sent, or an exception with its text; the
      files as the handler left them either way. */
  datatype Outcome = Sent(reply: Reply, fs: Fs) | Threw(message: string, fs: Fs)

  /** `_h_initialize`: reads `path`, `login`, `password` and `server` with
      `b.get`, runs the initialize controller, and maps its reply. */
  function InitializeRoute(env: Env, b: Json): Outcome {
    match b
    case JObj(fields) =>
      (match (Credential(GetOr(fields, "login", JNull)), Credential(GetOr(fields, "server", JNull)))
       case (Some(login), Some(server)) =>
         var run := HttpSession.HandleInitialize(env.fs, env.layout, env.script, login, server);
         (match run.reply
          case Ok => Sent(JsonReply(200, OkBody(true)), run.fs)
          case Failed(e) => Sent(JsonReply(200, FailedBody(e)), run.fs)
          case Raised(m) => Threw(m, run.fs))
       case _ => Sent(Unmodelled, env.fs))
    case _ => Threw(ErrorText(NoAttribute(TypeName(b), "get")), env.fs)
  }

  /** `handler(self, body)`. */
  function Handle(env: Env, r: Route, b: Json): Outcome {
    var h := HandlerOf(r);
    if h.kind == InitializeKind then InitializeRoute(env, b)
    else
      match Args(b, h.params, env.isoDate)
      case Left(e) => Threw(ErrorText(e), env.fs)
      case Right(args) =>
        match Respond(env.lib, h.kind, Call(Endpoint(r), args))
        case Left(e) => Threw(ErrorText(e), env.fs)
        case Right(reply) => Sent(reply, env.fs)
  }

  /** The reply to a request and the files after it. */
  datatype Response = Response(reply: Reply, fs: Fs)

  /** `do_POST`. */
  function DoPost(env: Env, rawPath: string, body: Body): Response {
    match body
    case Malformed(detail) => Response(JsonReply(400, ErrorBody("Invalid JSON: " + detail)), env.fs)
    case NoContent => Routed(env, StripSlashes(rawPath), JObj([]))
    case Parsed(b) => Routed(env, StripSlashes(rawPath), b)
  }

  /** `do_POST` once the body is read: look the path up and run its handler,
      turning an exception into a 500 reply. */
  function Routed(env: Env, path: string, b: Json): Response {
    match Lookup(path)
    case None => Response(JsonReply(404, ErrorBody("Unknown endpoint: " + path)), env.fs)
    case Some(r) =>
      match Handle(env, r, b)
      case Sent(reply, fs) => Response(reply, fs)
      case Threw(m, fs) => Response(JsonReply(500, ErrorBody("Internal error: " + m)), fs)
  }

  /** `do_GET`: only the exact path `/health` answers. */
  function DoGet(path: string): (r: Reply)
    ensures r.JsonReply? && (r.status == 200 <==> path == "/health")
    ensures r.status != 200 ==> r.body == ErrorBody("Use POST")
  {
    if path == "/health" then JsonReply(200, OkBody(true)) else JsonReply(405, ErrorBody("Use POST"))
  }

  /*** Properties of the front end ***/

  lemma Associative(a: string, b: string, c: string)
    ensures a + (b + c) == a + b + c
  {
  }

  /** Only the `/initialize` handler reads the body itself; it takes no
      parameters of the generic kind. */
  lemma InitializeTakesNoParams(r: Route)
    ensures HandlerOf(r).kind == InitializeKind <==> r == Initialize
    ensures r == Initialize ==> HandlerOf(r).params == []
  {
  }

  /** Handlers only ever send 200 themselves: every other status comes from
      `do_POST`. */
  lemma HandlersSend200(env: Env, r: Route, b: Json)
    ensures var o := Handle(env, r, b);
            o.Sent? && o.reply.JsonReply? ==> o.reply.status == 200
    ensures Handle(env, r, b).fs != env.fs ==> r == Initialize
  {
    InitializeTakesNoParams(r);
    if r != Initialize {
      var h := HandlerOf(r);
      match Args(b, h.params, env.isoDate)
      case Left(_) =>
      case Right(args) => RespondSends200(env.lib, h.kind, Call(Endpoint(r), args));
    }
  }

  /** `Respond` either raises or sends a 200 reply (or an array). */
  lemma RespondSends200(lib: Library, kind: Kind, call: Call)
    ensures var o := Respond(lib, kind, call);
            o.Right? && o.right.JsonReply? ==> o.right.status == 200
  {
  }

  /** The status of a POST reply: 400 exactly for a body that is not JSON,
      whatever the path; 404 exactly for a readable body on a path that is no
      route after stripping trailing slashes; otherwise 200 or 500. Only
      `/initialize` touches the files. */
  lemma {:induction false} DoPostStatus(env: Env, rawPath: string, body: Body)
    ensures var rsp := DoPost(env, rawPath, body);
            var route := Lookup(StripSlashes(rawPath));
            (rsp.reply.JsonReply? ==> rsp.reply.status in {200, 400, 404, 500}) &&
            (rsp.reply.JsonReply? && rsp.reply.status == 400 <==> body.Malformed?) &&
            (rsp.reply.JsonReply? && rsp.reply.status == 404 <==> !body.Malformed? && route.None?) &&
            (rsp.fs != env.fs ==> !body.Malformed? && route == Some(Initialize))
  {
    if !body.Malformed? {
      var b := if body.NoContent? then JObj([]) else body.json;
      match Lookup(StripSlashes(rawPath))
      case None =>
      case Some(r) => HandlersSend200(env, r, b);
    }
  }

  /** A trailing slash does not change the reply. */
  lemma TrailingSlashIgnored(env: Env, path: string, body: Body)
    ensures DoPost(env, path + "/", body) == DoPost(env, path, body)
  {
    assert (path + "/")[..|path|] == path;
  }

  /** An empty body is read as an empty object. */
  lemma NoContentIsEmptyObject(env: Env, path: string)
    ensures DoPost(env, path, NoContent) == DoPost(env, path, Parsed(JObj([])))
  {
  }

  /** A route whose first argument is `b[k]`, asked with an object that has
      no `k`, answers 500 with the `KeyError` text, the `repr` of `k`; for a
      plain key that is `'k'`. */
  lemma MissingKeyIs500(env: Env, rawPath: string, fields: seq<(string, Json)>, r: Route, k: string)
    requires Lookup(StripSlashes(rawPath)) == Some(r)
    requires HandlerOf(r).params != [] && HandlerOf(r).params[0] == Key(k)
    requires !HasKey(fields, k)
    ensures DoPost(env, rawPath, Parsed(JObj(fields))) ==
            Response(JsonReply(500, ErrorBody("Internal error: " + Repr(k))), env.fs)
    ensures PlainText(k) ==>
              DoPost(env, rawPath, Parsed(JObj(fields))) ==
              Response(JsonReply(500, ErrorBody("Internal error: " + "'" + k + "'")), env.fs)
  {
    var b := JObj(fields);
    assert Arg1(b, Key(k), env.isoDate) == Left(KeyMissing(k));
    FirstParamRaises(env, r, b);
    ThrewIs500(env, rawPath, b, r);
    assert Handle(env, r, b).message == Repr(k);
    if PlainText(k) {
      ReprPlain(k);
      Associative("Internal error: ", "'" + k, "'");
      Associative("Internal error: ", "'", k);
    }
  }

  /** A handler whose first argument raises throws that exception. */
  lemma FirstParamRaises(env: Env, r: Route, b: Json)
    requires HandlerOf(r).params != [] && Arg1(b, HandlerOf(r).params[0], env.isoDate).Left?
    ensures Handle(env, r, b) == Threw(ErrorText(Arg1(b, HandlerOf(r).params[0], env.isoDate).left), env.fs)
  {
    InitializeTakesNoParams(r);
    ArgsFirstError(b, HandlerOf(r).params, env.isoDate);
  }


  /** A date text that is not in ISO format fails the whole request with the
      parser's message, which shows the text through `repr`. */
  lemma BadDateIs500(env: Env, rawPath: string, fields: seq<(string, Json)>, r: Route, text: string)
    requires Lookup(StripSlashes(rawPath)) == Some(r)
    requires HandlerOf(r).params != [] && HandlerOf(r).params[0] == DateKey("date_from")
    requires Get(fields, "date_from") == Some(JStr(text)) && env.isoDate(text) == IsoMalformed
    ensures DoPost(env, rawPath, Parsed(JObj(fields))) ==
            Response(JsonReply(500, ErrorBody("Internal error: " + ("Invalid isoformat string: " + Repr(text)))), env.fs)
  {
    var b := JObj(fields);
    assert Arg1(b, DateKey("date_from"), env.isoDate) == Left(BadIsoDate(text));
    FirstParamRaises(env, r, b);
    ThrewIs500(env, rawPath, b, r);
    var e := Arg1(b, HandlerOf(r).params[0], env.isoDate).left;
    assert e == BadIsoDate(text);
    assert ErrorText(e) == "Invalid isoformat string: " + Repr(text);
  }

  /** An ISO-shaped date with a field out of range fails the whole request
      with the range check's message alone. */
  lemma DateOutOfRangeIs500(env: Env, rawPath: string, fields: seq<(string, Json)>, r: Route, text: string)
    requires Lookup(StripSlashes(rawPath)) == Some(r)
    requires HandlerOf(r).params != [] && HandlerOf(r).params[0] == DateKey("date_from")
    requires Get(fields, "date_from") == Some(JStr(text)) && env.isoDate(text).IsoOutOfRange?
    ensures DoPost(env, rawPath, Parsed(JObj(fields))) ==
            Response(JsonReply(500, ErrorBody("Internal error: " + env.isoDate(text).message)), env.fs)
  {
    var b := JObj(fields);
    assert Arg1(b, DateKey("date_from"), env.isoDate) == Left(DateOutOfRange(env.isoDate(text).message));
    FirstParamRaises(env, r, b);
    ThrewIs500(env, rawPath, b, r);
    var e := Arg1(b, HandlerOf(r).params[0], env.isoDate).left;
    assert e == DateOutOfRange(env.isoDate(text).message);
  }

  /** An exception in a handler becomes a 500 reply carrying its text. */
  lemma ThrewIs500(env: Env, rawPath: string, b: Json, r: Route)
    requires Lookup(StripSlashes(rawPath)) == Some(r) && Handle(env, r, b).Threw?
    ensures var o := Handle(env, r, b);
            DoPost(env, rawPath, Parsed(b)) == Response(JsonReply(500, ErrorBody("Internal error: " + o.message)), o.fs)
  {
  }



  /** A list handler sends the library's rows as dictionaries, every row
      and in order, an empty list when there are none; only None from the
      library gives the error payload, which is no list. */
  lemma RowsReplyShape(lib: Library, result: Option<seq<Record>>)
    ensures var j := RowsReply(lib, result);
            (result.None? <==> j == LibraryError(lib.lastError)) &&
            (result.Some? ==>
               j.JList? && |j.items| == |result.value| &&
               (forall i | 0 <= i < |j.items| :: FromDict(j.items[i]) == Some(result.value[i])))
  {
    NamedTupleListInverse(result);
  }

  /** `/orders_get` and `/positions_get` with the body `[]` are not refused:
      no filter applies and every order or position is listed, as for `{}`. */
  lemma EmptyListBodyUnfiltered(env: Env, rawPath: string, r: Route)
    requires Lookup(StripSlashes(rawPath)) == Some(r)
    requires r == OrdersGet || r == PositionsGet
    ensures DoPost(env, rawPath, Parsed(JList([]))) == DoPost(env, rawPath, NoContent)
    ensures DoPost(env, rawPath, NoContent).reply ==
            JsonReply(200, RowsReply(env.lib, env.lib.rows(Call(Endpoint(r), []))))
  {
    KeywordOfPlainList([], LiveFilters);
    KeywordOfDict([], LiveFilters);
    UnfilteredRows(env, r, JList([]));
    UnfilteredRows(env, r, JObj([]));
  }

  /** A live list route whose body yields no filters lists every row. */
  lemma UnfilteredRows(env: Env, r: Route, b: Json)
    requires r == OrdersGet || r == PositionsGet
    requires Keyword(b, LiveFilters) == Right([])
    ensures Handle(env, r, b) == Sent(JsonReply(200, RowsReply(env.lib, env.lib.rows(Call(Endpoint(r), [])))), env.fs)
  {
    ArgsSingle(b, Keywords(LiveFilters), env.isoDate);
  }


  /** `/initialize` answers what the initialize controller decides: `ok`
      true for its success, `ok` false with the error for its failure, and
      500 with the exception's text when deleting `accounts.dat` raised; the
      files are the controller's. A missing `login` or `server` key reads as
      None, as `b.get` does. */
  lemma InitializeReply(env: Env, rawPath: string, fields: seq<(string, Json)>,
                        login: Option<Scalar>, server: Option<Scalar>)
    requires Lookup(StripSlashes(rawPath)) == Some(Initialize)
    requires Credential(GetOr(fields, "login", JNull)) == Some(login)
    requires Credential(GetOr(fields, "server", JNull)) == Some(server)
    ensures var run := HttpSession.HandleInitialize(env.fs, env.layout, env.script, login, server);
            var rsp := DoPost(env, rawPath, Parsed(JObj(fields)));
            rsp.fs == run.fs &&
            (rsp.reply == JsonReply(200, OkBody(true)) <==> run.reply.Ok?) &&
            (run.reply.Failed? ==> rsp.reply == JsonReply(200, FailedBody(run.reply.error))) &&
            (rsp.reply.JsonReply? && rsp.reply.status == 500 <==> run.reply.Raised?)
  {
    var b := JObj(fields);
    InitializeTakesNoParams(Initialize);
    assert Handle(env, Initialize, b) == InitializeRoute(env, b);
  }

  /** `/login` with a `login` key logs in with the password and server the
      body gives (empty when absent), and reports the library's refusal with
      its last error. */
  lemma LoginReply(env: Env, rawPath: string, fields: seq<(string, Json)>, login: Json)
    requires Lookup(StripSlashes(rawPath)) == Some(Login)
    requires Get(fields, "login") == Some(login)
    ensures var call := Call("login", [Pos(login), Named("password", GetOr(fields, "password", JStr(""))),
                                       Named("server", GetOr(fields, "server", JStr("")))]);
            var rsp := DoPost(env, rawPath, Parsed(JObj(fields)));
            rsp.fs == env.fs &&
            (rsp.reply == JsonReply(200, OkBody(true)) <==> Truthy(env.lib.value(call))) &&
            (!Truthy(env.lib.value(call)) ==> rsp.reply == JsonReply(200, FailedBody(env.lib.lastError)))
  {
    LoginHandled(env, fields, login);
  }

  /** The login handler's arguments and reply. */
  lemma LoginHandled(env: Env, fields: seq<(string, Json)>, login: Json)
    requires Get(fields, "login") == Some(login)
    ensures var call := Call("login", [Pos(login), Named("password", GetOr(fields, "password", JStr(""))),
                                       Named("server", GetOr(fields, "server", JStr("")))]);
            Handle(env, Login, JObj(fields)) ==
            Sent(JsonReply(200, if Truthy(env.lib.value(call)) then OkBody(true) else FailedBody(env.lib.lastError)), env.fs)
  {
    var b := JObj(fields);
    var p1, p2, p3 := Key("login"), NamedOr("password", JStr("")), NamedOr("server", JStr(""));
    var a1, a2, a3 := Pos(login), Named("password", GetOr(fields, "password", JStr(""))),
                      Named("server", GetOr(fields, "server", JStr("")));
    assert Arg1(b, p1, env.isoDate) == Right([a1]);
    assert Arg1(b, p2, env.isoDate) == Right([a2]);
    assert Arg1(b, p3, env.isoDate) == Right([a3]);
    ArgsSingle(b, p3, env.isoDate);
    ArgsCons(b, p2, [p3], env.isoDate);
    assert [p2] + [p3] == [p2, p3] && [a2] + [a3] == [a2, a3];
    ArgsCons(b, p1, [p2, p3], env.isoDate);
    assert [p1] + [p2, p3] == HandlerOf(Login).params && [a1] + [a2, a3] == [a1, a2, a3];
    var args := [a1, a2, a3];
    assert Args(b, HandlerOf(Login).params, env.isoDate) == Right(args);
  }

  /** A record handler sends the record as a dictionary with the same
      fields, or the library error when there is no record. */
  lemma RecordReplyShape(lib: Library, result: Option<Record>)
    ensures var j := RecordReply(lib, result);
            (result.None? ==> j == LibraryError(lib.lastError)) &&
            (result.Some? ==> FromDict(j) == result)
  {
    if result.Some? {
      FromAsDict(result.value);
    }
  }
}
