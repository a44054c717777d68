# mt5-docker server core, modelled in Dafny

mt5-docker runs the MetaTrader 5 terminal and its Python library under Wine.
Linux clients reach it through one of two front ends:

- `mt5_server.py` is an HTTP server. It maps POST paths to library calls and
  sends JSON replies.
- `rpyc_server.py` is an rpyc service. It exposes the same library calls as
  remote methods.

Both front ends wrap the library's `initialize` in the same two things:

- A credential preparation step. It rewrites the `Login=`, `Server=` and
  `[Experts] Enabled=` lines of the terminal's `common.ini` and deletes
  `accounts.dat`.
- A recovery controller. It kills and restarts the terminal once after an IPC
  failure. The HTTP controller also restarts once when the account may not
  trade.

This project models that core as pure functions and proves properties of it:

| module | file | models |
|---|---|---|
| `Values` | values.dfy | JSON values, Python truthiness, `dict` access with its `KeyError`/`AttributeError`/`TypeError` texts, and how `str()` renders an int, str or bool credential |
| `Text` | text.dfy | `str.split("\n")` and `"\n".join` (`Lines`/`Unlines`) and the line arithmetic the regex proofs need |
| `IniRewrite` | ini_rewrite.dfy | `re.sub(r"(?m)^Login=.*", ...)` and the same for `Server=` |
| `LineSearch`, `LazyMatch` | line_search.dfy, lazy_match.dfy | where `(?m)^(\[Experts\].*?^Enabled=)0` with `DOTALL` matches |
| `Experts` | experts.dfy | the `count=1` substitution of that pattern |
| `IniPatch` | ini_patch.dfy | the three rewrites `_prepare_ini` applies to one file |
| `Host` | host.dfy | the files the servers touch: `_get_ini_paths`, the `_prepare_ini` loop and `_delete_accounts_dat` |
| `Session` | session.dfy | the terminal as a script of `initialize` results, and the action trace |
| `HttpSession`, `RpycSession` | http_session.dfy, rpyc_session.dfy | `_h_initialize` and `MT5Service.exposed_initialize` |
| `Adapters` | adapters.dfy | where the two controllers agree and where they differ |
| `Records` | records.dfy | `_asdict()` and `_namedtuple_list` |
| `HttpDispatch` | http_dispatch.dfy | `do_POST`, `do_GET`, `ROUTES` and the route handlers |
| `RpycService` | rpyc_service.dfy | the `exposed_*` methods that convert records |

The host is a map from path to a file's text as Python's text mode reads it,
plus a map from path to the operating-system error text of files that cannot
be read, written or removed, plus which texts the locale's codec can encode.
Text mode decodes with the locale's codec and, with universal newlines, reads
both `\r\n` and a lone `\r` as `\n`; writing turns each `\n` back into the
platform's line end. A file that does not decode counts as one that cannot be
read. Writing a text the codec cannot encode raises after `open(p, "w")` has
truncated the file, so the file is left empty.
The glob results are candidate paths that exist in that map.

The library is an oracle. For `initialize`, a script gives the n-th call's
result, the `last_error()` after it and `terminal_info()`. For every other
call, functions of the call's name and arguments give the result.

Sleeping, `taskkill` and the library's `initialize`/`shutdown` calls are
entries of an action trace.

Where the code and the repository's own description differ, the model follows
the code:

- The Experts switch is not confined to the `[Experts]` section. The lazy
  `.*?` runs past the next section header when the `[Experts]` section has no
  `Enabled=0` line. `IniPatch.PatchTwiceCrossesSections` shows a second run
  switching on an `[Email]` section's `Enabled=0`.
- `_delete_accounts_dat` catches only `FileNotFoundError`. A file that exists
  but cannot be removed raises out of `_h_initialize`, which becomes a 500
  reply, and out of `exposed_initialize`, which becomes a remote exception.
  Deleting is therefore not best-effort, unlike writing `common.ini`.
- A required body key that is missing raises `KeyError` in the handler. The
  reply is 500 with the text `Internal error: 'key'`, not a 4xx error.

## Model

| member | source | states |
|---|---|---|
| Values.Index | mt5_server.py:304 | `b["k"]` succeeds exactly on a dict holding `k` and yields its last value; a dict without `k` raises `KeyError(k)`, a list or string the `indices must be integers` `TypeError` and any other value `not subscriptable` |
| Values.BodyGet | mt5_server.py:194-198 | `b.get(k, d)` succeeds exactly when the body is a dict and then gives the value bound to `k` or else `d`; any other body raises `'T' object has no attribute 'get'` |
| Values.CredentialRoundTrip | mt5_server.py:194-198 | every scalar login or server (None, int, str, bool) is recovered from the JSON value it was sent as |
| Values.Decimal | mt5_server.py:79 | `str(login)` of an int is non-empty; its first character is `-` exactly for negative numbers and every other character is a decimal digit |
| Values.DigitsRoundTrip | mt5_server.py:79 | the digits of a natural number read back as that number and have no leading zero |
| Values.DecimalRoundTrip | mt5_server.py:79 | `int(str(i)) == i`: the login written into `common.ini` is the login given |
| Values.ReprRoundTrip | mt5_server.py:129 | the `repr` that `fromisoformat` and `KeyError` print reads back as the original text, so the error message names exactly the text that was sent |
| Values.ReprPlain | mt5_server.py:181-183 | printable ASCII text without `'` or `\` is printed between single quotes as is |
| Values.ReprApostrophe | mt5_server.py:129 | printable ASCII text holding `'` and no `"` or `\`, such as `it's`, is printed as is between double quotes |
| Text.LinesOfUnlines | mt5_server.py:76-87 | splitting a joined list of newline-free lines gives the lines back, so line-level reasoning about the file text is sound |
| Text.LinesInjective | mt5_server.py:76-87 | two texts have the same lines exactly when they are equal |
| IniRewrite.SetKeyLines | mt5_server.py:78-81 | with a value given, every line starting `Login=` (`Server=`) becomes exactly `Login=<value>` and every other line is unchanged; the line count is kept |
| IniRewrite.SetKeyNone | mt5_server.py:78-81 | with the value None the text is not touched |
| IniRewrite.SetKeyIdempotent | mt5_server.py:78-81 | rewriting a key twice with the same value gives the text of one rewrite |
| IniRewrite.SetKeysCommute | mt5_server.py:78-81 | the Login and Server rewrites do not interfere: their order does not matter |
| IniRewrite.SetKeyByLines | mt5_server.py:78-81 | the regex substitution over the whole text equals the per-line rewrite of its lines |
| LineSearch.FindByLines | mt5_server.py:82-85 | the leftmost line-start occurrence of a line-free pattern in the text is the start of the first line beginning with it |
| LineSearch.FirstLineFirst | mt5_server.py:82-85 | the line found is the first one from the start position that begins with the pattern; none is found only when no line does |
| LazyMatch.LazyScanFound | mt5_server.py:82-85 | the `Enabled=0` a match of `^[Experts].*?^Enabled=0` ends with lies inside the text right after a newline, so at a line start |
| LazyMatch.LazyScanLeftmost | mt5_server.py:82-85 | the scan finds the leftmost `[Experts]` line start that has a later `Enabled=0` line start, and the first such line after it |
| LazyMatch.FirstAfterSpec | mt5_server.py:82-85 | a switch happens exactly when some `[Experts]` line precedes some `Enabled=0` line; the line switched is the first `Enabled=0` after the first `[Experts]` line, whatever section it lies in |
| LazyMatch.LazyScanByUnlines | mt5_server.py:82-85 | the character-level regex match lands at the offset of the line the line-level search picks |
| Experts.EnableExpertsOneZero | mt5_server.py:82-85 | the switch changes at most one character, and only a `0` into a `1` |
| Experts.EnableExpertsNoHeader | mt5_server.py:82-85 | without an `[Experts]` line start the text is unchanged |
| Experts.EnableExpertsNoSwitch | mt5_server.py:82-85 | without an `Enabled=0` line start after the first `[Experts]` line, in any section, the text is unchanged |
| Experts.EnableExpertsKeepsHead | mt5_server.py:82-85 | all text up to and including the first `[Experts]` is unchanged |
| Experts.EnableExpertsLinesOf | mt5_server.py:82-85 | the switch on the text is the switch on its lines, and keeps the line count |
| Experts.SwitchOnIsUpdate | mt5_server.py:82-85 | the switched line is the `Enabled=0` line with its `0` replaced by `1` |
| IniPatch.PatchTextByLines | mt5_server.py:78-85 | the three rewrites of `_prepare_ini` on the text are the three rewrites on its lines, and the line count is kept |
| IniPatch.PatchLinesEach | mt5_server.py:78-85 | a line starting with none of `Login=`, `Server=`, `Enabled=0` comes out unchanged; `Login=`/`Server=` lines get the given value |
| IniPatch.PatchTwiceCrossesSections | mt5_server.py:82-85 | running the patch twice on `[Experts]`/`Enabled=0`/`[Email]`/`Enabled=0` switches on the `[Email]` line too: the patch is not idempotent and not confined to its section |
| Host.Glob | mt5_server.py:96-97 | the glob result holds exactly the candidate paths that exist |
| Host.AppdataIni | mt5_server.py:56-60 | an AppData `common.ini` is found exactly when some candidate exists, and it is an existing candidate |
| Host.IniPaths | mt5_server.py:63-69 | the ini path list starts with the fixed `INI_PATH` and has one or two entries; a second one is an existing candidate |
| Host.IniPathsSecond | mt5_server.py:63-69 | there is a second path exactly when some candidate exists, and it is the first existing one in glob order |
| Host.PrepareAllSpec | mt5_server.py:74-90 | a path that cannot be opened keeps its text and the loop goes on; every other path is patched and written back once per listing, a write the codec cannot encode leaving the file empty; no file appears or disappears |
| Host.PrepareAllKeeps | mt5_server.py:74-90 | patching the listed files never creates or removes a file and never changes which files are locked |
| Host.PrepareIniOnce | mt5_server.py:74-90 | when the AppData path differs from `INI_PATH`, every listed file that can be opened holds its text patched once if the codec can encode that and is empty otherwise; nothing else changes |
| Host.RemoveAllSpec | mt5_server.py:98-103 | the removal loop succeeds exactly when no listed file is locked, and then every listed file is gone, missing ones silently |
| Host.RemoveAllFails | mt5_server.py:98-103 | on failure the error is the first locked file's, and exactly the files listed before it were removed |
| Host.RemoveAllIdempotent | mt5_server.py:98-103 | running the removal loop again after it changes nothing |
| Host.AccountsPaths | mt5_server.py:95-97 | the deletion list starts with the fixed `accounts.dat` path |
| Host.DeleteAccountsSpec | mt5_server.py:93-103 | deleting `accounts.dat` succeeds exactly when neither the fixed file nor any existing AppData copy is locked; then all are gone and a second deletion changes nothing |
| HttpSession.HttpTrace | mt5_server.py:194-248 | the controller's trace is the optional ini preparation, then deletion, then one or two `initialize` calls with one kill cycle between them |
| HttpSession.HttpBounded | mt5_server.py:200-248 | at most two `initialize` calls and at most one kill, with a shutdown per kill; a restart happens exactly when the first call succeeded with trading disabled or failed with -10005 or -10003; `accounts.dat` is deleted once more per restart, and the ini is prepared only with credentials or for a restart |
| HttpSession.HttpReply | mt5_server.py:200-248 | the reply raises exactly when a deletion was not followed by an `initialize`; otherwise it is `ok` exactly when the last `initialize` succeeded, and a failure reports that call's `last_error` |
| HttpSession.HttpClearsAccounts | mt5_server.py:202-238 | unless deletion raised, no `accounts.dat` exists when the last `initialize` is called, and the locks are unchanged |
| HttpSession.PrepareIniKeepsLocks | mt5_server.py:72-90 | preparing the ini never changes which files are locked |
| RpycSession.AttemptsTrace | rpyc_server.py:107-123 | after the first `initialize`, a kill cycle runs exactly when it failed with -10005 or -10003, without deleting `accounts.dat`; the result is the last call's success |
| RpycSession.AttemptsBounded | rpyc_server.py:100-123 | after the credential steps, one `initialize` plus one more exactly when the first fails with a recoverable code; each retry is preceded by one shutdown and kill and one re-patch of the ini files; the result is what the last `initialize` returned |
| RpycSession.RpycBounded | rpyc_server.py:100-123 | at most two `initialize` calls and one kill; `accounts.dat` is deleted only with credentials; the call raises only when that deletion fails, before any `initialize`; a successful first call returns True at once |
| RpycSession.RpycKeepsFilesWithoutCredentials | rpyc_server.py:103-105 | without credentials no file is created or removed |
| Adapters.ControllersAgree | rpyc_server.py:100-123 | when neither controller raises and the first call did not succeed with trading disabled, both make as many `initialize` calls and agree on success |
| Adapters.ControllersDifferOnTradeDisabled | mt5_server.py:210-230 | when the first call succeeds with trading disabled, the HTTP controller restarts the terminal and the rpyc one returns True without a kill |
| Adapters.RpycRetriesWithAccounts | rpyc_server.py:111-121 | after an IPC failure the rpyc controller retries with `accounts.dat` still present, while the HTTP controller removes it |
| Records.AsDict | mt5_server.py:278 | a record becomes a dictionary |
| Records.FromAsDict | mt5_server.py:278 | a record is recovered from its dictionary |
| Records.DictList | mt5_server.py:119-122 | one dictionary per record, in order |
| Records.NamedTupleList | mt5_server.py:119-122 | None stays None and a record sequence becomes a list |
| Records.NamedTupleListInverse | mt5_server.py:119-122 | the list has as many entries as records and each gives back its record, so nothing is lost, added or reordered |
| Records.NamedTupleListInjective | mt5_server.py:119-122 | different library results never produce the same list |
| HttpDispatch.StripSlashes | mt5_server.py:169 | the stripped path is a prefix of the request path |
| HttpDispatch.StripSlashesSpec | mt5_server.py:169 | `rstrip("/")` removes exactly the trailing run of slashes |
| HttpDispatch.StripSlashesIdempotent | mt5_server.py:169 | stripping twice is stripping once |
| HttpDispatch.ParseDate | mt5_server.py:125-130 | a date is accepted exactly as an ISO string the parser takes or as an integer timestamp; a string not in ISO format raises `BadIsoDate` with its text, an ISO-shaped date out of range raises the range check's message, and any other type raises the timestamp `TypeError` |
| HttpDispatch.Contains | mt5_server.py:364 | on a dict, `k in b` is key membership |
| HttpDispatch.KeywordOfDict | mt5_server.py:364 | on a dict the keyword filters are listed keys it has, each with its value, and never more than the keys listed |
| HttpDispatch.KeywordOfDictComplete | mt5_server.py:364 | on a dict every listed key it has becomes a keyword filter |
| HttpDispatch.KeywordOfPlainList | mt5_server.py:364 | a list body without the keys as elements yields no filters |
| HttpDispatch.ArgsFirstError | mt5_server.py:343 | arguments are taken left to right and the first one that raises decides the error |
| HttpDispatch.DoGet | mt5_server.py:185-189 | GET answers 200 exactly for the literal path `/health` and 405 "Use POST" otherwise |
| HttpDispatch.HandlersSend200 | mt5_server.py:251-445 | handlers themselves only send status 200, and only `/initialize` changes files |
| HttpDispatch.DoPostStatus | mt5_server.py:168-183 | a POST reply is 200, 400, 404 or 500: 400 exactly for an unreadable body, whatever the path; 404 exactly for a readable body on an unknown path; files change only through `/initialize` |
| HttpDispatch.TrailingSlashIgnored | mt5_server.py:169 | a trailing slash does not change the reply |
| HttpDispatch.MissingKeyIs500 | mt5_server.py:181-183 | a route whose first argument is `b[k]`, sent an object without `k`, answers 500 `Internal error: ` followed by the `repr` of `k`, which is `'k'` for a plain key |
| HttpDispatch.BadDateIs500 | mt5_server.py:387-393 | a history route, whose first argument is `_parse_datetime(b["date_from"])`, answers 500 with `Invalid isoformat string: ` and the `repr` of a `date_from` string that is not in ISO format |
| HttpDispatch.DateOutOfRangeIs500 | mt5_server.py:387-393 | the same route with an ISO-shaped `date_from` whose day, month or time is out of range answers 500 with the range check's message alone, such as `day is out of range for month` |
| HttpDispatch.RowsReplyShape | mt5_server.py:293-300 | a list handler answers the error payload exactly for None, otherwise a list with every row as a dictionary in order, `[]` for none |
| HttpDispatch.RecordReplyShape | mt5_server.py:273-278 | a record handler answers the error payload for None and the record's dictionary otherwise |
| HttpDispatch.EmptyListBodyUnfiltered | mt5_server.py:363-370 | `/orders_get` and `/positions_get` with body `[]` behave as with `{}` and list everything |
| HttpDispatch.InitializeReply | mt5_server.py:194-248 | for any object body, with a missing `login` or `server` read as None, `/initialize` answers `{"ok": true}` exactly when the controller succeeds, `ok` false with its `last_error` when it fails, 500 exactly when deletion raised, and leaves the files as the controller does |
| HttpDispatch.LoginReply | mt5_server.py:256-261 | `/login` passes the login positionally and the password and server (default empty) as keywords; it answers `ok` true exactly when the library's result is truthy, otherwise `ok` false with the last error |
| RpycService.RecordMethod | rpyc_server.py:137-168 | a record method returns None exactly when the library does |
| RpycService.RecordMethodInverse | rpyc_server.py:137-168 | a returned dictionary gives back the library's record |
| RpycService.ListMethod | rpyc_server.py:152-156 | a list method returns None exactly when the library does |
| RpycService.ListMethodIsNamedTupleList | rpyc_server.py:191-222 | the rpyc list methods convert exactly as the HTTP server's `_namedtuple_list` |
| RpycService.OrderMethod | rpyc_server.py:224-228 | `order_send`/`order_check` raise exactly when the library returns None |
| RpycService.OrderMethodAgrees | rpyc_server.py:224-228 | they return the record method's dictionary, and raise the `'NoneType' object has no attribute '_asdict'` error in place of its None |

## Left out

- The `MetaTrader5` library is an oracle. The model does not say what
  `initialize`, `order_send` or any other call does. A script or function of
  the call gives each result.
- File and process I/O is abstracted. `open`, `glob.glob` and `os.remove`
  work on a map of file texts as text mode reads them, and a second map
  gives the error text of files that cannot be accessed. Whether the codec
  can encode a text is a parameter of the file system. `taskkill`, `time.sleep` and the library's
  `initialize`/`shutdown` calls are only trace entries. The processes they
  affect are not modelled.
- The terminal's own writes to `common.ini` and `accounts.dat` are not
  modelled. Files change only through the servers.
- The `initialize` script does not depend on the `path`, `login`, `password`
  or `server` arguments passed to the library.
- Regex replacement templates are not modelled. The model inserts the
  rendered value literally. Python would also interpret backslashes and
  group references in `Login={login}`. The proofs about the rewrite need
  values without a newline.
- Login and server values are modelled as None, int, str or bool.
  `/initialize` with a JSON list or object as login or server gets the
  `Unmodelled` reply. Python would render such a value with `str()`.
- Floats are not modelled: JSON numbers are integers. Float timestamps,
  prices and volumes are therefore out.
- The numpy reply is modelled as the rows the library returned. The
  `np.save` encoding is left out.
- HTTP framing and JSON encoding are not modelled. Headers, `Content-Length`
  handling and `json.dumps(default=str)` are left out. A body `json.loads`
  rejects arrives as its error message.
- HttpDispatch.ParseDate: how `datetime.fromisoformat` judges each string
  (an ISO date, not ISO format, or out of range with a given message) is a
  parameter. Timestamps too large for `utcfromtimestamp`, which raise
  `OverflowError` or `OSError`, are accepted by the model. The message for a
  non-number is the Python 3.9 one the server runs under.
- Values.Repr: characters outside ASCII are written as themselves. Python
  escapes the ones the Unicode database calls non-printable, which the model
  does not know.
- Values.ErrorText: the `string indices must be integers` message follows
  Python 3.9. Later versions append `, not 'str'`.
- `do_POST`'s routing table is a map literal. No lemma states that each route
  sits at `/` plus its library function's name. A proof over all 29 entries at
  once is too costly for the solver.
- The pass-through rpyc methods are not modelled beyond returning the
  library's value unchanged: `exposed_shutdown`, `exposed_login`,
  `exposed_version`, the totals, `symbol_select`, the margin and profit calls
  and the `copy_*` calls. The HTTP handlers for the same calls are entries of
  the `HttpDispatch` handler table; `/login` among them is stated by
  `HttpDispatch.LoginReply`.
- `mt5_client.py` is not part of this model. It is an interactive
  command-line client.
- Logging, `print`, the rpyc `ThreadedServer` and the HTTP server's threading
  are left out.
