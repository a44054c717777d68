/** The record- and list-returning `exposed_*` methods of `MT5Service`: they
    turn the library's named tuples into dictionaries before rpyc ships them. */
module RpycService {
  import opened Values
  import opened Records

  /** What a remote call gives the client: a value, or an exception. */
  datatype Outcome<+T> = Returned(value: T) | Raises(error: PyError)

  /** `exposed_account_info`, `exposed_terminal_info`, `exposed_symbol_info`,
      `exposed_symbol_info_tick`: None stays None, a record becomes its
      dictionary. */
  function RecordMethod(v: Option<Record>): (r: Option<Json>)
    ensures r.None? <==> v.None?
  {
    match v
    case None => None
    case Some(rec) => Some(AsDict(rec))
  }

  /** `exposed_symbols_get`, `exposed_orders_get`, `exposed_positions_get`,
      `exposed_history_orders_get`, `exposed_history_deals_get`. */
  function ListMethod(v: Option<seq<Record>>): (r: Option<seq<Json>>)
    ensures r.None? <==> v.None?
  {
    if v.None? then None else Some(seq(|v.value|, i requires 0 <= i < |v.value| => AsDict(v.value[i])))
  }

  /** `exposed_order_send`, `exposed_order_check`: there is no None guard, so
      a None from the library raises `AttributeError` at the client. */
  function OrderMethod(v: Option<Record>): (r: Outcome<Json>)
    ensures r.Raises? <==> v.None?
  {
    match v
    case None => Raises(NoAttribute("NoneType", "_asdict"))
    case Some(rec) => Returned(AsDict(rec))
  }

  /** A record method gives back exactly the record's fields. */
  lemma RecordMethodInverse(v: Option<Record>)
    ensures var r := RecordMethod(v);
            r.Some? ==> FromDict(r.value) == v
  {
  }

  /** The list methods convert exactly as the HTTP server's `_namedtuple_list`. */
  lemma ListMethodIsNamedTupleList(v: Option<seq<Record>>)
    ensures ListMethod(v) == NamedTupleList(v)
  {
    if v.Some? {
      assert ListMethod(v).value == DictList(v.value);
    }
  }

  /** The order methods agree with the record methods except on None, where
      they raise instead of returning None. */
  lemma OrderMethodAgrees(v: Option<Record>)
    ensures OrderMethod(v) == match RecordMethod(v)
                              case Some(d) => Returned(d)
                              case None => Raises(NoAttribute("NoneType", "_asdict"))
  {
  }
}
