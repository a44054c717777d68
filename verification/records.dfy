/** Library records (the named tuples `MetaTrader5` returns) and their
    conversion to dictionaries, shared by both front ends. */
module Records {
  import opened Values

  /** A named tuple: its field names and values, in declaration order. */
  datatype Record = Record(fields: seq<(string, Json)>)

  /** `r._asdict()`: a dictionary with the same fields in the same order. */
  function AsDict(r: Record): (j: Json)
    ensures j.JObj?
  {
    JObj(r.fields)
  }

  /** The record a dictionary came from, if it is a dictionary. */
  function FromDict(j: Json): Option<Record> {
    match j
    case JObj(fs) => Some(Record(fs))
    case _ => None
  }

  lemma FromAsDict(r: Record)
    ensures FromDict(AsDict(r)) == Some(r)
  {
  }

  /** `[r._asdict() for r in rs]`. */
  function DictList(rs: seq<Record>): (js: seq<Json>)
    ensures |js| == |rs|
    ensures forall i | 0 <= i < |rs| :: js[i] == AsDict(rs[i])
  {
    if rs == [] then [] else [AsDict(rs[0])] + DictList(rs[1..])
  }

  /** `_namedtuple_list`: None stays None; otherwise one dictionary per
      record, in order (an empty result gives an empty list). */
  function NamedTupleList(result: Option<seq<Record>>): (r: Option<seq<Json>>)
    ensures r.None? <==> result.None?
  {
    match result
    case None => None
    case Some(rs) => Some(DictList(rs))
  }

  /** The records come back from the dictionaries: nothing is lost, added or
      reordered. */
  lemma {:induction false} NamedTupleListInverse(result: Option<seq<Record>>)
    ensures var r := NamedTupleList(result);
            r.Some? ==> |r.value| == |result.value| &&
                        forall i | 0 <= i < |r.value| :: FromDict(r.value[i]) == Some(result.value[i])
  {
    if result.Some? {
      var js := DictList(result.value);
      forall i | 0 <= i < |js|
        ensures FromDict(js[i]) == Some(result.value[i])
      {
        FromAsDict(result.value[i]);
      }
    }
  }

  /** Two results with the same dictionaries are the same result. */
  lemma NamedTupleListInjective(a: Option<seq<Record>>, b: Option<seq<Record>>)
    requires NamedTupleList(a) == NamedTupleList(b)
    ensures a == b
  {
    NamedTupleListInverse(a);
    NamedTupleListInverse(b);
    if a.Some? {
      assert |a.value| == |b.value|;
      forall i | 0 <= i < |a.value|
        ensures a.value[i] == b.value[i]
      {
        assert Some(a.value[i]) == FromDict(NamedTupleList(a).value[i]) == Some(b.value[i]);
      }
      assert a.value == b.value;
    }
  }
}
