/** Python values as the aggregator handles them: JSON-like data whose dict
    keys are strings or dates. A dict is a finite map; Python's insertion
    order is not represented. */
module Values {
  import opened Results
  import opened Dates

  datatype Key = Name(name: string) | Day(date: CalDate)

  datatype Value =
    | Str(s: string)
    | Num(x: real)
    | Bool(b: bool)
    | Null
    | Items(xs: seq<Value>)
    | Obj(fields: Dict)
    | DateValue(date: CalDate)

  type Dict = map<Key, Value>

  /** Python truthiness (`if v:`). */
  predicate Truthy(v: Value) {
    match v
    case Str(s) => s != ""
    case Num(x) => x != 0.0
    case Bool(b) => b
    case Null => false
    case Items(xs) => xs != []
    case Obj(d) => d != map[]
    case DateValue(_) => true
  }

  /** `d.get(k, default)`. */
  function GetOr(d: Dict, k: Key, default: Value): (r: Value)
    ensures k in d ==> r == d[k]
    ensures k !in d ==> r == default
  {
    if k in d then d[k] else default
  }

  /** `d.pop(k, None)` when the popped value is discarded. */
  function Pop(d: Dict, k: Key): (r: Dict)
    ensures k !in r && forall j | j != k :: (j in r <==> j in d) && (j in r ==> r[j] == d[j])
  {
    d - {k}
  }

  /** `d.update(u)` on a plain dict: a shallow merge where `u` wins. */
  function Assign(d: Dict, u: Dict): (r: Dict)
    ensures r.Keys == d.Keys + u.Keys
    ensures forall k | k in u :: r[k] == u[k]
    ensures forall k | k in d && k !in u :: r[k] == d[k]
  {
    map k | k in d.Keys + u.Keys :: if k in u then u[k] else d[k]
  }

  /** The sub-dict stored under `k`, or `{}` when absent: the effect of
      reading a `defaultdict(dict)`. */
  function SubDict(d: Dict, k: Key): Dict {
    if k in d && d[k].Obj? then d[k].fields else map[]
  }

  /** A value used as a dict key in a lookup. Strings and dates are the only
      keys a ledger holds; any other hashable value finds nothing, and
      unhashable values (lists, dicts) raise. */
  function AsLookupKey(v: Value): Result<Option<Key>> {
    match v
    case Str(s) => Ok(Some(Name(s)))
    case DateValue(d) => Ok(Some(Day(d)))
    case Items(_) => Err(TypeError)
    case Obj(_) => Err(TypeError)
    case _ => Ok(None)
  }

  /** `d.get(v, {})` for a key given as a value. */
  function GetByValue(d: Dict, v: Value): Result<Value> {
    var key :- AsLookupKey(v);
    match key
    case Some(k) => Ok(GetOr(d, k, Obj(map[])))
    case None => Ok(Obj(map[]))
  }
}
