/** The key rewriting around JSON: `toJSON.replace_keys`
    (aggregator/aggregate.py) turns date keys into ISO strings, and
    `fromJSON.replace_keys` (aggregator/plot.py) turns every key the date
    parser accepts back into a date. */
module Json {
  import opened Results
  import opened Dates
  import opened Values
  import opened Patterns

  /** The string a key is written as. */
  function JsonName(k: Key): string {
    match k
    case Name(s) => s
    case Day(d) => IsoFormat(d)
  }

  /** The keys `toJSON` produces from the keys of `d`. */
  ghost function OutKeys(d: Dict): set<Key> {
    set k | k in d :: Name(JsonName(k))
  }

  /** The value written for key `k` of `d`: a date key's value is copied
      as is, a dict under a string key is rewritten in turn. */
  ghost function OutValue(d: Dict, k: Key): Value
    requires k in d
    decreases Obj(d), 0
  {
    if k.Day? then d[k]
    else if d[k].Obj? then Obj(ToJson(d[k].fields))
    else d[k]
  }

  /** `replace_keys` of `toJSON`. A string key equal to the ISO form of a
      date key of the same dict collides with it; which survives depends on
      the dict's order, so the result holds one of them. */
  ghost function ToJson(d: Dict): (r: Dict)
    ensures r.Keys == OutKeys(d)
    ensures forall k | k in r :: k.Name?
    decreases Obj(d), 1
  {
    map s | s in OutKeys(d) ::
      var k :| k in d && Name(JsonName(k)) == s;
      OutValue(d, k)
  }

  /** The key `fromJSON` makes of a key. Python keys a string the parser
      accepts by the parsed `datetime`; the model keys it by that
      datetime's calendar day, which is what the balance timeline reads it
      as. Keys that are already dates are not strings, the parser raises on
      them and they stay. */
  function InKey(env: Env, k: Key): Key {
    match k
    case Day(_) => k
    case Name(s) =>
      match env.parseDate(s)
      case Some(day) => Day(day)
      case None => k
  }

  ghost function InKeys(env: Env, d: Dict): set<Key> {
    set k | k in d :: InKey(env, k)
  }

  /** The value read for key `k`: a key that becomes a date keeps its
      value untouched; any other dict value is rewritten in turn. */
  ghost function InValue(env: Env, d: Dict, k: Key): Value
    requires k in d
    decreases Obj(d), 0
  {
    if k.Name? && env.parseDate(k.name).Some? then d[k]
    else if d[k].Obj? then Obj(FromJson(env, d[k].fields))
    else d[k]
  }

  /** `replace_keys` of `fromJSON`. Keys that parse to the same date
      collide; the result holds one of their values. */
  ghost function FromJson(env: Env, d: Dict): (r: Dict)
    ensures r.Keys == InKeys(env, d)
    decreases Obj(d), 1
  {
    map j | j in InKeys(env, d) ::
      var k :| k in d && InKey(env, k) == j;
      InValue(env, d, k)
  }

  /** The date parser reads every ISO form back. */
  ghost predicate ReadsIso(env: Env) {
    forall day: CalDate {:trigger IsoFormat(day)} :: env.parseDate(IsoFormat(day)) == Some(day)
  }

  /** No string key of `d`, nor of the dicts under its string keys, is
      accepted by the date parser. */
  ghost predicate NamesRejected(env: Env, d: Dict)
    decreases Obj(d)
  {
    forall k | k in d && k.Name? ::
      env.parseDate(k.name).None? && (d[k].Obj? ==> NamesRejected(env, d[k].fields))
  }

  /** Distinct keys of such a dict are written as distinct strings. */
  lemma JsonNamesDistinct(env: Env, d: Dict, k: Key, k': Key)
    requires ReadsIso(env) && NamesRejected(env, d)
    requires k in d && k' in d && JsonName(k) == JsonName(k')
    ensures k == k'
  {
    match k
    case Name(s) =>
    case Day(a) =>
      match k'
      case Day(b) => IsoFormatInjective(a, b);
      case Name(s) =>
        assert env.parseDate(IsoFormat(a)) == Some(a);
  }

  /** Reading keys back recovers every key of such a dict. */
  lemma InKeyOfOut(env: Env, d: Dict, k: Key)
    requires ReadsIso(env) && NamesRejected(env, d) && k in d
    ensures InKey(env, Name(JsonName(k))) == k
  {
    if k.Day? {
      assert env.parseDate(IsoFormat(k.date)) == Some(k.date);
    }
  }

  /** The value written under the name of a key of such a dict. */
  lemma ToJsonAt(env: Env, d: Dict, k: Key)
    requires ReadsIso(env) && NamesRejected(env, d) && k in d
    ensures Name(JsonName(k)) in ToJson(d) && ToJson(d)[Name(JsonName(k))] == OutValue(d, k)
  {
    var out := ToJson(d);
    var s := Name(JsonName(k));
    assert s in OutKeys(d);
    var k' :| k' in d && Name(JsonName(k')) == s && out[s] == OutValue(d, k');
    JsonNamesDistinct(env, d, k, k');
  }

  /** The written dict of such a dict reads every key back to the key of
      `d` it came from, with the value read from that key's entry. */
  lemma FromJsonAt(env: Env, d: Dict, k: Key)
    requires ReadsIso(env) && NamesRejected(env, d) && k in d
    ensures k in FromJson(env, ToJson(d))
    ensures FromJson(env, ToJson(d))[k] == InValue(env, ToJson(d), Name(JsonName(k)))
  {
    var out := ToJson(d);
    var o := Name(JsonName(k));
    ToJsonAt(env, d, k);
    InKeyOfOut(env, d, k);
    assert k in InKeys(env, out);
    var o' :| o' in out && InKey(env, o') == k && FromJson(env, out)[k] == InValue(env, out, o');
    assert o' in OutKeys(d);
    var k' :| k' in d && Name(JsonName(k')) == o';
    InKeyOfOut(env, d, k');
  }

  /** One key of the round trip. */
  lemma {:induction false} RoundTripAt(env: Env, d: Dict, k: Key)
    requires ReadsIso(env) && NamesRejected(env, d) && k in d
    ensures k in FromJson(env, ToJson(d)) && FromJson(env, ToJson(d))[k] == d[k]
    decreases Obj(d), 0
  {
    FromJsonAt(env, d, k);
    ToJsonAt(env, d, k);
    var out := ToJson(d);
    var o := Name(JsonName(k));
    if k.Name? {
      assert env.parseDate(k.name).None?;
      if d[k].Obj? {
        assert out[o] == Obj(ToJson(d[k].fields));
        assert InValue(env, out, o) == Obj(FromJson(env, ToJson(d[k].fields)));
        FromJsonInvertsToJson(env, d[k].fields);
      }
    } else {
      assert env.parseDate(IsoFormat(k.date)) == Some(k.date);
      assert InValue(env, out, o) == out[o];
    }
  }

  /** Every key read back comes from a key of such a dict. */
  lemma RoundTripKeysBack(env: Env, d: Dict, j: Key)
    requires ReadsIso(env) && NamesRejected(env, d)
    requires j in FromJson(env, ToJson(d))
    ensures j in d
  {
    var out := ToJson(d);
    assert j in InKeys(env, out);
    var o :| o in out && InKey(env, o) == j;
    assert o in OutKeys(d);
    var k :| k in d && Name(JsonName(k)) == o;
    InKeyOfOut(env, d, k);
  }

  /** `a` and `b` have the same keys. */
  ghost predicate SameKeys(a: Dict, b: Dict) {
    forall k :: k in a <==> k in b
  }

  /** `a` holds every entry of `b`. */
  predicate Covers(a: Dict, b: Dict) {
    forall k | k in b :: k in a && a[k] == b[k]
  }

  /** The round trip gives back exactly the keys of such a dict. */
  lemma RoundTripKeys(env: Env, d: Dict)
    requires ReadsIso(env) && NamesRejected(env, d)
    ensures SameKeys(FromJson(env, ToJson(d)), d)
  {
    forall j | j in FromJson(env, ToJson(d)) ensures j in d {
      RoundTripKeysBack(env, d, j);
    }
    forall k | k in d ensures k in FromJson(env, ToJson(d)) {
      FromJsonAt(env, d, k);
    }
  }

  /** Two dicts with the same keys and the same value at each key are equal. */
  lemma SameEntries(a: Dict, b: Dict)
    requires SameKeys(a, b) && Covers(a, b)
    ensures a == b
  {}

  /** Every key of such a dict survives the round trip with its value. */
  lemma {:induction false} RoundTripValues(env: Env, d: Dict)
    requires ReadsIso(env) && NamesRejected(env, d)
    ensures Covers(FromJson(env, ToJson(d)), d)
    decreases Obj(d), 1
  {
    forall k | k in d ensures k in FromJson(env, ToJson(d)) && FromJson(env, ToJson(d))[k] == d[k] {
      RoundTripAt(env, d, k);
    }
  }

  /** `fromJSON` inverts `toJSON` on every dict whose string keys the date
      parser rejects, given a parser that reads ISO dates back. A date key
      comes back as the midnight `datetime` of its day, here the day
      itself. */
  lemma {:induction false} FromJsonInvertsToJson(env: Env, d: Dict)
    requires ReadsIso(env) && NamesRejected(env, d)
    ensures FromJson(env, ToJson(d)) == d
    decreases Obj(d), 2
  {
    RoundTripValues(env, d);
    RoundTripKeys(env, d);
    SameEntries(FromJson(env, ToJson(d)), d);
  }
}
