/** The ledger the aggregator builds: account id -> {"account": metadata,
    "balances": {date: amount}, "operations": {date: amount}}, and the
    recursive merge that combines the ledgers of several files
    (`aggregate_pdfs.update` of aggregator/aggregate.py). */
module Ledger {
  import opened Results
  import opened Dates
  import opened Values

  /** `"-".join([data['bank-name'], data['account']])`: a missing key raises
      KeyError (bank name first), a value that is not a string TypeError. */
  function AccountId(data: Dict): (r: Result<string>)
    ensures r.Ok? <==> && Name("bank-name") in data && Name("account") in data
                       && data[Name("bank-name")].Str? && data[Name("account")].Str?
    ensures Name("bank-name") !in data ==> r == Err(KeyError)
    ensures r.Ok? ==> var bank, account := data[Name("bank-name")].s, data[Name("account")].s;
                      |r.value| == |bank| + 1 + |account| && r.value[..|bank|] == bank
                      && r.value[|bank|] == '-' && r.value[|bank| + 1..] == account
  {
    if Name("bank-name") !in data || Name("account") !in data then Err(KeyError)
    else if !data[Name("bank-name")].Str? || !data[Name("account")].Str? then Err(TypeError)
    else
      var bank, account := data[Name("bank-name")].s, data[Name("account")].s;
      var id := bank + "-" + account;
      assert id[..|bank|] == bank && id[|bank| + 1..] == account;
      Ok(id)
  }

  /** Two different bank/account pairs can share one id, so their entries
      merge. */
  lemma AccountIdsCanCollide()
    ensures AccountId(map[Name("bank-name") := Str("A-B"), Name("account") := Str("C")])
         == AccountId(map[Name("bank-name") := Str("A"), Name("account") := Str("B-C")])
         == Ok("A-B-C")
  {
    var d1 := map[Name("bank-name") := Str("A-B"), Name("account") := Str("C")];
    var d2 := map[Name("bank-name") := Str("A"), Name("account") := Str("B-C")];
    assert d1[Name("bank-name")].s + "-" + d1[Name("account")].s == "A-B-C";
    assert d2[Name("bank-name")].s + "-" + d2[Name("account")].s == "A-B-C";
  }

  /** A record's `date` used as a dict key: the package stores dates;
      unhashable values raise; other scalars are outside the key model. */
  function DateKey(v: Value): (r: Result<Key>)
    ensures v.DateValue? ==> r == Ok(Day(v.date))
    ensures v.Items? || v.Obj? ==> r == Err(TypeError)
  {
    match v
    case DateValue(d) => Ok(Day(d))
    case Str(s) => Ok(Name(s))
    case Items(_) => Err(TypeError)
    case Obj(_) => Err(TypeError)
    case _ => Err(Unsupported)
  }

  /** `accounts[id]` of the nested defaultdicts, read as a dict. */
  function Entry(accounts: Dict, id: string): Dict {
    SubDict(accounts, Name(id))
  }

  /** `accounts[id][field]`. */
  function Section(accounts: Dict, id: string, field: string): Dict {
    SubDict(Entry(accounts, id), Name(field))
  }

  /** Every account is a dict of dicts: the shape the defaultdicts give. */
  predicate Shaped(accounts: Dict) {
    forall k | k in accounts :: accounts[k].Obj? && forall f | f in accounts[k].fields :: accounts[k].fields[f].Obj?
  }

  /** Replaces `accounts[id][field]` with `s`, creating the account and the
      field as the defaultdicts do. */
  function SetSection(accounts: Dict, id: string, field: string, s: Dict): (r: Dict)
    ensures Section(r, id, field) == s
    ensures r.Keys == accounts.Keys + {Name(id)}
    ensures Entry(r, id).Keys == Entry(accounts, id).Keys + {Name(field)}
    ensures forall id', field' | id' != id || field' != field :: Section(r, id', field') == Section(accounts, id', field')
    ensures forall k | k in accounts && k != Name(id) :: r[k] == accounts[k]
    ensures Shaped(accounts) ==> Shaped(r)
  {
    accounts[Name(id) := Obj(Entry(accounts, id)[Name(field) := Obj(s)])]
  }

  /** `accounts[id][field].update({key: v})`. */
  function WriteCell(accounts: Dict, id: string, field: string, key: Key, v: Value): (r: Dict)
    ensures key in Section(r, id, field) && Section(r, id, field)[key] == v
    ensures forall k | k != key :: (k in Section(r, id, field) <==> k in Section(accounts, id, field))
    ensures forall k | k != key && k in Section(r, id, field) :: Section(r, id, field)[k] == Section(accounts, id, field)[k]
    ensures forall id', field' | id' != id || field' != field :: Section(r, id', field') == Section(accounts, id', field')
    ensures r.Keys == accounts.Keys + {Name(id)}
    ensures Shaped(accounts) ==> Shaped(r)
  {
    SetSection(accounts, id, field, Section(accounts, id, field)[key := v])
  }

  /** `d.get(k)`. */
  function Get(d: Dict, k: Key): Option<Value> {
    if k in d then Some(d[k]) else None
  }

  /** The containers of a ledger that create missing entries: the top level
      (`defaultdict(lambda: defaultdict(dict))`) and each account
      (`defaultdict(dict)`); deeper dicts are plain. */
  predicate CreatesMissing(depth: nat) {
    depth <= 1
  }

  /** `d[k] = update(d[k], v)` or `d[k] = v` for one item of the update,
      where `base` is `d.get(k)` and `d` sits at `depth`. A missing key of a
      plain dict raises KeyError; merging a non-empty dict into a value that
      is not a dict raises TypeError; an empty dict leaves any value as is. */
  function MergeValue(base: Option<Value>, v: Value, depth: nat): (r: Result<Value>)
    ensures !v.Obj? ==> r == Ok(v)
    ensures r.Err? ==> r.error == KeyError || r.error == TypeError
    decreases v, 1
  {
    if !v.Obj? then Ok(v)
    else
      match base
      case None =>
        if CreatesMissing(depth) then
          var f :- Update(map[], v.fields, depth + 1);
          Ok(Obj(f))
        else Err(KeyError)
      case Some(b) =>
        if b.Obj? then
          var f :- Update(b.fields, v.fields, depth + 1);
          Ok(Obj(f))
        else if v.fields == map[] then Ok(b)
        else Err(TypeError)
  }

  /** `update(d, u)`: a recursive merge where `u` wins. When several keys
      raise, Python reports the first in insertion order; here a KeyError
      takes precedence. */
  function Update(d: Dict, u: Dict, depth: nat): (r: Result<Dict>)
    ensures r.Ok? ==> r.value.Keys == d.Keys + u.Keys
    ensures r.Ok? ==> forall k | k in d && k !in u :: r.value[k] == d[k]
    ensures r.Ok? ==> forall k | k in u && !u[k].Obj? :: r.value[k] == u[k]
    ensures r.Err? ==> r.error == KeyError || r.error == TypeError
    ensures r.Ok? <==> forall k | k in u :: MergeValue(Get(d, k), u[k], depth).Ok?
    decreases Obj(u), 0
  {
    if exists k | k in u :: MergeValue(Get(d, k), u[k], depth).Err? then
      Err(if exists k | k in u :: MergeValue(Get(d, k), u[k], depth) == Err(KeyError) then KeyError else TypeError)
    else
      Ok(map k | k in d.Keys + u.Keys :: if k in u then MergeValue(Get(d, k), u[k], depth).value else d[k])
  }

  /** The value at a non-empty path of keys. */
  function At(d: Dict, path: seq<Key>): Option<Value>
    requires path != []
    decreases |path|
  {
    if path[0] !in d then None
    else if |path| == 1 then Some(d[path[0]])
    else if d[path[0]].Obj? then At(d[path[0]].fields, path[1..])
    else None
  }

  /** The update does not reach `path`: it lacks the first key, or holds a
      dict there that does not reach the rest of the path. */
  predicate Untouched(u: Dict, path: seq<Key>)
    requires path != []
    decreases |path|
  {
    path[0] !in u || (|path| > 1 && u[path[0]].Obj? && Untouched(u[path[0]].fields, path[1..]))
  }

  /** Each updated key holds the merge of its two values. */
  lemma UpdateAtKey(d: Dict, u: Dict, depth: nat, k: Key)
    requires Update(d, u, depth).Ok? && k in u
    ensures MergeValue(Get(d, k), u[k], depth).Ok?
    ensures Update(d, u, depth).value[k] == MergeValue(Get(d, k), u[k], depth).value
  {}

  /** Merging a dict into a dict, or into a created one, merges the fields. */
  lemma MergeIntoDict(base: Option<Value>, v: Value, depth: nat)
    requires v.Obj? && MergeValue(base, v, depth).Ok?
    requires base.None? || base.value.Obj?
    ensures var b := if base.None? then map[] else base.value.fields;
            && Update(b, v.fields, depth + 1).Ok?
            && MergeValue(base, v, depth).value == Obj(Update(b, v.fields, depth + 1).value)
  {}

  /** Last write wins: every non-dict value of the update is found at its
      path in the result. */
  lemma {:induction false} UpdateLastWriteWins(d: Dict, u: Dict, depth: nat, path: seq<Key>, x: Value)
    requires Update(d, u, depth).Ok?
    requires path != [] && At(u, path) == Some(x) && !x.Obj?
    ensures At(Update(d, u, depth).value, path) == Some(x)
    decreases |path|
  {
    var r := Update(d, u, depth).value;
    var k := path[0];
    UpdateAtKey(d, u, depth, k);
    if |path| > 1 {
      var v := u[k];
      var rest := path[1..];
      assert v.Obj? && At(v.fields, rest) == Some(x);
      if k !in d || d[k].Obj? {
        MergeIntoDict(Get(d, k), v, depth);
        var b := if k in d then d[k].fields else map[];
        UpdateLastWriteWins(b, v.fields, depth + 1, rest, x);
      }
    }
  }

  /** Nothing else changes: a path the update does not reach keeps its
      value. */
  lemma {:induction false} UpdateFrame(d: Dict, u: Dict, depth: nat, path: seq<Key>)
    requires Update(d, u, depth).Ok?
    requires path != [] && Untouched(u, path)
    ensures At(Update(d, u, depth).value, path) == At(d, path)
    decreases |path|
  {
    var r := Update(d, u, depth).value;
    var k := path[0];
    if k in u {
      UpdateAtKey(d, u, depth, k);
      var v := u[k];
      var rest := path[1..];
      if k in d && !d[k].Obj? {
        assert r[k] == d[k];
      } else {
        MergeIntoDict(Get(d, k), v, depth);
        var b := if k in d then d[k].fields else map[];
        UpdateFrame(b, v.fields, depth + 1, rest);
      }
    }
  }
}
