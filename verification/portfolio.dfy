/** Several accounts at once (aggregator/plot.py): the balance of one
    account on a day, the balances of several accounts aligned on the union
    of their dates, and the selection and grouping of accounts by their
    `account-type` property. */
module Portfolio {
  import opened Results
  import opened Dates
  import opened Values
  import opened Timeline

  /** `get_account_balance`: the balance of one account on `day`, read off
      its (possibly yearly) balances. */
  function AccountBalance(pchip: Pchip, table: TypeTable, accounts: Dict, id: Key, day: CalDate, yearly: bool): (r: Result<real>)
    ensures AccountBalances(pchip, table, accounts, id, yearly).Err? ==> r == Err(AccountBalances(pchip, table, accounts, id, yearly).error)
    ensures AccountBalances(pchip, table, accounts, id, yearly) == Ok(map[]) ==> r == Err(ValueError)
    ensures forall m | AccountBalances(pchip, table, accounts, id, yearly) == Ok(m) && m != map[] ::
              r == Ok(Interpolate(pchip, m, day))
  {
    var m :- AccountBalances(pchip, table, accounts, id, yearly);
    Balance(pchip, m, day)
  }

  // ---------------------------------------------------------------------
  // Aligning several accounts

  /** `r` is the balances `series` gives for the accounts `ids`, in order. */
  predicate SeriesOf(series: Key -> Result<Balances>, ids: seq<Key>, r: seq<Balances>) {
    |r| == |ids| && forall j | 0 <= j < |ids| :: series(ids[j]) == Ok(r[j])
  }

  /** `series` succeeds on the first `j` accounts of `ids`. */
  predicate OkBefore(series: Key -> Result<Balances>, ids: seq<Key>, j: nat) {
    forall i | 0 <= i < j && i < |ids| :: series(ids[i]).Ok?
  }

  /** The first loop of `get_accounts_balances`: the balances of every
      account, stopping at the first that raises. */
  function AllSeries(series: Key -> Result<Balances>, ids: seq<Key>): (r: Result<seq<Balances>>)
    ensures r.Ok? ==> SeriesOf(series, ids, r.value)
    ensures r.Err? ==> exists j | 0 <= j < |ids| :: series(ids[j]) == Err(r.error) && OkBefore(series, ids, j)
  {
    if ids == [] then Ok([])
    else
      var first :- series(ids[0]);
      var rest := AllSeries(series, ids[1..]);
      if rest.Err? then
        var j :| 0 <= j < |ids[1..]| && series(ids[1..][j]) == Err(rest.error) && OkBefore(series, ids[1..], j);
        assert OkBefore(series, ids, j + 1) by {
          forall i | 0 < i < j + 1 ensures series(ids[i]).Ok? {
            assert ids[i] == ids[1..][i - 1];
          }
        }
        Err(rest.error)
      else
        assert SeriesOf(series, ids, [first] + rest.value) by {
          forall j | 0 < j < |ids| ensures series(ids[j]) == Ok(([first] + rest.value)[j]) {
            assert ids[j] == ids[1..][j - 1];
          }
        }
        Ok([first] + rest.value)
  }

  /** The dates of all the series: the keys of `sorted_dates`. */
  function AllDays(ss: seq<Balances>): (r: set<CalDate>)
    ensures forall d :: d in r <==> exists j | 0 <= j < |ss| :: d in ss[j]
  {
    if ss == [] then {}
    else
      var rest := AllDays(ss[1..]);
      assert forall d | d in rest :: exists j | 0 <= j < |ss| :: d in ss[j] by {
        forall d | d in rest ensures exists j | 0 <= j < |ss| :: d in ss[j] {
          var j :| 0 <= j < |ss[1..]| && d in ss[1..][j];
          assert d in ss[j + 1];
        }
      }
      ss[0].Keys + rest
  }

  /** Every series has at least one balance. */
  predicate NoneEmpty(ss: seq<Balances>) {
    forall j | 0 <= j < |ss| :: ss[j] != map[]
  }

  /** The balances of all the series on `day`. */
  function Row(pchip: Pchip, ss: seq<Balances>, day: CalDate): (r: seq<real>)
    requires NoneEmpty(ss)
    ensures |r| == |ss|
    ensures forall j | 0 <= j < |ss| :: r[j] == Interpolate(pchip, ss[j], day)
  {
    seq(|ss|, j requires 0 <= j < |ss| => Interpolate(pchip, ss[j], day))
  }

  /** The second loop of `get_accounts_balances`: on every date of any
      series, the list of the balances of every series. The first series
      without balances makes `get_balance` raise, unless there is no date
      at all and the loop never runs. */
  function Align(pchip: Pchip, ss: seq<Balances>): (r: Result<map<CalDate, seq<real>>>)
    ensures r.Err? <==> AllDays(ss) != {} && !NoneEmpty(ss)
    ensures r.Err? ==> r.error == ValueError
    ensures r.Ok? ==> r.value.Keys == AllDays(ss)
    ensures r.Ok? ==> forall d | d in r.value ::
              |r.value[d]| == |ss| && forall j | 0 <= j < |ss| :: r.value[d][j] == Interpolate(pchip, ss[j], d)
  {
    if AllDays(ss) == {} then Ok(map[])
    else if NoneEmpty(ss) then Ok(map d | d in AllDays(ss) :: Row(pchip, ss, d))
    else Err(ValueError)
  }

  /** The balances of every account, as `get_account_balances` gives them. */
  function SeriesFunction(pchip: Pchip, table: TypeTable, accounts: Dict, yearly: bool): Key -> Result<Balances> {
    (id: Key) => AccountBalances(pchip, table, accounts, id, yearly)
  }

  /** `get_accounts_balances`: the balances of the accounts `ids` on every
      date any of them has. */
  function AccountsBalances(pchip: Pchip, table: TypeTable, accounts: Dict, ids: seq<Key>, yearly: bool): (r: Result<map<CalDate, seq<real>>>)
    ensures AllSeries(SeriesFunction(pchip, table, accounts, yearly), ids).Err? ==>
              r == Err(AllSeries(SeriesFunction(pchip, table, accounts, yearly), ids).error)
    ensures forall ss | SeriesOf(SeriesFunction(pchip, table, accounts, yearly), ids, ss) :: r == Align(pchip, ss)
  {
    var ss :- AllSeries(SeriesFunction(pchip, table, accounts, yearly), ids);
    SeriesUnique(SeriesFunction(pchip, table, accounts, yearly), ids, ss);
    Align(pchip, ss)
  }

  /** The balances of a list of accounts are determined by the accounts. */
  lemma SeriesUnique(series: Key -> Result<Balances>, ids: seq<Key>, ss: seq<Balances>)
    requires SeriesOf(series, ids, ss)
    ensures forall tt | SeriesOf(series, ids, tt) :: tt == ss
  {
    forall tt | SeriesOf(series, ids, tt) ensures tt == ss {
      assert forall j | 0 <= j < |ss| :: Ok(tt[j]) == Ok(ss[j]);
    }
  }

  /** On a date of its own, each account's column holds the balance it
      recorded there, given an interpolator that passes through its knots. */
  lemma {:induction false} AlignKeepsKnownDays(pchip: Pchip, ss: seq<Balances>, d: CalDate, j: nat)
    requires PchipKnots(pchip) && j < |ss| && d in ss[j]
    requires Align(pchip, ss).Ok?
    ensures d in Align(pchip, ss).value && Align(pchip, ss).value[d][j] == ss[j][d]
  {
    assert d in AllDays(ss);
    KnownDay(pchip, ss[j], d);
  }

  /** Every column agrees with the balance of its account on that date. */
  lemma {:induction false} AlignedIsAccountBalance(pchip: Pchip, table: TypeTable, accounts: Dict, ids: seq<Key>, yearly: bool,
                                                   d: CalDate, j: nat)
    requires j < |ids|
    requires AccountsBalances(pchip, table, accounts, ids, yearly).Ok?
    requires d in AccountsBalances(pchip, table, accounts, ids, yearly).value
    ensures AccountBalance(pchip, table, accounts, ids[j], d, yearly)
            == Ok(AccountsBalances(pchip, table, accounts, ids, yearly).value[d][j])
  {
    var f := SeriesFunction(pchip, table, accounts, yearly);
    var ss := AllSeries(f, ids).value;
    assert SeriesOf(f, ids, ss);
    assert f(ids[j]) == Ok(ss[j]);
    var r := Align(pchip, ss);
    assert r == AccountsBalances(pchip, table, accounts, ids, yearly);
    assert NoneEmpty(ss) by {
      assert d in AllDays(ss);
    }
    assert ss[j] != map[];
  }

  // ---------------------------------------------------------------------
  // Account types

  /** `get_account_properties(accounts, id).get('account-type')`, as
      `filter_accounts` and `group_accounts` read it: both run before the
      plotting functions override any input, and no default sets an
      `account-type`. */
  function AccountType(accounts: Dict, id: Key): (r: Result<Value>)
    ensures r.Err? <==> Properties(PackageTypes, accounts, id).Err? || !Properties(PackageTypes, accounts, id).value.Obj?
    ensures r.Err? ==> r.error == AttributeError || r.error == TypeError
    ensures forall p | Properties(PackageTypes, accounts, id) == Ok(p) && p.Obj? ::
              r == Ok(GetOr(p.fields, Name("account-type"), Null))
  {
    var p :- Properties(PackageTypes, accounts, id);
    Lookup(p, "account-type", Null)
  }

  /** The type of every account, as `AccountType` gives it. */
  function TypeFunction(accounts: Dict): Key -> Result<Value> {
    (id: Key) => AccountType(accounts, id)
  }

  /** The type `typeOf` gives each account of `ids`. When several accounts
      raise, the error is the one of the account met first in the dict's
      order, which the model does not keep: the result is the error of one
      of them. */
  ghost function TypesOf(typeOf: Key -> Result<Value>, ids: set<Key>): (r: Result<map<Key, Value>>)
    ensures r.Ok? <==> forall id | id in ids :: typeOf(id).Ok?
    ensures r.Ok? ==> r.value.Keys == ids && forall id | id in ids :: typeOf(id) == Ok(r.value[id])
    ensures r.Err? ==> exists id | id in ids :: typeOf(id) == Err(r.error)
  {
    if exists id | id in ids :: typeOf(id).Err? then
      var id :| id in ids && typeOf(id).Err?;
      Err(typeOf(id).error)
    else
      Ok(map id | id in ids :: typeOf(id).value)
  }

  /** `act in account_types`: only a string can equal a type name. */
  predicate InTypes(act: Value, types: seq<string>) {
    act.Str? && act.s in types
  }

  /** The accounts whose type, after `ts`, is one of `types`. */
  function Filtered(accounts: Dict, ts: map<Key, Value>, types: seq<string>): (r: Dict)
    requires accounts.Keys == ts.Keys
    ensures forall id :: id in r <==> id in accounts && InTypes(ts[id], types)
    ensures forall id | id in r :: r[id] == accounts[id]
  {
    map id | id in accounts && InTypes(ts[id], types) :: accounts[id]
  }

  /** `filter_accounts`: the accounts whose type is one of `types`. */
  ghost function FilterAccounts(accounts: Dict, types: seq<string>): (r: Result<Dict>)
    ensures r.Err? <==> exists id | id in accounts :: AccountType(accounts, id).Err?
    ensures r.Err? ==> exists id | id in accounts :: AccountType(accounts, id) == Err(r.error)
    ensures r.Ok? ==> forall id ::
              id in r.value <==> id in accounts && exists t | t in types :: AccountType(accounts, id) == Ok(Str(t))
    ensures r.Ok? ==> forall id | id in r.value :: r.value[id] == accounts[id]
    ensures forall ts | TypesAre(accounts, ts) :: r == Ok(Filtered(accounts, ts, types))
  {
    var ts :- TypesOf(TypeFunction(accounts), accounts.Keys);
    TypesUnique(accounts, ts);
    Ok(Filtered(accounts, ts, types))
  }

  /** An account of type `act` goes to the group `group`: its own type, or
      `other` when its type is none of `types`. */
  predicate Member(group: string, act: Value, types: seq<string>) {
    act == Str(group) || (group == "other" && !InTypes(act, types))
  }

  /** The members of the group `group`. */
  function GroupOf(accounts: Dict, ts: map<Key, Value>, group: string, types: seq<string>): (r: Dict)
    requires accounts.Keys == ts.Keys
    ensures forall id :: id in r <==> id in accounts && Member(group, ts[id], types)
    ensures forall id | id in r :: r[id] == accounts[id]
  {
    map id | id in accounts && Member(group, ts[id], types) :: accounts[id]
  }

  /** The groups of `types` and then `other`, after the types `ts`; a group
      without accounts is absent. */
  function Grouped(accounts: Dict, ts: map<Key, Value>, types: seq<string>): (r: map<string, Dict>)
    requires accounts.Keys == ts.Keys
    ensures forall group :: group in r <==> (group in types || group == "other") && GroupOf(accounts, ts, group, types) != map[]
    ensures forall group | group in r :: r[group] == GroupOf(accounts, ts, group, types)
  {
    var groups := types + ["other"];
    map group | group in groups && GroupOf(accounts, ts, group, types) != map[] :: GroupOf(accounts, ts, group, types)
  }

  /** The group an account of type `act` lands in. */
  function GroupFor(act: Value, types: seq<string>): (group: string)
    ensures Member(group, act, types)
  {
    if InTypes(act, types) then act.s else "other"
  }

  /** Every account lands in a group. */
  lemma GroupsCover(accounts: Dict, ts: map<Key, Value>, types: seq<string>, id: Key)
    requires accounts.Keys == ts.Keys && id in accounts
    ensures var g := Grouped(accounts, ts, types);
            GroupFor(ts[id], types) in g && id in g[GroupFor(ts[id], types)]
  {
    var group := GroupFor(ts[id], types);
    var members := GroupOf(accounts, ts, group, types);
    assert id in members;
    assert group in types || group == "other";
  }

  /** No account lands in two groups, also when `other` is itself one of
      `types` (as in `plot_accounts`): the two groups named `other` are then
      one dict key. */
  lemma GroupsDisjoint(accounts: Dict, ts: map<Key, Value>, types: seq<string>, id: Key, a: string, b: string)
    requires accounts.Keys == ts.Keys
    requires a in Grouped(accounts, ts, types) && id in Grouped(accounts, ts, types)[a]
    requires b in Grouped(accounts, ts, types) && id in Grouped(accounts, ts, types)[b]
    ensures a == b
  {
    assert Member(a, ts[id], types) && Member(b, ts[id], types);
  }

  /** The group of a type is the selection of that type alone. */
  lemma GroupIsFiltered(accounts: Dict, ts: map<Key, Value>, types: seq<string>, t: string)
    requires accounts.Keys == ts.Keys && t in types && t != "other"
    ensures t in Grouped(accounts, ts, types) ==> Grouped(accounts, ts, types)[t] == Filtered(accounts, ts, [t])
    ensures t !in Grouped(accounts, ts, types) ==> Filtered(accounts, ts, [t]) == map[]
  {
    var f := Filtered(accounts, ts, [t]);
    var g := GroupOf(accounts, ts, t, types);
    forall id ensures id in f <==> id in g {
      if id in accounts {
        assert InTypes(ts[id], [t]) <==> ts[id] == Str(t);
      }
    }
    assert f == g;
  }

  /** `ts` holds the type `typeOf` gives every account of `ids`. */
  predicate TypesBy(typeOf: Key -> Result<Value>, ids: set<Key>, ts: map<Key, Value>) {
    ts.Keys == ids && forall id | id in ids :: typeOf(id) == Ok(ts[id])
  }

  /** `ts` holds the type of every account of `accounts`. */
  predicate TypesAre(accounts: Dict, ts: map<Key, Value>) {
    TypesBy(TypeFunction(accounts), accounts.Keys, ts)
  }

  /** With every type readable, the group of a type is `filter_accounts`
      on that type alone. */
  lemma GroupIsFilter(accounts: Dict, types: seq<string>, t: string)
    requires t in types && t != "other" && GroupAccounts(accounts, types).Ok?
    ensures FilterAccounts(accounts, [t]).Ok?
    ensures t in GroupAccounts(accounts, types).value ==>
              GroupAccounts(accounts, types).value[t] == FilterAccounts(accounts, [t]).value
    ensures t !in GroupAccounts(accounts, types).value ==> FilterAccounts(accounts, [t]).value == map[]
  {
    var ts := TypesOf(TypeFunction(accounts), accounts.Keys).value;
    assert TypesAre(accounts, ts);
    GroupIsFiltered(accounts, ts, types, t);
  }

  /** `group_accounts`: for every type of `types` and then `other`, the
      accounts of that group. Every account is visited, so any account
      whose type cannot be read makes it raise. */
  ghost function GroupAccounts(accounts: Dict, types: seq<string>): (r: Result<map<string, Dict>>)
    ensures r.Err? <==> exists id | id in accounts :: AccountType(accounts, id).Err?
    ensures r.Err? ==> exists id | id in accounts :: AccountType(accounts, id) == Err(r.error)
    ensures forall ts | TypesAre(accounts, ts) ::
              r == Ok(Grouped(accounts, ts, types))
  {
    var ts :- TypesOf(TypeFunction(accounts), accounts.Keys);
    TypesUnique(accounts, ts);
    Ok(Grouped(accounts, ts, types))
  }

  /** The types of the accounts are determined by the accounts. */
  lemma TypesUnique(accounts: Dict, ts: map<Key, Value>)
    requires TypesAre(accounts, ts)
    ensures forall us | TypesAre(accounts, us) :: us == ts
  {
    TypesByUnique(TypeFunction(accounts), accounts.Keys, ts);
  }

  lemma TypesByUnique(typeOf: Key -> Result<Value>, ids: set<Key>, ts: map<Key, Value>)
    requires TypesBy(typeOf, ids, ts)
    ensures forall us | TypesBy(typeOf, ids, us) :: us == ts
  {
    forall us | TypesBy(typeOf, ids, us) ensures us == ts {
      assert forall id | id in ids :: Ok(us[id]) == Ok(ts[id]);
    }
  }
}
