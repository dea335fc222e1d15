/** The balance lookup of the top-level `plot.py`: step-wise, without
    account-type defaults, and `None` for an account without balances. Its
    `get_account_properties` is the single redirection of
    `Timeline.AccountEntry`, and its `fromJSON` is `Json.FromJson`. */
module RootPlot {
  import opened Results
  import opened Dates
  import opened Values
  import opened Timeline

  /** The `balances` entry of an account, `Null` when absent; an account
      that is not a dict has no `get`. */
  function BalancesEntry(accounts: Dict, id: Key): (r: Result<Value>)
    ensures r.Err? <==> id in accounts && !accounts[id].Obj?
    ensures r.Err? ==> r.error == AttributeError
    ensures id !in accounts ==> r == Ok(Null)
    ensures id in accounts && accounts[id].Obj? ==> r == Ok(GetOr(accounts[id].fields, Name("balances"), Null))
  {
    Lookup(GetOr(accounts, id, Obj(map[])), "balances", Null)
  }

  /** `get_account_balance` of `plot.py`: `None` for an account without
      balances, otherwise the latest balance recorded on or before `day`,
      scaled by the account's share, and 0 before the first one. */
  function AccountBalance(accounts: Dict, id: Key, day: CalDate): (r: Result<Option<real>>)
    ensures r == Ok(None) <==> BalancesEntry(accounts, id) == Ok(Null)
    ensures id in accounts && !accounts[id].Obj? ==> r == Err(AttributeError)
    ensures forall v, share | BalancesEntry(accounts, id) == Ok(Obj(v)) && v == map[]
              && AccountEntry(accounts, id).Ok? && Share(AccountEntry(accounts, id).value) == Ok(share) ::
              r == Err(IndexError)
    ensures forall v, share, m | BalancesEntry(accounts, id) == Ok(v)
              && AccountEntry(accounts, id).Ok? && Share(AccountEntry(accounts, id).value) == Ok(share)
              && Scaled(v, share) == Ok(m) && m != map[] ::
              r == Ok(Some(ExactBalance(m, day).value))
  {
    var balances :- BalancesEntry(accounts, id);
    if balances == Null then Ok(None)
    else
      var props :- AccountEntry(accounts, id);
      var share :- Share(props);
      var m :- Scaled(balances, share);
      var b :- ExactBalance(m, day);
      Ok(Some(b))
  }

  /** On a day with a recorded balance, the lookup gives that balance
      scaled by the share. */
  lemma RecordedDay(accounts: Dict, id: Key, day: CalDate, v: Dict, share: real)
    requires BalancesEntry(accounts, id) == Ok(Obj(v)) && Day(day) in v
    requires AccountEntry(accounts, id).Ok? && Share(AccountEntry(accounts, id).value) == Ok(share)
    requires Scaled(Obj(v), share).Ok?
    ensures AccountBalance(accounts, id, day) == Ok(Some(v[Day(day)].x * share))
  {
    var m := Scaled(Obj(v), share).value;
    assert day in m && m[day] == v[Day(day)].x * share;
    assert ExactBalance(m, day) == Ok(m[day]) by {
      assert IsFloor(m, day, day);
    }
    assert AccountBalance(accounts, id, day) == Ok(Some(ExactBalance(m, day).value));
  }

  /** Before the first recorded balance, the lookup gives 0. */
  lemma BeforeFirst(accounts: Dict, id: Key, day: CalDate, v: Dict, share: real)
    requires BalancesEntry(accounts, id) == Ok(Obj(v)) && v != map[]
    requires forall k | k in v :: k.Day? && Before(day, k.date)
    requires AccountEntry(accounts, id).Ok? && Share(AccountEntry(accounts, id).value) == Ok(share)
    requires Scaled(Obj(v), share).Ok?
    ensures AccountBalance(accounts, id, day) == Ok(Some(0.0))
  {
    var m := Scaled(Obj(v), share).value;
    var k :| k in v;
    assert k.date in m;
  }
}
