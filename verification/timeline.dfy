/** The balance timeline of aggregator/plot.py. Each account has a
    SortedDict of dated amounts. It is read from the ledger and scaled by the
    account's share, or rebuilt from operations by a running sum. It is then
    looked up step-wise or interpolated, and can be reset every January 1st.
    Several accounts can be aligned on the union of their dates. */
module Timeline {
  import opened Results
  import opened Dates
  import opened Values

  /** A SortedDict of amounts keyed by date: its key order is date order. */
  type Balances = map<CalDate, real>

  /** The interpolation `scipy.interpolate.PchipInterpolator(xs, ys)(x)`,
      a floating-point oracle. */
  type Pchip = (seq<int>, seq<real>, int) -> real

  // ---------------------------------------------------------------------
  // Key order

  /** Strictly increasing dates: the keys of a SortedDict in order. */
  predicate Ascending(days: seq<CalDate>) {
    forall i, j | 0 <= i < j < |days| :: Before(days[i], days[j])
  }

  /** `k` is the first key of `s`. */
  predicate IsEarliest(s: set<CalDate>, k: CalDate) {
    k in s && forall d | d in s :: NotAfter(k, d)
  }

  /** `k` is the last key of `s`. */
  predicate IsLatest(s: set<CalDate>, k: CalDate) {
    k in s && forall d | d in s :: NotAfter(d, k)
  }

  lemma BeforeTransitive(a: Date, b: Date, c: Date)
    requires Before(a, b) && Before(b, c)
    ensures Before(a, c)
  {}

  lemma {:induction false} EarliestExists(s: set<CalDate>)
    requires s != {}
    ensures exists k :: IsEarliest(s, k)
  {
    var x :| x in s;
    if s == {x} {
      assert IsEarliest(s, x);
    } else {
      EarliestExists(s - {x});
      var k: CalDate :| IsEarliest(s - {x}, k);
      BeforeTotal(x, k);
      if Before(x, k) {
        forall d | d in s
          ensures NotAfter(x, d)
        {
          if d != x && d != k {
            assert d in s - {x};
            BeforeTransitive(x, k, d);
          }
        }
        assert IsEarliest(s, x);
      } else {
        assert IsEarliest(s, k);
      }
    }
  }

  /** `keys()[0]` of a non-empty SortedDict. */
  function Earliest(s: set<CalDate>): (k: CalDate)
    requires s != {}
    ensures IsEarliest(s, k)
  {
    EarliestExists(s);
    var k: CalDate :| IsEarliest(s, k);
    k
  }

  /** The keys of a SortedDict in their order. */
  function SortedDays(s: set<CalDate>): (days: seq<CalDate>)
    ensures Ascending(days) && |days| == |s|
    ensures forall d :: d in days <==> d in s
    decreases |s|
  {
    if s == {} then []
    else
      var e := Earliest(s);
      var rest := SortedDays(s - {e});
      assert forall i | 0 <= i < |rest| :: Before(e, rest[i]);
      [e] + rest
  }

  /** Two ascending sequences of the same length with the same dates are
      equal: a SortedDict has exactly one key order. */
  lemma {:induction false} AscendingUnique(a: seq<CalDate>, b: seq<CalDate>)
    requires Ascending(a) && Ascending(b) && |a| == |b|
    requires forall d :: d in a <==> d in b
    ensures a == b
    decreases |a|
  {
    if a != [] {
      assert a[0] in b && b[0] in a;
      var i :| 0 <= i < |b| && b[i] == a[0];
      var j :| 0 <= j < |a| && a[j] == b[0];
      assert NotAfter(b[0], b[i]) && NotAfter(a[0], a[j]);
      BeforeTotal(a[0], b[0]);
      forall d
        ensures d in a[1..] <==> d in b[1..]
      {
        if d in a[1..] {
          var i :| 1 <= i < |a| && a[i] == d;
          assert Before(a[0], d) && d in a && d in b;
          var k :| 0 <= k < |b| && b[k] == d;
          assert k != 0 && b[1..][k - 1] == d;
        }
        if d in b[1..] {
          var i :| 1 <= i < |b| && b[i] == d;
          assert Before(b[0], d) && d in b && d in a;
          var k :| 0 <= k < |a| && a[k] == d;
          assert k != 0 && a[1..][k - 1] == d;
        }
      }
      AscendingUnique(a[1..], b[1..]);
      assert a == [a[0]] + a[1..] && b == [b[0]] + b[1..];
    }
  }

  /** The last of ascending dates is the latest of them. */
  lemma LastIsLatest(days: seq<CalDate>, s: set<CalDate>, k: CalDate)
    requires Ascending(days) && days != [] && (forall d :: d in days <==> d in s)
    requires IsLatest(s, k)
    ensures days[|days| - 1] == k
  {
    var last := days[|days| - 1];
    assert last in s && NotAfter(last, k);
    var i :| 0 <= i < |days| && days[i] == k;
    assert i == |days| - 1 || Before(k, last);
    BeforeTotal(k, last);
  }

  // ---------------------------------------------------------------------
  // Step-wise lookup

  /** `sorted_balances.bisect(day)`, i.e. bisect_right: how many keys are
      not after `day`. */
  function Bisect(days: seq<CalDate>, day: CalDate): (n: nat)
    requires Ascending(days)
    ensures n <= |days|
    ensures forall i | 0 <= i < n :: NotAfter(days[i], day)
    ensures forall i | n <= i < |days| :: Before(day, days[i])
  {
    if days == [] then 0
    else if Before(day, days[0]) then
      assert forall i | 0 < i < |days| :: Before(days[0], days[i]);
      0
    else
      BeforeTotal(day, days[0]);
      1 + Bisect(days[1..], day)
  }

  /** `k` is the greatest key of `m` that is not after `day`. */
  predicate IsFloor(m: Balances, day: CalDate, k: CalDate) {
    k in m && NotAfter(k, day) && forall k' | k' in m && NotAfter(k', day) :: NotAfter(k', k)
  }

  lemma FloorUnique(m: Balances, day: CalDate, k: CalDate, k': CalDate)
    requires IsFloor(m, day, k) && IsFloor(m, day, k')
    ensures k == k'
  {
    BeforeTotal(k, k');
  }

  /** The key just before the bisection point is the floor of `day`. */
  lemma BisectFloor(m: Balances, day: CalDate, days: seq<CalDate>)
    requires Ascending(days) && (forall d :: d in days <==> d in m)
    requires days != [] && !Before(day, days[0])
    ensures Bisect(days, day) > 0 && IsFloor(m, day, days[Bisect(days, day) - 1])
  {
    var n := Bisect(days, day);
    BeforeTotal(day, days[0]);
    assert n > 0;
    var f := days[n - 1];
    forall k' | k' in m && NotAfter(k', day)
      ensures NotAfter(k', f)
    {
      var i :| 0 <= i < |days| && days[i] == k';
      if i >= n {
        assert Before(day, k');
        BeforeTotal(day, k');
      }
      assert i <= n - 1;
    }
  }

  /** `get_balance_exact(sorted_balances, day)`: 0 before the first key,
      otherwise the amount at the greatest key not after `day`, so the last
      amount after the last key. An empty SortedDict has no first key and
      raises IndexError. */
  function ExactBalance(m: Balances, day: CalDate): (r: Result<real>)
    ensures r == Err(IndexError) <==> m == map[]
    ensures m != map[] && (forall k | k in m :: Before(day, k)) ==> r == Ok(0.0)
    ensures forall k | IsFloor(m, day, k) :: r == Ok(m[k])
    ensures forall k: CalDate | IsLatest(m.Keys, k) && NotAfter(k, day) :: r == Ok(m[k])
  {
    var days := SortedDays(m.Keys);
    if days == [] then Err(IndexError)
    else if Before(day, days[0]) then
      assert days[0] in m;
      assert forall k | k in m :: !NotAfter(k, day) by {
        forall k | k in m
          ensures !NotAfter(k, day)
        {
          var i :| 0 <= i < |days| && days[i] == k;
          assert i == 0 || Before(days[0], k);
          BeforeTotal(day, k);
        }
      }
      Ok(0.0)
    else
      BisectFloor(m, day, days);
      var f := days[Bisect(days, day) - 1];
      assert forall k | IsFloor(m, day, k) :: k == f by {
        forall k | IsFloor(m, day, k)
          ensures k == f
        {
          FloorUnique(m, day, k, f);
        }
      }
      Ok(m[f])
  }

  // ---------------------------------------------------------------------
  // Interpolated lookup

  /** Strictly increasing sample points. */
  predicate Increasing(xs: seq<int>) {
    forall i, j | 0 <= i < j < |xs| :: xs[i] < xs[j]
  }

  /** `toTimestamps(days)`. */
  function Stamps(days: seq<CalDate>): (xs: seq<int>)
    ensures |xs| == |days| && forall i | 0 <= i < |days| :: xs[i] == ToTimestamp(days[i])
  {
    seq(|days|, i requires 0 <= i < |days| => ToTimestamp(days[i]))
  }

  /** The timestamps of ascending dates are strictly increasing. */
  lemma StampsIncrease(days: seq<CalDate>)
    requires Ascending(days)
    ensures Increasing(Stamps(days))
  {
    forall i, j | 0 <= i < j < |days|
      ensures Stamps(days)[i] < Stamps(days)[j]
    {
      TimestampOrder(days[i], days[j]);
    }
  }

  /** `sorted_balances.values()` in key order. */
  function Amounts(m: Balances, days: seq<CalDate>): (ys: seq<real>)
    requires forall i | 0 <= i < |days| :: days[i] in m
    ensures |ys| == |days| && forall i | 0 <= i < |days| :: ys[i] == m[days[i]]
  {
    seq(|days|, i requires 0 <= i < |days| && days[i] in m => m[days[i]])
  }

  /** The segment `[xs[i], xs[i + 1])` that holds `x`. */
  function Segment(x: int, xs: seq<int>): (i: nat)
    requires |xs| >= 2 && Increasing(xs) && xs[0] <= x < xs[|xs| - 1]
    ensures i + 1 < |xs| && xs[i] <= x < xs[i + 1]
  {
    if x < xs[1] then 0 else 1 + Segment(x, xs[1..])
  }

  /** `numpy.interp(x, xs, ys, 0)`: 0 left of the first point (the `left`
      argument), the last amount right of the last point (numpy's default
      `right`), and the straight line between the two surrounding points
      otherwise. */
  function LinearInterp(x: int, xs: seq<int>, ys: seq<real>): (r: real)
    requires |xs| == |ys| > 0 && Increasing(xs)
    ensures x < xs[0] ==> r == 0.0
    ensures x >= xs[|xs| - 1] ==> r == ys[|ys| - 1]
    ensures forall i | 0 <= i < |xs| && xs[i] == x :: r == ys[i]
  {
    if x < xs[0] then 0.0
    else if x >= xs[|xs| - 1] then ys[|ys| - 1]
    else
      var i := Segment(x, xs);
      var t := (x - xs[i]) as real / (xs[i + 1] - xs[i]) as real;
      assert forall j | 0 <= j < |xs| && xs[j] == x :: j == i;
      ys[i] + (ys[i + 1] - ys[i]) * t
  }

  /** `v` lies between `a` and `b`. */
  predicate Between(v: real, a: real, b: real) {
    (a <= v <= b) || (b <= v <= a)
  }

  /** A ratio of a part to its whole lies in [0, 1]. */
  lemma RatioBounds(num: real, den: real)
    requires 0.0 <= num <= den && den > 0.0
    ensures 0.0 <= num / den <= 1.0
  {
    var q := num / den;
    assert q * den == num;
    assert (1.0 - q) * den == den - num;
  }

  /** Between two sample points the line stays between their amounts. */
  lemma LinearInterpBetween(x: int, xs: seq<int>, ys: seq<real>) returns (i: nat)
    requires |xs| == |ys| > 0 && Increasing(xs)
    requires xs[0] <= x < xs[|xs| - 1]
    ensures i + 1 < |xs| && xs[i] <= x < xs[i + 1]
    ensures Between(LinearInterp(x, xs, ys), ys[i], ys[i + 1])
  {
    i := Segment(x, xs);
    var t := (x - xs[i]) as real / (xs[i + 1] - xs[i]) as real;
    RatioBounds((x - xs[i]) as real, (xs[i + 1] - xs[i]) as real);
    var d := ys[i + 1] - ys[i];
    assert d * t + d * (1.0 - t) == d;
    ScaledSign(d, t);
    ScaledSign(d, 1.0 - t);
  }

  /** Scaling by a non-negative factor keeps the sign. */
  lemma ScaledSign(d: real, t: real)
    requires t >= 0.0
    ensures d >= 0.0 ==> d * t >= 0.0
    ensures d <= 0.0 ==> d * t <= 0.0
  {}

  /** The PCHIP oracle passes through its sample points, as a Hermite
      interpolant does. */
  ghost predicate PchipKnots(pchip: Pchip) {
    forall xs, ys, i | Increasing(xs) && |xs| == |ys| && 0 <= i < |xs| :: pchip(xs, ys, xs[i]) == ys[i]
  }

  /** The choice inside `get_balance`: PCHIP for more than three points
      when `x` is within their range, the linear interpolation otherwise. */
  function Resolve(pchip: Pchip, xs: seq<int>, ys: seq<real>, x: int): (r: real)
    requires |xs| == |ys| > 0 && Increasing(xs)
    ensures x < xs[0] ==> r == 0.0
    ensures x > xs[|xs| - 1] ==> r == ys[|ys| - 1]
    ensures |xs| <= 3 ==> forall i | 0 <= i < |xs| && xs[i] == x :: r == ys[i]
  {
    if |xs| > 3 && xs[0] <= x <= xs[|xs| - 1] then pchip(xs, ys, x)
    else LinearInterp(x, xs, ys)
  }

  /** `get_balance(sorted_balances, day)` on a non-empty SortedDict. */
  function Interpolate(pchip: Pchip, m: Balances, day: CalDate): (r: real)
    requires m != map[]
    ensures (forall k | k in m :: Before(day, k)) ==> r == 0.0
    ensures forall k: CalDate | IsLatest(m.Keys, k) && Before(k, day) :: r == m[k]
    ensures |m| <= 3 && day in m ==> r == m[day]
  {
    var days := SortedDays(m.Keys);
    StampsIncrease(days);
    InterpolateSpec(pchip, m, day, days);
    Resolve(pchip, Stamps(days), Amounts(m, days), ToTimestamp(day))
  }

  /** The boundary and knot cases of `get_balance`, read on the keys of
      `m` in order. */
  lemma InterpolateSpec(pchip: Pchip, m: Balances, day: CalDate, days: seq<CalDate>)
    requires Ascending(days) && days != [] && |days| == |m| && (forall d :: d in days <==> d in m)
    requires Increasing(Stamps(days))
    ensures var r := Resolve(pchip, Stamps(days), Amounts(m, days), ToTimestamp(day));
            && ((forall k | k in m :: Before(day, k)) ==> r == 0.0)
            && (forall k: CalDate | IsLatest(m.Keys, k) && Before(k, day) :: r == m[k])
            && (|m| <= 3 && day in m ==> r == m[day])
  {
    var xs, ys := Stamps(days), Amounts(m, days);
    InterpolateBounds(m, day, days);
    forall k: CalDate | IsLatest(m.Keys, k) && Before(k, day)
      ensures Resolve(pchip, xs, ys, ToTimestamp(day)) == m[k]
    {
      LastIsLatest(days, m.Keys, k);
    }
    if |m| <= 3 && day in m {
      var i :| 0 <= i < |days| && days[i] == day;
      assert xs[i] == ToTimestamp(day);
    }
  }

  /** Where `day` falls among the timestamps of the keys of `m`. */
  lemma InterpolateBounds(m: Balances, day: CalDate, days: seq<CalDate>)
    requires Ascending(days) && days != [] && (forall d :: d in days <==> d in m)
    ensures (forall k | k in m :: Before(day, k)) ==> ToTimestamp(day) < Stamps(days)[0]
    ensures forall k: CalDate | IsLatest(m.Keys, k) && Before(k, day) :: Stamps(days)[|days| - 1] < ToTimestamp(day)
  {
    assert days[0] in m;
    TimestampOrder(day, days[0]);
    forall k: CalDate | IsLatest(m.Keys, k) && Before(k, day)
      ensures Stamps(days)[|days| - 1] < ToTimestamp(day)
    {
      LastIsLatest(days, m.Keys, k);
      TimestampOrder(k, day);
    }
  }

  /** With a PCHIP that passes through its points, `get_balance` returns a
      known day's amount. */
  lemma KnownDay(pchip: Pchip, m: Balances, day: CalDate)
    requires PchipKnots(pchip) && day in m
    ensures Interpolate(pchip, m, day) == m[day]
  {
    var days := SortedDays(m.Keys);
    var xs, ys := Stamps(days), Amounts(m, days);
    StampsIncrease(days);
    var i :| 0 <= i < |days| && days[i] == day;
    assert xs[i] == ToTimestamp(day) && ys[i] == m[day];
    assert xs[0] <= xs[i] <= xs[|xs| - 1];
  }

  /** `get_balance(sorted_balances, day)`: `numpy.interp` raises ValueError
      on an empty SortedDict. */
  function Balance(pchip: Pchip, m: Balances, day: CalDate): (r: Result<real>)
    ensures r.Err? <==> m == map[]
    ensures r.Err? ==> r.error == ValueError
    ensures r.Ok? ==> r.value == Interpolate(pchip, m, day)
  {
    if m == map[] then Err(ValueError) else Ok(Interpolate(pchip, m, day))
  }

  /** `get_yearly_balance(sorted_balances, day)`: the change since January
      1st of the year of `day`. */
  function YearlyBalance(pchip: Pchip, m: Balances, day: CalDate): (r: real)
    requires m != map[]
    ensures FirstOfYear(day) == day ==> r == 0.0
    ensures (forall k | k in m :: Before(FirstOfYear(day), k)) ==> r == Interpolate(pchip, m, day)
  {
    Interpolate(pchip, m, day) - Interpolate(pchip, m, FirstOfYear(day))
  }

  // ---------------------------------------------------------------------
  // Account properties

  /** The keys of `all_account_types`, in their order. */
  const AccountTypes: seq<string> :=
    ["checking", "saving", "life-insurance", "loan", "real-estate", "crowd-funding", "other"]

  /** `all_account_types[t]['account']`: the defaults of a known account
      type; only crowd-funding accounts default to reading operations. */
  function TypeDefaults(t: string): (r: Dict)
    ensures Name("share") !in r
    ensures Name("input") in r <==> t == "crowd-funding"
    ensures t !in AccountTypes ==> r == map[]
  {
    if t == "checking" then map[Name("color") := Str("royalblue")]
    else if t == "saving" then map[Name("color") := Str("tomato")]
    else if t == "life-insurance" then map[Name("color") := Str("olivedrab")]
    else if t == "loan" then map[Name("color") := Str("gold")]
    else if t == "real-estate" then map[Name("color") := Str("sandybrown")]
    else if t == "crowd-funding" then map[Name("color") := Str("green"), Name("input") := Str("operations")]
    else if t == "other" then map[Name("color") := Str("silver")]
    else map[]
  }

  /** `all_account_types` as the balance lookups read it: the `account`
      defaults of each type, by type name. */
  type TypeTable = map<string, Dict>

  /** `all_account_types` as the package defines it. */
  const PackageTypes: TypeTable := map t | t in AccountTypes :: TypeDefaults(t)

  /** The package's table gives each type the defaults `TypeDefaults`
      lists. */
  lemma PackageDefaults(t: string)
    ensures t in PackageTypes <==> t in AccountTypes
    ensures t in PackageTypes ==> PackageTypes[t] == TypeDefaults(t)
  {}

  /** The `--<type>` options of `plot_accounts` and `plot_accounts_yearly`
      (`for account_type, input in account_input_types.items(): if input:
      all_account_types[account_type]['account']['input'] = input`): each
      type given a truthy input reads that input by default from then on.
      A type the table lacks raises KeyError. */
  function WithInputs(table: TypeTable, inputs: map<string, Value>): (r: Result<TypeTable>)
    ensures r.Err? <==> exists t | t in inputs && Truthy(inputs[t]) :: t !in table
    ensures r.Err? ==> r.error == KeyError
    ensures r.Ok? ==> r.value.Keys == table.Keys
    ensures r.Ok? ==> forall t | t in table && t in inputs && Truthy(inputs[t]) ::
              Name("input") in r.value[t] && r.value[t][Name("input")] == inputs[t]
              && r.value[t] - {Name("input")} == table[t] - {Name("input")}
    ensures r.Ok? ==> forall t | t in table && !(t in inputs && Truthy(inputs[t])) :: r.value[t] == table[t]
  {
    if exists t | t in inputs && Truthy(inputs[t]) :: t !in table then Err(KeyError)
    else Ok(map t | t in table :: if t in inputs && Truthy(inputs[t]) then table[t][Name("input") := inputs[t]] else table[t])
  }

  /** No type of the table sets `share`. */
  predicate SetsNoShare(table: TypeTable) {
    forall t | t in table :: Name("share") !in table[t]
  }

  /** The package's table sets no `share`, and overriding inputs keeps it
      so. */
  lemma NoShareKept(inputs: map<string, Value>)
    ensures SetsNoShare(PackageTypes)
    ensures WithInputs(PackageTypes, inputs).Ok? ==> SetsNoShare(WithInputs(PackageTypes, inputs).value)
  {
    var table := PackageTypes;
    forall t | t in table ensures Name("share") !in table[t] {
      PackageDefaults(t);
    }
  }

  /** `all_account_types.get(t, {}).get('account', {})`: an unhashable type
      raises TypeError. */
  function DefaultsOf(table: TypeTable, t: Value): (r: Result<Dict>)
    ensures r.Err? <==> t.Items? || t.Obj?
    ensures r.Err? ==> r.error == TypeError
    ensures t.Str? && t.s in table ==> r == Ok(table[t.s])
    ensures r.Ok? && !(t.Str? && t.s in table) ==> r == Ok(map[])
  {
    match t
    case Items(_) => Err(TypeError)
    case Obj(_) => Err(TypeError)
    case Str(s) => Ok(if s in table then table[s] else map[])
    case _ => Ok(map[])
  }

  /** `v.get(key, default)`: only a dict has `get`. */
  function Lookup(v: Value, key: string, default: Value): (r: Result<Value>)
    ensures r.Err? <==> !v.Obj?
    ensures r.Err? ==> r.error == AttributeError
    ensures v.Obj? && Name(key) in v.fields ==> r == Ok(v.fields[Name(key)])
    ensures v.Obj? && Name(key) !in v.fields ==> r == Ok(default)
  {
    if v.Obj? then Ok(GetOr(v.fields, Name(key), default)) else Err(AttributeError)
  }

  /** The first three statements of `get_account_properties`: the
      `account` entry of the account, or, when it is not a dict, the entry
      of the account it names (one redirection). */
  function AccountEntry(accounts: Dict, id: Key): (r: Result<Value>)
    ensures id !in accounts ==> r == Ok(Obj(map[]))
    ensures r.Err? ==> r.error == AttributeError || r.error == TypeError
    ensures id in accounts && accounts[id].Obj? ==>
              var own := GetOr(accounts[id].fields, Name("account"), Null);
              && (own.Obj? ==> r == Ok(own))
              && (own.Str? ==> r == Ok(GetOr(accounts, Name(own.s), Obj(map[]))))
  {
    var own :- Lookup(GetOr(accounts, id, Obj(map[])), "account", Null);
    if own.Obj? then Ok(own) else GetByValue(accounts, own)
  }

  /** `get_account_properties(accounts, account_id)`: the account entry
      over the defaults of its `account-type`; an empty entry is returned
      as it is. */
  function Properties(table: TypeTable, accounts: Dict, id: Key): (r: Result<Value>)
    ensures r.Err? ==> r.error == AttributeError || r.error == TypeError
    ensures AccountEntry(accounts, id).Err? ==> r.Err?
    ensures forall a | AccountEntry(accounts, id) == Ok(a) && !Truthy(a) :: r == Ok(a)
    ensures forall a | AccountEntry(accounts, id) == Ok(a) && Truthy(a) && r.Ok? ::
              && a.Obj? && r.value.Obj?
              && DefaultsOf(table, GetOr(a.fields, Name("account-type"), Null)).Ok?
              && r.value.fields.Keys == a.fields.Keys + DefaultsOf(table, GetOr(a.fields, Name("account-type"), Null)).value.Keys
              && (forall k | k in a.fields :: r.value.fields[k] == a.fields[k])
              && (forall k | k !in a.fields && k in DefaultsOf(table, GetOr(a.fields, Name("account-type"), Null)).value ::
                    r.value.fields[k] == DefaultsOf(table, GetOr(a.fields, Name("account-type"), Null)).value[k])
  {
    var a :- AccountEntry(accounts, id);
    if !Truthy(a) then Ok(a)
    else if !a.Obj? then Err(AttributeError)
    else
      var defaults :- DefaultsOf(table, GetOr(a.fields, Name("account-type"), Null));
      Ok(Obj(Assign(defaults, a.fields)))
  }

  /** An unknown id has no properties. */
  lemma UnknownAccount(table: TypeTable, accounts: Dict, id: Key)
    requires id !in accounts
    ensures Properties(table, accounts, id) == Ok(Obj(map[]))
  {
    assert AccountEntry(accounts, id) == Ok(Obj(map[]));
  }

  /** `share` defaults to 1: no account type sets it, so an account entry
      without one scales by 1. */
  lemma DefaultShare(table: TypeTable, accounts: Dict, id: Key, a: Value)
    requires SetsNoShare(table)
    requires AccountEntry(accounts, id) == Ok(a) && a.Obj? && Name("share") !in a.fields
    requires Properties(table, accounts, id).Ok?
    ensures Share(Properties(table, accounts, id).value) == Ok(1.0)
  {
    if Truthy(a) {
      var t := GetOr(a.fields, Name("account-type"), Null);
      assert t.Str? && t.s in table ==> Name("share") !in table[t.s];
    }
  }

  /** `.get('share', 1)` of the properties, used as a factor. A share that
      is not a number is outside the model. */
  function Share(props: Value): (r: Result<real>)
    ensures r.Err? <==> !props.Obj? || (Name("share") in props.fields && !props.fields[Name("share")].Num?)
    ensures props.Obj? && Name("share") !in props.fields ==> r == Ok(1.0)
    ensures props.Obj? && Name("share") in props.fields && props.fields[Name("share")].Num?
            ==> r == Ok(props.fields[Name("share")].x)
  {
    var v :- Lookup(props, "share", Num(1.0));
    if v.Num? then Ok(v.x) else Err(Unsupported)
  }

  // ---------------------------------------------------------------------
  // Reading a SortedDict from the ledger

  /** `SortedDict((date, value * share) for date, value in v.items())`. A
      value without `items` raises AttributeError; keys that are not dates
      and amounts that are not numbers are outside the model. */
  function Scaled(v: Value, share: real): (r: Result<Balances>)
    ensures !v.Obj? ==> r == Err(AttributeError)
    ensures r.Ok? <==> v.Obj? && forall k | k in v.fields :: k.Day? && v.fields[k].Num?
    ensures r.Ok? ==> forall d :: d in r.value <==> Day(d) in v.fields
    ensures r.Ok? ==> forall d | d in r.value :: r.value[d] == v.fields[Day(d)].x * share
  {
    if !v.Obj? then Err(AttributeError)
    else if exists k | k in v.fields :: !(k.Day? && v.fields[k].Num?) then Err(Unsupported)
    else Ok(map k | k in v.fields :: k.date := v.fields[k].x * share)
  }

  // ---------------------------------------------------------------------
  // Balances rebuilt from operations

  lemma EarliestUnique(s: set<CalDate>, k: CalDate, k': CalDate)
    requires IsEarliest(s, k) && IsEarliest(s, k')
    ensures k == k'
  {
    BeforeTotal(k, k');
  }

  /** `if sorted_balance:` in the operations branch of
      `get_account_balances`: the first balance becomes an operation when it is
      strictly earlier than the first operation, or when there is none;
      every other balance is dropped. */
  function Seeded(balances: Balances, ops: Balances): (r: Balances)
    ensures forall k | k in ops :: k in r && r[k] == ops[k]
    ensures forall k | k in r && k !in ops ::
              IsEarliest(balances.Keys, k) && r[k] == balances[k] && forall o | o in ops :: Before(k, o)
    ensures forall k: CalDate | IsEarliest(balances.Keys, k) && (forall o | o in ops :: Before(k, o)) :: k in r
  {
    if balances == map[] then ops
    else
      var first := Earliest(balances.Keys);
      assert forall k | IsEarliest(balances.Keys, k) :: k == first by {
        forall k | IsEarliest(balances.Keys, k)
          ensures k == first
        {
          EarliestUnique(balances.Keys, k, first);
        }
      }
      if ops == map[] then ops[first := balances[first]]
      else
        var opFirst := Earliest(ops.Keys);
        if Before(first, opFirst) then
          assert forall o | o in ops :: Before(first, o) by {
            forall o | o in ops
              ensures Before(first, o)
            {
              if o != opFirst {
                BeforeTransitive(first, opFirst, o);
              }
            }
          }
          ops[first := balances[first]]
        else ops
  }

  /** Every date of `days` is a key of `m`. */
  predicate Within(days: seq<CalDate>, m: Balances) {
    forall i | 0 <= i < |days| :: days[i] in m
  }

  /** The sum of the amounts at the first `n` dates of `days`. */
  function Prefix(days: seq<CalDate>, m: Balances, n: nat): real
    requires Within(days, m) && n <= |days|
  {
    if n == 0 then 0.0 else Prefix(days, m, n - 1) + m[days[n - 1]]
  }

  /** The keys of `acc` are the first `i` dates of `days`. */
  ghost predicate Filled(days: seq<CalDate>, i: nat, acc: Balances) {
    forall d :: d in acc <==> exists j | 0 <= j < i && j < |days| :: days[j] == d
  }

  /** Each of the first `i` dates holds the running sum up to it. */
  predicate Summed(days: seq<CalDate>, ops: Balances, i: nat, acc: Balances)
    requires Within(days, ops) && i <= |days|
  {
    forall j | 0 <= j < i :: days[j] in acc && acc[days[j]] == Prefix(days, ops, j + 1)
  }

  /** `sorted_balance.get(dates[i - 1], 0)`. At `i = 0` the index -1
      names the last date. */
  function Carried(days: seq<CalDate>, i: nat, acc: Balances): real
    requires i < |days|
  {
    var prev := if i == 0 then days[|days| - 1] else days[i - 1];
    if prev in acc then acc[prev] else 0.0
  }

  /** The loop `for i, date in enumerate(dates)` of `get_account_balances`
      from index `i` on: `sorted_balance[date] =
      sorted_operations[date] + sorted_balance.get(dates[i - 1], 0)`. At
      `i = 0` the last date holds nothing yet, so nothing is carried. */
  function RunFrom(days: seq<CalDate>, ops: Balances, i: nat, acc: Balances): (r: Balances)
    requires Ascending(days) && Within(days, ops) && i <= |days|
    requires Filled(days, i, acc) && Summed(days, ops, i, acc)
    ensures Filled(days, |days|, r) && Summed(days, ops, |days|, r)
    decreases |days| - i
  {
    if i == |days| then acc
    else
      var acc' := acc[days[i] := ops[days[i]] + Carried(days, i, acc)];
      StepFilled(days, i, acc, ops[days[i]] + Carried(days, i, acc));
      StepSummed(days, ops, i, acc);
      RunFrom(days, ops, i + 1, acc')
  }

  /** Writing the `i`-th date extends the keys by it. */
  lemma StepFilled(days: seq<CalDate>, i: nat, acc: Balances, v: real)
    requires i < |days| && Filled(days, i, acc)
    ensures Filled(days, i + 1, acc[days[i] := v])
  {
    var acc' := acc[days[i] := v];
    forall d
      ensures d in acc' <==> exists j | 0 <= j < i + 1 && j < |days| :: days[j] == d
    {
      if d == days[i] {
        assert exists j | 0 <= j < i + 1 && j < |days| :: days[j] == d;
      }
    }
  }

  /** The amount carried into the `i`-th date is the sum of the operations
      before it. */
  lemma CarriedPrefix(days: seq<CalDate>, ops: Balances, i: nat, acc: Balances)
    requires Within(days, ops) && i < |days|
    requires Filled(days, i, acc) && Summed(days, ops, i, acc)
    ensures Carried(days, i, acc) == Prefix(days, ops, i)
  {
    if i == 0 {
      assert days[|days| - 1] !in acc;
    } else {
      assert days[i - 1] in acc && acc[days[i - 1]] == Prefix(days, ops, i);
    }
  }

  /** Writing the `i`-th date keeps the running sums. */
  lemma StepSummed(days: seq<CalDate>, ops: Balances, i: nat, acc: Balances)
    requires Ascending(days) && Within(days, ops) && i < |days|
    requires Filled(days, i, acc) && Summed(days, ops, i, acc)
    ensures Summed(days, ops, i + 1, acc[days[i] := ops[days[i]] + Carried(days, i, acc)])
  {
    var acc' := acc[days[i] := ops[days[i]] + Carried(days, i, acc)];
    CarriedPrefix(days, ops, i, acc);
    assert acc'[days[i]] == Prefix(days, ops, i + 1);
    forall j | 0 <= j < i
      ensures days[j] in acc' && acc'[days[j]] == Prefix(days, ops, j + 1)
    {
      assert Before(days[j], days[i]);
    }
  }

  /** The running-sum loop of `get_account_balances`, as a whole: the
      balance at the i-th date of the operations is the
      running sum of the operations up to and including that date. */
  function CumulativeSum(ops: Balances): (r: Balances)
    ensures r.Keys == ops.Keys
    ensures var days := SortedDays(ops.Keys);
            forall j | 0 <= j < |days| :: r[days[j]] == Prefix(days, ops, j + 1)
  {
    var days := SortedDays(ops.Keys);
    var r := RunFrom(days, ops, 0, map[]);
    FilledKeys(days, r, ops.Keys);
    r
  }

  /** A map filled at every date of `days` has exactly their keys. */
  lemma FilledKeys(days: seq<CalDate>, r: Balances, keys: set<CalDate>)
    requires Filled(days, |days|, r) && (forall d :: d in days <==> d in keys)
    ensures r.Keys == keys
  {
    forall d | d in keys
      ensures d in r
    {
      var j :| 0 <= j < |days| && days[j] == d;
    }
  }

  // ---------------------------------------------------------------------
  // Yearly reset

  /** The dates yearly mode may write for `day`: the day itself, January
      1st of its year and December 31st of the year before. */
  ghost function YearMarks(day: CalDate): set<CalDate> {
    {day, FirstOfYear(day)} + (match LastOfPreviousYear(day) case Some(l) => {l} case None => {})
  }

  /** Every amount of `out` is the value `change` gives its date. */
  ghost predicate Agrees(change: CalDate -> real, out: Balances) {
    forall d | d in out :: out[d] == change(d)
  }

  /** `change` is 0 on every January 1st, as a change since January 1st is. */
  ghost predicate NewYearZero(change: CalDate -> real) {
    forall d: CalDate | FirstOfYear(d) == d :: change(d) == 0.0
  }

  /** Some date of `days` from index `i` on is in year 1. */
  predicate YearOneFrom(days: seq<CalDate>, i: nat) {
    exists j | i <= j < |days| :: days[j].year == 1
  }

  /** `r` keeps the keys of `out` and the dates of `days` from index `i`. */
  ghost predicate KeepsFrom(days: seq<CalDate>, i: nat, out: Balances, r: Balances) {
    out.Keys <= r.Keys && forall j | i <= j < |days| :: days[j] in r
  }

  /** Every key of `r` is a key of `out` or a mark of a date of `days`
      from index `i`. */
  ghost predicate MarksFrom(days: seq<CalDate>, i: nat, out: Balances, r: Balances) {
    forall d | d in r :: d in out || exists j | i <= j < |days| :: d in YearMarks(days[j])
  }

  /** The keys one iteration of the yearly loop writes for `day`: the day
      itself, and, when the previous year ended on a non-zero change, that
      December 31st and the day's January 1st. */
  ghost function Added(change: CalDate -> real, day: CalDate): set<CalDate> {
    match LastOfPreviousYear(day)
    case Some(last) => if change(last) != 0.0 then {day, last, FirstOfYear(day)} else {day}
    case None => {day}
  }

  /** Every date of `days` from index `i` on has its keys in `r`. */
  ghost predicate CarriedFrom(change: CalDate -> real, days: seq<CalDate>, i: nat, r: Balances) {
    forall j | i <= j < |days| :: Added(change, days[j]) <= r.Keys
  }

  /** Every key of `r` is a key of `out` or one written for a date of
      `days` from index `i` on. */
  ghost predicate OnlyAddedFrom(change: CalDate -> real, days: seq<CalDate>, i: nat, out: Balances, r: Balances) {
    forall d | d in r :: d in out || exists j | i <= j < |days| :: d in Added(change, days[j])
  }

  /** One iteration of `for day in sorted_balance.keys()` in the yearly
      branch of `get_account_balances`, for a day whose year has a
      predecessor. When the
      previous year ended on a non-zero change, its December 31st keeps that
      change and January 1st restarts at 0; then the day's own yearly
      balance is written. */
  function YearlyStep(change: CalDate -> real, day: CalDate, last: CalDate, out: Balances): (out': Balances)
    requires NewYearZero(change) && Agrees(change, out) && LastOfPreviousYear(day) == Some(last)
    ensures Agrees(change, out')
    ensures out.Keys <= out'.Keys && day in out'
    ensures forall d | d in out' :: d in out || d in YearMarks(day)
    ensures change(last) != 0.0 ==> last in out' && FirstOfYear(day) in out'
    ensures change(last) == 0.0 ==> out'.Keys == out.Keys + {day}
    ensures out'.Keys == out.Keys + Added(change, day)
  {
    var first := FirstOfYear(day);
    var carried := change(last);
    var marked := if carried != 0.0 then out[last := carried][first := 0.0] else out;
    assert FirstOfYear(first) == first;
    marked[day := change(day)]
  }

  /** The facts of one step and of the rest of the loop make those of the
      whole loop. */
  lemma Chain(days: seq<CalDate>, i: nat, out: Balances, out': Balances, r: Balances)
    requires i < |days| && out.Keys <= out'.Keys && days[i] in out'
    requires forall d | d in out' :: d in out || d in YearMarks(days[i])
    requires KeepsFrom(days, i + 1, out', r) && MarksFrom(days, i + 1, out', r)
    ensures KeepsFrom(days, i, out, r) && MarksFrom(days, i, out, r)
  {
    forall d | d in r
      ensures d in out || exists j | i <= j < |days| :: d in YearMarks(days[j])
    {
      if d !in out' {
        var j :| i + 1 <= j < |days| && d in YearMarks(days[j]);
      } else if d !in out {
        assert d in YearMarks(days[i]);
      }
    }
  }

  /** The same chaining for the keys written, read exactly. */
  lemma ChainAdded(change: CalDate -> real, days: seq<CalDate>, i: nat, out: Balances, out': Balances, r: Balances)
    requires i < |days| && out'.Keys == out.Keys + Added(change, days[i]) && out'.Keys <= r.Keys
    requires CarriedFrom(change, days, i + 1, r) && OnlyAddedFrom(change, days, i + 1, out', r)
    ensures CarriedFrom(change, days, i, r) && OnlyAddedFrom(change, days, i, out, r)
  {
    forall d | d in r
      ensures d in out || exists j | i <= j < |days| :: d in Added(change, days[j])
    {
      if d !in out' {
        var j :| i + 1 <= j < |days| && d in Added(change, days[j]);
      } else if d !in out {
        assert d in Added(change, days[i]);
      }
    }
  }

  /** The loop `for day in sorted_balance.keys()` of the yearly branch of
      `get_account_balances` from index `i` on, where `change(d)` is
      `get_yearly_balance(sorted_balance, d)`; `timedelta` arithmetic before
      year 1 raises OverflowError. */
  function YearlyFrom(change: CalDate -> real, days: seq<CalDate>, i: nat, out: Balances): (r: Result<Balances>)
    requires i <= |days| && NewYearZero(change) && Agrees(change, out)
    ensures r.Ok? ==> Agrees(change, r.value)
    ensures r.Ok? ==> KeepsFrom(days, i, out, r.value) && MarksFrom(days, i, out, r.value)
    ensures r.Ok? ==> CarriedFrom(change, days, i, r.value) && OnlyAddedFrom(change, days, i, out, r.value)
    ensures r.Err? <==> YearOneFrom(days, i)
    ensures r.Err? ==> r.error == OverflowError
    decreases |days| - i
  {
    if i == |days| then Ok(out)
    else if days[i].year == 1 then
      assert YearOneFrom(days, i) by {
        assert days[i].year == 1;
      }
      Err(OverflowError)
    else
      var out' := YearlyStep(change, days[i], LastOfPreviousYear(days[i]).value, out);
      var r := YearlyFrom(change, days, i + 1, out');
      YearOneSkip(days, i);
      if r.Ok? then
        Chain(days, i, out, out', r.value);
        ChainAdded(change, days, i, out, out', r.value);
        r
      else r
  }

  /** A date past year 1 leaves the question to the dates after it. */
  lemma YearOneSkip(days: seq<CalDate>, i: nat)
    requires i < |days| && days[i].year != 1
    ensures YearOneFrom(days, i) <==> YearOneFrom(days, i + 1)
  {
    if YearOneFrom(days, i) {
      var j :| i <= j < |days| && days[j].year == 1;
      assert j != i;
    }
  }

  /** Every key of `r` is a mark of some date of `sb`. */
  ghost predicate MarkedBy(sb: Balances, r: Balances) {
    forall d | d in r :: exists k | k in sb :: d in YearMarks(k)
  }

  /** The outcome of yearly mode: OverflowError exactly when a date is in
      year 1; otherwise every date is kept, every other key marks a date,
      and January 1st holds 0. */
  ghost predicate YearlyShape(sb: Balances, r: Result<Balances>) {
    && (r.Err? <==> exists k | k in sb :: k.year == 1)
    && (r.Ok? ==> sb.Keys <= r.value.Keys && MarkedBy(sb, r.value))
    && (r.Ok? ==> forall d | d in r.value && FirstOfYear(d) == d :: r.value[d] == 0.0)
  }

  /** The loop's facts over the keys of `sb` in order, read on `sb`. */
  lemma YearlyFacts(sb: Balances, days: seq<CalDate>, change: CalDate -> real, r: Result<Balances>)
    requires Ascending(days) && (forall d :: d in days <==> d in sb)
    requires NewYearZero(change)
    requires r.Err? <==> YearOneFrom(days, 0)
    requires r.Ok? ==> Agrees(change, r.value) && KeepsFrom(days, 0, map[], r.value) && MarksFrom(days, 0, map[], r.value)
    ensures YearlyShape(sb, r)
  {
    YearOneIn(sb, days);
    if r.Ok? {
      KeptAndMarked(sb, days, r.value);
    }
  }

  /** A date of `sb` is in year 1 exactly when one of `days` is. */
  lemma YearOneIn(sb: Balances, days: seq<CalDate>)
    requires forall d :: d in days <==> d in sb
    ensures YearOneFrom(days, 0) <==> exists k | k in sb :: k.year == 1
  {
    if exists k | k in sb :: k.year == 1 {
      var k :| k in sb && k.year == 1;
      var j :| 0 <= j < |days| && days[j] == k;
    }
  }

  /** The loop's keys, read on `sb`. */
  lemma KeptAndMarked(sb: Balances, days: seq<CalDate>, r: Balances)
    requires forall d :: d in days <==> d in sb
    requires KeepsFrom(days, 0, map[], r) && MarksFrom(days, 0, map[], r)
    ensures sb.Keys <= r.Keys && MarkedBy(sb, r)
  {
    forall d | d in r
      ensures exists k | k in sb :: d in YearMarks(k)
    {
      var j :| 0 <= j < |days| && d in YearMarks(days[j]);
      assert days[j] in sb;
    }
    forall k | k in sb
      ensures k in r
    {
      var j :| 0 <= j < |days| && days[j] == k;
    }
  }

  /** Every date of `sb` has the keys the loop writes for it. */
  lemma CarriedIn(sb: Balances, days: seq<CalDate>, change: CalDate -> real, r: Balances)
    requires forall d :: d in days <==> d in sb
    requires CarriedFrom(change, days, 0, r)
    ensures forall k | k in sb :: Added(change, k) <= r.Keys
  {
    forall k | k in sb
      ensures Added(change, k) <= r.Keys
    {
      var j :| 0 <= j < |days| && days[j] == k;
    }
  }

  /** Every key the loop wrote is written for some date of `sb`. */
  lemma OnlyAddedIn(sb: Balances, days: seq<CalDate>, change: CalDate -> real, r: Balances)
    requires forall d :: d in days ==> d in sb
    requires OnlyAddedFrom(change, days, 0, map[], r)
    ensures forall d | d in r :: exists k | k in sb :: d in Added(change, k)
  {
    forall d | d in r
      ensures exists k | k in sb :: d in Added(change, k)
    {
      var j :| 0 <= j < |days| && d in Added(change, days[j]);
      assert days[j] in sb;
    }
  }

  /** `get_yearly_balance(sorted_balance, ·)` as a function of the day. */
  function YearlyChange(pchip: Pchip, sb: Balances): CalDate -> real
    requires sb != map[]
  {
    (d: CalDate) => YearlyBalance(pchip, sb, d)
  }

  /** The `if yearly:` branch of `get_account_balances`: every
      amount is the change since January 1st of its year, so January 1st
      itself holds 0, and every date of the SortedDict is kept. */
  function Yearly(pchip: Pchip, sb: Balances): (r: Result<Balances>)
    ensures sb == map[] ==> r == Ok(map[])
    ensures YearlyShape(sb, r)
    ensures r.Err? ==> r.error == OverflowError
    ensures r.Ok? && sb != map[] ==> forall d | d in r.value :: r.value[d] == YearlyBalance(pchip, sb, d)
    ensures r.Ok? && sb != map[] ==> KeysAdded(YearlyChange(pchip, sb), sb, r.value)
  {
    if sb == map[] then Ok(map[])
    else
      var days := SortedDays(sb.Keys);
      var change := YearlyChange(pchip, sb);
      assert NewYearZero(change);
      var r := YearlyFrom(change, days, 0, map[]);
      YearlyFacts(sb, days, change, r);
      if r.Ok? then
        LoopAdded(change, sb, days, r.value);
        r
      else r
  }

  /** The keys of `r` are the dates of `sb` and the marks the loop writes
      for them: every date's marks are there, and nothing else. */
  ghost predicate KeysAdded(change: CalDate -> real, sb: Balances, r: Balances) {
    AllCarried(change, sb, r) && OnlyAdded(change, sb, r)
  }

  /** Every date of `sb` has the keys the loop writes for it in `r`. */
  ghost predicate AllCarried(change: CalDate -> real, sb: Balances, r: Balances) {
    forall k | k in sb :: Added(change, k) <= r.Keys
  }

  /** Every key of `r` is written for some date of `sb`. */
  ghost predicate OnlyAdded(change: CalDate -> real, sb: Balances, r: Balances) {
    forall d | d in r :: exists k | k in sb :: d in Added(change, k)
  }

  /** The keys the loop writes over the dates of `sb` in order. */
  lemma LoopAdded(change: CalDate -> real, sb: Balances, days: seq<CalDate>, r: Balances)
    requires NewYearZero(change) && (forall d :: d in days <==> d in sb)
    requires YearlyFrom(change, days, 0, map[]) == Ok(r)
    ensures KeysAdded(change, sb, r)
  {
    CarriedIn(sb, days, change, r);
    OnlyAddedIn(sb, days, change, r);
  }

  /** A date whose previous year ended on a non-zero change brings that
      December 31st and its own January 1st. */
  lemma MarksCarried(change: CalDate -> real, sb: Balances, r: Balances, k: CalDate)
    requires k in sb && Added(change, k) <= r.Keys
    requires k.year > 1 && change(LastOfPreviousYear(k).value) != 0.0
    ensures LastOfPreviousYear(k).value in r && FirstOfYear(k) in r
  {
    assert Added(change, k) == {k, LastOfPreviousYear(k).value, FirstOfYear(k)};
  }

  /** A key written for a date `k` other than `k` itself is one of its
      year marks, written because its previous year ended on a non-zero
      change. */
  lemma MarksOnlyCarried(change: CalDate -> real, k: CalDate, d: CalDate)
    requires d in Added(change, k) && d != k
    ensures k.year > 1 && change(LastOfPreviousYear(k).value) != 0.0
    ensures d == LastOfPreviousYear(k).value || d == FirstOfYear(k)
  {}

  /** Every date is kept, and a date whose previous year ended on a
      non-zero change brings that December 31st and its own January 1st. */
  lemma MarksPresent(change: CalDate -> real, sb: Balances, r: Balances)
    requires AllCarried(change, sb, r)
    ensures sb.Keys <= r.Keys
    ensures forall k | k in sb && k.year > 1 && change(LastOfPreviousYear(k).value) != 0.0 ::
              LastOfPreviousYear(k).value in r && FirstOfYear(k) in r
  {
    forall k | k in sb
      ensures k in r
    {
      assert k in Added(change, k);
    }
    forall k | k in sb && k.year > 1 && change(LastOfPreviousYear(k).value) != 0.0
      ensures LastOfPreviousYear(k).value in r && FirstOfYear(k) in r
    {
      MarksCarried(change, sb, r, k);
    }
  }

  /** Every key that is not a date of `sb` is a year mark of a date whose
      previous year ended on a non-zero change. */
  lemma MarksOnly(change: CalDate -> real, sb: Balances, r: Balances)
    requires OnlyAdded(change, sb, r)
    ensures forall d | d in r && d !in sb ::
              exists k | k in sb && k.year > 1 && change(LastOfPreviousYear(k).value) != 0.0 ::
                d == LastOfPreviousYear(k).value || d == FirstOfYear(k)
  {
    forall d | d in r && d !in sb
      ensures exists k | k in sb && k.year > 1 && change(LastOfPreviousYear(k).value) != 0.0 ::
                d == LastOfPreviousYear(k).value || d == FirstOfYear(k)
    {
      var k :| k in sb && d in Added(change, k);
      MarksOnlyCarried(change, k, d);
    }
  }

  // ---------------------------------------------------------------------
  // One account

  /** `accounts[account_id].get(key)` on an account held as a dict. */
  function Held(accounts: Dict, id: Key, key: string): Value
    requires id in accounts && accounts[id].Obj?
  {
    GetOr(accounts[id].fields, Name(key), Null)
  }

  /** A SortedDict read from a ledger value: a falsy value (None, `{}`)
      gives an empty one (`if not balances: sorted_balance = SortedDict()`,
      and likewise for the operations). */
  function ScaledOrEmpty(v: Value, share: real): (r: Result<Balances>)
    ensures !Truthy(v) ==> r == Ok(map[])
    ensures Truthy(v) ==> r == Scaled(v, share)
  {
    if Truthy(v) then Scaled(v, share) else Ok(map[])
  }

  /** `if input == 'operations' or not balances:` of
      `get_account_balances`: balances are rebuilt from operations for accounts whose
      `input` property is 'operations' and for accounts without balances. */
  predicate ReadsOperations(input: Value, balances: Value) {
    input == Str("operations") || !Truthy(balances)
  }

  /** The share and the input of an account: `.get('share', 1)` and
      `.get('input', 'balances')` of its properties. */
  function Setting(table: TypeTable, accounts: Dict, id: Key): (r: Result<(real, Value)>)
    ensures r.Ok? ==> Properties(table, accounts, id).Ok? && Share(Properties(table, accounts, id).value) == Ok(r.value.0)
    ensures r.Ok? ==> var props := Properties(table, accounts, id).value;
                      r.value.1 == GetOr(props.fields, Name("input"), Str("balances"))
    ensures Properties(table, accounts, id).Ok? && Share(Properties(table, accounts, id).value).Ok? ==> r.Ok?
  {
    var props :- Properties(table, accounts, id);
    var share :- Share(props);
    Ok((share, GetOr(props.fields, Name("input"), Str("balances"))))
  }

  /** An account whose entry sets no `input` reads the input its type was
      given on the command line. */
  lemma InputOverride(table: TypeTable, inputs: map<string, Value>, accounts: Dict, id: Key, a: Value, t: string)
    requires WithInputs(table, inputs).Ok? && t in table && t in inputs && Truthy(inputs[t])
    requires AccountEntry(accounts, id) == Ok(a) && a.Obj? && Truthy(a) && Name("input") !in a.fields
    requires GetOr(a.fields, Name("account-type"), Null) == Str(t)
    requires Setting(WithInputs(table, inputs).value, accounts, id).Ok?
    ensures Setting(WithInputs(table, inputs).value, accounts, id).value.1 == inputs[t]
  {
    var overridden := WithInputs(table, inputs).value;
    assert DefaultsOf(overridden, Str(t)) == Ok(overridden[t]);
  }

  /** `get_account_balances` before its yearly branch, once the share and
      the input are known. Balances read
      as such are the stored amounts times the share. Otherwise the
      operations, seeded by the first balance when it comes first, are
      summed up. */
  function ResolveEntry(balances: Value, ops: Value, share: real, input: Value): (r: Result<Balances>)
    ensures !ReadsOperations(input, balances) ==> r == Scaled(balances, share)
    ensures ReadsOperations(input, balances) && r.Ok? ==>
              && ScaledOrEmpty(balances, share).Ok? && ScaledOrEmpty(ops, share).Ok?
              && r.value == CumulativeSum(Seeded(ScaledOrEmpty(balances, share).value, ScaledOrEmpty(ops, share).value))
    ensures r.Err? ==> ScaledOrEmpty(balances, share).Err? || ScaledOrEmpty(ops, share).Err?
  {
    var sb :- ScaledOrEmpty(balances, share);
    if ReadsOperations(input, balances) then
      var so :- ScaledOrEmpty(ops, share);
      Ok(CumulativeSum(Seeded(sb, so)))
    else Ok(sb)
  }

  /** `get_account_balances` up to its yearly branch: the account's
      SortedDict before the yearly step. A
      missing account raises KeyError; an account that is not a dict has no
      `get` and raises AttributeError. */
  function Resolved(table: TypeTable, accounts: Dict, id: Key): (r: Result<Balances>)
    ensures id !in accounts ==> r == Err(KeyError)
    ensures id in accounts && !accounts[id].Obj? ==> r == Err(AttributeError)
    ensures id in accounts && accounts[id].Obj? && Setting(table, accounts, id).Ok? ==>
              var (share, input) := Setting(table, accounts, id).value;
              r == ResolveEntry(Held(accounts, id, "balances"), Held(accounts, id, "operations"), share, input)
    ensures id in accounts && accounts[id].Obj? && Setting(table, accounts, id).Err? ==> r.Err?
  {
    if id !in accounts then Err(KeyError)
    else if !accounts[id].Obj? then Err(AttributeError)
    else
      var (share, input) :- Setting(table, accounts, id);
      ResolveEntry(Held(accounts, id, "balances"), Held(accounts, id, "operations"), share, input)
  }

  /** `get_account_balances(accounts, account_id, yearly)`. */
  function AccountBalances(pchip: Pchip, table: TypeTable, accounts: Dict, id: Key, yearly: bool): (r: Result<Balances>)
    ensures !yearly ==> r == Resolved(table, accounts, id)
    ensures Resolved(table, accounts, id).Err? ==> r.Err?
    ensures yearly && Resolved(table, accounts, id).Ok? ==> r == Yearly(pchip, Resolved(table, accounts, id).value)
    ensures yearly && r.Ok? ==> forall d | d in r.value && FirstOfYear(d) == d :: r.value[d] == 0.0
  {
    var sb :- Resolved(table, accounts, id);
    if yearly then Yearly(pchip, sb) else Ok(sb)
  }

  // ---------------------------------------------------------------------
  // Examples

  /** Three dates in order are the key order of their SortedDict. */
  lemma SortedThree(a: CalDate, b: CalDate, c: CalDate)
    requires Before(a, b) && Before(b, c)
    ensures SortedDays({a, b, c}) == [a, b, c]
  {
    BeforeTransitive(a, b, c);
    var days := SortedDays({a, b, c});
    assert |{a, b, c}| == 3;
    assert Ascending([a, b, c]);
    AscendingUnique(days, [a, b, c]);
  }

  /** The sums of the amounts at the first one, two and three of three
      dates. */
  lemma PrefixThree(ops: Balances, a: CalDate, b: CalDate, c: CalDate)
    requires a in ops && b in ops && c in ops
    ensures Within([a, b, c], ops)
    ensures Prefix([a, b, c], ops, 1) == ops[a]
    ensures Prefix([a, b, c], ops, 2) == ops[a] + ops[b]
    ensures Prefix([a, b, c], ops, 3) == ops[a] + ops[b] + ops[c]
  {
    assert Prefix([a, b, c], ops, 1) == ops[a];
    assert Prefix([a, b, c], ops, 2) == ops[a] + ops[b];
  }

  /** The running sum at the `j`-th date of `days`, the sorted keys. */
  lemma CumulativeAt(ops: Balances, days: seq<CalDate>, j: nat)
    requires days == SortedDays(ops.Keys) && j < |days|
    ensures Within(days, ops) && days[j] in CumulativeSum(ops)
    ensures CumulativeSum(ops)[days[j]] == Prefix(days, ops, j + 1)
  {}

  /** The running sum of operations on three dates. */
  lemma {:induction false} CumulativeOfThree(ops: Balances, a: CalDate, b: CalDate, c: CalDate)
    requires Before(a, b) && Before(b, c) && ops.Keys == {a, b, c}
    ensures CumulativeSum(ops).Keys == {a, b, c}
    ensures CumulativeSum(ops)[a] == ops[a]
    ensures CumulativeSum(ops)[b] == ops[a] + ops[b]
    ensures CumulativeSum(ops)[c] == ops[a] + ops[b] + ops[c]
  {
    var days := [a, b, c];
    assert days == SortedDays(ops.Keys) by {
      SortedThree(a, b, c);
    }
    PrefixThree(ops, a, b, c);
    var r := CumulativeSum(ops);
    assert r[a] == ops[a] by {
      CumulativeAt(ops, days, 0);
    }
    assert r[b] == ops[a] + ops[b] by {
      CumulativeAt(ops, days, 1);
    }
    assert r[c] == ops[a] + ops[b] + ops[c] by {
      CumulativeAt(ops, days, 2);
    }
  }

  /** Three operations of 100000, 50000 and -150000 give the balances
      100000, 150000 and 0. */
  lemma RunningSumExample(ops: Balances, jan: CalDate, feb: CalDate, mar: CalDate)
    requires jan == Date(2020, 1, 1) && feb == Date(2020, 2, 1) && mar == Date(2020, 3, 1)
    requires ops.Keys == {jan, feb, mar}
    requires ops[jan] == 100000.0 && ops[feb] == 50000.0 && ops[mar] == -150000.0
    ensures CumulativeSum(ops).Keys == {jan, feb, mar}
    ensures CumulativeSum(ops)[jan] == 100000.0 && CumulativeSum(ops)[feb] == 150000.0
    ensures CumulativeSum(ops)[mar] == 0.0
  {
    CumulativeOfThree(ops, jan, feb, mar);
  }
}
