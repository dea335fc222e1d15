/** Field extraction of the package (`extract_pattern` and
    `parse_bank_extract` of aggregator/aggregate.py): each field is decoded
    from the text with the conf's patterns and templates, and the conf's
    pattern keys are consumed. */
module Extraction {
  import opened Results
  import opened Dates
  import opened Values
  import opened Template
  import opened Patterns

  /** Python's `\s` on str patterns: the characters `str.isspace` accepts. */
  predicate IsSpace(c: char) {
    || c == ' ' || ('\t' <= c <= '\r') || ('\U{1c}' <= c <= '\U{1f}')
    || c == '\U{85}' || c == '\U{a0}' || c == '\U{1680}'
    || ('\U{2000}' <= c <= '\U{200a}') || c == '\U{2028}' || c == '\U{2029}'
    || c == '\U{202f}' || c == '\U{205f}' || c == '\U{3000}'
  }

  /** The class `[\s,.]` whose runs `extract_pattern` deletes. */
  predicate IsSeparator(c: char) {
    IsSpace(c) || c == ',' || c == '.'
  }

  /** `s` with every character that `drop` accepts deleted; deleting every
      run of a class is the same as deleting each of its characters. */
  function Remove(s: string, drop: char -> bool): (r: string)
    ensures |r| <= |s|
    ensures forall i | 0 <= i < |r| :: !drop(r[i])
    ensures (forall i | 0 <= i < |s| :: !drop(s[i])) ==> r == s
    decreases |s|
  {
    if s == [] then []
    else (if drop(s[0]) then [] else [s[0]]) + Remove(s[1..], drop)
  }

  /** Deleting characters distributes over concatenation. */
  lemma {:induction false} RemoveAppend(a: string, b: string, drop: char -> bool)
    ensures Remove(a + b, drop) == Remove(a, drop) + Remove(b, drop)
    decreases |a|
  {
    if a != [] {
      assert (a + b)[0] == a[0];
      assert (a + b)[1..] == a[1..] + b;
      RemoveAppend(a[1..], b, drop);
    } else {
      assert a + b == b;
    }
  }

  /** `re.sub(r"[\s,.]+", '', s)`. */
  function CleanSeparators(s: string): string {
    Remove(s, IsSeparator)
  }

  /** Deleting the one dropped character after the first. */
  lemma RemoveSecond(a: char, b: char, tail: string, drop: char -> bool)
    requires !drop(a) && drop(b) && forall i | 0 <= i < |tail| :: !drop(tail[i])
    ensures Remove([a, b] + tail, drop) == [a] + tail
  {
    RemoveAppend([a, b], tail, drop);
    assert [a, b][1..] == [b] && [b][1..] == [];
  }

  lemma CleanExample()
    ensures CleanSeparators("1 234") == "1234"
    ensures CleanSeparators("56") == "56"
  {
    assert !IsSeparator('1') && IsSeparator(' ');
    assert !IsSeparator('2') && !IsSeparator('3') && !IsSeparator('4') && !IsSeparator('5') && !IsSeparator('6');
    RemoveSecond('1', ' ', "234", IsSeparator);
    assert ['1', ' '] + "234" == "1 234";
    assert ['1'] + "234" == "1234";
  }

  /** The last element of a non-empty sequence (`xs[-1]`). */
  function Last<T>(xs: seq<T>): T
    requires xs != []
  {
    xs[|xs| - 1]
  }

  /** `conf.get(key, default)` used as a template: only a string has a
      `format` method. */
  function TemplateOf(conf: Dict, key: string, default: string): (r: Result<string>)
    ensures Name(key) !in conf ==> r == Ok(default)
    ensures Name(key) in conf && conf[Name(key)].Str? ==> r == Ok(conf[Name(key)].s)
    ensures r.Err? <==> Name(key) in conf && !conf[Name(key)].Str?
  {
    match GetOr(conf, Name(key), Str(default))
    case Str(t) => Ok(t)
    case _ => Err(AttributeError)
  }

  /** `float(s)`; a string `float` rejects raises ValueError. */
  function ParseNumber(env: Env, s: string): (r: Result<real>)
    ensures r.Ok? <==> env.parseFloat(s).Some?
    ensures r.Ok? ==> r.value == env.parseFloat(s).value
  {
    match env.parseFloat(s)
    case Some(x) => Ok(x)
    case None => Err(ValueError)
  }

  /** `dateutil.parser.parse(s).date()`; its parse errors are ValueErrors. */
  function ParseDay(env: Env, s: string): (r: Result<CalDate>)
    ensures r.Ok? <==> env.parseDate(s).Some?
    ensures r.Ok? ==> r.value == env.parseDate(s).value
  {
    match env.parseDate(s)
    case Some(d) => Ok(d)
    case None => Err(ValueError)
  }

  /** The captured strings of one match with their separators deleted. */
  function CapturedValues(f: Found): seq<string> {
    var parts := Unpack(f);
    seq(|parts|, i requires 0 <= i < |parts| => CleanSeparators(parts[i]))
  }

  /** The amount held by the last match: cleaned groups, formatted with the
      conf's `<name>-value` template or the guessed one, parsed as a float. */
  function AmountOf(env: Env, name: string, conf: Dict, last: Found): Result<real> {
    var values := CapturedValues(last);
    var template :- TemplateOf(conf, name + "-value", DefaultAmountTemplate(|values|));
    var s :- Format(template, values);
    ParseNumber(env, s)
  }

  /** The value `extract_pattern` returns for field `name`: None when the
      pattern finds nothing, else the amount of the last match. */
  function Amount(env: Env, name: string, conf: Dict, text: string): (r: Result<Option<real>>)
    ensures r == Ok(None) <==> FindAll(env, GetOr(conf, Name(name + "-pattern"), Null), text) == Ok(None)
    ensures Name(name + "-pattern") !in conf ==> r == Err(TypeError)
  {
    BarePattern(env, Null, text);
    var found :- FindAll(env, GetOr(conf, Name(name + "-pattern"), Null), text);
    if found.None? then Ok(None)
    else
      var x :- AmountOf(env, name, conf, Last(found.value));
      Ok(Some(x))
  }

  datatype Extracted = Extracted(amount: Option<real>, data: Dict)

  /** `extract_pattern(name, conf, text, data)`: whatever it finds, it
      removes `<name>-pattern` and `<name>-value` from `data` and nothing
      else. */
  function ExtractPattern(env: Env, name: string, conf: Dict, text: string, data: Dict): (r: Result<Extracted>)
    ensures r.Ok? <==> Amount(env, name, conf, text).Ok?
    ensures r.Ok? ==> r.value.amount == Amount(env, name, conf, text).value
    ensures r.Ok? ==> forall k :: k in r.value.data <==> k in data && k != Name(name + "-pattern") && k != Name(name + "-value")
    ensures r.Ok? ==> forall k | k in r.value.data :: r.value.data[k] == data[k]
  {
    var amount :- Amount(env, name, conf, text);
    Ok(Extracted(amount, Pop(Pop(data, Name(name + "-pattern")), Name(name + "-value"))))
  }

  /** Only the last match matters: two texts whose last matches agree give
      the same amount. */
  lemma OnlyLastMatchCounts(env: Env, name: string, conf: Dict, text: string, text': string)
    requires FindAll(env, GetOr(conf, Name(name + "-pattern"), Null), text).Ok?
    requires FindAll(env, GetOr(conf, Name(name + "-pattern"), Null), text').Ok?
    requires FindAll(env, GetOr(conf, Name(name + "-pattern"), Null), text).value.Some?
    requires FindAll(env, GetOr(conf, Name(name + "-pattern"), Null), text').value.Some?
    requires Last(FindAll(env, GetOr(conf, Name(name + "-pattern"), Null), text).value.value)
          == Last(FindAll(env, GetOr(conf, Name(name + "-pattern"), Null), text').value.value)
    ensures Amount(env, name, conf, text) == Amount(env, name, conf, text')
  {}

  /** With several groups and no `<name>-value`, the float parsed is the
      cleaned groups joined, with a point before the last one. */
  lemma {:induction false} GuessedAmount(env: Env, name: string, conf: Dict, gs: seq<string>)
    requires |gs| > 1 && Name(name + "-value") !in conf
    ensures var cleaned := CapturedValues(Groups(gs));
            AmountOf(env, name, conf, Groups(gs))
              == ParseNumber(env, Concat(cleaned[..|gs| - 1]) + "." + CleanSeparators(gs[|gs| - 1]))
  {
    var cleaned := CapturedValues(Groups(gs));
    var n := |gs|;
    assert |cleaned| == n;
    var template := DefaultAmountTemplate(n);
    assert TemplateOf(conf, name + "-value", template) == Ok(template);
    DefaultAmountFormat(cleaned);
    assert cleaned[n - 1] == CleanSeparators(gs[n - 1]);
    var s := Concat(cleaned[..n - 1]) + "." + CleanSeparators(gs[n - 1]);
    assert Format(template, cleaned) == Ok(s);
  }

  /** ("1 234", "56") becomes 1234.56. */
  lemma AmountExample(env: Env, name: string, conf: Dict)
    requires Name(name + "-value") !in conf
    requires env.parseFloat("1234.56") == Some(1234.56)
    ensures AmountOf(env, name, conf, Groups(["1 234", "56"])) == Ok(1234.56)
  {
    var gs := ["1 234", "56"];
    GuessedAmount(env, name, conf, gs);
    var cleaned := CapturedValues(Groups(gs));
    CleanExample();
    assert cleaned == ["1234", "56"];
    assert cleaned[..1] == ["1234"];
    assert Concat(["1234"]) == "1234" + Concat([]);
    assert Concat(cleaned[..1]) + "." + CleanSeparators(gs[1]) == "1234.56";
  }

  /** Concatenating the one-character strings of `s` gives `s` back. */
  lemma {:induction false} ConcatChars(s: string)
    ensures Concat(seq(|s|, i requires 0 <= i < |s| => [s[i]])) == s
    decreases |s|
  {
    var parts := seq(|s|, i requires 0 <= i < |s| => [s[i]]);
    if s != [] {
      assert parts[1..] == seq(|s[1..]|, i requires 0 <= i < |s[1..]| => [s[1..][i]]);
      ConcatChars(s[1..]);
      assert s == [s[0]] + s[1..];
    }
  }

  /** A single-group pattern yields plain strings, which the extractor
      iterates character by character: without a template, the last
      character becomes the fraction. */
  lemma {:induction false} SingleGroupSplitsCharacters(env: Env, name: string, conf: Dict, s: string)
    requires |s| > 1 && Name(name + "-value") !in conf
    requires forall i | 0 <= i < |s| :: '0' <= s[i] <= '9'
    ensures AmountOf(env, name, conf, Whole(s)) == ParseNumber(env, s[..|s| - 1] + "." + [s[|s| - 1]])
  {
    var cleaned := CapturedValues(Whole(s));
    var n := |s|;
    assert forall i | 0 <= i < n :: cleaned[i] == [s[i]] by {
      forall i | 0 <= i < n ensures cleaned[i] == [s[i]] {
        assert Unpack(Whole(s))[i] == [s[i]];
        assert Remove([s[i]][1..], IsSeparator) == [];
      }
    }
    DefaultAmountFormat(cleaned);
    assert cleaned[..n - 1] == seq(|s[..n - 1]|, i requires 0 <= i < |s[..n - 1]| => [s[..n - 1][i]]);
    ConcatChars(s[..n - 1]);
  }

  /** "1234" captured by a single group becomes 123.4. */
  lemma SingleGroupExample(env: Env, name: string, conf: Dict)
    requires Name(name + "-value") !in conf
    ensures AmountOf(env, name, conf, Whole("1234")) == ParseNumber(env, "123.4")
  {
    SingleGroupSplitsCharacters(env, name, conf, "1234");
    assert "1234"[..3] + "." + ['4'] == "123.4";
  }

  /** The keys `extract_pattern` builds from a field name, spelled out. */
  lemma KeySpelling()
    ensures "balance" + "-pattern" == "balance-pattern" && "balance" + "-value" == "balance-value"
    ensures "credit" + "-pattern" == "credit-pattern" && "credit" + "-value" == "credit-value"
    ensures "debit" + "-pattern" == "debit-pattern" && "debit" + "-value" == "debit-value"
    ensures "operation" + "-pattern" == "operation-pattern" && "operation" + "-value" == "operation-value"
  {}

  /** Keys each step may remove, replace or add. */
  const AccountKeys: set<Key> := {Name("account-pattern"), Name("account-value"), Name("account")}
  const AmountKeys: set<Key> := {
    Name("balance-pattern"), Name("balance-value"), Name("credit-pattern"), Name("credit-value"),
    Name("debit-pattern"), Name("debit-value"), Name("balance")}
  const OperationKeys: set<Key> := {Name("operation-pattern"), Name("operation-value"), Name("operation")}
  const DateKeys: set<Key> := {Name("date-pattern"), Name("date-value"), Name("date")}

  /** `d` and `e` agree on every key outside `touched`. */
  ghost predicate SameOutside(d: Dict, e: Dict, touched: set<Key>) {
    forall k | k !in touched :: (k in d <==> k in e) && (k in d ==> d[k] == e[k])
  }

  lemma Outside(d: Dict, e: Dict, touched: set<Key>, k: Key)
    requires SameOutside(d, e, touched) && k !in touched
    ensures k in d <==> k in e
    ensures k in d ==> d[k] == e[k]
  {}

  /** The `account-pattern` block of `parse_bank_extract`: the first match of
      `account-pattern`, formatted with `account-value` (default "{}"). */
  function AccountStage(env: Env, conf: Dict, text: string, data: Dict): (r: Result<Dict>)
    ensures Name("account-pattern") !in conf ==> r == Ok(data)
    ensures r.Ok? ==> SameOutside(r.value, data, AccountKeys)
    ensures r.Ok? && Name("account-pattern") in conf ==>
              && Name("account-pattern") !in r.value && Name("account-value") !in r.value
              && (Name("account") in r.value <==> Name("account") in data || Search(env, conf[Name("account-pattern")], text) != Ok(None))
  {
    if Name("account-pattern") !in conf then Ok(data)
    else
      var m :- Search(env, conf[Name("account-pattern")], text);
      var named :-
        if m.None? then Ok(data)
        else
          var template :- TemplateOf(conf, "account-value", "{}");
          var account :- Format(template, m.value);
          Ok(data[Name("account") := Str(account)]);
      Ok(Pop(Pop(named, Name("account-pattern")), Name("account-value")))
  }

  /** Without `account-value`, the account is the first group of the
      match; a pattern without groups leaves "{}" nothing to format. */
  lemma AccountFromFirstGroup(env: Env, conf: Dict, text: string, data: Dict, groups: seq<string>)
    requires Name("account-pattern") in conf && Name("account-value") !in conf
    requires Search(env, conf[Name("account-pattern")], text) == Ok(Some(groups))
    ensures groups == [] ==> AccountStage(env, conf, text, data) == Err(IndexError)
    ensures groups != [] ==>
              && AccountStage(env, conf, text, data).Ok?
              && AccountStage(env, conf, text, data).value[Name("account")] == Str(groups[0])
  {
    FormatSingleField(groups);
  }

  /** The `balance-pattern`/`credit-pattern` block of `parse_bank_extract`:
      `balance-pattern` wins over
      `credit-pattern`; a credit is stored as it is, a debit negated, and
      the debit is tried only when the credit found nothing. */
  function AmountStage(env: Env, conf: Dict, text: string, data: Dict): (r: Result<Dict>)
    ensures r.Ok? ==> SameOutside(r.value, data, AmountKeys)
    ensures Name("balance-pattern") !in conf && Name("credit-pattern") !in conf ==> r == Ok(data)
  {
    KeySpelling();
    if Name("balance-pattern") in conf then
      var e :- ExtractPattern(env, "balance", conf, text, data);
      Ok(if e.amount.Some? then e.data[Name("balance") := Num(e.amount.value)] else e.data)
    else if Name("credit-pattern") in conf then
      var credit :- ExtractPattern(env, "credit", conf, text, data);
      if credit.amount.Some? then
        var d := credit.data[Name("balance") := Num(credit.amount.value)];
        Ok(Pop(Pop(d, Name("debit-pattern")), Name("debit-value")))
      else if Name("debit-pattern") in conf then
        var debit :- ExtractPattern(env, "debit", conf, text, credit.data);
        if debit.amount.Some? then
          var d := debit.data[Name("balance") := Num(-debit.amount.value)];
          Ok(Pop(Pop(d, Name("credit-pattern")), Name("credit-value")))
        else Ok(debit.data)
      else Ok(credit.data)
    else Ok(data)
  }

  /** With `balance-pattern`, the balance is what that pattern finds and
      credit and debit are ignored. */
  lemma BalanceWins(env: Env, conf: Dict, text: string, data: Dict)
    requires Name("balance-pattern") in conf
    ensures var b := Amount(env, "balance", conf, text);
            var r := AmountStage(env, conf, text, data);
            && (r.Ok? <==> b.Ok?)
            && (b.Ok? && b.value.Some? ==> r.value[Name("balance")] == Num(b.value.value))
            && (b == Ok(None) ==> (Name("balance") in r.value <==> Name("balance") in data))
            && (r.Ok? ==> Name("balance-pattern") !in r.value && Name("balance-value") !in r.value)
  {
    KeySpelling();
  }

  /** Without `balance-pattern`, a credit found is stored as the balance,
      and the debit keys are dropped unread. */
  lemma CreditStored(env: Env, conf: Dict, text: string, data: Dict)
    requires Name("balance-pattern") !in conf && Name("credit-pattern") in conf
    requires Amount(env, "credit", conf, text).Ok? && Amount(env, "credit", conf, text).value.Some?
    ensures var r := AmountStage(env, conf, text, data);
            && r.Ok?
            && r.value[Name("balance")] == Num(Amount(env, "credit", conf, text).value.value)
            && Name("debit-pattern") !in r.value && Name("debit-value") !in r.value
            && Name("credit-pattern") !in r.value && Name("credit-value") !in r.value
  {
    KeySpelling();
  }

  /** When the credit finds nothing, the debit is tried and stored negated. */
  lemma DebitNegated(env: Env, conf: Dict, text: string, data: Dict)
    requires Name("balance-pattern") !in conf && Name("credit-pattern") in conf && Name("debit-pattern") in conf
    requires Amount(env, "credit", conf, text) == Ok(None)
    ensures var d := Amount(env, "debit", conf, text);
            var r := AmountStage(env, conf, text, data);
            && (r.Ok? <==> d.Ok?)
            && (d.Ok? && d.value.Some? ==> r.value[Name("balance")] == Num(-d.value.value))
            && (d == Ok(None) ==> (Name("balance") in r.value <==> Name("balance") in data))
            && (r.Ok? ==> Name("debit-pattern") !in r.value && Name("debit-value") !in r.value)
            && (r.Ok? ==> Name("credit-pattern") !in r.value && Name("credit-value") !in r.value)
  {
    KeySpelling();
  }

  /** `extract_pattern` for a field stored under its own name. */
  function OperationStage(env: Env, conf: Dict, text: string, data: Dict): (r: Result<Dict>)
    ensures r.Ok? ==> SameOutside(r.value, data, OperationKeys)
    ensures Name("operation-pattern") !in conf ==> r == Ok(data)
    ensures Name("operation-pattern") in conf ==>
      var o := Amount(env, "operation", conf, text);
      && (r.Ok? <==> o.Ok?)
      && (o.Ok? && o.value.Some? ==> r.Ok? && Name("operation") in r.value && r.value[Name("operation")] == Num(o.value.value))
      && (r.Ok? ==> Name("operation-pattern") !in r.value && Name("operation-value") !in r.value)
  {
    KeySpelling();
    if Name("operation-pattern") in conf then
      var e :- ExtractPattern(env, "operation", conf, text, data);
      Ok(if e.amount.Some? then e.data[Name("operation") := Num(e.amount.value)] else e.data)
    else Ok(data)
  }

  /** The `date-pattern` block of `parse_bank_extract`: the last match, formatted with
      `date-value` (default "{2}-{1}-{0}"), parsed as a date. */
  function DateStage(env: Env, conf: Dict, text: string, data: Dict): (r: Result<Dict>)
    ensures r.Ok? ==> SameOutside(r.value, data, DateKeys)
    ensures Name("date-pattern") !in conf ==> r == Ok(data)
    ensures r.Ok? && Name("date-pattern") in conf ==>
      && Name("date-pattern") !in r.value && Name("date-value") !in r.value
      && (Name("date") in r.value <==> Name("date") in data || FindAll(env, conf[Name("date-pattern")], text) != Ok(None))
  {
    if Name("date-pattern") !in conf then Ok(data)
    else
      var found :- FindAll(env, conf[Name("date-pattern")], text);
      var dated :-
        if found.None? then Ok(data)
        else
          var template :- TemplateOf(conf, "date-value", "{2}-{1}-{0}");
          var s :- Format(template, Unpack(Last(found.value)));
          var day :- ParseDay(env, s);
          Ok(data[Name("date") := DateValue(day)]);
      Ok(Pop(Pop(dated, Name("date-pattern")), Name("date-value")))
  }

  /** Day, month and year groups of the last match give the date parsed
      from "year-month-day". */
  lemma DateFromLastMatch(env: Env, conf: Dict, text: string, data: Dict, matches: seq<Found>, d: string, m: string, y: string)
    requires Name("date-pattern") in conf && Name("date-value") !in conf
    requires FindAll(env, conf[Name("date-pattern")], text) == Ok(Some(matches))
    requires matches != [] && Last(matches) == Groups([d, m, y])
    ensures var r := DateStage(env, conf, text, data);
            && (r.Ok? <==> env.parseDate(y + "-" + m + "-" + d).Some?)
            && (r.Ok? ==> r.value[Name("date")] == DateValue(env.parseDate(y + "-" + m + "-" + d).value))
  {
    FormatReversedDate([d, m, y]);
  }

  /** `parse_bank_extract(text, conf)`: a copy of the conf without
      `bank-pattern`, passed through the four steps in order. */
  function ParseBankExtract(env: Env, conf: Dict, text: string): Result<Dict> {
    var data := Pop(conf, Name("bank-pattern"));
    var a :- AccountStage(env, conf, text, data);
    var b :- AmountStage(env, conf, text, a);
    var c :- OperationStage(env, conf, text, b);
    DateStage(env, conf, text, c)
  }

  /** Keys of the conf that no step touches reach the record unchanged. */
  lemma ParseBankExtractKeepsOtherKeys(env: Env, conf: Dict, text: string, k: Key)
    requires ParseBankExtract(env, conf, text).Ok?
    requires k != Name("bank-pattern")
    requires k !in AccountKeys + AmountKeys + OperationKeys + DateKeys
    ensures k in ParseBankExtract(env, conf, text).value <==> k in conf
    ensures k in conf ==> ParseBankExtract(env, conf, text).value[k] == conf[k]
  {
    var data := Pop(conf, Name("bank-pattern"));
    var a := AccountStage(env, conf, text, data).value;
    var b := AmountStage(env, conf, text, a).value;
    var c := OperationStage(env, conf, text, b).value;
    assert k in a <==> k in data;
    assert k in b <==> k in a;
    assert k in c <==> k in b;
  }

  /** A key no step touches keeps its presence and value through all
      four steps. */
  lemma ThroughSteps(data: Dict, a: Dict, b: Dict, c: Dict, r: Dict, k: Key, from: nat)
    requires from <= 3
    requires from <= 0 ==> SameOutside(a, data, AccountKeys) && k !in AccountKeys
    requires from <= 1 ==> SameOutside(b, a, AmountKeys) && k !in AmountKeys
    requires from <= 2 ==> SameOutside(c, b, OperationKeys) && k !in OperationKeys
    requires SameOutside(r, c, DateKeys) && k !in DateKeys
    ensures from == 0 ==> (k in r <==> k in data)
    ensures from == 1 ==> (k in r <==> k in a)
    ensures from == 2 ==> (k in r <==> k in b)
    ensures from == 3 ==> (k in r <==> k in c)
  {
    Outside(r, c, DateKeys, k);
    if from <= 2 { Outside(c, b, OperationKeys, k); }
    if from <= 1 { Outside(b, a, AmountKeys, k); }
    if from == 0 { Outside(a, data, AccountKeys, k); }
  }

  /** `bank-pattern` is always dropped, and every pattern key of a step
      that runs is consumed. */
  lemma ParseBankExtractConsumesPatterns(env: Env, conf: Dict, text: string)
    requires ParseBankExtract(env, conf, text).Ok?
    ensures var r := ParseBankExtract(env, conf, text).value;
      && Name("bank-pattern") !in r
      && (Name("account-pattern") in conf ==> Name("account-pattern") !in r && Name("account-value") !in r)
      && (Name("balance-pattern") in conf ==> Name("balance-pattern") !in r && Name("balance-value") !in r)
      && (Name("operation-pattern") in conf ==> Name("operation-pattern") !in r && Name("operation-value") !in r)
      && (Name("date-pattern") in conf ==> Name("date-pattern") !in r && Name("date-value") !in r)
  {
    var data := Pop(conf, Name("bank-pattern"));
    var a := AccountStage(env, conf, text, data).value;
    var b := AmountStage(env, conf, text, a).value;
    var c := OperationStage(env, conf, text, b).value;
    var r := DateStage(env, conf, text, c).value;
    ThroughSteps(data, a, b, c, r, Name("bank-pattern"), 0);
    ThroughSteps(data, a, b, c, r, Name("account-pattern"), 1);
    ThroughSteps(data, a, b, c, r, Name("account-value"), 1);
    if Name("balance-pattern") in conf {
      BalanceWins(env, conf, text, a);
    }
    ThroughSteps(data, a, b, c, r, Name("balance-pattern"), 2);
    ThroughSteps(data, a, b, c, r, Name("balance-value"), 2);
    ThroughSteps(data, a, b, c, r, Name("operation-pattern"), 3);
    ThroughSteps(data, a, b, c, r, Name("operation-value"), 3);
  }
}
