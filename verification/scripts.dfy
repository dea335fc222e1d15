/** What the two root-level scripts, aggregate.py and
    aggregate_accounts.py, share: the first-match conf search and the older
    `parse_bank_extract` body (whitespace-stripped account, "{}.{}"
    balances, comma-to-dot credits, no operations), and the balance-only
    ledger write. */
module Scripts {
  import opened Results
  import opened Values
  import opened Patterns
  import opened Template
  import opened Matching
  import opened Extraction
  import opened Ledger

  /** `all(searches)` for a conf: every mandatory pattern it defines is
      found in the text. */
  predicate Fits(env: Env, text: string, conf: Dict) {
    AllFound(env, conf, text, MandatoryPatterns) == Ok(true)
  }

  /** The index of the first `Ok(true)` of a sequence of tries, every try
      before it giving `Ok(false)`; the first error ends the search. */
  function FirstFit(tries: seq<Result<bool>>): (r: Result<Option<nat>>)
    ensures r == Ok(None) <==> forall i | 0 <= i < |tries| :: tries[i] == Ok(false)
    ensures r.Ok? && r.value.Some? ==>
              && r.value.value < |tries| && tries[r.value.value] == Ok(true)
              && forall j | 0 <= j < r.value.value :: tries[j] == Ok(false)
    ensures r.Err? ==>
              exists i | 0 <= i < |tries| :: tries[i].Err? && forall j | 0 <= j < i :: tries[j] == Ok(false)
    decreases |tries|
  {
    if tries == [] then Ok(None)
    else
      var fits :- tries[0];
      if fits then Ok(Some(0))
      else
        var r := FirstFit(tries[1..]);
        assert forall i | 1 <= i < |tries| :: tries[i] == tries[1..][i - 1];
        match r
        case Ok(None) => Ok(None)
        case Ok(Some(i)) => Ok(Some(i + 1))
        case Err(e) =>
          assert exists i | 1 <= i < |tries| :: tries[i].Err? && forall j | 0 <= j < i :: tries[j] == Ok(false);
          Err(e)
  }

  /** The searches of each conf, `all(searches)`, in order. */
  function Tries(env: Env, text: string, confs: seq<Dict>): (r: seq<Result<bool>>)
    ensures |r| == |confs| && forall i | 0 <= i < |confs| :: r[i] == AllFound(env, confs[i], text, MandatoryPatterns)
  {
    seq(|confs|, i requires 0 <= i < |confs| => AllFound(env, confs[i], text, MandatoryPatterns))
  }

  /** The conf loop of `find_conf` over the confs of one file: the first
      conf that fits. The guard on "bank-name" never skips a conf; the
      searches of every conf tried run, so a raising search ends the loop. */
  function FirstConf(env: Env, text: string, confs: seq<Dict>): (r: Result<Option<Dict>>)
    ensures r == Ok(None) <==> forall i | 0 <= i < |confs| :: AllFound(env, confs[i], text, MandatoryPatterns) == Ok(false)
    ensures r.Ok? && r.value.Some? ==>
              exists i | 0 <= i < |confs| ::
                && confs[i] == r.value.value && Fits(env, text, confs[i])
                && forall j | 0 <= j < i :: AllFound(env, confs[j], text, MandatoryPatterns) == Ok(false)
    ensures r.Err? ==>
              exists i | 0 <= i < |confs| ::
                && AllFound(env, confs[i], text, MandatoryPatterns).Err?
                && forall j | 0 <= j < i :: AllFound(env, confs[j], text, MandatoryPatterns) == Ok(false)
  {
    var tries := Tries(env, text, confs);
    var i :- FirstFit(tries);
    if i.None? then Ok(None) else Ok(Some(confs[i.value]))
  }

  /** The file loop of `find_conf`: the first fitting conf in file-then-key
      order. A file whose JSON failed to decode raises AttributeError when
      it is reached. */
  function FirstConfIn(env: Env, text: string, files: seq<ConfFile>): (r: Result<Option<Dict>>)
    ensures r.Ok? && r.value.Some? ==> r.value.value in AllConfs(files) && Fits(env, text, r.value.value)
    ensures r == Ok(None) ==>
              && (forall f | f in files :: f.Parsed?)
              && forall c | c in AllConfs(files) :: AllFound(env, c, text, MandatoryPatterns) == Ok(false)
    ensures files != [] && files[0].Unreadable? ==> r == Err(AttributeError)
    ensures files != [] && files[0].Parsed? && FirstConf(env, text, files[0].confs).Ok? ==>
              (FirstConf(env, text, files[0].confs).value.Some? ==> r == FirstConf(env, text, files[0].confs))
    decreases |files|
  {
    if files == [] then Ok(None)
    else if files[0].Unreadable? then Err(AttributeError)
    else
      var here :- FirstConf(env, text, files[0].confs);
      if here.Some? then Ok(here)
      else
        var r := FirstConfIn(env, text, files[1..]);
        assert forall f | f in files :: f == files[0] || f in files[1..];
        assert forall c | c in files[0].confs :: exists i | 0 <= i < |files[0].confs| :: files[0].confs[i] == c;
        r
  }

  /** Files that are read and hold no fitting conf are passed over: the
      search goes on with the files after them. */
  lemma {:induction false} FirstConfInSkips(env: Env, text: string, files: seq<ConfFile>, k: nat)
    requires k <= |files|
    requires forall j | 0 <= j < k :: files[j].Parsed? && FirstConf(env, text, files[j].confs) == Ok(None)
    ensures FirstConfIn(env, text, files) == FirstConfIn(env, text, files[k..])
    decreases k
  {
    if k > 0 {
      FirstConfInSkips(env, text, files[1..], k - 1);
      assert files[1..][k - 1..] == files[k..];
    }
  }

  /** The first file that is unreadable or holds a fit decides: it raises
      AttributeError, or gives the first fitting conf of its own, or the
      error of its own searches. */
  lemma FirstConfInAt(env: Env, text: string, files: seq<ConfFile>, k: nat)
    requires k < |files|
    requires forall j | 0 <= j < k :: files[j].Parsed? && FirstConf(env, text, files[j].confs) == Ok(None)
    ensures files[k].Unreadable? ==> FirstConfIn(env, text, files) == Err(AttributeError)
    ensures files[k].Parsed? && FirstConf(env, text, files[k].confs) != Ok(None) ==>
              FirstConfIn(env, text, files) == FirstConf(env, text, files[k].confs)
  {
    FirstConfInSkips(env, text, files, k);
    assert files[k..][0] == files[k];
  }

  /** Every file read and no conf fitting: `find_conf` finds nothing. With
      the contract of `FirstConfIn`, None means exactly this. */
  lemma NoFitMeansNone(env: Env, text: string, files: seq<ConfFile>)
    requires forall f | f in files :: f.Parsed?
    requires forall c | c in AllConfs(files) :: AllFound(env, c, text, MandatoryPatterns) == Ok(false)
    ensures FirstConfIn(env, text, files) == Ok(None)
  {
    forall j | 0 <= j < |files|
      ensures files[j].Parsed? && FirstConf(env, text, files[j].confs) == Ok(None)
    {
      assert files[j] in files;
      forall i | 0 <= i < |files[j].confs|
        ensures AllFound(env, files[j].confs[i], text, MandatoryPatterns) == Ok(false)
      {
        assert files[j].confs[i] in files[j].confs;
      }
    }
    FirstConfInSkips(env, text, files, |files|);
    assert files[|files|..] == [];
  }

  /** `s.replace(a, b)` for single characters. */
  function ReplaceChar(s: string, a: char, b: char): (r: string)
    ensures |r| == |s|
    ensures forall i | 0 <= i < |s| :: r[i] == (if s[i] == a then b else s[i])
  {
    seq(|s|, i requires 0 <= i < |s| => if s[i] == a then b else s[i])
  }

  /** The account step of the scripts (aggregate.py:114-121): the first
      match formatted with `account-value`, then every whitespace run of
      `data['account']` deleted. A conf whose account pattern finds nothing
      and that has no `account` key raises KeyError; a non-string account
      makes `re.sub` raise TypeError. */
  function StrippedAccountStage(env: Env, conf: Dict, text: string, data: Dict): (r: Result<Dict>)
    ensures Name("account-pattern") !in conf ==> r == Ok(data)
    ensures r.Ok? ==> SameOutside(r.value, data, AccountKeys)
    ensures r.Ok? && Name("account-pattern") in conf ==>
              && Name("account-pattern") !in r.value && Name("account-value") !in r.value
              && Name("account") in r.value && r.value[Name("account")].Str?
              && forall i | 0 <= i < |r.value[Name("account")].s| :: !IsSpace(r.value[Name("account")].s[i])
    ensures Name("account-pattern") in conf && Search(env, conf[Name("account-pattern")], text) == Ok(None) ==>
              (Name("account") !in data ==> r == Err(KeyError))
  {
    if Name("account-pattern") !in conf then Ok(data)
    else
      var m :- Search(env, conf[Name("account-pattern")], text);
      var named :-
        if m.None? then Ok(data)
        else
          var template :- TemplateOf(conf, "account-value", "{}");
          var account :- Format(template, m.value);
          Ok(data[Name("account") := Str(account)]);
      if Name("account") !in named then Err(KeyError)
      else if !named[Name("account")].Str? then Err(TypeError)
      else
        var stripped := named[Name("account") := Str(Remove(named[Name("account")].s, IsSpace))];
        Ok(Pop(Pop(stripped, Name("account-pattern")), Name("account-value")))
  }

  /** The amount of a credit or debit match (aggregate.py:136 and 140):
      whitespace deleted, ',' turned into '.', parsed. A match of several
      groups is a tuple, on which `re.sub` raises TypeError. */
  function CreditAmount(env: Env, last: Found): (r: Result<real>)
    ensures last.Groups? ==> r == Err(TypeError)
    ensures last.Whole? ==> r == ParseNumber(env, ReplaceChar(Remove(last.text, IsSpace), ',', '.'))
  {
    match last
    case Groups(_) => Err(TypeError)
    case Whole(s) => ParseNumber(env, ReplaceChar(Remove(s, IsSpace), ',', '.'))
  }

  /** The amount of a balance match (aggregate.py:125-128): the groups of
      the last match (the characters of a lone string) formatted with
      `balance-value` (default "{}.{}"), whitespace deleted, parsed. */
  function BalanceAmount(env: Env, conf: Dict, last: Found): Result<real> {
    var template :- TemplateOf(conf, "balance-value", "{}.{}");
    var s :- Format(template, Unpack(last));
    ParseNumber(env, Remove(s, IsSpace))
  }

  /** `data` without the four credit and debit keys. */
  function DropCreditDebit(data: Dict): (r: Dict)
    ensures forall k :: k in r <==> k in data && k !in {Name("credit-pattern"), Name("credit-value"), Name("debit-pattern"), Name("debit-value")}
    ensures forall k | k in r :: r[k] == data[k]
  {
    data - {Name("credit-pattern"), Name("credit-value"), Name("debit-pattern"), Name("debit-value")}
  }

  /** The amount step of the scripts (aggregate.py:124-148). */
  function ScriptAmountStage(env: Env, conf: Dict, text: string, data: Dict): (r: Result<Dict>)
    ensures r.Ok? ==> SameOutside(r.value, data, AmountKeys)
    ensures Name("balance-pattern") !in conf && Name("credit-pattern") !in conf ==> r == Ok(data)
    ensures r.Ok? && Name("balance-pattern") in conf ==>
              Name("balance-pattern") !in r.value && Name("balance-value") !in r.value
    ensures r.Ok? && Name("balance-pattern") !in conf && Name("credit-pattern") in conf ==>
              && Name("credit-pattern") !in r.value && Name("credit-value") !in r.value
              && Name("debit-pattern") !in r.value && Name("debit-value") !in r.value
  {
    if Name("balance-pattern") in conf then
      var found :- FindAll(env, conf[Name("balance-pattern")], text);
      var d :-
        if found.None? then Ok(data)
        else
          var x :- BalanceAmount(env, conf, Last(found.value));
          Ok(data[Name("balance") := Num(x)]);
      Ok(Pop(Pop(d, Name("balance-pattern")), Name("balance-value")))
    else if Name("credit-pattern") in conf then
      var credit :- FindAll(env, conf[Name("credit-pattern")], text);
      var d :-
        if credit.Some? then
          var x :- CreditAmount(env, Last(credit.value));
          Ok(data[Name("balance") := Num(x)])
        else if Name("debit-pattern") in conf then
          var debit :- FindAll(env, conf[Name("debit-pattern")], text);
          if debit.Some? then
            var x :- CreditAmount(env, Last(debit.value));
            Ok(data[Name("balance") := Num(-x)])
          else Ok(data)
        else Ok(data);
      Ok(DropCreditDebit(d))
    else Ok(data)
  }

  /** `parse_bank_extract` of the scripts: `bank-pattern` dropped, then
      account, amount and date; no operation step. */
  function ScriptParseBankExtract(env: Env, conf: Dict, text: string): Result<Dict> {
    var data := Pop(conf, Name("bank-pattern"));
    var a :- StrippedAccountStage(env, conf, text, data);
    var b :- ScriptAmountStage(env, conf, text, a);
    DateStage(env, conf, text, b)
  }

  /** The ledger write of the scripts (aggregate.py:176-186): only a
      record with both a date and a balance is stored, under
      `bank-name-account`; its other keys go into the account's metadata.
      Operations are never recorded. */
  function RecordBalance(accounts: Dict, data: Dict): (r: Result<Dict>)
    ensures !(Name("date") in data && Name("balance") in data) ==> r == Ok(accounts)
    ensures Name("date") in data && Name("balance") in data ==>
              (r.Err? <==> AccountId(data).Err? || DateKey(data[Name("date")]).Err?)
    ensures r.Ok? && Shaped(accounts) ==> Shaped(r.value)
    ensures r.Ok? && Name("date") in data && Name("balance") in data ==>
              && r.value.Keys == accounts.Keys + {Name(AccountId(data).value)}
              && Entry(r.value, AccountId(data).value).Keys
                 == Entry(accounts, AccountId(data).value).Keys + {Name("balances"), Name("account")}
  {
    if !(Name("date") in data && Name("balance") in data) then Ok(accounts)
    else
      var id :- AccountId(data);
      var metadata := Section(accounts, id, "account");
      var key :- DateKey(data[Name("date")]);
      var written := WriteCell(accounts, id, "balances", key, data[Name("balance")]);
      Ok(SetSection(written, id, "account", Assign(metadata, data - {Name("date"), Name("balance")})))
  }

  /** Without `balance-value`, a balance match of two groups reads as
      "integer.fraction" with whitespace deleted; fewer groups raise
      IndexError, and a lone string is split into its characters. */
  lemma BalanceDefaultTemplate(env: Env, conf: Dict, last: Found)
    requires Name("balance-value") !in conf
    ensures var args := Unpack(last);
            BalanceAmount(env, conf, last)
              == if |args| < 2 then Err(IndexError) else ParseNumber(env, Remove(args[0] + "." + args[1], IsSpace))
  {
    FormatPointPair(Unpack(last));
  }

  /** With `balance-pattern`, the balance is the amount of its last match
      and the credit and debit patterns are not looked at. */
  lemma ScriptBalanceWins(env: Env, conf: Dict, text: string, data: Dict, matches: seq<Found>)
    requires Name("balance-pattern") in conf
    requires FindAll(env, conf[Name("balance-pattern")], text) == Ok(Some(matches))
    ensures matches != []
    ensures var r, b := ScriptAmountStage(env, conf, text, data), BalanceAmount(env, conf, Last(matches));
            && (r.Ok? <==> b.Ok?)
            && (r.Ok? ==> r.value[Name("balance")] == Num(b.value))
  {}

  /** Without `balance-pattern`, a credit found is the balance, whatever
      the debit pattern would find. */
  lemma ScriptCreditStored(env: Env, conf: Dict, text: string, data: Dict, matches: seq<Found>)
    requires Name("balance-pattern") !in conf && Name("credit-pattern") in conf
    requires FindAll(env, conf[Name("credit-pattern")], text) == Ok(Some(matches))
    ensures matches != []
    ensures var r, c := ScriptAmountStage(env, conf, text, data), CreditAmount(env, Last(matches));
            && (r.Ok? <==> c.Ok?)
            && (r.Ok? ==> r.value[Name("balance")] == Num(c.value))
  {}

  /** A debit is read only when the credit pattern finds nothing, and is
      stored negated. */
  lemma ScriptDebitNegated(env: Env, conf: Dict, text: string, data: Dict, matches: seq<Found>)
    requires Name("balance-pattern") !in conf && Name("credit-pattern") in conf && Name("debit-pattern") in conf
    requires FindAll(env, conf[Name("credit-pattern")], text) == Ok(None)
    requires FindAll(env, conf[Name("debit-pattern")], text) == Ok(Some(matches))
    ensures matches != []
    ensures var r, d := ScriptAmountStage(env, conf, text, data), CreditAmount(env, Last(matches));
            && (r.Ok? <==> d.Ok?)
            && (r.Ok? ==> r.value[Name("balance")] == Num(-d.value))
  {}

  lemma SpacesRemoved()
    ensures Remove("1 234,56", IsSpace) == "1234,56"
  {
    assert !IsSpace('1') && IsSpace(' ');
    assert !IsSpace('2') && !IsSpace('3') && !IsSpace('4') && !IsSpace(',') && !IsSpace('5') && !IsSpace('6');
    RemoveSecond('1', ' ', "234,56", IsSpace);
    assert ['1', ' '] + "234,56" == "1 234,56";
    assert ['1'] + "234,56" == "1234,56";
  }

  lemma CommaToPoint()
    ensures ReplaceChar("1234,56", ',', '.') == "1234.56"
  {
    var r := ReplaceChar("1234,56", ',', '.');
    assert r[4] == '.';
    assert r[0] == '1' && r[1] == '2' && r[2] == '3' && r[3] == '4' && r[5] == '5' && r[6] == '6';
  }

  /** A credit written with a decimal comma and thousands spaces reads as
      the number with a decimal point. */
  lemma CreditCommaExample(env: Env)
    ensures CreditAmount(env, Whole("1 234,56")) == ParseNumber(env, "1234.56")
  {
    SpacesRemoved();
    CommaToPoint();
  }

  /** A record without both a date and a balance leaves the ledger as it
      is, even when it carries an operation. */
  lemma OperationsIgnored(accounts: Dict, data: Dict)
    requires Name("date") in data && Name("operation") in data && Name("balance") !in data
    ensures RecordBalance(accounts, data) == Ok(accounts)
  {}

  /** A stored record's balance is at its date in the account's
      `balances`, its other keys are merged into the metadata, and no other
      section changes. */
  lemma RecordBalanceWrites(accounts: Dict, data: Dict)
    requires Name("date") in data && Name("balance") in data && RecordBalance(accounts, data).Ok?
    ensures var r, id, key := RecordBalance(accounts, data).value, AccountId(data).value, DateKey(data[Name("date")]).value;
            && key in Section(r, id, "balances") && Section(r, id, "balances")[key] == data[Name("balance")]
            && (forall k | k != key :: (k in Section(r, id, "balances") <==> k in Section(accounts, id, "balances")))
            && (forall k | k != key && k in Section(r, id, "balances") :: Section(r, id, "balances")[k] == Section(accounts, id, "balances")[k])
            && Section(r, id, "account") == Assign(Section(accounts, id, "account"), data - {Name("date"), Name("balance")})
            && (forall id', field | id' != id || (field != "balances" && field != "account") ::
                  Section(r, id', field) == Section(accounts, id', field))
  {
    assert "balances" != "account";
  }
}
