/** The accumulation loop of `aggregate_pdf` and the batch merge of
    `aggregate_pdfs` (aggregator/aggregate.py): each applicable conf yields
    a record, a dated record writes its balance and operation under the
    account id and merges its other keys into the account's metadata, and
    the ledgers of all files are merged with `update`. */
module Aggregation {
  import opened Results
  import opened Values
  import opened Patterns
  import opened Matching
  import opened Extraction
  import opened Ledger

  /** The state of the loop over confs: the ledger built so far, and the
      id of the account whose metadata dict the local `account` refers to
      (None while no record has bound it). */
  datatype Pass = Pass(accounts: Dict, bound: Option<string>)

  /** What `aggregate_pdf` produces: the ledger, and whether it reported
      the file as skipped. */
  datatype PdfOutcome = PdfOutcome(accounts: Dict, skipped: bool)

  /** A record that writes to the ledger: it has a date and an amount. */
  predicate Writes(data: Dict) {
    Name("date") in data && (Name("balance") in data || Name("operation") in data)
  }

  /** The account `account` refers to exists in the ledger. */
  predicate BoundInLedger(p: Pass) {
    p.bound.Some? ==> Name(p.bound.value) in p.accounts
  }

  /** `parse_bank_extract_file`: the conf's text, then the record. A conf
      without text is never selected; a missing text would make the first
      regex call raise TypeError. */
  function ParseFile(env: Env, doc: Document, conf: Dict): Result<Dict> {
    var text :- ConfText(doc, conf);
    if text.None? then Err(TypeError) else ParseBankExtract(env, conf, text.value)
  }

  /** Every selected conf has a text, so its record is parsed from it. */
  lemma ParseFileOfApplicable(env: Env, doc: Document, conf: Dict)
    requires Applies(env, doc, conf)
    ensures ParseFile(env, doc, conf) == ParseBankExtract(env, conf, ConfText(doc, conf).value.value)
  {}

  /** `account = accounts[account_id]['account']`: the read creates the
      account and its empty metadata when missing, and changes no section. */
  function Touch(accounts: Dict, id: string): (r: Dict)
    ensures r.Keys == accounts.Keys + {Name(id)}
    ensures forall id', field | true :: Section(r, id', field) == Section(accounts, id', field)
    ensures Shaped(accounts) ==> Shaped(r)
  {
    SetSection(accounts, id, "account", Section(accounts, id, "account"))
  }

  /** The `if 'balance' in data` and `if 'operation' in data` blocks of
      `aggregate_pdf`, for `field` ("balance" or "operation"):
      `accounts[id][section][date] = data[field]`, then `del data[field]`;
      `account` is bound to the account's metadata. */
  function WriteAmount(p: Pass, data: Dict, field: string, section: string): (r: Result<(Pass, Dict)>)
    requires Name("date") in data
    ensures Name(field) !in data ==> r == Ok((p, data))
    ensures Name(field) in data ==>
              (r.Err? <==> AccountId(data).Err? || DateKey(data[Name("date")]).Err?)
    ensures r.Ok? && Name(field) in data ==>
              var id, key := AccountId(data).value, DateKey(data[Name("date")]).value;
              && r.value.0.bound == Some(id)
              && r.value.0.accounts.Keys == p.accounts.Keys + {Name(id)}
              && key in Section(r.value.0.accounts, id, section)
              && Section(r.value.0.accounts, id, section)[key] == data[Name(field)]
              && (forall k | k != key :: (k in Section(r.value.0.accounts, id, section) <==> k in Section(p.accounts, id, section)))
              && (forall k | k != key && k in Section(r.value.0.accounts, id, section) ::
                    Section(r.value.0.accounts, id, section)[k] == Section(p.accounts, id, section)[k])
              && (forall id', field' | id' != id || field' != section ::
                    Section(r.value.0.accounts, id', field') == Section(p.accounts, id', field'))
              && r.value.1 == data - {Name(field)}
    ensures r.Ok? && Shaped(p.accounts) ==> Shaped(r.value.0.accounts)
  {
    if Name(field) !in data then Ok((p, data))
    else
      var id :- AccountId(data);
      var key :- DateKey(data[Name("date")]);
      var accounts := WriteCell(Touch(p.accounts, id), id, section, key, data[Name(field)]);
      Ok((Pass(accounts, Some(id)), data - {Name(field)}))
  }

  /** `account.update(data)` after `del data['date']`: the record's
      remaining keys are merged into the metadata `account` refers to. */
  function MergeMetadata(p: Pass, rest: Dict): (r: Pass)
    ensures r.bound == p.bound
    ensures p.bound.None? ==> r == p
    ensures p.bound.Some? ==>
              Section(r.accounts, p.bound.value, "account") == Assign(Section(p.accounts, p.bound.value, "account"), rest)
    ensures forall id, field | p.bound != Some(id) || field != "account" ::
              Section(r.accounts, id, field) == Section(p.accounts, id, field)
    ensures BoundInLedger(p) ==> r.accounts.Keys == p.accounts.Keys
    ensures Shaped(p.accounts) ==> Shaped(r.accounts)
  {
    match p.bound
    case None => p
    case Some(id) => Pass(SetSection(p.accounts, id, "account", Assign(Section(p.accounts, id, "account"), rest)), p.bound)
  }

  /** One iteration of `for conf in confs` in `aggregate_pdf`, once the
      conf's record `data` is parsed. */
  function Record(p: Pass, data: Dict): (r: Result<Pass>)
    ensures Name("date") !in data ==> r == Ok(p)
    ensures r.Err? <==> Writes(data) && (AccountId(data).Err? || DateKey(data[Name("date")]).Err?)
    ensures r.Ok? && Shaped(p.accounts) ==> Shaped(r.value.accounts)
    ensures r.Ok? && BoundInLedger(p) ==> BoundInLedger(r.value)
    ensures r.Ok? && BoundInLedger(p) && !Writes(data) ==> r.value.accounts.Keys == p.accounts.Keys
    ensures r.Ok? && Writes(data) ==>
              && r.value.bound == Some(AccountId(data).value)
              && r.value.accounts.Keys == p.accounts.Keys + {Name(AccountId(data).value)}
  {
    if Name("date") !in data then Ok(p)
    else
      var w1 :- WriteAmount(p, data, "balance", "balances");
      assert Name("balance") != Name("date") && Name("balance") != Name("bank-name") && Name("balance") != Name("account");
      var w2 :- WriteAmount(w1.0, w1.1, "operation", "operations");
      Ok(MergeMetadata(w2.0, w2.1 - {Name("date")}))
  }

  /** The spellings the record step relies on. */
  lemma Spelling()
    ensures "balances" != "account" && "operations" != "account" && "balances" != "operations"
    ensures Name("balance") != Name("date") && Name("balance") != Name("bank-name") && Name("balance") != Name("account")
    ensures Name("operation") != Name("date") && Name("operation") != Name("bank-name") && Name("operation") != Name("account")
  {}

  /** Dropping a key other than the date and the id's parts keeps both. */
  lemma WithoutKey(data: Dict, k: Key)
    requires Name("date") in data && k != Name("date") && k != Name("bank-name") && k != Name("account")
    ensures Name("date") in data - {k} && (data - {k})[Name("date")] == data[Name("date")]
    ensures AccountId(data - {k}) == AccountId(data)
  {
    var e := data - {k};
    assert Name("bank-name") in e <==> Name("bank-name") in data;
    assert Name("account") in e <==> Name("account") in data;
    if Name("bank-name") in data && Name("account") in data {
      assert e[Name("bank-name")] == data[Name("bank-name")] && e[Name("account")] == data[Name("account")];
    }
  }

  /** The two writes of a dated record, as `Record` performs them. */
  lemma RecordSteps(p: Pass, data: Dict) returns (w1: (Pass, Dict), w2: (Pass, Dict))
    requires Record(p, data).Ok? && Name("date") in data
    ensures WriteAmount(p, data, "balance", "balances") == Ok(w1)
    ensures w1.1 == data || w1.1 == data - {Name("balance")}
    ensures Name("date") in w1.1 && WriteAmount(w1.0, w1.1, "operation", "operations") == Ok(w2)
    ensures Record(p, data) == Ok(MergeMetadata(w2.0, w2.1 - {Name("date")}))
  {
    Spelling();
    w1 := WriteAmount(p, data, "balance", "balances").value;
    w2 := WriteAmount(w1.0, w1.1, "operation", "operations").value;
  }

  /** A dated record's balance lands in the account's `balances` at the
      record's date. */
  lemma RecordWritesBalance(p: Pass, data: Dict)
    requires Record(p, data).Ok? && Name("date") in data && Name("balance") in data
    ensures var r, id, key := Record(p, data).value.accounts, AccountId(data).value, DateKey(data[Name("date")]).value;
            key in Section(r, id, "balances") && Section(r, id, "balances")[key] == data[Name("balance")]
  {
    Spelling();
    var w1, w2 := RecordSteps(p, data);
    var id := AccountId(data).value;
    assert Section(w2.0.accounts, id, "balances") == Section(w1.0.accounts, id, "balances");
  }

  /** A dated record's operation lands in the account's `operations` at the
      record's date. */
  lemma RecordWritesOperation(p: Pass, data: Dict)
    requires Record(p, data).Ok? && Name("date") in data && Name("operation") in data
    ensures var r, id, key := Record(p, data).value.accounts, AccountId(data).value, DateKey(data[Name("date")]).value;
            key in Section(r, id, "operations") && Section(r, id, "operations")[key] == data[Name("operation")]
  {
    Spelling();
    var w1, w2 := RecordSteps(p, data);
  }

  /** Nothing else changes: a record only writes the cells at its date in
      its account's `balances` and `operations`, and the metadata of the
      account `account` refers to afterwards. */
  lemma RecordFrame(p: Pass, data: Dict, id: string, field: string)
    requires Record(p, data).Ok?
    requires field != "account" || Record(p, data).value.bound != Some(id)
    requires Writes(data) ==> id != AccountId(data).value || (field != "balances" && field != "operations")
    ensures Section(Record(p, data).value.accounts, id, field) == Section(p.accounts, id, field)
  {
    if Name("date") in data {
      Spelling();
      var w1, w2 := RecordSteps(p, data);
      assert Section(w1.0.accounts, id, field) == Section(p.accounts, id, field);
      assert Section(w2.0.accounts, id, field) == Section(w1.0.accounts, id, field);
    }
  }

  /** The record's keys other than its date and amounts go into the
      metadata of the account `account` refers to. */
  lemma RecordMetadata(p: Pass, data: Dict)
    requires Record(p, data).Ok? && Name("date") in data && Record(p, data).value.bound.Some?
    ensures var r, id := Record(p, data).value, Record(p, data).value.bound.value;
            Section(r.accounts, id, "account")
              == Assign(Section(p.accounts, id, "account"), data - {Name("balance"), Name("operation"), Name("date")})
  {
    Spelling();
    var w1, w2 := RecordSteps(p, data);
    var id := w2.0.bound.value;
    assert Section(w1.0.accounts, id, "account") == Section(p.accounts, id, "account");
    assert Section(w2.0.accounts, id, "account") == Section(w1.0.accounts, id, "account");
    RestOfRecord(data, w1.1, w2.1);
  }

  /** What is left of a record once its amounts and date are removed. */
  lemma RestOfRecord(data: Dict, d1: Dict, d2: Dict)
    requires d1 == data || (Name("balance") in data && d1 == data - {Name("balance")})
    requires d2 == d1 || (Name("operation") in d1 && d2 == d1 - {Name("operation")})
    requires Name("balance") in data ==> d1 != data
    requires Name("operation") in d1 ==> d2 != d1
    ensures d2 - {Name("date")} == data - {Name("balance"), Name("operation"), Name("date")}
  {}

  /** The `'account' in locals()` quirk: a dated record without amounts
      is merged into the metadata of the account an earlier conf bound. */
  lemma LocalsQuirk(p: Pass, data: Dict, earlier: string)
    requires p.bound == Some(earlier) && Name("date") in data
    requires Name("balance") !in data && Name("operation") !in data
    ensures Record(p, data).Ok?
    ensures Section(Record(p, data).value.accounts, earlier, "account")
         == Assign(Section(p.accounts, earlier, "account"), data - {Name("date")})
  {}

  /** The loop of `aggregate_pdf` over the selected confs, in order; the
      first exception ends it. */
  function Accumulate(env: Env, doc: Document, confs: seq<Dict>, p: Pass): (r: Result<Pass>)
    ensures r.Ok? ==> forall i | 0 <= i < |confs| :: ParseFile(env, doc, confs[i]).Ok?
    ensures r.Ok? && Shaped(p.accounts) ==> Shaped(r.value.accounts)
    ensures r.Ok? && BoundInLedger(p) ==> BoundInLedger(r.value)
    ensures r.Ok? ==> p.accounts.Keys <= r.value.accounts.Keys
    decreases |confs|
  {
    if confs == [] then Ok(p)
    else
      var data :- ParseFile(env, doc, confs[0]);
      var q :- Record(p, data);
      var r := Accumulate(env, doc, confs[1..], q);
      assert r.Ok? ==> forall i | 1 <= i < |confs| :: confs[i] == confs[1..][i - 1];
      r
  }

  /** The ledger stays empty exactly when no record of the loop writes. */
  lemma {:induction false} AccumulateEmpty(env: Env, doc: Document, confs: seq<Dict>, p: Pass)
    requires Accumulate(env, doc, confs, p).Ok? && BoundInLedger(p)
    ensures Accumulate(env, doc, confs, p).value.accounts == map[]
        <==> p.accounts == map[] && forall i | 0 <= i < |confs| :: !Writes(ParseFile(env, doc, confs[i]).value)
    decreases |confs|
  {
    if confs != [] {
      var data := ParseFile(env, doc, confs[0]).value;
      var q := Record(p, data).value;
      AccumulateEmpty(env, doc, confs[1..], q);
      assert forall i | 1 <= i < |confs| :: confs[i] == confs[1..][i - 1];
      if Writes(data) {
        assert Name(AccountId(data).value) in q.accounts;
      }
    }
  }

  /** `aggregate_pdf`: the confs that apply to the document, their records
      accumulated into an empty ledger; "skipped" is reported for an empty
      result. */
  function AggregatePdf(env: Env, doc: Document, files: seq<ConfFile>, verbose: int): (r: Result<PdfOutcome>)
    ensures FindConfs(env, doc, files, verbose).Err? ==> r.Err?
    ensures r.Ok? ==> Shaped(r.value.accounts)
  {
    var confs :- FindConfs(env, doc, files, verbose);
    var p :- Accumulate(env, doc, confs, Pass(map[], None));
    Ok(PdfOutcome(p.accounts, |p.accounts| == 0))
  }

  /** A file is reported as skipped exactly when none of the confs that
      apply to it yields a dated record with a balance or an operation. */
  lemma SkippedMeaning(env: Env, doc: Document, files: seq<ConfFile>, verbose: int)
    requires AggregatePdf(env, doc, files, verbose).Ok?
    ensures var confs := FindConfs(env, doc, files, verbose).value;
            && (forall i | 0 <= i < |confs| :: ParseFile(env, doc, confs[i]).Ok?)
            && (AggregatePdf(env, doc, files, verbose).value.skipped
                <==> forall i | 0 <= i < |confs| :: !Writes(ParseFile(env, doc, confs[i]).value))
  {
    var confs := FindConfs(env, doc, files, verbose).value;
    AccumulateEmpty(env, doc, confs, Pass(map[], None));
  }

  /** The loop over `confs` is the loop over its first `n` confs, then the
      loop over the rest from the pass it reached. */
  lemma {:induction false} AccumulateSplit(env: Env, doc: Document, confs: seq<Dict>, n: nat, p: Pass)
    requires n <= |confs|
    ensures var first := Accumulate(env, doc, confs[..n], p);
            Accumulate(env, doc, confs, p)
              == if first.Ok? then Accumulate(env, doc, confs[n..], first.value) else Err(first.error)
    decreases n
  {
    if n == 0 {
      assert confs[..0] == [] && confs[0..] == confs;
    } else {
      assert confs[..n][0] == confs[0] && confs[..n][1..] == confs[1..][..n - 1];
      assert confs[1..][n - 1..] == confs[n..];
      var data := ParseFile(env, doc, confs[0]);
      if data.Ok? && Record(p, data.value).Ok? {
        AccumulateSplit(env, doc, confs[1..], n - 1, Record(p, data.value).value);
      }
    }
  }

  /** The last conf's record is stored last, into the pass the confs
      before it reached. */
  lemma AccumulateLast(env: Env, doc: Document, confs: seq<Dict>, p: Pass)
    requires confs != [] && Accumulate(env, doc, confs[..|confs| - 1], p).Ok?
    ensures var q, data := Accumulate(env, doc, confs[..|confs| - 1], p).value, ParseFile(env, doc, confs[|confs| - 1]);
            Accumulate(env, doc, confs, p) == if data.Ok? then Record(q, data.value) else Err(data.error)
  {
    var n := |confs| - 1;
    AccumulateSplit(env, doc, confs, n, p);
    assert confs[n..] == [confs[n]] && confs[n..][1..] == [];
  }

  /** The loop raises at the first conf whose record cannot be parsed or
      stored. */
  lemma AccumulateStopsAt(env: Env, doc: Document, confs: seq<Dict>, p: Pass, i: nat)
    requires i < |confs| && Accumulate(env, doc, confs[..i], p).Ok?
    requires var data := ParseFile(env, doc, confs[i]);
             data.Err? || Record(Accumulate(env, doc, confs[..i], p).value, data.value).Err?
    ensures Accumulate(env, doc, confs, p).Err?
  {
    AccumulateSplit(env, doc, confs, i, p);
    assert confs[i..][0] == confs[i];
  }

  /** A file that a single conf fits gets the ledger of that conf's record,
      stored into an empty ledger. */
  lemma AggregatePdfSingleConf(env: Env, doc: Document, files: seq<ConfFile>, verbose: int, c: Dict)
    requires FindConfs(env, doc, files, verbose) == Ok([c])
    ensures var data := ParseFile(env, doc, c);
            AggregatePdf(env, doc, files, verbose).Ok? <==> data.Ok? && Record(Pass(map[], None), data.value).Ok?
    ensures AggregatePdf(env, doc, files, verbose).Ok? ==>
              AggregatePdf(env, doc, files, verbose).value.accounts
                == Record(Pass(map[], None), ParseFile(env, doc, c).value).value.accounts
  {
    assert [c][..0] == [];
    AccumulateLast(env, doc, [c], Pass(map[], None));
  }

  /** A conf whose record cannot be stored (it has no account id, or its
      date is not a date) makes the whole file raise, whatever the other
      confs yield. */
  lemma AggregatePdfRecordRaises(env: Env, doc: Document, files: seq<ConfFile>, verbose: int, i: nat)
    requires FindConfs(env, doc, files, verbose).Ok? && i < |FindConfs(env, doc, files, verbose).value|
    requires var confs := FindConfs(env, doc, files, verbose).value;
             && Accumulate(env, doc, confs[..i], Pass(map[], None)).Ok?
             && ParseFile(env, doc, confs[i]).Ok?
             && Record(Accumulate(env, doc, confs[..i], Pass(map[], None)).value, ParseFile(env, doc, confs[i]).value).Err?
    ensures AggregatePdf(env, doc, files, verbose).Err?
  {
    AccumulateStopsAt(env, doc, FindConfs(env, doc, files, verbose).value, Pass(map[], None), i);
  }

  /** The loop's ledger holds the balance of the last conf's record at its
      date. */
  lemma AccumulateLastBalance(env: Env, doc: Document, confs: seq<Dict>, p: Pass, data: Dict)
    requires Accumulate(env, doc, confs, p).Ok? && confs != []
    requires ParseFile(env, doc, confs[|confs| - 1]) == Ok(data) && Name("date") in data && Name("balance") in data
    ensures AccountId(data).Ok? && DateKey(data[Name("date")]).Ok?
    ensures var r, id, key := Accumulate(env, doc, confs, p).value.accounts, AccountId(data).value, DateKey(data[Name("date")]).value;
            key in Section(r, id, "balances") && Section(r, id, "balances")[key] == data[Name("balance")]
  {
    var n := |confs| - 1;
    AccumulateSplit(env, doc, confs, n, p);
    var q := Accumulate(env, doc, confs[..n], p).value;
    AccumulateLast(env, doc, confs, p);
    RecordWritesBalance(q, data);
  }

  /** The balance of the last applicable conf's record is in the file's
      ledger at its date: a later conf overwrites what an earlier one wrote
      there. */
  lemma AggregatePdfLastBalance(env: Env, doc: Document, files: seq<ConfFile>, verbose: int, data: Dict)
    requires AggregatePdf(env, doc, files, verbose).Ok?
    requires var confs := FindConfs(env, doc, files, verbose).value;
             confs != [] && ParseFile(env, doc, confs[|confs| - 1]) == Ok(data)
    requires Name("date") in data && Name("balance") in data
    ensures AccountId(data).Ok? && DateKey(data[Name("date")]).Ok?
    ensures var r, id, key := AggregatePdf(env, doc, files, verbose).value.accounts, AccountId(data).value, DateKey(data[Name("date")]).value;
            key in Section(r, id, "balances") && Section(r, id, "balances")[key] == data[Name("balance")]
  {
    var confs := FindConfs(env, doc, files, verbose).value;
    AccumulateLastBalance(env, doc, confs, Pass(map[], None), data);
  }

  /** The ledger `aggregate_pdf` returns for each document, in walk order. */
  function Ledgers(env: Env, docs: seq<Document>, files: seq<ConfFile>, verbose: int): (r: seq<Result<Dict>>)
    ensures |r| == |docs|
    ensures forall i | 0 <= i < |docs| :: r[i].Ok? <==> AggregatePdf(env, docs[i], files, verbose).Ok?
    ensures forall i | 0 <= i < |docs| :: r[i].Ok? ==> r[i].value == AggregatePdf(env, docs[i], files, verbose).value.accounts
  {
    seq(|docs|, i requires 0 <= i < |docs| =>
      match AggregatePdf(env, docs[i], files, verbose)
      case Ok(o) => Ok(o.accounts)
      case Err(e) => Err(e))
  }

  /** The loop of `aggregate_pdfs`: each file's ledger merged with
      `update` into the ledger of the files before it. An exception of any
      file is re-raised and ends the batch. */
  function MergeAll(outcomes: seq<Result<Dict>>): (r: Result<Dict>)
    ensures r.Ok? ==> forall i | 0 <= i < |outcomes| :: outcomes[i].Ok?
    ensures (exists i | 0 <= i < |outcomes| :: outcomes[i].Err?) ==> r.Err?
    decreases |outcomes|
  {
    if outcomes == [] then Ok(map[])
    else
      var before :- MergeAll(outcomes[..|outcomes| - 1]);
      var pdf :- outcomes[|outcomes| - 1];
      var r := Update(before, pdf, 0);
      assert forall i | 0 <= i < |outcomes| - 1 :: outcomes[i] == outcomes[..|outcomes| - 1][i];
      r
  }

  /** `aggregate_pdfs` over the documents of the walked folder. */
  function AggregatePdfs(env: Env, docs: seq<Document>, files: seq<ConfFile>, verbose: int): (r: Result<Dict>)
    ensures r.Ok? ==> forall i | 0 <= i < |docs| :: AggregatePdf(env, docs[i], files, verbose).Ok?
    ensures (exists i | 0 <= i < |docs| :: AggregatePdf(env, docs[i], files, verbose).Err?) ==> r.Err?
  {
    MergeAll(Ledgers(env, docs, files, verbose))
  }

  /** The batch holds exactly the accounts of the files' ledgers. */
  lemma {:induction false} MergeAllAccounts(outcomes: seq<Result<Dict>>, k: Key)
    requires MergeAll(outcomes).Ok?
    ensures k in MergeAll(outcomes).value <==> exists i | 0 <= i < |outcomes| :: k in outcomes[i].value
    decreases |outcomes|
  {
    if outcomes != [] {
      var init := outcomes[..|outcomes| - 1];
      MergeAllAccounts(init, k);
      assert forall i | 0 <= i < |outcomes| - 1 :: outcomes[i] == init[i];
    }
  }

  /** The sections of a ledger hold no dicts, as balances and operations
      never do. */
  predicate FlatSections(accounts: Dict) {
    forall k, f | k in accounts && accounts[k].Obj? && f in accounts[k].fields && accounts[k].fields[f].Obj? ::
      forall x | x in accounts[k].fields[f].fields :: !accounts[k].fields[f].fields[x].Obj?
  }

  /** A section with no dict values merges into a dict, or into a missing
      entry of a container that creates it. */
  lemma MergeFlatSection(base: Option<Value>, sec: Dict, depth: nat)
    requires forall x | x in sec :: !sec[x].Obj?
    requires base.None? ==> CreatesMissing(depth)
    requires base.Some? ==> base.value.Obj?
    ensures MergeValue(base, Obj(sec), depth).Ok?
  {
    var b := if base.None? then map[] else base.value.fields;
    assert Update(b, sec, depth + 1).Ok?;
  }

  /** Merging a ledger of the shape `aggregate_pdf` builds, whose sections
      hold no dicts, into a ledger of that shape never raises. */
  lemma MergeFlatLedger(accounts: Dict, pdf: Dict)
    requires Shaped(accounts) && Shaped(pdf) && FlatSections(pdf)
    ensures Update(accounts, pdf, 0).Ok?
  {
    forall k | k in pdf ensures MergeValue(Get(accounts, k), pdf[k], 0).Ok? {
      var fields := pdf[k].fields;
      var b := if k in accounts then accounts[k].fields else map[];
      forall f | f in fields ensures MergeValue(Get(b, f), fields[f], 1).Ok? {
        MergeFlatSection(Get(b, f), fields[f].fields, 1);
      }
      assert Update(b, fields, 1).Ok?;
    }
  }

  /** A dict nested in an account's metadata cannot be merged into a
      ledger lacking it: the third level is a plain dict, and the missing
      key raises KeyError. */
  lemma NestedMetadataRaises()
    ensures var pdf := map[Name("bank-1") := Obj(map[Name("account") := Obj(map[Name("owner") := Obj(map[Name("name") := Str("x")])])])];
            Update(map[], pdf, 0) == Err(KeyError)
  {
    var owner := map[Name("owner") := Obj(map[Name("name") := Str("x")])];
    var meta := map[Name("account") := Obj(owner)];
    var pdf := map[Name("bank-1") := Obj(meta)];
    assert MergeValue(Get(map[], Name("owner")), owner[Name("owner")], 2) == Err(KeyError);
    assert Update(map[], owner, 2) == Err(KeyError);
    assert MergeValue(Get(map[], Name("account")), meta[Name("account")], 1) == Err(KeyError);
    assert Update(map[], meta, 1) == Err(KeyError);
    assert MergeValue(Get(map[], Name("bank-1")), pdf[Name("bank-1")], 0) == Err(KeyError);
  }

  /** Last write wins across files: a balance or operation the last file
      records is the one the batch holds. */
  lemma LastFileWins(outcomes: seq<Result<Dict>>, path: seq<Key>, x: Value)
    requires MergeAll(outcomes).Ok? && outcomes != []
    requires path != [] && !x.Obj?
    requires At(outcomes[|outcomes| - 1].value, path) == Some(x)
    ensures At(MergeAll(outcomes).value, path) == Some(x)
  {
    var before := MergeAll(outcomes[..|outcomes| - 1]).value;
    UpdateLastWriteWins(before, outcomes[|outcomes| - 1].value, 0, path, x);
  }

  /** Nothing else changes: what the last file does not reach keeps the
      value the earlier files gave it. */
  lemma LastFileFrame(outcomes: seq<Result<Dict>>, path: seq<Key>)
    requires MergeAll(outcomes).Ok? && outcomes != []
    requires path != [] && Untouched(outcomes[|outcomes| - 1].value, path)
    ensures At(MergeAll(outcomes).value, path) == At(MergeAll(outcomes[..|outcomes| - 1]).value, path)
  {
    var before := MergeAll(outcomes[..|outcomes| - 1]).value;
    UpdateFrame(before, outcomes[|outcomes| - 1].value, 0, path);
  }
}
