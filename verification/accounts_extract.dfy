/** The root-level script aggregate_accounts.py: the first conf that fits
    each PDF's text, and one ledger updated in place, file after file, with
    balances only. */
module AccountsExtract {
  import opened Results
  import opened Values
  import opened Patterns
  import opened Matching
  import opened Ledger
  import opened Scripts

  /** `parse_bank_extract(bank_extract, confs_path)`: None when no conf
      fits the text, else the record of the first conf that fits. The
      debug retry of `find_conf` is switched off by `debug = False`. */
  function ParseText(env: Env, text: string, files: seq<ConfFile>): (r: Result<Option<Dict>>)
    ensures r == Ok(None) <==> FirstConfIn(env, text, files) == Ok(None)
    ensures r.Ok? && r.value.Some? ==>
              && FirstConfIn(env, text, files).Ok? && FirstConfIn(env, text, files).value.Some?
              && ScriptParseBankExtract(env, FirstConfIn(env, text, files).value.value, text) == Ok(r.value.value)
  {
    var conf :- FirstConfIn(env, text, files);
    if conf.None? then Ok(None)
    else
      var data :- ScriptParseBankExtract(env, conf.value, text);
      Ok(Some(data))
  }

  /** The record comes from the first fitting conf in file-then-key
      order: files read without a fit are passed over. */
  lemma ParseTextFirstFit(env: Env, text: string, files: seq<ConfFile>, k: nat, c: Dict)
    requires k < |files| && files[k].Parsed? && FirstConf(env, text, files[k].confs) == Ok(Some(c))
    requires forall j | 0 <= j < k :: files[j].Parsed? && FirstConf(env, text, files[j].confs) == Ok(None)
    ensures ParseText(env, text, files).Ok? <==> ScriptParseBankExtract(env, c, text).Ok?
    ensures ParseText(env, text, files).Ok? ==> ParseText(env, text, files).value == Some(ScriptParseBankExtract(env, c, text).value)
  {
    FirstConfInAt(env, text, files, k);
  }

  /** A text no conf of any readable file fits gives no record. */
  lemma ParseTextNoFit(env: Env, text: string, files: seq<ConfFile>)
    requires forall f | f in files :: f.Parsed?
    requires forall c | c in AllConfs(files) :: AllFound(env, c, text, MandatoryPatterns) == Ok(false)
    ensures ParseText(env, text, files) == Ok(None)
  {
    NoFitMeansNone(env, text, files);
  }

  /** The contribution of one walked file: files without text are
      skipped, and so are texts no conf fits. */
  function ExtractFile(env: Env, accounts: Dict, text: Option<string>, files: seq<ConfFile>): (r: Result<Dict>)
    ensures text.None? || text.value == "" ==> r == Ok(accounts)
    ensures text.Some? && text.value != "" && FirstConfIn(env, text.value, files) == Ok(None) ==> r == Ok(accounts)
    ensures r.Ok? && Shaped(accounts) ==> Shaped(r.value)
  {
    if text.None? || text.value == "" then Ok(accounts)
    else
      var data :- ParseText(env, text.value, files);
      if data.None? then Ok(accounts) else RecordBalance(accounts, data.value)
  }

  /** `extract(folder_path)`: the walked files in order, each updating the
      one ledger. */
  function Extract(env: Env, texts: seq<Option<string>>, files: seq<ConfFile>): (r: Result<Dict>)
    ensures r.Ok? ==> Shaped(r.value)
    decreases |texts|
  {
    if texts == [] then Ok(map[])
    else
      var before :- Extract(env, texts[..|texts| - 1], files);
      ExtractFile(env, before, texts[|texts| - 1], files)
  }

  /** A later file overwrites: the balance the last file records for its
      account and date is the one the ledger holds, and no other account's
      balances change. */
  lemma LaterFileOverwrites(env: Env, texts: seq<Option<string>>, files: seq<ConfFile>, data: Dict)
    requires texts != [] && Extract(env, texts, files).Ok?
    requires texts[|texts| - 1].Some? && texts[|texts| - 1].value != ""
    requires ParseText(env, texts[|texts| - 1].value, files) == Ok(Some(data))
    requires Name("date") in data && Name("balance") in data
    ensures var r, before := Extract(env, texts, files).value, Extract(env, texts[..|texts| - 1], files).value;
            var id, key := AccountId(data).value, DateKey(data[Name("date")]).value;
            && key in Section(r, id, "balances") && Section(r, id, "balances")[key] == data[Name("balance")]
            && forall id' | id' != id :: Section(r, id', "balances") == Section(before, id', "balances")
  {
    var before := Extract(env, texts[..|texts| - 1], files).value;
    RecordBalanceWrites(before, data);
  }
}
