/** The root-level script aggregate.py: one conf per PDF (the first that
    fits), a ledger of balances only, and an undefined name when no conf
    fits. */
module RootAggregate {
  import opened Results
  import opened Values
  import opened Patterns
  import opened Matching
  import opened Ledger
  import opened Scripts
  import Aggregation

  /** `find_conf(file_path, ...)`: None for a file without text (not a PDF,
      or empty), else the first conf that fits the text. */
  function FindConf(env: Env, text: Option<string>, files: seq<ConfFile>): (r: Result<Option<Dict>>)
    ensures text.None? || text.value == "" ==> r == Ok(None)
    ensures r.Ok? && r.value.Some? ==>
              && text.Some? && text.value != ""
              && r.value.value in AllConfs(files) && Fits(env, text.value, r.value.value)
    ensures text.Some? && text.value != "" && r == Ok(None) ==>
              forall c | c in AllConfs(files) :: AllFound(env, c, text.value, MandatoryPatterns) == Ok(false)
  {
    if text.None? || text.value == "" then Ok(None)
    else FirstConfIn(env, text.value, files)
  }

  /** For a text, the conf found is the first fitting one in
      file-then-key order: files read without a fit are passed over, and
      the first file that is unreadable or holds a fit decides. */
  lemma FindConfFirstFit(env: Env, text: string, files: seq<ConfFile>, k: nat)
    requires text != "" && k < |files|
    requires forall j | 0 <= j < k :: files[j].Parsed? && FirstConf(env, text, files[j].confs) == Ok(None)
    ensures files[k].Unreadable? ==> FindConf(env, Some(text), files) == Err(AttributeError)
    ensures files[k].Parsed? && FirstConf(env, text, files[k].confs) != Ok(None) ==>
              FindConf(env, Some(text), files) == FirstConf(env, text, files[k].confs)
  {
    FirstConfInAt(env, text, files, k);
  }

  /** A text no conf of any readable file fits finds no conf. */
  lemma FindConfNoFit(env: Env, text: string, files: seq<ConfFile>)
    requires forall f | f in files :: f.Parsed?
    requires forall c | c in AllConfs(files) :: AllFound(env, c, text, MandatoryPatterns) == Ok(false)
    ensures FindConf(env, Some(text), files) == Ok(None)
  {
    NoFitMeansNone(env, text, files);
  }

  /** `aggregate_pdf` of the script: with no conf, `data` stays None and
      the report names the undefined `pdf_path` (NameError); otherwise the
      record of the conf is stored in a fresh ledger. With a positive
      verbosity, the report of a record with a date and a balance names
      `pdf_path` too, before anything is stored. */
  function AggregatePdf(env: Env, text: Option<string>, files: seq<ConfFile>, verbose: int): (r: Result<Dict>)
    ensures FindConf(env, text, files) == Ok(None) ==> r == Err(NameError)
    ensures FindConf(env, text, files).Err? ==> r == Err(FindConf(env, text, files).error)
    ensures r.Ok? ==> Shaped(r.value) && |r.value| <= 1
  {
    var conf :- FindConf(env, text, files);
    if conf.None? then Err(NameError)
    else
      var data :- ScriptParseBankExtract(env, conf.value, text.value);
      if verbose > 0 && Name("date") in data && Name("balance") in data then Err(NameError)
      else RecordBalance(map[], data)
  }

  /** With a positive verbosity the script stores nothing: every record
      that would be stored raises NameError first, so a file that does not
      raise leaves an empty ledger. */
  lemma VerboseStoresNothing(env: Env, text: Option<string>, files: seq<ConfFile>, verbose: int)
    requires verbose > 0 && AggregatePdf(env, text, files, verbose).Ok?
    ensures AggregatePdf(env, text, files, verbose).value == map[]
    ensures AggregatePdf(env, text, files, verbose) == AggregatePdf(env, text, files, 0)
  {
    var conf := FindConf(env, text, files).value.value;
    var data := ScriptParseBankExtract(env, conf, text.value).value;
    assert !(Name("date") in data && Name("balance") in data);
  }

  /** A file whose ledger is not empty at verbosity 0 raises NameError at
      any positive verbosity. */
  lemma VerboseReportRaises(env: Env, text: Option<string>, files: seq<ConfFile>, verbose: int)
    requires verbose > 0
    requires AggregatePdf(env, text, files, 0).Ok? && AggregatePdf(env, text, files, 0).value != map[]
    ensures AggregatePdf(env, text, files, verbose) == Err(NameError)
  {
    var conf := FindConf(env, text, files).value.value;
    var data := ScriptParseBankExtract(env, conf, text.value).value;
    assert Name("date") in data && Name("balance") in data;
  }

  /** A record stored in a fresh ledger gives one account holding only
      metadata and balances. */
  lemma RecordIntoEmpty(data: Dict)
    requires RecordBalance(map[], data).Ok?
    ensures forall k | k in RecordBalance(map[], data).value ::
              var v := RecordBalance(map[], data).value[k];
              v.Obj? && v.fields.Keys <= {Name("account"), Name("balances")}
  {
    var r := RecordBalance(map[], data).value;
    if Name("date") in data && Name("balance") in data {
      var id := AccountId(data).value;
      assert r.Keys == {Name(id)};
      assert Entry(r, id).Keys == {Name("balances"), Name("account")};
    }
  }

  /** The script's ledger holds only metadata and balances: operations
      are never stored. */
  lemma NoOperations(env: Env, text: Option<string>, files: seq<ConfFile>, verbose: int)
    requires AggregatePdf(env, text, files, verbose).Ok?
    ensures forall k | k in AggregatePdf(env, text, files, verbose).value ::
              var v := AggregatePdf(env, text, files, verbose).value[k];
              v.Obj? && v.fields.Keys <= {Name("account"), Name("balances")}
  {
    var conf := FindConf(env, text, files).value.value;
    var data := ScriptParseBankExtract(env, conf, text.value).value;
    assert AggregatePdf(env, text, files, verbose) == RecordBalance(map[], data);
    RecordIntoEmpty(data);
  }

  /** The ledger of each walked file, in walk order. */
  function Ledgers(env: Env, texts: seq<Option<string>>, files: seq<ConfFile>, verbose: int): (r: seq<Result<Dict>>)
    ensures |r| == |texts| && forall i | 0 <= i < |texts| :: r[i] == AggregatePdf(env, texts[i], files, verbose)
  {
    seq(|texts|, i requires 0 <= i < |texts| => AggregatePdf(env, texts[i], files, verbose))
  }

  /** `aggregate_pdfs` of the script: every walked file's ledger merged
      with `update`, in walk order; the first exception ends the batch. */
  function AggregatePdfs(env: Env, texts: seq<Option<string>>, files: seq<ConfFile>, verbose: int): (r: Result<Dict>)
    ensures r.Ok? ==> forall i | 0 <= i < |texts| :: AggregatePdf(env, texts[i], files, verbose).Ok?
    ensures (exists i | 0 <= i < |texts| :: AggregatePdf(env, texts[i], files, verbose).Err?) ==> r.Err?
  {
    Aggregation.MergeAll(Ledgers(env, texts, files, verbose))
  }

  /** A walked file without text, or one no conf fits, aborts the batch. */
  lemma UnmatchedFileAborts(env: Env, texts: seq<Option<string>>, files: seq<ConfFile>, verbose: int, i: nat)
    requires i < |texts| && FindConf(env, texts[i], files) == Ok(None)
    ensures AggregatePdfs(env, texts, files, verbose).Err?
  {
    assert AggregatePdf(env, texts[i], files, verbose).Err?;
  }
}
