/** Choosing the configurations that apply to a document
    (`is_valid_conf` and `find_confs` of aggregator/aggregate.py). */
module Matching {
  import opened Results
  import opened Values
  import opened Patterns

  /** The patterns a conf must match, when it defines them. */
  const MandatoryPatterns: seq<string> := ["bank-pattern", "account-pattern", "date-pattern"]

  /** The parser used when a conf names none. */
  const DefaultParser: string := "miner_aggregate"

  /** The parsers `file_to_pdf` dispatches to by name: the functions
      `file_to_pdf_<name>` of aggregator/parsers.py. */
  const Parsers: set<string> := {"tika", "miner_text", "miner_aggregate", "pdfplumber"}

  /** A file as `parse_pdf_internal` sees it. A file whose extension is not
      `.pdf` yields None whatever the parser; a PDF yields, for each parser,
      its text, or None when that parser produced nothing. */
  datatype Document = NotPdf | Pdf(extract: string -> Option<string>)

  /** A configuration file as `read_confs` returns it: the confs in file
      order, or Unreadable when the JSON failed to decode (None, on which
      `confs.keys()` raises AttributeError). */
  datatype ConfFile = Parsed(confs: seq<Dict>) | Unreadable

  /** `"bank-name" not in conf is None` chains into
      `("bank-name" not in conf) and (conf is None)`. */
  predicate BankNameGuard(conf: Dict) {
    Name("bank-name") !in conf && Obj(conf).Null?
  }

  /** The guard never rejects a conf: a conf lacking "bank-name" is still
      tried. */
  lemma BankNameGuardNeverRejects(conf: Dict)
    ensures !BankNameGuard(conf)
  {}

  /** The parser name `parse_pdf` passes on: the conf's `parser`, or the
      default when it is missing or None; none when it is not a string. */
  function ParserName(conf: Dict): (r: Option<string>)
    ensures r.None? <==> Name("parser") in conf && !conf[Name("parser")].Str? && !conf[Name("parser")].Null?
    ensures Name("parser") !in conf ==> r == Some(DefaultParser)
    ensures Name("parser") in conf && conf[Name("parser")].Str? ==> r == Some(conf[Name("parser")].s)
  {
    match GetOr(conf, Name("parser"), Null)
    case Null => Some(DefaultParser)
    case Str(p) => Some(p)
    case _ => None
  }

  /** `parse_pdf(file_path, conf.get('parser'))`. The memoizer joins the
      path and the parser name with '-', so a parser that is not a string
      raises TypeError; then a file that is not a PDF gives None; then
      `file_to_pdf` looks the parser up by name, and a name the package
      does not define raises AttributeError. */
  function ConfText(doc: Document, conf: Dict): (r: Result<Option<string>>)
    ensures r.Err? <==> ParserName(conf).None? || (doc.Pdf? && ParserName(conf).value !in Parsers)
    ensures ParserName(conf).None? ==> r == Err(TypeError)
    ensures ParserName(conf).Some? && ParserName(conf).value !in Parsers && doc.Pdf? ==> r == Err(AttributeError)
    ensures ParserName(conf).Some? && doc.NotPdf? ==> r == Ok(None)
    ensures r.Ok? && doc.Pdf? ==> r == Ok(doc.extract(ParserName(conf).value))
    ensures Name("parser") !in conf ==> r == Ok(if doc.Pdf? then doc.extract(DefaultParser) else None)
  {
    match ParserName(conf)
    case None => Err(TypeError)
    case Some(p) =>
      if doc.NotPdf? then Ok(None)
      else if p !in Parsers then Err(AttributeError)
      else Ok(doc.extract(p))
  }

  /** The mandatory pattern `p` is either absent from the conf or found. */
  predicate Satisfied(env: Env, conf: Dict, text: string, p: string) {
    Name(p) in conf ==> Search(env, conf[Name(p)], text).Ok? && Search(env, conf[Name(p)], text).value.Some?
  }

  /** Searching the mandatory pattern `p` raises. */
  predicate Raises(env: Env, conf: Dict, text: string, p: string) {
    Name(p) in conf && Search(env, conf[Name(p)], text).Err?
  }

  /** `all([search(conf[p], text) for p in keys if p in conf])`: every
      search runs (none is skipped once one fails), so any raising search
      raises. */
  function AllFound(env: Env, conf: Dict, text: string, keys: seq<string>): (r: Result<bool>)
    ensures r.Err? <==> exists i | 0 <= i < |keys| :: Raises(env, conf, text, keys[i])
    ensures r == Ok(true) <==> forall i | 0 <= i < |keys| :: Satisfied(env, conf, text, keys[i])
    decreases |keys|
  {
    if keys == [] then Ok(true)
    else
      var first: Result<bool> :=
        if Name(keys[0]) in conf then
          var m :- Search(env, conf[Name(keys[0])], text);
          Ok(m.Some?)
        else Ok(true);
      var here :- first;
      var rest :- AllFound(env, conf, text, keys[1..]);
      assert forall i | 1 <= i < |keys| :: keys[i] == keys[1..][i - 1];
      Ok(here && rest)
  }

  function IsValidConf(env: Env, doc: Document, conf: Dict): Result<bool> {
    if BankNameGuard(conf) then Ok(false)
    else
      var text :- ConfText(doc, conf);
      if text.None? || text.value == "" then Ok(false)
      else AllFound(env, conf, text.value, MandatoryPatterns)
  }

  /** A conf applies to a document when its text is non-empty and every
      mandatory pattern it defines is found in that text. */
  predicate Applies(env: Env, doc: Document, conf: Dict) {
    && ConfText(doc, conf).Ok?
    && ConfText(doc, conf).value.Some?
    && ConfText(doc, conf).value.value != ""
    && forall i | 0 <= i < |MandatoryPatterns| :: Satisfied(env, conf, ConfText(doc, conf).value.value, MandatoryPatterns[i])
  }

  /** Trying a conf raises exactly when reading the document with its
      parser raises (a parser that is not a string, or an unknown parser
      for a PDF), or the text is non-empty and one of its mandatory
      patterns raises. */
  predicate ConfRaises(env: Env, doc: Document, conf: Dict) {
    || ConfText(doc, conf).Err?
    || (&& ConfText(doc, conf).value.Some?
        && ConfText(doc, conf).value.value != ""
        && exists i | 0 <= i < |MandatoryPatterns| :: Raises(env, conf, ConfText(doc, conf).value.value, MandatoryPatterns[i]))
  }

  lemma IsValidConfMeaning(env: Env, doc: Document, conf: Dict)
    ensures IsValidConf(env, doc, conf) == Ok(true) <==> Applies(env, doc, conf)
    ensures IsValidConf(env, doc, conf).Err? <==> ConfRaises(env, doc, conf)
  {
    BankNameGuardNeverRejects(conf);
  }

  /** A conf whose document yields no text is rejected without any search. */
  lemma EmptyTextRejected(env: Env, doc: Document, conf: Dict)
    requires ConfText(doc, conf).Ok?
    requires ConfText(doc, conf).value.None? || ConfText(doc, conf).value.value == ""
    ensures IsValidConf(env, doc, conf) == Ok(false)
  {
    BankNameGuardNeverRejects(conf);
  }

  /** A conf naming a parser the package does not define makes trying it
      on a PDF raise AttributeError, before any pattern is searched. */
  lemma UnknownParserRaises(env: Env, doc: Document, conf: Dict, parser: string)
    requires doc.Pdf? && Name("parser") in conf && conf[Name("parser")] == Str(parser)
    requires parser !in Parsers
    ensures IsValidConf(env, doc, conf) == Err(AttributeError)
    ensures ConfRaises(env, doc, conf)
  {
    BankNameGuardNeverRejects(conf);
  }

  /** The confs of the readable files, in enumeration order. */
  function AllConfs(files: seq<ConfFile>): (r: seq<Dict>)
    ensures forall f | f in files && f.Parsed? :: forall c | c in f.confs :: c in r
    ensures forall c | c in r :: exists f | f in files :: f.Parsed? && c in f.confs
  {
    if files == [] then []
    else
      var rest := AllConfs(files[1..]);
      assert forall f | f in files[1..] :: f in files;
      (if files[0].Parsed? then files[0].confs else []) + rest
  }

  /** The matching confs of a sequence of confs, in order. */
  function SelectConfs(env: Env, doc: Document, confs: seq<Dict>): (r: Result<seq<Dict>>)
    ensures r.Err? <==> exists c | c in confs :: ConfRaises(env, doc, c)
    ensures r.Ok? ==> forall c :: c in r.value <==> c in confs && Applies(env, doc, c)
    ensures r.Ok? ==> |r.value| <= |confs|
    decreases |confs|
  {
    if confs == [] then Ok([])
    else
      IsValidConfMeaning(env, doc, confs[0]);
      var keep :- IsValidConf(env, doc, confs[0]);
      var rest :- SelectConfs(env, doc, confs[1..]);
      assert forall c | c in confs :: c == confs[0] || c in confs[1..];
      Ok(if keep then [confs[0]] + rest else rest)
  }

  /** The loop of `find_confs` over the conf files. */
  function CollectConfs(env: Env, doc: Document, files: seq<ConfFile>): (r: Result<seq<Dict>>)
    ensures (exists f | f in files :: f.Unreadable?) ==> r.Err?
    ensures r.Err? <==> (exists f | f in files :: f.Unreadable?)
                        || exists c | c in AllConfs(files) :: ConfRaises(env, doc, c)
    ensures r.Ok? ==> forall c :: c in r.value <==> c in AllConfs(files) && Applies(env, doc, c)
    decreases |files|
  {
    if files == [] then Ok([])
    else if files[0].Unreadable? then Err(AttributeError)
    else
      var here :- SelectConfs(env, doc, files[0].confs);
      var rest :- CollectConfs(env, doc, files[1..]);
      assert forall f | f in files :: f == files[0] || f in files[1..];
      Ok(here + rest)
  }

  /** `find_confs`: with verbose == 2 an empty result triggers one more
      identical pass at verbosity 3. */
  function FindConfs(env: Env, doc: Document, files: seq<ConfFile>, verbose: int): Result<seq<Dict>>
    decreases if verbose == 2 then 1 else 0
  {
    var matching :- CollectConfs(env, doc, files);
    if |matching| == 0 && verbose == 2 then FindConfs(env, doc, files, verbose + 1)
    else Ok(matching)
  }

  /** The verbose retry repeats the same pass, so verbosity never changes
      which confs are found, nor their order. */
  lemma FindConfsIgnoresVerbosity(env: Env, doc: Document, files: seq<ConfFile>, verbose: int)
    ensures FindConfs(env, doc, files, verbose) == FindConfs(env, doc, files, 0)
    ensures FindConfs(env, doc, files, verbose) == CollectConfs(env, doc, files)
    ensures FindConfs(env, doc, files, verbose).Ok? ==>
              forall c :: c in FindConfs(env, doc, files, verbose).value <==> c in AllConfs(files) && Applies(env, doc, c)
  {}

  /** Two passes run one after the other: the first error, else both
      results in order. */
  function Joined(x: Result<seq<Dict>>, y: Result<seq<Dict>>): Result<seq<Dict>> {
    if x.Err? then x else if y.Err? then y else Ok(x.value + y.value)
  }

  lemma JoinedAssoc(x: Result<seq<Dict>>, y: Result<seq<Dict>>, z: Result<seq<Dict>>)
    ensures Joined(x, Joined(y, z)) == Joined(Joined(x, y), z)
  {
    if x.Ok? && y.Ok? && z.Ok? {
      assert x.value + (y.value + z.value) == (x.value + y.value) + z.value;
    }
  }

  /** The confs of consecutive runs of files follow one another: files
      are read in order, and each file's confs in its own order. */
  lemma {:induction false} AllConfsAppend(a: seq<ConfFile>, b: seq<ConfFile>)
    ensures AllConfs(a + b) == AllConfs(a) + AllConfs(b)
    decreases |a|
  {
    if a == [] {
      assert a + b == b;
    } else {
      assert (a + b)[0] == a[0] && (a + b)[1..] == a[1..] + b;
      AllConfsAppend(a[1..], b);
      var here := if a[0].Parsed? then a[0].confs else [];
      assert here + (AllConfs(a[1..]) + AllConfs(b)) == (here + AllConfs(a[1..])) + AllConfs(b);
    }
  }

  /** A single file contributes its own confs, in their order. */
  lemma AllConfsOfOne(f: ConfFile)
    ensures AllConfs([f]) == if f.Parsed? then f.confs else []
  {
    assert [f][1..] == [];
    if f.Parsed? {
      assert f.confs + [] == f.confs;
    }
  }

  /** Trying one conf keeps it exactly when it applies, and raises with
      the error trying it raises. */
  lemma SelectConfsOne(env: Env, doc: Document, c: Dict)
    ensures SelectConfs(env, doc, [c]).Err? <==> ConfRaises(env, doc, c)
    ensures SelectConfs(env, doc, [c]).Err? ==> SelectConfs(env, doc, [c]).error == IsValidConf(env, doc, c).error
    ensures SelectConfs(env, doc, [c]).Ok? ==> SelectConfs(env, doc, [c]).value == if Applies(env, doc, c) then [c] else []
  {
    IsValidConfMeaning(env, doc, c);
    assert [c][1..] == [];
    assert [c] + [] == [c];
  }

  /** The first conf is tried before the rest. */
  lemma SelectConfsCons(env: Env, doc: Document, c: Dict, rest: seq<Dict>)
    ensures SelectConfs(env, doc, [c] + rest) == Joined(SelectConfs(env, doc, [c]), SelectConfs(env, doc, rest))
  {
    assert ([c] + rest)[0] == c && ([c] + rest)[1..] == rest;
    assert [c][1..] == [];
    var keep := IsValidConf(env, doc, c);
    if keep.Ok? {
      var here: seq<Dict> := if keep.value then [c] else [];
      assert SelectConfs(env, doc, []) == Ok([]);
      assert here + [] == here;
      assert SelectConfs(env, doc, [c]) == Ok(here);
      var y := SelectConfs(env, doc, rest);
      if y.Ok? {
        assert [] + y.value == y.value;
        assert SelectConfs(env, doc, [c] + rest) == Ok(here + y.value);
      } else {
        assert SelectConfs(env, doc, [c] + rest) == Err(y.error);
      }
    } else {
      assert SelectConfs(env, doc, [c]) == Err(keep.error);
      assert SelectConfs(env, doc, [c] + rest) == Err(keep.error);
    }
  }

  /** Selecting from consecutive runs of confs is selecting from the first
      run and then from the second: order and repeats are kept, and the
      first error wins. */
  lemma {:induction false} SelectConfsAppend(env: Env, doc: Document, a: seq<Dict>, b: seq<Dict>)
    ensures SelectConfs(env, doc, a + b) == Joined(SelectConfs(env, doc, a), SelectConfs(env, doc, b))
    decreases |a|
  {
    if a == [] {
      assert a + b == b;
      var y := SelectConfs(env, doc, b);
      if y.Ok? {
        assert [] + y.value == y.value;
      }
    } else {
      var c, tail := a[0], a[1..];
      assert a == [c] + tail && a + b == [c] + (tail + b);
      SelectConfsCons(env, doc, c, tail + b);
      SelectConfsAppend(env, doc, tail, b);
      JoinedAssoc(SelectConfs(env, doc, [c]), SelectConfs(env, doc, tail), SelectConfs(env, doc, b));
      SelectConfsCons(env, doc, c, tail);
    }
  }

  /** Slicing after dropping the head. */
  lemma SliceOfTail<T>(s: seq<T>, k: nat)
    requires 0 < k <= |s|
    ensures s[..k] == [s[0]] + s[1..][..k - 1]
    ensures s[1..][k - 1..] == s[k..]
  {}

  /** A readable first file is searched before the rest. */
  lemma CollectConfsCons(env: Env, doc: Document, files: seq<ConfFile>)
    requires files != [] && files[0].Parsed?
    ensures CollectConfs(env, doc, files)
         == Joined(SelectConfs(env, doc, files[0].confs), CollectConfs(env, doc, files[1..]))
  {
    var x := SelectConfs(env, doc, files[0].confs);
    var y := CollectConfs(env, doc, files[1..]);
    if x.Ok? && y.Ok? {
      assert CollectConfs(env, doc, files) == Ok(x.value + y.value);
    }
  }

  /** Over readable files the loop of `find_confs` selects from the files'
      confs joined in order, then goes on with the remaining files. */
  lemma {:induction false} CollectConfsUpTo(env: Env, doc: Document, files: seq<ConfFile>, k: nat)
    requires k <= |files| && forall j | 0 <= j < k :: files[j].Parsed?
    ensures CollectConfs(env, doc, files)
         == Joined(SelectConfs(env, doc, AllConfs(files[..k])), CollectConfs(env, doc, files[k..]))
    decreases k
  {
    if k == 0 {
      assert files[..0] == [] && files[0..] == files;
      assert AllConfs([]) == [];
      assert SelectConfs(env, doc, []) == Ok([]);
      var y := CollectConfs(env, doc, files);
      if y.Ok? {
        assert [] + y.value == y.value;
      }
    } else {
      var tail := files[1..];
      var before := tail[..k - 1];
      var x := SelectConfs(env, doc, files[0].confs);
      var m := SelectConfs(env, doc, AllConfs(before));
      var z := CollectConfs(env, doc, files[k..]);
      assert CollectConfs(env, doc, files) == Joined(x, Joined(m, z)) by {
        CollectConfsCons(env, doc, files);
        CollectConfsUpTo(env, doc, tail, k - 1);
        SliceOfTail(files, k);
      }
      assert SelectConfs(env, doc, AllConfs(files[..k])) == Joined(x, m) by {
        SliceOfTail(files, k);
        AllConfsAppend([files[0]], before);
        AllConfsOfOne(files[0]);
        SelectConfsAppend(env, doc, files[0].confs, AllConfs(before));
      }
      JoinedAssoc(x, m, z);
    }
  }

  /** With every file readable, `find_confs` keeps the applicable confs in
      file-then-conf order. */
  lemma CollectConfsAllReadable(env: Env, doc: Document, files: seq<ConfFile>)
    requires forall f | f in files :: f.Parsed?
    ensures CollectConfs(env, doc, files) == SelectConfs(env, doc, AllConfs(files))
  {
    CollectConfsUpTo(env, doc, files, |files|);
    assert files[..|files|] == files;
    assert CollectConfs(env, doc, files[|files|..]) == Ok([]);
    var x := SelectConfs(env, doc, AllConfs(files));
    if x.Ok? {
      assert x.value + [] == x.value;
    }
  }

  /** The first unreadable file raises AttributeError, unless a conf of an
      earlier file raised first. */
  lemma CollectConfsStopsAtUnreadable(env: Env, doc: Document, files: seq<ConfFile>, k: nat)
    requires k < |files| && files[k].Unreadable?
    requires forall j | 0 <= j < k :: files[j].Parsed?
    ensures CollectConfs(env, doc, files) == Joined(SelectConfs(env, doc, AllConfs(files[..k])), Err(AttributeError))
  {
    CollectConfsUpTo(env, doc, files, k);
    assert files[k..][0] == files[k];
  }
}
