/** The external capabilities the extractor calls, as uninterpreted
    functions, and the package's `search`/`findall` wrappers that try a
    pattern or a list of alternative patterns in order. */
module Patterns {
  import opened Results
  import opened Dates
  import opened Values

  /** One item of `re.findall`: a plain string when the pattern has zero or
      one group, a tuple of group strings when it has more. */
  datatype Found = Whole(text: string) | Groups(groups: seq<string>)

  /** The oracles: `re.search(p, t).groups()` (None when nothing matches),
      `re.findall(p, t)`, `float(s)` (None when it raises ValueError) and
      `dateutil.parser.parse(s).date()` (None when it raises). */
  datatype Env = Env(
    search: (string, string) -> Option<seq<string>>,
    findall: (string, string) -> seq<Found>,
    parseFloat: string -> Option<real>,
    parseDate: string -> Option<CalDate>)

  /** `pattern if isinstance(pattern, list) else [pattern]`. */
  function Alternatives(pattern: Value): seq<Value> {
    if pattern.Items? then pattern.xs else [pattern]
  }

  /** Alternative `p` is a string pattern that `re.search` does not match. */
  predicate SearchMisses(env: Env, p: Value, text: string) {
    p.Str? && env.search(p.s, text).None?
  }

  /** Alternative `p` is a string pattern for which `re.findall` is empty. */
  predicate FindAllMisses(env: Env, p: Value, text: string) {
    p.Str? && env.findall(p.s, text) == []
  }

  /** `search` over a list of alternatives: the groups of the first
      alternative that matches; None when none does. A non-string
      alternative reached before any match makes `re.search` raise. */
  function SearchAlternatives(env: Env, alts: seq<Value>, text: string): (r: Result<Option<seq<string>>>)
    ensures r == Ok(None) <==> forall i | 0 <= i < |alts| :: SearchMisses(env, alts[i], text)
    ensures forall i | 0 <= i < |alts| ::
              (forall j | 0 <= j < i :: SearchMisses(env, alts[j], text)) ==>
                (alts[i].Str? && env.search(alts[i].s, text).Some? ==> r == Ok(env.search(alts[i].s, text)))
                && (!alts[i].Str? ==> r == Err(TypeError))
    ensures r.Err? ==> r.error == TypeError
    decreases |alts|
  {
    if alts == [] then Ok(None)
    else if !alts[0].Str? then Err(TypeError)
    else
      match env.search(alts[0].s, text)
      case Some(groups) => Ok(Some(groups))
      case None => SearchAlternatives(env, alts[1..], text)
  }

  /** `findall` over a list of alternatives: the (non-empty) list of the
      first alternative that finds anything; None when none does. */
  function FindAllAlternatives(env: Env, alts: seq<Value>, text: string): (r: Result<Option<seq<Found>>>)
    ensures r == Ok(None) <==> forall i | 0 <= i < |alts| :: FindAllMisses(env, alts[i], text)
    ensures r.Ok? && r.value.Some? ==> r.value.value != []
    ensures forall i | 0 <= i < |alts| ::
              (forall j | 0 <= j < i :: FindAllMisses(env, alts[j], text)) ==>
                (alts[i].Str? && env.findall(alts[i].s, text) != [] ==> r == Ok(Some(env.findall(alts[i].s, text))))
                && (!alts[i].Str? ==> r == Err(TypeError))
    ensures r.Err? ==> r.error == TypeError
    decreases |alts|
  {
    if alts == [] then Ok(None)
    else if !alts[0].Str? then Err(TypeError)
    else
      var found := env.findall(alts[0].s, text);
      if found != [] then Ok(Some(found))
      else FindAllAlternatives(env, alts[1..], text)
  }

  function Search(env: Env, pattern: Value, text: string): Result<Option<seq<string>>> {
    SearchAlternatives(env, Alternatives(pattern), text)
  }

  function FindAll(env: Env, pattern: Value, text: string): Result<Option<seq<Found>>> {
    FindAllAlternatives(env, Alternatives(pattern), text)
  }

  /** A bare pattern behaves as a one-element list of alternatives. */
  lemma BarePattern(env: Env, pattern: Value, text: string)
    requires !pattern.Items?
    ensures Search(env, pattern, text)
         == if pattern.Str? then Ok(env.search(pattern.s, text)) else Err(TypeError)
    ensures FindAll(env, pattern, text)
         == if !pattern.Str? then Err(TypeError)
            else if env.findall(pattern.s, text) == [] then Ok(None)
            else Ok(Some(env.findall(pattern.s, text)))
  {
    assert Alternatives(pattern) == [pattern];
  }

  /** The captured strings of one findall item as `*item` and `for c in item`
      see them: a tuple yields its groups, but a plain string yields its
      characters one by one. */
  function Unpack(f: Found): (r: seq<string>)
    ensures f.Groups? ==> r == f.groups
    ensures f.Whole? ==> |r| == |f.text| && forall i | 0 <= i < |r| :: r[i] == [f.text[i]]
  {
    match f
    case Groups(gs) => gs
    case Whole(s) => seq(|s|, i requires 0 <= i < |s| => [s[i]])
  }
}
