/** The part of Python's `str.format` the extraction templates use: literal
    text with `{{`/`}}` escapes, automatically numbered `{}` fields and
    explicitly numbered `{n}` fields, applied to positional string
    arguments. Extra arguments are ignored, as in Python. */
module Template {
  import opened Results

  datatype Piece = Lit(c: char) | Auto | Indexed(n: nat)

  /** How fields have been numbered so far; Python refuses to mix the two
      styles in one template. */
  datatype Numbering = Fresh | Automatic | Manual

  predicate IsDigit(c: char) {
    '0' <= c <= '9'
  }

  predicate AllDigits(s: string) {
    forall i | 0 <= i < |s| :: IsDigit(s[i])
  }

  /** `int(s)` for a non-empty string of ASCII digits. */
  function DigitsValue(s: string): nat
    requires AllDigits(s)
  {
    if s == [] then 0
    else DigitsValue(s[..|s| - 1]) * 10 + (s[|s| - 1] as int - '0' as int)
  }

  /** The decimal digits of `n` with no leading zero. */
  function Decimal(n: nat): (s: string)
    ensures |s| >= 1 && AllDigits(s)
  {
    if n < 10 then ["0123456789"[n]]
    else Decimal(n / 10) + ["0123456789"[n % 10]]
  }

  lemma {:induction false} DecimalRoundTrip(n: nat)
    ensures DigitsValue(Decimal(n)) == n
  {
    var s := Decimal(n);
    if n >= 10 {
      DecimalRoundTrip(n / 10);
      assert s[..|s| - 1] == Decimal(n / 10);
    }
  }

  /** Index of the first `}` in `t` at or after `i`, or `|t|` if there is none. */
  function FindClose(t: string, i: nat): (j: nat)
    requires i <= |t|
    ensures i <= j <= |t|
    ensures j < |t| ==> t[j] == '}'
    ensures forall k | i <= k < j :: t[k] != '}'
    decreases |t| - i
  {
    if i == |t| || t[i] == '}' then i else FindClose(t, i + 1)
  }

  /** The meaning of the text between `{` and `}`. */
  function FieldOf(name: string): Result<Piece> {
    if name == [] then Ok(Auto)
    else if AllDigits(name) then Ok(Indexed(DigitsValue(name)))
    else if exists i | 0 <= i < |name| :: name[i] in ":!.[" then Err(Unsupported)
    else if exists i | 0 <= i < |name| :: name[i] == '{' then Err(ValueError)
    else Err(KeyError)  // a named field, and `format` gets no keyword arguments
  }

  /** Split a template into pieces; unbalanced braces raise ValueError. */
  function Parse(t: string): Result<seq<Piece>>
    decreases |t|
  {
    if t == [] then Ok([])
    else if t[0] == '{' then
      if |t| >= 2 && t[1] == '{' then
        var rest :- Parse(t[2..]);
        Ok([Lit('{')] + rest)
      else
        var close := FindClose(t, 1);
        if close == |t| then Err(ValueError)
        else
          var field :- FieldOf(t[1..close]);
          var rest :- Parse(t[close + 1..]);
          Ok([field] + rest)
    else if t[0] == '}' then
      if |t| >= 2 && t[1] == '}' then
        var rest :- Parse(t[2..]);
        Ok([Lit('}')] + rest)
      else Err(ValueError)
    else
      var rest :- Parse(t[1..]);
      Ok([Lit(t[0])] + rest)
  }

  /** Substitute arguments into pieces, left to right. */
  function Render(ps: seq<Piece>, args: seq<string>, mode: Numbering, next: nat): Result<string>
    decreases |ps|
  {
    if ps == [] then Ok([])
    else match ps[0]
      case Lit(c) =>
        var rest :- Render(ps[1..], args, mode, next);
        Ok([c] + rest)
      case Auto =>
        if mode == Manual then Err(ValueError)
        else if next >= |args| then Err(IndexError)
        else
          var rest :- Render(ps[1..], args, Automatic, next + 1);
          Ok(args[next] + rest)
      case Indexed(n) =>
        if mode == Automatic then Err(ValueError)
        else if n >= |args| then Err(IndexError)
        else
          var rest :- Render(ps[1..], args, Manual, next);
          Ok(args[n] + rest)
  }

  /** The numbering after substituting `p`. */
  function ModeAfter(p: Piece, mode: Numbering): Numbering {
    match p
    case Lit(_) => mode
    case Auto => Automatic
    case Indexed(_) => Manual
  }

  /** The next automatic index after substituting `p`. */
  function NextAfter(p: Piece, next: nat): nat {
    if p.Auto? then next + 1 else next
  }

  /** `template.format(*args)`: Python reads the template left to right and
      substitutes each field as soon as it has read it. */
  function Format(template: string, args: seq<string>): (r: Result<string>)
    ensures Parse(template).Ok? ==> r == Render(Parse(template).value, args, Fresh, 0)
    ensures Parse(template).Err? ==> r.Err?
  {
    FormatParsed(template, args, Fresh, 0);
    FormatFrom(template, args, Fresh, 0)
  }

  /** `Format` from the text `t` on, with the numbering `mode` and the next
      automatic index `next` of the text before it. */
  function FormatFrom(t: string, args: seq<string>, mode: Numbering, next: nat): Result<string>
    decreases |t|
  {
    if t == [] then Ok([])
    else if t[0] == '{' then
      if |t| >= 2 && t[1] == '{' then
        var rest :- FormatFrom(t[2..], args, mode, next);
        Ok("{" + rest)
      else
        var close := FindClose(t, 1);
        if close == |t| then Err(ValueError)
        else
          var field :- FieldOf(t[1..close]);
          var value :- Render([field], args, mode, next);
          var rest :- FormatFrom(t[close + 1..], args, ModeAfter(field, mode), NextAfter(field, next));
          Ok(value + rest)
    else if t[0] == '}' then
      if |t| >= 2 && t[1] == '}' then
        var rest :- FormatFrom(t[2..], args, mode, next);
        Ok("}" + rest)
      else Err(ValueError)
    else
      var rest :- FormatFrom(t[1..], args, mode, next);
      Ok([t[0]] + rest)
  }

  /** Rendering a piece and then the rest is rendering both. */
  lemma RenderCons(p: Piece, ps: seq<Piece>, args: seq<string>, mode: Numbering, next: nat)
    ensures Render([p], args, mode, next).Err? ==> Render([p] + ps, args, mode, next) == Render([p], args, mode, next)
    ensures Render([p], args, mode, next).Ok? ==>
              var rest := Render(ps, args, ModeAfter(p, mode), NextAfter(p, next));
              Render([p] + ps, args, mode, next)
                == if rest.Ok? then Ok(Render([p], args, mode, next).value + rest.value) else rest
  {
    var qs := [p] + ps;
    assert qs[0] == p && qs[1..] == ps && [p][1..] == [];
    match p
    case Lit(c) =>
      assert Render([p], args, mode, next) == Ok([c] + []);
      assert [c] + [] == [c];
    case Auto =>
      if mode != Manual && next < |args| {
        assert Render([p], args, mode, next) == Ok(args[next] + []);
        assert args[next] + [] == args[next];
      }
    case Indexed(n) =>
      if mode != Automatic && n < |args| {
        assert Render([p], args, mode, next) == Ok(args[n] + []);
        assert args[n] + [] == args[n];
      }
  }

  /** Substituting fields while reading gives what parsing the whole
      template and then rendering it gives; a template that does not parse
      raises either way. Only the kind of error can differ: a field that
      raises before a malformed brace raises first. */
  lemma {:induction false} FormatParsed(t: string, args: seq<string>, mode: Numbering, next: nat)
    ensures Parse(t).Ok? ==> FormatFrom(t, args, mode, next) == Render(Parse(t).value, args, mode, next)
    ensures Parse(t).Err? ==> FormatFrom(t, args, mode, next).Err?
    decreases |t|
  {
    if t == [] {
    } else if t[0] == '{' && |t| >= 2 && t[1] == '{' {
      FormatParsed(t[2..], args, mode, next);
      if Parse(t[2..]).Ok? {
        RenderCons(Lit('{'), Parse(t[2..]).value, args, mode, next);
      }
    } else if t[0] == '{' {
      var close := FindClose(t, 1);
      if close < |t| && FieldOf(t[1..close]).Ok? {
        var field := FieldOf(t[1..close]).value;
        FormatParsed(t[close + 1..], args, ModeAfter(field, mode), NextAfter(field, next));
        if Parse(t[close + 1..]).Ok? {
          RenderCons(field, Parse(t[close + 1..]).value, args, mode, next);
        }
      }
    } else if t[0] == '}' && |t| >= 2 && t[1] == '}' {
      FormatParsed(t[2..], args, mode, next);
      if Parse(t[2..]).Ok? {
        RenderCons(Lit('}'), Parse(t[2..]).value, args, mode, next);
      }
    } else if t[0] != '}' {
      FormatParsed(t[1..], args, mode, next);
      if Parse(t[1..]).Ok? {
        RenderCons(Lit(t[0]), Parse(t[1..]).value, args, mode, next);
      }
    }
  }

  /** `"{}x}".format()` raises IndexError for its field, which Python
      substitutes before it reads the stray `}` that makes the template
      malformed. */
  lemma FieldRaisesBeforeBrace()
    ensures Parse("{}x}") == Err(ValueError)
    ensures Format("{}x}", []) == Err(IndexError)
  {
    var t := "{}x}";
    assert FindClose(t, 1) == 1;
    assert t[1..1] == [] && t[2..] == "x}" && "x}"[1..] == "}";
    assert Parse("}") == Err(ValueError);
    assert Parse("x}") == Err(ValueError);
    assert Render([Auto], [], Fresh, 0) == Err(IndexError);
  }

  /** The template text that denotes `ps`. */
  function Unparse(ps: seq<Piece>): string
    decreases |ps|
  {
    if ps == [] then []
    else UnparseHead(ps[0]) + Unparse(ps[1..])
  }

  /** The template text of one piece. */
  function UnparseHead(p: Piece): string {
    match p
    case Lit(c) => if c == '{' then "{{" else if c == '}' then "}}" else [c]
    case Auto => "{}"
    case Indexed(n) => "{" + Decimal(n) + "}"
  }

  lemma FindCloseAfter(name: string, rest: string)
    requires forall i | 0 <= i < |name| :: name[i] != '}'
    ensures FindClose("{" + name + "}" + rest, 1) == |name| + 1
  {
    var t := "{" + name + "}" + rest;
    assert t[|name| + 1] == '}';
    assert forall k | 1 <= k < |name| + 1 :: t[k] == name[k - 1];
  }

  /** One field at the head of a template. */
  lemma ParseFieldStep(name: string, rest: string, f: Piece, r: seq<Piece>)
    requires forall i | 0 <= i < |name| :: name[i] != '}'
    requires name == [] || name[0] != '{'
    requires FieldOf(name) == Ok(f) && Parse(rest) == Ok(r)
    ensures Parse("{" + name + "}" + rest) == Ok([f] + r)
  {
    var t := "{" + name + "}" + rest;
    FindCloseAfter(name, rest);
    assert t[1..|name| + 1] == name;
    assert t[|name| + 2..] == rest;
  }

  /** One plain character at the head of a template. */
  lemma ParseLitStep(c: char, rest: string, r: seq<Piece>)
    requires c != '{' && c != '}' && Parse(rest) == Ok(r)
    ensures Parse([c] + rest) == Ok([Lit(c)] + r)
  {
    assert ([c] + rest)[1..] == rest;
  }

  /** A doubled brace at the head of a template. */
  lemma ParseEscapeStep(c: char, rest: string, r: seq<Piece>)
    requires (c == '{' || c == '}') && Parse(rest) == Ok(r)
    ensures Parse([c, c] + rest) == Ok([Lit(c)] + r)
  {
    assert ([c, c] + rest)[2..] == rest;
  }

  /** Every piece sequence is recovered from its template text: the parser
      and the printer agree on escapes and field syntax. */
  lemma {:induction false} ParseUnparse(ps: seq<Piece>)
    ensures Parse(Unparse(ps)) == Ok(ps)
    decreases |ps|
  {
    if ps != [] {
      ParseUnparse(ps[1..]);
      ParseHead(ps[0], Unparse(ps[1..]), ps[1..]);
      assert ps == [ps[0]] + ps[1..];
    }
  }

  /** The text of one piece in front of a text that parses to `r`. */
  lemma ParseHead(p: Piece, rest: string, r: seq<Piece>)
    requires Parse(rest) == Ok(r)
    ensures Parse(UnparseHead(p) + rest) == Ok([p] + r)
  {
    match p
    case Lit(c) =>
      if c == '{' || c == '}' {
        assert UnparseHead(p) + rest == [c, c] + rest;
        ParseEscapeStep(c, rest, r);
      } else {
        assert UnparseHead(p) + rest == [c] + rest;
        ParseLitStep(c, rest, r);
      }
    case Auto =>
      assert UnparseHead(p) + rest == "{" + "" + "}" + rest;
      ParseFieldStep("", rest, Auto, r);
    case Indexed(n) =>
      DecimalRoundTrip(n);
      ParseFieldStep(Decimal(n), rest, Indexed(n), r);
  }

  /** `"{}" * k`. */
  function AutoFields(k: nat): string {
    if k == 0 then [] else "{}" + AutoFields(k - 1)
  }

  function Autos(k: nat): seq<Piece> {
    if k == 0 then [] else [Auto] + Autos(k - 1)
  }

  function Concat(xs: seq<string>): string {
    if xs == [] then [] else xs[0] + Concat(xs[1..])
  }

  lemma {:induction false} ParseAutoFields(k: nat, tail: string)
    requires Parse(tail).Ok?
    ensures Parse(AutoFields(k) + tail) == Ok(Autos(k) + Parse(tail).value)
  {
    var r := Parse(tail).value;
    if k > 0 {
      var rest := AutoFields(k - 1) + tail;
      ParseAutoFields(k - 1, tail);
      ParseFieldStep("", rest, Auto, Autos(k - 1) + r);
      AutoFieldsStep(k, tail);
      AutosStep(k, r);
    } else {
      assert AutoFields(0) + tail == tail;
      assert Autos(0) + r == r;
    }
  }

  lemma AutoFieldsStep(k: nat, tail: string)
    requires k > 0
    ensures "{" + "" + "}" + (AutoFields(k - 1) + tail) == AutoFields(k) + tail
  {}

  lemma AutosStep(k: nat, r: seq<Piece>)
    requires k > 0
    ensures [Auto] + (Autos(k - 1) + r) == Autos(k) + r
  {}

  lemma ParsePointField()
    ensures Parse(".{}") == Ok([Lit('.'), Auto])
    ensures Parse("{}") == Ok([Auto])
  {
    ParseFieldStep("", "", Auto, []);
    assert [Auto] + [] == [Auto];
    assert Parse("{" + "" + "}" + "") == Ok([Auto]);
    assert "{" + "" + "}" + "" == "{}";
    ParseLitStep('.', "{}", [Auto]);
    assert [Lit('.')] + [Auto] == [Lit('.'), Auto];
    assert Parse(['.'] + "{}") == Ok([Lit('.'), Auto]);
    assert ['.'] + "{}" == ".{}";
  }

  lemma {:induction false} RenderAutos(k: nat, tail: seq<Piece>, args: seq<string>, mode: Numbering, next: nat)
    requires k > 0 && mode != Manual && next + k <= |args|
    ensures var r := Render(tail, args, Automatic, next + k);
            Render(Autos(k) + tail, args, mode, next)
              == if r.Ok? then Ok(Concat(args[next..next + k]) + r.value) else r
  {
    var ps := Autos(k) + tail;
    assert ps[0] == Auto;
    assert ps[1..] == Autos(k - 1) + tail;
    var xs := args[next..next + k];
    assert xs[0] == args[next];
    assert Concat(xs) == args[next] + Concat(xs[1..]);
    var r := Render(tail, args, Automatic, next + k);
    if k == 1 {
      assert Autos(0) + tail == tail;
      assert xs[1..] == [];
      if r.Ok? {
        assert Concat(xs) + r.value == args[next] + r.value;
      }
    } else {
      RenderAutos(k - 1, tail, args, Automatic, next + 1);
      assert xs[1..] == args[next + 1..next + k];
      if r.Ok? {
        assert args[next] + (Concat(xs[1..]) + r.value) == Concat(xs) + r.value;
      }
    }
  }

  /** The amount template the package guesses for `n` captured groups:
      all groups but the last form the integer part, the last one the
      fraction. */
  function DefaultAmountTemplate(n: nat): string {
    if n > 1 then AutoFields(n - 1) + ".{}" else "{}"
  }

  /** The guessed template joins the groups around a single decimal point,
      and passes a lone group through unchanged. */
  lemma DefaultAmountFormat(args: seq<string>)
    requires |args| >= 1
    ensures |args| > 1 ==>
      Format(DefaultAmountTemplate(|args|), args) == Ok(Concat(args[..|args| - 1]) + "." + args[|args| - 1])
    ensures |args| == 1 ==> Format(DefaultAmountTemplate(1), args) == Ok(args[0])
  {
    var n := |args|;
    ParsePointField();
    if n > 1 {
      var tail := [Lit('.'), Auto];
      ParseAutoFields(n - 1, ".{}");
      assert tail[1..] == [Auto] && tail[1..][1..] == [];
      assert Render(tail, args, Automatic, n - 1) == Ok("." + (args[n - 1] + []));
      RenderAutos(n - 1, tail, args, Fresh, 0);
      assert args[0..n - 1] == args[..n - 1];
      assert Concat(args[..n - 1]) + ("." + (args[n - 1] + [])) == Concat(args[..n - 1]) + "." + args[n - 1];
    } else {
      FormatSingleField(args);
    }
  }

  /** `"{}".format(*args)` is the first argument, and raises on no arguments. */
  lemma FormatSingleField(args: seq<string>)
    ensures Format("{}", args) == if |args| == 0 then Err(IndexError) else Ok(args[0])
  {
    ParsePointField();
    if |args| > 0 {
      assert [Auto][1..] == [];
      assert Render([Auto], args, Fresh, 0) == Ok(args[0] + []);
      assert args[0] + [] == args[0];
    }
  }

  lemma FieldOfDigit(c: char)
    requires IsDigit(c)
    ensures FieldOf([c]) == Ok(Indexed(c as int - '0' as int))
  {
    assert [c][0] == c;
    assert AllDigits([c]);
    assert [c][..0] == [];
    assert DigitsValue([c]) == c as int - '0' as int;
  }

  lemma ParseDashField(c: char, rest: string, r: seq<Piece>)
    requires IsDigit(c) && Parse(rest) == Ok(r)
    ensures Parse(['-', '{', c, '}'] + rest) == Ok([Lit('-'), Indexed(c as int - '0' as int)] + r)
  {
    var d := c as int - '0' as int;
    var r1 := [Indexed(d)] + r;
    FieldOfDigit(c);
    ParseFieldStep([c], rest, Indexed(d), r);
    assert "{" + [c] + "}" + rest == ['{', c, '}'] + rest;
    assert Parse(['{', c, '}'] + rest) == Ok(r1);
    ParseLitStep('-', ['{', c, '}'] + rest, r1);
    assert [Lit('-')] + r1 == [Lit('-'), Indexed(d)] + r;
    assert ['-'] + (['{', c, '}'] + rest) == ['-', '{', c, '}'] + rest;
  }

  /** Three single-digit fields joined by dashes. */
  lemma ParseDashedDigits(a: char, b: char, c: char)
    requires IsDigit(a) && IsDigit(b) && IsDigit(c)
    ensures Parse(['{', a, '}', '-', '{', b, '}', '-', '{', c, '}'])
         == Ok([Indexed(a as int - '0' as int), Lit('-'), Indexed(b as int - '0' as int), Lit('-'), Indexed(c as int - '0' as int)])
  {
    var p1 := [Lit('-'), Indexed(c as int - '0' as int)];
    var s1 := ['-', '{', c, '}'];
    assert Parse(s1) == Ok(p1) by {
      ParseDashField(c, [], []);
      assert s1 + [] == s1 && p1 + [] == p1;
    }
    var p2 := [Lit('-'), Indexed(b as int - '0' as int)] + p1;
    var s2 := ['-', '{', b, '}'] + s1;
    assert Parse(s2) == Ok(p2) by {
      ParseDashField(b, s1, p1);
    }
    assert Parse("{" + [a] + "}" + s2) == Ok([Indexed(a as int - '0' as int)] + p2) by {
      FieldOfDigit(a);
      ParseFieldStep([a], s2, Indexed(a as int - '0' as int), p2);
    }
    assert "{" + [a] + "}" + s2 == ['{', a, '}', '-', '{', b, '}', '-', '{', c, '}'];
    assert [Indexed(a as int - '0' as int)] + p2
        == [Indexed(a as int - '0' as int), Lit('-'), Indexed(b as int - '0' as int), Lit('-'), Indexed(c as int - '0' as int)];
  }

  lemma ParseReversedDate()
    ensures Parse("{2}-{1}-{0}") == Ok([Indexed(2), Lit('-'), Indexed(1), Lit('-'), Indexed(0)])
  {
    ParseDashedDigits('2', '1', '0');
  }

  /** A literal at the head of the pieces. */
  lemma RenderLitStep(c: char, tail: seq<Piece>, args: seq<string>, mode: Numbering, next: nat, s: string)
    requires Render(tail, args, mode, next) == Ok(s)
    ensures Render([Lit(c)] + tail, args, mode, next) == Ok([c] + s)
  {
    assert ([Lit(c)] + tail)[1..] == tail;
  }

  /** A numbered field at the head of the pieces. */
  lemma RenderIndexedStep(n: nat, tail: seq<Piece>, args: seq<string>, mode: Numbering, next: nat, s: string)
    requires mode != Automatic && n < |args| && Render(tail, args, Manual, next) == Ok(s)
    ensures Render([Indexed(n)] + tail, args, mode, next) == Ok(args[n] + s)
  {
    assert ([Indexed(n)] + tail)[1..] == tail;
  }

  /** Three numbered fields joined by one separator character. */
  lemma RenderThreeFields(a: nat, b: nat, c: nat, sep: char, args: seq<string>)
    requires a < |args| && b < |args| && c < |args|
    ensures Render([Indexed(a), Lit(sep), Indexed(b), Lit(sep), Indexed(c)], args, Fresh, 0)
         == Ok(args[a] + [sep] + args[b] + [sep] + args[c])
  {
    var p1 := [Indexed(c)];
    var p2 := [Lit(sep)] + p1;
    var p3 := [Indexed(b)] + p2;
    var p4 := [Lit(sep)] + p3;
    assert Render(p1, args, Manual, 0) == Ok(args[c]) by {
      assert Render([], args, Manual, 0) == Ok([]);
      RenderIndexedStep(c, [], args, Manual, 0, []);
      assert [Indexed(c)] + [] == p1 && args[c] + [] == args[c];
    }
    RenderLitStep(sep, p1, args, Manual, 0, args[c]);
    RenderIndexedStep(b, p2, args, Manual, 0, [sep] + args[c]);
    RenderLitStep(sep, p3, args, Manual, 0, args[b] + ([sep] + args[c]));
    RenderIndexedStep(a, p4, args, Fresh, 0, [sep] + (args[b] + ([sep] + args[c])));
    FiveInARow(Indexed(a), Lit(sep), Indexed(b), Lit(sep), Indexed(c));
    RegroupFive(args[a], [sep], args[b], [sep], args[c]);
  }

  /** A five-element display is its elements consed one by one. */
  lemma FiveInARow<T>(a: T, b: T, c: T, d: T, e: T)
    ensures [a] + ([b] + ([c] + ([d] + [e]))) == [a, b, c, d, e]
  {}

  /** Concatenation regrouped from the right to the left. */
  lemma RegroupFive<T>(a: seq<T>, b: seq<T>, c: seq<T>, d: seq<T>, e: seq<T>)
    ensures a + (b + (c + (d + e))) == a + b + c + d + e
  {}

  lemma RenderReversedDate(args: seq<string>)
    requires |args| >= 3
    ensures Render([Indexed(2), Lit('-'), Indexed(1), Lit('-'), Indexed(0)], args, Fresh, 0)
         == Ok(args[2] + "-" + args[1] + "-" + args[0])
  {
    RenderThreeFields(2, 1, 0, '-', args);
  }

  /** The package's default date template `"{2}-{1}-{0}"` reverses
      day/month/year groups into year-month-day; fewer than three groups
      raise IndexError. */
  lemma FormatReversedDate(args: seq<string>)
    ensures Format("{2}-{1}-{0}", args)
         == if |args| < 3 then Err(IndexError) else Ok(args[2] + "-" + args[1] + "-" + args[0])
  {
    ParseReversedDate();
    if |args| >= 3 {
      RenderReversedDate(args);
    }
  }

  /** The scripts' default balance template `"{}.{}"`. */
  lemma FormatPointPair(args: seq<string>)
    ensures Format("{}.{}", args)
         == if |args| < 2 then Err(IndexError) else Ok(args[0] + "." + args[1])
  {
    ParsePointField();
    assert "{}.{}" == "{" + "" + "}" + ".{}";
    ParseFieldStep("", ".{}", Auto, [Lit('.'), Auto]);
    var ps := [Auto, Lit('.'), Auto];
    assert [Auto] + [Lit('.'), Auto] == ps;
    assert ps[1..] == [Lit('.'), Auto] && ps[1..][1..] == [Auto] && ps[1..][1..][1..] == [];
    if |args| >= 2 {
      assert Render(ps, args, Fresh, 0) == Ok(args[0] + ("." + (args[1] + [])));
      assert args[0] + ("." + (args[1] + [])) == args[0] + "." + args[1];
    }
  }
}
