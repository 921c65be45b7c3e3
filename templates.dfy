/** Template evaluation of idlez/data/data.py (`eval_template` and
    `TEMPLATE_FORMATTERS`).

    A template is text with `{key}` placeholders, filled by Python's
    `str.format_map`. Before that, every `{ident|fmt}` token (the regular
    expression `\{([^|}]+\|[^|}]+)\}`) whose `ident` is a parameter and whose `fmt`
    names a formatter gets an extra parameter, under the literal key
    `ident|fmt`, holding the formatted parameter. Of `format_map` the model keeps
    `{key}` lookup, the `{{` and `}}` escapes and the errors: a missing key
    (KeyError), a lone brace, an empty or all-digit (positional) field. */
module Templates {
  import opened Wrappers
  import Decimal

  /** A parameter value: a Python `str` or `int`. */
  datatype Param = Text(text: string) | Number(number: int)

  /** `str(value)`. */
  function Str(p: Param): string
  {
    match p
    case Text(t) => t
    case Number(n) => Decimal.IntToString(n)
  }

  // ---- Formatters (ASCII case mapping) ----

  function UpperChar(c: char): char {
    if 'a' <= c <= 'z' then (c as int - 32) as char else c
  }

  function LowerChar(c: char): char {
    if 'A' <= c <= 'Z' then (c as int + 32) as char else c
  }

  predicate IsLowerLetter(c: char) {
    'a' <= c <= 'z'
  }

  predicate IsUpperLetter(c: char) {
    'A' <= c <= 'Z'
  }

  /** `str.upper`: same length, no lower-case letter left, other characters kept. */
  function ToUpper(s: string): (r: string)
    ensures |r| == |s|
    ensures forall i :: 0 <= i < |s| ==> !IsLowerLetter(r[i])
    ensures forall i :: 0 <= i < |s| && !IsLowerLetter(s[i]) ==> r[i] == s[i]
    ensures forall i :: 0 <= i < |s| && IsLowerLetter(s[i]) ==> LowerChar(r[i]) == s[i]
  {
    seq(|s|, i requires 0 <= i < |s| => UpperChar(s[i]))
  }

  /** `str.lower`: same length, no upper-case letter left, other characters kept. */
  function ToLower(s: string): (r: string)
    ensures |r| == |s|
    ensures forall i :: 0 <= i < |s| ==> !IsUpperLetter(r[i])
    ensures forall i :: 0 <= i < |s| && !IsUpperLetter(s[i]) ==> r[i] == s[i]
    ensures forall i :: 0 <= i < |s| && IsUpperLetter(s[i]) ==> UpperChar(r[i]) == s[i]
  {
    seq(|s|, i requires 0 <= i < |s| => LowerChar(s[i]))
  }

  /** `str.capitalize`: the first character upper case, the rest lower case. */
  function CapitalizeText(s: string): (r: string)
    ensures |r| == |s|
    ensures |s| > 0 ==> r[0] == UpperChar(s[0]) && r[1..] == ToLower(s[1..])
  {
    if s == [] then [] else [UpperChar(s[0])] + ToLower(s[1..])
  }

  /** Upper-casing then lower-casing is the same as lower-casing. */
  lemma LowerOfUpper(s: string)
    ensures ToLower(ToUpper(s)) == ToLower(s)
  {
    assert forall i :: 0 <= i < |s| ==> LowerChar(UpperChar(s[i])) == LowerChar(s[i]);
  }

  /** Capitalizing is idempotent. */
  lemma CapitalizeIdempotent(s: string)
    ensures CapitalizeText(CapitalizeText(s)) == CapitalizeText(s)
  {
    if s != [] {
      var c := CapitalizeText(s);
      assert c[1..] == ToLower(s[1..]);
      assert ToLower(ToLower(s[1..])) == ToLower(s[1..]) by {
        assert forall i :: 0 <= i < |s| - 1 ==> LowerChar(LowerChar(s[1..][i])) == LowerChar(s[1..][i]);
      }
    }
  }

  datatype Formatter = Capitalize | Upper | Lower

  /** `TEMPLATE_FORMATTERS.get(name)`: exactly three names are known. */
  function FormatterNamed(name: string): (f: Option<Formatter>)
    ensures f.Some? <==> name == "capitalize" || name == "upper" || name == "lower"
  {
    if name == "capitalize" then Some(Capitalize)
    else if name == "upper" then Some(Upper)
    else if name == "lower" then Some(Lower)
    else None
  }

  function ApplyFormatter(f: Formatter, s: string): (r: string)
    ensures |r| == |s|
  {
    match f
    case Capitalize => CapitalizeText(s)
    case Upper => ToUpper(s)
    case Lower => ToLower(s)
  }

  // ---- Scanning ----

  /** Characters that end a run inside an `{ident|fmt}` token. */
  const TokenStops: set<char> := {'|', '}'}
  /** Characters that end a `format_map` field name. */
  const FieldStops: set<char> := {'{', '}'}

  predicate NoneOf(s: string, stops: set<char>) {
    forall i :: 0 <= i < |s| ==> s[i] !in stops
  }

  /** The first index at or after `i` holding a character of `stops`, or |s|. */
  function NextOf(s: string, i: nat, stops: set<char>): (j: nat)
    requires i <= |s|
    ensures i <= j <= |s|
    ensures j < |s| ==> s[j] in stops
    ensures forall k :: i <= k < j ==> s[k] !in stops
    decreases |s| - i
  {
    if i == |s| || s[i] in stops then i else NextOf(s, i + 1, stops)
  }

  /** `NextOf` is the only index with its two properties. */
  lemma NextOfIs(s: string, i: nat, j: nat, stops: set<char>)
    requires i <= j <= |s|
    requires j < |s| ==> s[j] in stops
    requires forall k :: i <= k < j ==> s[k] !in stops
    ensures NextOf(s, i, stops) == j
  {
  }

  /** What `\{([^|}]+\|[^|}]+)\}` captures: no `}`, exactly one `|`, and
      something on both sides of it. */
  predicate TokenBody(t: string) {
    exists p :: 0 < p < |t| - 1 && t[p] == '|' && NoneOf(t[..p], TokenStops) && NoneOf(t[p + 1..], TokenStops)
  }

  /** The length of the match of `\{([^|}]+\|[^|}]+)\}` at the start of `s`, if any. */
  function MatchAt(s: string): (r: Option<nat>)
    ensures r.Some? ==> 5 <= r.value <= |s|
  {
    if s == [] || s[0] != '{' then None
    else
      var p := NextOf(s, 1, TokenStops);
      if p == 1 || p == |s| || s[p] != '|' then None
      else
        var q := NextOf(s, p + 1, TokenStops);
        if q == p + 1 || q == |s| || s[q] != '}' then None
        else Some(q + 1)
  }

  /** A match is a brace-enclosed token. */
  lemma MatchAtSound(s: string)
    ensures MatchAt(s).Some? ==>
      var n := MatchAt(s).value;
      s[0] == '{' && s[n - 1] == '}' && TokenBody(s[1..n - 1])
  {
    if MatchAt(s).Some? {
      var p := NextOf(s, 1, TokenStops);
      var q := NextOf(s, p + 1, TokenStops);
      assert MatchAt(s) == Some(q + 1);
      var t := s[1..q];
      var ident, fmt := t[..p - 1], t[p..];
      assert NoneOf(ident, TokenStops) by {
        forall i | 0 <= i < |ident| ensures ident[i] !in TokenStops {
          assert ident[i] == s[i + 1];
        }
      }
      assert NoneOf(fmt, TokenStops) by {
        forall i | 0 <= i < |fmt| ensures fmt[i] !in TokenStops {
          assert fmt[i] == s[p + 1 + i];
        }
      }
      assert 0 < p - 1 < |t| - 1 && t[p - 1] == '|';
    }
  }

  /** A brace-enclosed token is matched, whatever follows it. */
  lemma MatchAtComplete(t: string, rest: string)
    requires TokenBody(t)
    ensures MatchAt("{" + t + "}" + rest) == Some(|t| + 2)
  {
    var s := "{" + t + "}" + rest;
    var w :| 0 < w < |t| - 1 && t[w] == '|' && NoneOf(t[..w], TokenStops) && NoneOf(t[w + 1..], TokenStops);
    BracedStops(t, rest, 0, w);
    assert s[w + 1] == '|';
    NextOfIs(s, 1, w + 1, TokenStops);
    BracedStops(t, rest, w + 1, |t|);
    assert s[|t| + 1] == '}';
    NextOfIs(s, w + 2, |t| + 1, TokenStops);
  }

  /** A stretch of `t` without stops is a stretch without stops of the
      brace-enclosed text, one position further on. */
  lemma BracedStops(t: string, rest: string, a: nat, b: nat)
    requires a <= b <= |t| && NoneOf(t[a..b], TokenStops)
    ensures forall k :: a + 1 <= k < b + 1 ==> ("{" + t + "}" + rest)[k] !in TokenStops
  {
    var s := "{" + t + "}" + rest;
    forall k | a + 1 <= k < b + 1 ensures s[k] !in TokenStops {
      assert s[k] == t[a..b][k - a - 1];
    }
  }

  /** `re.findall(r"\{([^|}]+\|[^|}]+)\}", s)`: the captured text of every
      match, scanning left to right and resuming after each match. */
  function Tokens(s: string): (r: seq<string>)
    ensures 5 * |r| <= |s|
    decreases |s|
  {
    if s == [] then []
    else match MatchAt(s)
      case Some(n) => [s[1..n - 1]] + Tokens(s[n..])
      case None => Tokens(s[1..])
  }

  /** A match at the start is the first token found, and scanning resumes
      after it. */
  lemma TokensAtMatch(s: string, n: nat)
    requires MatchAt(s) == Some(n)
    ensures Tokens(s) == [s[1..n - 1]] + Tokens(s[n..])
  {
    assert s != [];
  }

  /** The text between the braces of a brace-enclosed text, and what follows. */
  lemma BracedSlices(t: string, rest: string)
    ensures ("{" + t + "}" + rest)[1..|t| + 1] == t
    ensures ("{" + t + "}" + rest)[|t| + 2..] == rest
  {
    var s := "{" + t + "}" + rest;
    assert s[1..|t| + 1] == t;
    assert s[|t| + 2..] == rest;
  }

  /** Everything `findall` returns has the token shape. */
  lemma {:induction false} TokensAreBodies(s: string)
    ensures forall t :: t in Tokens(s) ==> TokenBody(t)
    decreases |s|
  {
    if s != [] {
      MatchAtSound(s);
      match MatchAt(s)
      case Some(n) => TokensAreBodies(s[n..]);
      case None => TokensAreBodies(s[1..]);
    }
  }

  /** `ident_fmt.split("|")` of a token: the text before and after its one `|`. */
  function SplitToken(t: string): (parts: (string, string))
    requires TokenBody(t)
    ensures parts.0 + "|" + parts.1 == t
    ensures parts.0 != [] && parts.1 != []
    ensures NoneOf(parts.0, TokenStops) && NoneOf(parts.1, TokenStops)
  {
    var p := NextOf(t, 0, {'|'});
    assert 0 < p < |t| - 1 && t[p] == '|' && NoneOf(t[..p], TokenStops) && NoneOf(t[p + 1..], TokenStops) by {
      var w :| 0 < w < |t| - 1 && t[w] == '|' && NoneOf(t[..w], TokenStops) && NoneOf(t[w + 1..], TokenStops);
      assert forall k :: 0 <= k < w ==> t[k] == t[..w][k];
      NextOfIs(t, 0, w, {'|'});
    }
    assert t[..p] + "|" + t[p + 1..] == t;
    (t[..p], t[p + 1..])
  }

  /** A token splits back into the identifier and formatter name it was made of. */
  lemma SplitTokenOf(ident: string, fmt: string)
    requires ident != [] && fmt != []
    requires NoneOf(ident, TokenStops) && NoneOf(fmt, TokenStops)
    ensures TokenBody(ident + "|" + fmt)
    ensures SplitToken(ident + "|" + fmt) == (ident, fmt)
  {
    var t := ident + "|" + fmt;
    var p := |ident|;
    assert t[..p] == ident && t[p + 1..] == fmt;
    assert TokenBody(t) by {
      assert 0 < p < |t| - 1 && t[p] == '|';
    }
    assert forall k :: 0 <= k < p ==> t[k] == ident[k];
    NextOfIs(t, 0, p, {'|'});
  }

  // ---- The formatting pre-pass ----

  /** A token that gets an entry in the augmented parameters: its identifier is
      a parameter and its formatter name is known. */
  predicate Qualifies(t: string, params: map<string, Param>) {
    TokenBody(t) && SplitToken(t).0 in params && FormatterNamed(SplitToken(t).1).Some?
  }

  /** The entry a qualifying token gets: `formatter(str(value))`. */
  function Formatted(t: string, params: map<string, Param>): Param
    requires Qualifies(t, params)
  {
    var (ident, fmt) := SplitToken(t);
    Text(ApplyFormatter(FormatterNamed(fmt).value, Str(params[ident])))
  }

  function QualifyingSet(ts: seq<string>, params: map<string, Param>): set<string> {
    set t | t in ts && Qualifies(t, params)
  }

  /** The caller's parameters plus one entry per qualifying token of `ts`. */
  function AugmentedBy(ts: seq<string>, params: map<string, Param>): map<string, Param>
  {
    var q := QualifyingSet(ts, params);
    map k | k in params.Keys + q :: if k in q then Formatted(k, params) else params[k]
  }

  /** The parameters `format_map` sees: the caller's, plus one entry per
      qualifying token of the template, which wins over a caller's entry with
      the same key. */
  function Augmented(template: string, params: map<string, Param>): map<string, Param>
  {
    AugmentedBy(Tokens(template), params)
  }

  /** The entry of one key in the augmented parameters. */
  lemma AugmentedByAt(ts: seq<string>, params: map<string, Param>, k: string)
    ensures k in AugmentedBy(ts, params) <==> k in params || k in QualifyingSet(ts, params)
    ensures k in AugmentedBy(ts, params) ==>
      AugmentedBy(ts, params)[k] == if k in QualifyingSet(ts, params) then Formatted(k, params) else params[k]
  {
  }

  lemma AugmentedBySnocAt(ts: seq<string>, t: string, params: map<string, Param>, k: string)
    requires TokenBody(t)
    ensures var a, a' := AugmentedBy(ts, params), AugmentedBy(ts + [t], params);
      var b := if Qualifies(t, params) then a[t := Formatted(t, params)] else a;
      (k in a' <==> k in b) && (k in b ==> a'[k] == b[k])
  {
    QualifyingSetSnoc(ts, t, params);
    AugmentedByAt(ts + [t], params, k);
    AugmentedByAt(ts, params, k);
  }

  /** One more token: its entry is added when it qualifies, and nothing else
      changes. */
  lemma AugmentedBySnoc(ts: seq<string>, t: string, params: map<string, Param>)
    requires TokenBody(t)
    ensures Qualifies(t, params) ==> AugmentedBy(ts + [t], params) == AugmentedBy(ts, params)[t := Formatted(t, params)]
    ensures !Qualifies(t, params) ==> AugmentedBy(ts + [t], params) == AugmentedBy(ts, params)
  {
    var a, a' := AugmentedBy(ts, params), AugmentedBy(ts + [t], params);
    var b := if Qualifies(t, params) then a[t := Formatted(t, params)] else a;
    forall k ensures (k in a' <==> k in b) && (k in b ==> a'[k] == b[k]) {
      AugmentedBySnocAt(ts, t, params, k);
    }
    MapsAgree(a', b);
  }

  /** Maps with the same keys and the same entries are equal. */
  lemma MapsAgree(x: map<string, Param>, y: map<string, Param>)
    requires forall k :: (k in x <==> k in y) && (k in y ==> x[k] == y[k])
    ensures x == y
  {
  }

  lemma QualifyingSetSnoc(ts: seq<string>, t: string, params: map<string, Param>)
    ensures QualifyingSet(ts + [t], params)
         == QualifyingSet(ts, params) + (if Qualifies(t, params) then {t} else {})
  {
  }

  /** A token made of a parameter and a known formatter name qualifies, and its
      entry is that parameter, formatted. */
  lemma QualifiesOf(ident: string, fmt: string, params: map<string, Param>)
    requires ident != [] && fmt != []
    requires NoneOf(ident, TokenStops) && NoneOf(fmt, TokenStops)
    requires ident in params && FormatterNamed(fmt).Some?
    ensures Qualifies(ident + "|" + fmt, params)
    ensures Formatted(ident + "|" + fmt, params) == Text(ApplyFormatter(FormatterNamed(fmt).value, Str(params[ident])))
  {
    SplitTokenOf(ident, fmt);
  }

  /** The augmented parameters keep every caller parameter that is not a
      qualifying token, add exactly the qualifying tokens, and never add a
      token whose identifier is missing or whose formatter is unknown. */
  lemma AugmentedEntries(template: string, params: map<string, Param>, k: string)
    ensures k in Augmented(template, params) <==> k in params || (k in Tokens(template) && Qualifies(k, params))
    ensures k in Tokens(template) && Qualifies(k, params) ==> Augmented(template, params)[k] == Formatted(k, params)
    ensures k in params && !(k in Tokens(template) && Qualifies(k, params)) ==> Augmented(template, params)[k] == params[k]
  {
  }

  // ---- format_map ----

  /** Why `format_map` raises: a missing key (KeyError), or a malformed template
      (a lone brace, or an empty or positional field: ValueError, IndexError). */
  datatype FormatError = MissingKey(key: string) | Malformed

  function Prefix(p: string, r: Result<string, FormatError>): (r': Result<string, FormatError>)
    ensures r'.Success? <==> r.Success?
    ensures r.Failure? ==> r' == r
    ensures r.Success? ==> r'.value == p + r.value
  {
    if r.Success? then Success(p + r.value) else r
  }

  /** The first piece `format_map` writes for `s` and how many characters of
      `s` it consumes: an escaped brace, a field's value, or one literal
      character. */
  function Step(s: string, m: map<string, Param>): (r: Result<(string, nat), FormatError>)
    requires s != []
    ensures r.Success? ==> 0 < r.value.1 <= |s|
  {
    if s[0] == '{' && |s| > 1 && s[1] == '{' then Success(("{", 2))
    else if s[0] == '}' && |s| > 1 && s[1] == '}' then Success(("}", 2))
    else if s[0] == '}' then Failure(Malformed)
    else if s[0] == '{' then
      var j := NextOf(s, 1, FieldStops);
      if j == |s| || s[j] == '{' then Failure(Malformed)
      else
        var key := s[1..j];
        if key == [] || Decimal.AllDigits(key) then Failure(Malformed)
        else if key !in m then Failure(MissingKey(key))
        else Success((Str(m[key]), j + 1))
    else Success(([s[0]], 1))
  }

  /** `template.format_map(m)` restricted to `{key}` fields and brace escapes:
      the pieces left to right, or the first error. */
  function FormatMap(s: string, m: map<string, Param>): (r: Result<string, FormatError>)
    ensures r.Failure? && r.error.MissingKey? ==> r.error.key !in m && r.error.key != []
    decreases |s|
  {
    if s == [] then Success([])
    else match Step(s, m)
      case Failure(e) => Failure(e)
      case Success((piece, n)) => Prefix(piece, FormatMap(s[n..], m))
  }

  /** `eval_template(template, params)`, as a value. */
  function Evaluated(template: string, params: map<string, Param>): (r: Result<string, FormatError>)
    ensures r.Failure? && r.error.MissingKey? ==> r.error.key !in params
  {
    assert forall k :: k in params ==> k in Augmented(template, params) by {
      forall k | k in params
        ensures k in Augmented(template, params)
      {
        AugmentedEntries(template, params, k);
      }
    }
    FormatMap(template, Augmented(template, params))
  }

  /** `eval_template`: copy the parameters, add one entry per qualifying
      `{ident|fmt}` token found, then fill the template from the copy. */
  method EvalTemplate(template: string, params: map<string, Param>) returns (r: Result<string, FormatError>)
    ensures r == Evaluated(template, params)
  {
    var formParams := params;
    var found := Tokens(template);
    TokensAreBodies(template);
    for i := 0 to |found|
      invariant formParams == AugmentedBy(found[..i], params)
    {
      var identFmt := found[i];
      assert identFmt in found;
      AugmentedStep(found, i, params);
      var (ident, fmt) := SplitToken(identFmt);
      if ident !in params {
        continue;
      }
      var formatter := FormatterNamed(fmt);
      if formatter.None? {
        continue;
      }
      formParams := formParams[identFmt := Text(ApplyFormatter(formatter.value, Str(params[ident])))];
    }
    assert found[..|found|] == found;
    r := FormatMap(template, formParams);
  }

  /** One token of the pre-pass, as the loop of `eval_template` handles it:
      split it, and add its entry when the identifier is a parameter and the
      formatter is known. */
  lemma AugmentedStep(found: seq<string>, i: nat, params: map<string, Param>)
    requires i < |found| && TokenBody(found[i])
    ensures var (ident, fmt) := SplitToken(found[i]);
      AugmentedBy(found[..i + 1], params)
        == if ident in params && FormatterNamed(fmt).Some?
           then AugmentedBy(found[..i], params)[found[i] := Text(ApplyFormatter(FormatterNamed(fmt).value, Str(params[ident])))]
           else AugmentedBy(found[..i], params)
  {
    assert found[..i + 1] == found[..i] + [found[i]];
    AugmentedBySnoc(found[..i], found[i], params);
  }

  // ---- Laws of format_map and findall, and the examples built from them ----

  /** Text without braces comes out of `format_map` unchanged. */
  lemma {:induction false} FormatMapPlain(s: string, m: map<string, Param>)
    requires NoneOf(s, FieldStops)
    ensures FormatMap(s, m) == Success(s)
  {
    if s != [] {
      FormatMapPlain(s[1..], m);
      assert [s[0]] + s[1..] == s;
    }
  }

  /** A single field: the key's value as text, or KeyError when the key is missing. */
  lemma FormatMapField(key: string, rest: string, m: map<string, Param>)
    requires key != [] && NoneOf(key, FieldStops) && !Decimal.AllDigits(key)
    ensures key in m ==> FormatMap("{" + key + "}" + rest, m) == Prefix(Str(m[key]), FormatMap(rest, m))
    ensures key !in m ==> FormatMap("{" + key + "}" + rest, m) == Failure(MissingKey(key))
  {
    var s := "{" + key + "}" + rest;
    assert forall k :: 1 <= k < |key| + 1 ==> s[k] == key[k - 1];
    NextOfIs(s, 1, |key| + 1, FieldStops);
    assert s[1..|key| + 1] == key;
    assert s[|key| + 2..] == rest;
  }

  /** A step taken on a prefix is the same step on the whole text. */
  lemma StepAppend(a: string, b: string, m: map<string, Param>)
    requires a != [] && Step(a, m).Success?
    ensures Step(a + b, m) == Step(a, m)
  {
    var s := a + b;
    assert s[0] == a[0];
    assert |a| > 1 ==> s[1] == a[1];
    if a[0] == '{' && !(|a| > 1 && a[1] == '{') {
      var j := NextOf(a, 1, FieldStops);
      assert forall k :: 1 <= k < j ==> s[k] == a[k];
      NextOfIs(s, 1, j, FieldStops);
      assert s[1..j] == a[1..j];
    }
  }

  lemma PrefixPrefix(p: string, q: string, r: Result<string, FormatError>)
    ensures Prefix(p, Prefix(q, r)) == Prefix(p + q, r)
  {
    if r.Success? {
      assert p + (q + r.value) == (p + q) + r.value;
    }
  }

  /** Filling a template that ends cleanly, followed by more text, is filling
      each part. */
  lemma {:induction false} FormatMapAppend(a: string, b: string, m: map<string, Param>)
    requires FormatMap(a, m).Success?
    ensures FormatMap(a + b, m) == Prefix(FormatMap(a, m).value, FormatMap(b, m))
    decreases |a|
  {
    if a == [] {
      assert a + b == b;
      if FormatMap(b, m).Success? {
        var v := FormatMap(b, m).value;
        assert [] + v == v;
      }
    } else {
      var step := Step(a, m);
      StepAppend(a, b, m);
      var piece, n := step.value.0, step.value.1;
      assert FormatMap(a, m) == Prefix(piece, FormatMap(a[n..], m));
      assert FormatMap(a + b, m) == Prefix(piece, FormatMap((a + b)[n..], m));
      FormatMapAppend(a[n..], b, m);
      assert (a + b)[n..] == a[n..] + b;
      PrefixPrefix(piece, FormatMap(a[n..], m).value, FormatMap(b, m));
    }
  }

  /** Brace-free text is copied, and filling goes on after it. */
  lemma FormatMapText(t: string, rest: string, m: map<string, Param>)
    requires NoneOf(t, FieldStops)
    ensures FormatMap(t + rest, m) == Prefix(t, FormatMap(rest, m))
  {
    FormatMapPlain(t, m);
    FormatMapAppend(t, rest, m);
  }

  /** Text with no `{` holds no token and does not change the tokens after it. */
  lemma {:induction false} TokensSkip(a: string, b: string)
    requires '{' !in a
    ensures Tokens(a + b) == Tokens(b)
  {
    if a != [] {
      assert (a + b)[1..] == a[1..] + b;
      TokensSkip(a[1..], b);
    } else {
      assert a + b == b;
    }
  }

  /** An `{ident|fmt}` token is found and scanning resumes after it. */
  lemma TokensOfToken(ident: string, fmt: string, rest: string)
    requires ident != [] && fmt != []
    requires NoneOf(ident, TokenStops) && NoneOf(fmt, TokenStops)
    ensures Tokens("{" + (ident + "|" + fmt) + "}" + rest) == [ident + "|" + fmt] + Tokens(rest)
  {
    var t := ident + "|" + fmt;
    assert TokenBody(t) by {
      assert t[..|ident|] == ident && t[|ident| + 1..] == fmt;
      assert t[|ident|] == '|';
    }
    TokensOfBody(t, rest);
  }

  /** A brace-enclosed token body is found, and scanning resumes after it. */
  lemma TokensOfBody(t: string, rest: string)
    requires TokenBody(t)
    ensures Tokens("{" + t + "}" + rest) == [t] + Tokens(rest)
  {
    var s, n := "{" + t + "}" + rest, |t| + 2;
    MatchAtComplete(t, rest);
    BracedSlices(t, rest);
    assert s[1..n - 1] == t && s[n..] == rest;
    TokensAtMatch(s, n);
    assert Tokens(s[n..]) == Tokens(rest);
  }

  /** A plain `{key}` field is no token; scanning goes on after it. */
  lemma TokensOfField(key: string, rest: string)
    requires NoneOf(key, TokenStops) && '{' !in key
    ensures Tokens("{" + key + "}" + rest) == Tokens(rest)
  {
    var s := "{" + key + "}" + rest;
    NextOfIs(s, 1, |key| + 1, TokenStops);
    assert MatchAt(s) == None;
    assert s[1..] == key + "}" + rest;
    TokensSkip(key + "}", rest);
  }

  /** The template of tests/test_data.py, written in its parts. */
  const ExampleTemplate: string := "{player_name|capitalize}" + " Text " + "{new_level}" + ". time: " + "{ttl|upper}"

  /** The template of tests/test_data.py, split at its fields. */
  lemma ExampleTemplateParts()
    ensures ExampleTemplate
         == "{" + ("player_name" + "|" + "capitalize") + "}" + (" Text " + ("{" + "new_level" + "}" + (". time: " + ("{" + ("ttl" + "|" + "upper") + "}"))))
  {
    assert "{" + ("player_name" + "|" + "capitalize") + "}" == "{player_name|capitalize}";
    assert "{" + "new_level" + "}" == "{new_level}";
    assert "{" + ("ttl" + "|" + "upper") + "}" == "{ttl|upper}";
  }

  /** Text without `{` and a final token: just that token. */
  lemma TokensOfLastToken(t: string, ident: string, fmt: string)
    requires ident != [] && fmt != []
    requires NoneOf(ident, TokenStops) && NoneOf(fmt, TokenStops) && '{' !in t
    ensures Tokens(t + ("{" + (ident + "|" + fmt) + "}")) == [ident + "|" + fmt]
  {
    var y := "{" + (ident + "|" + fmt) + "}";
    TokensSkip(t, y);
    assert y + "" == y;
    TokensOfToken(ident, fmt, "");
  }

  /** Text without `{` and a plain field: no token, scanning goes on after them. */
  lemma TokensSkipField(t: string, key: string, rest: string)
    requires NoneOf(key, TokenStops) && '{' !in key && '{' !in t
    ensures Tokens(t + ("{" + key + "}" + rest)) == Tokens(rest)
  {
    TokensSkip(t, "{" + key + "}" + rest);
    TokensOfField(key, rest);
  }

  /** `findall` on a template of the example's shape: a formatter token,
      text, a plain field, text, a formatter token. */
  lemma TokensOfExampleShape(i1: string, f1: string, t1: string, k: string, t2: string, i2: string, f2: string)
    requires i1 != [] && f1 != [] && i2 != [] && f2 != []
    requires NoneOf(i1, TokenStops) && NoneOf(f1, TokenStops) && NoneOf(i2, TokenStops) && NoneOf(f2, TokenStops)
    requires NoneOf(k, TokenStops) && '{' !in k && '{' !in t1 && '{' !in t2
    ensures Tokens("{" + (i1 + "|" + f1) + "}" + (t1 + ("{" + k + "}" + (t2 + ("{" + (i2 + "|" + f2) + "}")))))
         == [i1 + "|" + f1] + [i2 + "|" + f2]
  {
    var r2 := t2 + ("{" + (i2 + "|" + f2) + "}");
    TokensOfLastToken(t2, i2, f2);
    TokensSkipField(t1, k, r2);
    TokensOfToken(i1, f1, t1 + ("{" + k + "}" + r2));
  }

  /** `findall` on that template yields its two formatter tokens. */
  lemma ExampleTokens()
    ensures Tokens(ExampleTemplate) == ["player_name" + "|" + "capitalize"] + ["ttl" + "|" + "upper"]
  {
    ExampleTemplateParts();
    TokensOfExampleShape("player_name", "capitalize", " Text ", "new_level", ". time: ", "ttl", "upper");
  }

  /** A qualifying token of the template gets its formatted entry. */
  lemma AugmentedToken(template: string, params: map<string, Param>, ident: string, fmt: string)
    requires ident != [] && fmt != [] && NoneOf(ident, TokenStops) && NoneOf(fmt, TokenStops)
    requires ident + "|" + fmt in Tokens(template)
    requires ident in params && FormatterNamed(fmt).Some?
    ensures ident + "|" + fmt in Augmented(template, params)
    ensures Augmented(template, params)[ident + "|" + fmt]
         == Text(ApplyFormatter(FormatterNamed(fmt).value, Str(params[ident])))
  {
    QualifiesOf(ident, fmt, params);
    AugmentedEntries(template, params, ident + "|" + fmt);
  }

  /** A parameter that is no token of the template is passed on unchanged. */
  lemma AugmentedKeeps(template: string, params: map<string, Param>, key: string)
    requires key in params && key !in Tokens(template)
    ensures key in Augmented(template, params) && Augmented(template, params)[key] == params[key]
  {
    AugmentedEntries(template, params, key);
  }

  /** The parameters of the tests/test_data.py example. */
  function LevelUpParams(name: string, level: int, ttl: string): map<string, Param> {
    map["player_name" := Text(name), "new_level" := Number(level), "ttl" := Text(ttl)]
  }

  /** The augmented parameters of the tests/test_data.py template for any name,
      level and time. */
  lemma AugmentedLevelUp(template: string, name: string, level: int, ttl: string)
    requires Tokens(template) == ["player_name" + "|" + "capitalize"] + ["ttl" + "|" + "upper"]
    ensures var m := Augmented(template, LevelUpParams(name, level, ttl));
      && "player_name" + "|" + "capitalize" in m && m["player_name" + "|" + "capitalize"] == Text(CapitalizeText(name))
      && "new_level" in m && m["new_level"] == Number(level)
      && "ttl" + "|" + "upper" in m && m["ttl" + "|" + "upper"] == Text(ToUpper(ttl))
  {
    var params := LevelUpParams(name, level, ttl);
    FormatterNames();
    AugmentedToken(template, params, "player_name", "capitalize");
    AugmentedToken(template, params, "ttl", "upper");
    var b, c := "new_level", "ttl" + "|" + "upper";
    assert |b| != |"player_name" + "|" + "capitalize"|;
    assert b[0] != c[0];
    AugmentedKeeps(template, params, b);
  }

  /** The formatter names of the example, and that its identifiers are
      token parts. */
  lemma FormatterNames()
    ensures FormatterNamed("capitalize") == Some(Capitalize)
    ensures FormatterNamed("upper") == Some(Upper)
    ensures NoneOf("player_name", TokenStops) && NoneOf("capitalize", TokenStops)
    ensures NoneOf("ttl", TokenStops) && NoneOf("upper", TokenStops)
  {
  }

  /** Filling a template of three fields with text between them, from
      parameters that hold the three keys. */
  lemma FilledThreeFields(template: string, m: map<string, Param>, a: string, t1: string, b: string, t2: string, c: string)
    requires template == "{" + a + "}" + (t1 + ("{" + b + "}" + (t2 + ("{" + c + "}"))))
    requires a != [] && NoneOf(a, FieldStops) && !Decimal.AllDigits(a) && a in m
    requires b != [] && NoneOf(b, FieldStops) && !Decimal.AllDigits(b) && b in m
    requires c != [] && NoneOf(c, FieldStops) && !Decimal.AllDigits(c) && c in m
    requires NoneOf(t1, FieldStops) && NoneOf(t2, FieldStops)
    ensures FormatMap(template, m) == Success(Str(m[a]) + (t1 + (Str(m[b]) + (t2 + Str(m[c])))))
  {
    var r2 := t2 + ("{" + c + "}");
    var r1 := t1 + ("{" + b + "}" + r2);
    var last := FormatMap("{" + c + "}", m);
    assert last == Success(Str(m[c])) by {
      FormatMapField(c, "", m);
      assert "{" + c + "}" + "" == "{" + c + "}";
      assert Str(m[c]) + "" == Str(m[c]);
    }
    assert FormatMap(r2, m) == Success(t2 + Str(m[c])) by {
      FormatMapText(t2, "{" + c + "}", m);
    }
    assert FormatMap(r1, m) == Success(t1 + (Str(m[b]) + (t2 + Str(m[c])))) by {
      FormatMapField(b, r2, m);
      FormatMapText(t1, "{" + b + "}" + r2, m);
    }
    FormatMapField(a, r1, m);
  }

  /** The field names of that template are named fields, and the text between
      them holds no brace. */
  lemma ExampleFieldNames()
    ensures var a, b, c := "player_name" + "|" + "capitalize", "new_level", "ttl" + "|" + "upper";
      && a != [] && NoneOf(a, FieldStops) && !Decimal.AllDigits(a)
      && b != [] && NoneOf(b, FieldStops) && !Decimal.AllDigits(b)
      && c != [] && NoneOf(c, FieldStops) && !Decimal.AllDigits(c)
      && NoneOf(" Text ", FieldStops) && NoneOf(". time: ", FieldStops)
  {
    var a, b, c := "player_name" + "|" + "capitalize", "new_level", "ttl" + "|" + "upper";
    assert !Decimal.IsDigit(a[0]) && !Decimal.IsDigit(b[0]) && !Decimal.IsDigit(c[0]);
  }

  /** The template of tests/test_data.py filled with any name, level and time:
      the name capitalized, the level in decimal, the time upper-cased. */
  lemma EvaluatedLevelUpTemplate(name: string, level: int, ttl: string)
    ensures Evaluated(ExampleTemplate, LevelUpParams(name, level, ttl))
         == Success(CapitalizeText(name) + (" Text " + (Decimal.IntToString(level) + (". time: " + ToUpper(ttl)))))
  {
    var params := LevelUpParams(name, level, ttl);
    ExampleTokens();
    AugmentedLevelUp(ExampleTemplate, name, level, ttl);
    ExampleTemplateParts();
    ExampleFieldNames();
    var a, b, c := "player_name" + "|" + "capitalize", "new_level", "ttl" + "|" + "upper";
    FilledThreeFields(ExampleTemplate, Augmented(ExampleTemplate, params), a, " Text ", b, ". time: ", c);
  }

  /** The formatted values of the tests/test_data.py example. */
  lemma ExampleFormatted()
    ensures CapitalizeText("player_name") == "Player_name"
    ensures ToUpper("some time") == "SOME TIME"
    ensures Decimal.IntToString(24) == "24"
  {
    ExampleCapitalized();
    ExampleUpper();
    ExampleLevelText();
  }

  lemma ExampleCapitalized()
    ensures CapitalizeText("player_name") == "Player_name"
  {
    var s := "player_name";
    assert s[0] == 'p' && s[1..] == "layer_name";
    LowerKeepsLower("layer_name");
    assert [UpperChar('p')] + "layer_name" == "Player_name";
  }

  /** Text without upper-case letters is its own lower case. */
  lemma LowerKeepsLower(s: string)
    requires forall i :: 0 <= i < |s| ==> !IsUpperLetter(s[i])
    ensures ToLower(s) == s
  {
  }

  lemma ExampleUpper()
    ensures ToUpper("some time") == "SOME TIME"
  {
  }

  lemma ExampleLevelText()
    ensures Decimal.IntToString(24) == "24"
  {
    assert Decimal.NatToString(24) == "24";
  }

  /** The example of tests/test_data.py: a capitalized name, a plain number and
      an upper-cased time. */
  lemma EvaluatedLevelUpExample()
    ensures Evaluated(ExampleTemplate, LevelUpParams("player_name", 24, "some time"))
         == Success("Player_name" + (" Text " + ("24" + (". time: " + "SOME TIME"))))
  {
    ExampleFormatted();
    EvaluatedLevelUpTemplate("player_name", 24, "some time");
  }

  /** A missing key is an error, not left in place: `format_map` raises
      KeyError. */
  lemma MissingKeyRaises()
    ensures Evaluated("{missing}", map[]) == Failure(MissingKey("missing"))
  {
    assert "{missing}" == "{" + "missing" + "}" + "";
    TokensOfField("missing", "");
    assert !Decimal.IsDigit("missing"[0]);
    FormatMapField("missing", "", Augmented("{missing}", map[]));
  }
}
