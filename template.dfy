/**
 * The path-template half of `generateUri` in src/RadixRouter.php:
 * `extractRouteParameters` (the regex `:([^\/?*]+)([?*])?` run by
 * preg_match_all), `validateRequiredParameters` and `replacePathParameters`
 * (one regex per parameter, applied in turn by preg_replace).
 *
 * A path is read as a sequence of pieces: single literal characters and
 * parameter tokens `:name`, `:name?` or `:name*`. Parse is that reading and
 * Render its inverse; the parameters preg_match_all reports are the tokens
 * of Parse, in order.
 */
module PathTemplate {
  import opened Wrappers
  import opened RouterErrors

  /** The marker after a parameter name: none, `?` (optional) or `*` (wildcard). */
  datatype Modifier = Required | Optional | Wildcard

  /** One parameter reported by extractRouteParameters: its name and its modifier
      (the two parallel arrays of the source, zipped). */
  datatype Parameter = Parameter(name: string, modifier: Modifier)

  /** A piece of a path: a literal character, a parameter token, or the text
      that replaced a token during substitution. */
  datatype Piece = Lit(c: char) | Slot(param: Parameter) | Text(s: string)

  /** The characters the regex class `[^\/?*]` admits in a parameter name. */
  predicate NameChar(c: char) {
    c != '/' && c != '?' && c != '*'
  }

  predicate ValidName(name: string) {
    name != [] && forall i :: 0 <= i < |name| ==> NameChar(name[i])
  }

  predicate IsMarker(c: char) {
    c == '?' || c == '*'
  }

  /** The optional or wildcard modifiers, which make a parameter omissible. */
  predicate IsOmissible(p: Parameter) {
    p.modifier == Optional || p.modifier == Wildcard
  }

  /** Length of the longest prefix of name characters (the greedy `[^\/?*]+`). */
  function NameLength(s: string): (n: nat)
    ensures n <= |s|
    ensures forall i :: 0 <= i < n ==> NameChar(s[i])
    ensures n < |s| ==> !NameChar(s[n])
  {
    if s == [] || !NameChar(s[0]) then 0 else 1 + NameLength(s[1..])
  }

  function Marker(m: Modifier): string {
    match m
    case Required => ""
    case Optional => "?"
    case Wildcard => "*"
  }

  function RenderPiece(x: Piece): string {
    match x
    case Lit(c) => [c]
    case Slot(p) => ":" + p.name + Marker(p.modifier)
    case Text(s) => s
  }

  /** The path a sequence of pieces spells. */
  function Render(ps: seq<Piece>): string {
    if ps == [] then "" else RenderPiece(ps[0]) + Render(ps[1..])
  }

  /** What a piece demands of the piece after it in a parsed path: a literal
      `:` is never followed by a name character (it would have started a
      token), a token's name is maximal, and a token without a marker is
      followed by a slash or nothing. */
  predicate FitsBefore(x: Piece, next: Option<Piece>) {
    match x
    case Lit(c) => c == ':' ==> next.None? || (next.value.Lit? && !NameChar(next.value.c))
    case Slot(p) => ValidName(p.name) && (p.modifier == Required ==> next.None? || next.value == Lit('/'))
    case Text(_) => true
  }

  predicate WellFormed(ps: seq<Piece>) {
    ps == [] || (FitsBefore(ps[0], if |ps| > 1 then Some(ps[1]) else None) && WellFormed(ps[1..]))
  }

  lemma RenderCons(x: Piece, tail: seq<Piece>)
    ensures Render([x] + tail) == RenderPiece(x) + Render(tail)
  {
    assert ([x] + tail)[1..] == tail;
  }

  lemma WellFormedCons(x: Piece, tail: seq<Piece>)
    ensures WellFormed([x] + tail) <==> FitsBefore(x, if tail == [] then None else Some(tail[0])) && WellFormed(tail)
  {
    assert ([x] + tail)[1..] == tail;
  }

  /** The left-to-right scan of preg_match_all: at a `:` followed by at least
      one name character a token starts, takes the longest name and then one
      `?` or `*` if present; every other character is literal. */
  function Parse(s: string): (ps: seq<Piece>)
    ensures forall i :: 0 <= i < |ps| ==> !ps[i].Text?
    ensures s != [] && s[0] != ':' ==> ps != [] && ps[0] == Lit(s[0])
    decreases |s|
  {
    if s == [] then []
    else if s[0] == ':' && NameLength(s[1..]) > 0 then
      var n := NameLength(s[1..]);
      [Slot(TokenAt(s, n))] + Parse(s[TokenLength(s, n)..])
    else
      [Lit(s[0])] + Parse(s[1..])
  }

  /** The token starting at `s[0] == ':'` whose name is `s[1..n + 1]`. */
  function TokenAt(s: string, n: nat): Parameter
    requires 1 <= n < |s|
  {
    var rest := s[n + 1..];
    Parameter(s[1..n + 1], if rest == [] || !IsMarker(rest[0]) then Required else if rest[0] == '?' then Optional else Wildcard)
  }

  /** How many characters that token spans. */
  function TokenLength(s: string, n: nat): (k: nat)
    requires 1 <= n < |s|
    ensures n < k <= |s|
  {
    if n + 1 < |s| && IsMarker(s[n + 1]) then n + 2 else n + 1
  }

  /** A `:` followed by a name character starts a token. */
  lemma ParseSlotStep(s: string)
    requires s != [] && s[0] == ':' && NameLength(s[1..]) > 0
    ensures Parse(s) == [Slot(TokenAt(s, NameLength(s[1..])))] + Parse(s[TokenLength(s, NameLength(s[1..]))..])
  {
  }

  /** A token writes back as the characters it was read from. */
  lemma TokenRenders(s: string, n: nat)
    requires 1 <= n < |s| && s[0] == ':'
    ensures RenderPiece(Slot(TokenAt(s, n))) == s[..TokenLength(s, n)]
  {
    var p := TokenAt(s, n);
    var k := TokenLength(s, n);
    assert s[..n + 1] == ":" + p.name;
    if k == n + 2 {
      assert s[..k] == s[..n + 1] + [s[n + 1]];
      assert Marker(p.modifier) == [s[n + 1]];
    } else {
      assert Marker(p.modifier) == "";
    }
  }

  /** Parse loses nothing: rendering its pieces gives the path back. */
  lemma {:induction false} ParseRenders(s: string)
    ensures Render(Parse(s)) == s
    decreases |s|
  {
    if s != [] {
      var x: Piece, k: nat;
      if s[0] == ':' && NameLength(s[1..]) > 0 {
        var n := NameLength(s[1..]);
        x, k := Slot(TokenAt(s, n)), TokenLength(s, n);
        TokenRenders(s, n);
        ParseSlotStep(s);
      } else {
        x, k := Lit(s[0]), 1;
        ParseLitStep(s);
      }
      ParseRenders(s[k..]);
      RenderStep(s, x, k, Parse(s[k..]));
    }
  }

  /** One piece written in front of the rest of a path. */
  lemma RenderStep(s: string, x: Piece, k: nat, tail: seq<Piece>)
    requires k <= |s| && RenderPiece(x) == s[..k] && Render(tail) == s[k..]
    ensures Render([x] + tail) == s
  {
    RenderCons(x, tail);
    assert s == s[..k] + s[k..];
  }

  /** Parse produces maximal names, and a token without a marker is followed by
      a slash or nothing. */
  lemma {:induction false} ParseWellFormed(s: string)
    ensures WellFormed(Parse(s))
    decreases |s|
  {
    if s == [] {
    } else if s[0] == ':' && NameLength(s[1..]) > 0 {
      var n := NameLength(s[1..]);
      var k := TokenLength(s, n);
      ParseWellFormed(s[k..]);
      WellFormedCons(Slot(TokenAt(s, n)), Parse(s[k..]));
    } else {
      ParseWellFormed(s[1..]);
      WellFormedCons(Lit(s[0]), Parse(s[1..]));
    }
  }

  /** The parameter tokens among the pieces, in order. */
  function Params(ps: seq<Piece>): seq<Parameter> {
    if ps == [] then [] else (if ps[0].Slot? then [ps[0].param] else []) + Params(ps[1..])
  }

  lemma {:induction false} ParamsOfWellFormed(ps: seq<Piece>)
    requires WellFormed(ps)
    ensures forall i :: 0 <= i < |Params(ps)| ==> ValidName(Params(ps)[i].name)
  {
    if ps != [] {
      ParamsOfWellFormed(ps[1..]);
    }
  }

  /** `extractRouteParameters`: every name is non-empty and free of `/`, `?`
      and `*`; the modifier is the marker that followed it, if any. */
  function ExtractRouteParameters(path: string): (params: seq<Parameter>)
    ensures forall i :: 0 <= i < |params| ==> ValidName(params[i].name)
  {
    ParseWellFormed(path);
    ParamsOfWellFormed(Parse(path));
    Params(Parse(path))
  }

  /** The names of the required parameters without a substitution, in
      pattern order. */
  function MissingNames(params: seq<Parameter>, subs: map<string, string>): seq<string> {
    if params == [] then []
    else
      var last := params[|params| - 1];
      MissingNames(params[..|params| - 1], subs)
        + (if last.name !in subs && !IsOmissible(last) then [last.name] else [])
  }

  /** Every required parameter has a substitution. */
  predicate AllRequiredPresent(params: seq<Parameter>, subs: map<string, string>) {
    forall i :: 0 <= i < |params| && params[i].modifier == Required ==> params[i].name in subs
  }

  lemma {:induction false} MissingNamesEmpty(params: seq<Parameter>, subs: map<string, string>)
    ensures MissingNames(params, subs) == [] <==> AllRequiredPresent(params, subs)
  {
    if params != [] {
      var init := params[..|params| - 1];
      MissingNamesEmpty(init, subs);
      assert forall i :: 0 <= i < |init| ==> init[i] == params[i];
    }
  }

  /** `validateRequiredParameters`: collects, in order, every parameter that is
      neither optional nor a wildcard and has no substitution, and fails
      listing all of them. */
  method ValidateRequiredParameters(params: seq<Parameter>, subs: map<string, string>, routeName: string)
    returns (r: Outcome<Error>)
    ensures r.Pass? <==> AllRequiredPresent(params, subs)
    ensures r.Fail? ==> r.error == MissingParameters(routeName, MissingNames(params, subs))
  {
    var missing: seq<string> := [];
    var i := 0;
    while i < |params|
      invariant 0 <= i <= |params|
      invariant missing == MissingNames(params[..i], subs)
    {
      var isOptional := params[i].modifier == Optional || params[i].modifier == Wildcard;
      if params[i].name !in subs && !isOptional {
        missing := missing + [params[i].name];
      }
      assert params[..i + 1][..i] == params[..i];
      i := i + 1;
    }
    assert params[..i] == params;
    MissingNamesEmpty(params, subs);
    if missing != [] {
      return Fail(MissingParameters(routeName, missing));
    }
    return Pass;
  }

  /** One replacement of replacePathParameters: the regex `:(name)(\?|\*)?`
      with the substitution when there is one, and `:(name)(\?|\*)` with the
      empty string when there is none. */
  datatype Pattern = Pattern(name: string, replacement: string, markerRequired: bool)

  function PatternFor(p: Parameter, subs: map<string, string>): Pattern {
    if p.name in subs then Pattern(p.name, subs[p.name], false) else Pattern(p.name, "", true)
  }

  function PatternsFor(params: seq<Parameter>, subs: map<string, string>): (pats: seq<Pattern>)
    ensures |pats| == |params|
  {
    seq(|params|, i requires 0 <= i < |params| => PatternFor(params[i], subs))
  }

  /** The length of the match of `pat` at the start of `s`, if it matches
      there. The regex of the source stops after the name, so `:id` also
      matches the start of `:idx`; with `exact` the name must not go on
      (no name character follows it). */
  function MatchLength(s: string, pat: Pattern, exact: bool): (r: Option<nat>)
    ensures r.Some? ==> 1 <= r.value <= |s|
    ensures r.Some? ==> s[0] == ':'
  {
    var k := |pat.name| + 1;
    if k <= |s| && s[0] == ':' && s[1..k] == pat.name then
      var marked := k < |s| && IsMarker(s[k]);
      if pat.markerRequired && !marked then None
      else if exact && k < |s| && NameChar(s[k]) then None
      else Some(if marked then k + 1 else k)
    else None
  }

  /** preg_replace of one pattern: every match, left to right and without
      overlap, is replaced. */
  function ReplaceAll(s: string, pat: Pattern, exact: bool): string
    decreases |s|
  {
    if s == [] then []
    else
      match MatchLength(s, pat, exact)
      case Some(k) => pat.replacement + ReplaceAll(s[k..], pat, exact)
      case None => [s[0]] + ReplaceAll(s[1..], pat, exact)
  }

  /** preg_replace with arrays: each pattern runs on the result of the previous. */
  function ApplyPatterns(s: string, pats: seq<Pattern>, exact: bool): string
    decreases |pats|
  {
    if pats == [] then s else ApplyPatterns(ReplaceAll(s, pats[0], exact), pats[1..], exact)
  }

  /** The substitution generateUri performs, with whole-name matching. */
  function Substitute(path: string, params: seq<Parameter>, subs: map<string, string>): string {
    ApplyPatterns(path, PatternsFor(params, subs), true)
  }

  /** The substitution as the source writes it: a pattern also matches a
      token whose name merely starts with the parameter's name (see
      PrefixCollision in TemplateSubstitution). */
  function SubstituteAsWritten(path: string, params: seq<Parameter>, subs: map<string, string>): string {
    ApplyPatterns(path, PatternsFor(params, subs), false)
  }

  /** `replacePathParameters`: builds one pattern per parameter, then applies
      them in turn (whole-name matching, see Substitute). */
  method ReplacePathParameters(path: string, params: seq<Parameter>, subs: map<string, string>)
    returns (r: string)
    ensures r == Substitute(path, params, subs)
  {
    var patterns: seq<Pattern> := [];
    var i := 0;
    while i < |params|
      invariant 0 <= i <= |params|
      invariant patterns == PatternsFor(params[..i], subs)
    {
      if params[i].name in subs {
        patterns := patterns + [Pattern(params[i].name, subs[params[i].name], false)];
      } else {
        patterns := patterns + [Pattern(params[i].name, "", true)];
      }
      i := i + 1;
    }
    assert params[..i] == params;
    if patterns != [] {
      r := ApplyPatterns(path, patterns, true);
    } else {
      r := path;
    }
  }

  /** The intended reading of a substitution on one piece: a token with a
      value becomes that value, an omitted optional or wildcard token
      disappears with its marker, an omitted required token stays. */
  function FillPiece(x: Piece, subs: map<string, string>): Piece {
    match x
    case Slot(p) =>
      if p.name in subs then Text(subs[p.name])
      else if IsOmissible(p) then Text("")
      else x
    case _ => x
  }

  function Fill(ps: seq<Piece>, subs: map<string, string>): (r: seq<Piece>)
    ensures |r| == |ps|
    ensures forall i :: 0 <= i < |ps| ==> r[i] == FillPiece(ps[i], subs)
  {
    if ps == [] then [] else [FillPiece(ps[0], subs)] + Fill(ps[1..], subs)
  }

  /** The pieces of a text read without tokens: one literal per character. */
  function Plain(t: string): (ps: seq<Piece>)
    ensures |ps| == |t|
    ensures forall i :: 0 <= i < |t| ==> ps[i] == Lit(t[i])
  {
    seq(|t|, i requires 0 <= i < |t| => Lit(t[i]))
  }

  lemma {:induction false} RenderAppend(a: seq<Piece>, b: seq<Piece>)
    ensures Render(a + b) == Render(a) + Render(b)
  {
    if a == [] {
      assert a + b == b;
    } else {
      assert (a + b)[0] == a[0] && (a + b)[1..] == a[1..] + b;
      RenderAppend(a[1..], b);
    }
  }

  lemma {:induction false} RenderPlain(t: string)
    ensures Render(Plain(t)) == t
  {
    if t != [] {
      assert Plain(t)[1..] == Plain(t[1..]);
      RenderPlain(t[1..]);
      assert t == [t[0]] + t[1..];
    }
  }

  lemma {:induction false} ParamsAppend(a: seq<Piece>, b: seq<Piece>)
    ensures Params(a + b) == Params(a) + Params(b)
  {
    if a == [] {
      assert a + b == b;
    } else {
      assert (a + b)[0] == a[0] && (a + b)[1..] == a[1..] + b;
      ParamsAppend(a[1..], b);
    }
  }

  lemma {:induction false} ParamsPlain(t: string)
    ensures Params(Plain(t)) == []
  {
    if t != [] {
      assert Plain(t)[1..] == Plain(t[1..]);
      ParamsPlain(t[1..]);
    }
  }

  lemma FillAppend(a: seq<Piece>, b: seq<Piece>, subs: map<string, string>)
    ensures Fill(a + b, subs) == Fill(a, subs) + Fill(b, subs)
  {
    assert forall i :: 0 <= i < |a| ==> (a + b)[i] == a[i];
    assert forall i :: |a| <= i < |a| + |b| ==> (a + b)[i] == b[i - |a|];
  }

  lemma FillPlain(t: string, subs: map<string, string>)
    ensures Fill(Plain(t), subs) == Plain(t)
  {
  }

  /** A character other than `:` is read as a literal. */
  lemma ParseLitStep(s: string)
    requires s != [] && !(s[0] == ':' && NameLength(s[1..]) > 0)
    ensures Parse(s) == [Lit(s[0])] + Parse(s[1..])
  {
  }

  lemma PlainCons(t: string)
    requires t != []
    ensures Plain(t) == [Lit(t[0])] + Plain(t[1..])
  {
  }

  /** A character absent from a text is absent from its tail and its head. */
  lemma NotInTail(t: string, c: char)
    requires t != [] && c !in t
    ensures c !in t[1..] && t[0] != c
  {
    assert t[0] in t;
    forall i | 0 <= i < |t| - 1 ensures t[1..][i] != c {
      assert t[1..][i] == t[i + 1] && t[i + 1] in t;
    }
  }

  lemma PieceConsAssoc(x: Piece, a: seq<Piece>, b: seq<Piece>)
    ensures [x] + (a + b) == ([x] + a) + b
  {
  }

  /** One literal read in front of the rest of a plain text. */
  lemma PlainStep(t: string, whole: seq<Piece>, tail: seq<Piece>, after: seq<Piece>)
    requires t != []
    requires whole == [Lit(t[0])] + tail && tail == Plain(t[1..]) + after
    ensures whole == Plain(t) + after
  {
    PlainCons(t);
    PieceConsAssoc(Lit(t[0]), Plain(t[1..]), after);
  }

  /** Text without `:` is read as literals only. */
  lemma {:induction false} ParsePlain(t: string, rest: string)
    requires ':' !in t
    ensures Parse(t + rest) == Plain(t) + Parse(rest)
  {
    if t == [] {
      assert t + rest == rest;
    } else {
      var s, tail := t + rest, t[1..] + rest;
      NotInTail(t, ':');
      assert s[0] == t[0] && s[1..] == tail;
      ParseLitStep(s);
      ParsePlain(t[1..], rest);
      PlainStep(t, Parse(s), Parse(tail), Parse(rest));
    }
  }

  lemma {:induction false} NameLengthOf(name: string, after: string)
    requires forall i :: 0 <= i < |name| ==> NameChar(name[i])
    requires after == [] || !NameChar(after[0])
    ensures NameLength(name + after) == |name|
  {
    if name == [] {
      assert name + after == after;
    } else {
      assert (name + after)[0] == name[0] && (name + after)[1..] == name[1..] + after;
      NameLengthOf(name[1..], after);
    }
  }

  /** The token at the start of `:name` + marker + rest, and where it ends. */
  lemma TokenOf(name: string, m: Modifier, rest: string)
    requires ValidName(name)
    requires m == Required ==> rest == [] || !IsMarker(rest[0])
    ensures var s := ":" + name + Marker(m) + rest;
      && |name| < |s|
      && TokenAt(s, |name|) == Parameter(name, m)
      && s[TokenLength(s, |name|)..] == rest
  {
    var s := ":" + name + Marker(m) + rest;
    var n := |name|;
    assert s[1..n + 1] == name;
    assert s[n + 1..] == Marker(m) + rest;
    match m
    case Required =>
    case Optional =>
      assert s[n + 2..] == rest;
    case Wildcard =>
      assert s[n + 2..] == rest;
  }

  /** A token is read as one parameter when its name is maximal and, if it
      has no marker, no marker follows. */
  lemma ParseToken(name: string, m: Modifier, rest: string)
    requires ValidName(name)
    requires rest == [] || !NameChar(rest[0])
    requires m == Required ==> rest == [] || !IsMarker(rest[0])
    ensures Parse(":" + name + Marker(m) + rest) == [Slot(Parameter(name, m))] + Parse(rest)
  {
    var s := ":" + name + Marker(m) + rest;
    var after := Marker(m) + rest;
    assert s[0] == ':' && s[1..] == name + after;
    assert after == [] || !NameChar(after[0]) by {
      if m == Required {
        assert after == rest;
      }
    }
    NameLengthOf(name, after);
    TokenOf(name, m, rest);
    ParseSlotStep(s);
  }
}
