/**
 * What replacePathParameters computes, stated on parsed paths: running the
 * patterns in turn over a path replaces each token by its value, drops an
 * omitted optional or wildcard token, and leaves an omitted required token in
 * place (SubstitutionMatchesTemplate, against Fill of PathTemplate).
 *
 * The source's patterns stop after the name, so a pattern for `:id` also
 * rewrites the start of `:idx`. With whole-name matching (`exact`) the
 * theorem holds for every set of names; with the source's prefix matching it
 * needs that no name is a proper prefix of another (PrefixCollision, in
 * GenerationExamples, shows the substitution going wrong when one is).
 */
module TemplateSubstitution {
  import opened Wrappers
  import opened PathTemplate

  predicate PieceColonFree(x: Piece) {
    match x
    case Lit(_) => true
    case Slot(p) => ':' !in p.name
    case Text(t) => ':' !in t
  }

  predicate PiecesColonFree(ps: seq<Piece>) {
    forall i :: 0 <= i < |ps| ==> PieceColonFree(ps[i])
  }

  /** A pattern whose name could come from extractRouteParameters and whose
      name and replacement hold no `:`. */
  predicate PatternOk(pat: Pattern) {
    ValidName(pat.name) && ':' !in pat.name && ':' !in pat.replacement
  }

  predicate IsProperPrefix(a: string, b: string) {
    |a| < |b| && a == b[..|a|]
  }

  /** No pattern name is a proper prefix of a token name among the pieces. */
  predicate NoPrefixCollision(ps: seq<Piece>, pats: seq<Pattern>) {
    forall i, j :: 0 <= i < |ps| && 0 <= j < |pats| && ps[i].Slot? ==> !IsProperPrefix(pats[j].name, ps[i].param.name)
  }

  predicate NamesColonFree(params: seq<Parameter>) {
    forall i :: 0 <= i < |params| ==> ':' !in params[i].name
  }

  predicate ValuesColonFree(subs: map<string, string>) {
    forall k :: k in subs ==> ':' !in subs[k]
  }

  /** No parameter name is a proper prefix of another. */
  predicate PrefixFree(params: seq<Parameter>) {
    forall i, j :: 0 <= i < |params| && 0 <= j < |params| ==> !IsProperPrefix(params[i].name, params[j].name)
  }

  /** What one pattern does to one piece: the token it names becomes the
      replacement, unless the pattern demands a marker the token lacks. */
  function StepPiece(x: Piece, pat: Pattern): Piece {
    match x
    case Slot(p) =>
      if p.name == pat.name && !(pat.markerRequired && p.modifier == Required) then Text(pat.replacement) else x
    case _ => x
  }

  function Step(ps: seq<Piece>, pat: Pattern): (r: seq<Piece>)
    ensures |r| == |ps|
    ensures forall i :: 0 <= i < |ps| ==> r[i] == StepPiece(ps[i], pat)
  {
    seq(|ps|, i requires 0 <= i < |ps| => StepPiece(ps[i], pat))
  }

  function StepAll(ps: seq<Piece>, pats: seq<Pattern>): seq<Piece>
    decreases |pats|
  {
    if pats == [] then ps else StepAll(Step(ps, pats[0]), pats[1..])
  }

  function FoldPiece(x: Piece, pats: seq<Pattern>): Piece
    decreases |pats|
  {
    if pats == [] then x else FoldPiece(StepPiece(x, pats[0]), pats[1..])
  }

  /** A pattern never matches at a character other than `:`, so text without
      `:` passes through unchanged. */
  lemma {:induction false} ReplaceAllSkips(t: string, rest: string, pat: Pattern, exact: bool)
    requires ':' !in t
    ensures ReplaceAll(t + rest, pat, exact) == t + ReplaceAll(rest, pat, exact)
    decreases |t|
  {
    if t == [] {
      assert t + rest == rest;
    } else {
      var s := t + rest;
      assert s[0] == t[0] && s[1..] == t[1..] + rest;
      assert MatchLength(s, pat, exact).None?;
      ReplaceAllSkips(t[1..], rest, pat, exact);
      assert t == [t[0]] + t[1..];
    }
  }

  /** A rendered token is `:` in front of its name and marker. */
  lemma SlotText(p: Parameter)
    ensures RenderPiece(Slot(p)) == [':'] + (p.name + Marker(p.modifier))
  {
  }

  lemma SplitAt(a: string, b: string)
    ensures (a + b)[..|a|] == a && (a + b)[|a|..] == b
  {
  }

  lemma AfterHead(c: char, x: string)
    ensures ([c] + x)[0] == c && ([c] + x)[1..] == x
  {
  }

  /** Where the parts of a rendered token lie. */
  lemma SlotLayout(p: Parameter, rest: string)
    ensures var s := RenderPiece(Slot(p)) + rest;
      && |s| == |p.name| + 1 + |Marker(p.modifier)| + |rest|
      && s[0] == ':'
      && s[1..|p.name| + 1] == p.name
      && s[1..] == (p.name + Marker(p.modifier)) + rest
      && s[|p.name| + 1..] == Marker(p.modifier) + rest
  {
    var nm := p.name + Marker(p.modifier);
    var s := RenderPiece(Slot(p)) + rest;
    SlotText(p);
    assert s == [':'] + (nm + rest);
    AfterHead(':', nm + rest);
    assert nm + rest == p.name + (Marker(p.modifier) + rest);
    SplitAt(p.name, Marker(p.modifier) + rest);
    assert s[1..|p.name| + 1] == s[1..][..|p.name|];
    assert s[|p.name| + 1..] == s[1..][|p.name|..];
  }

  /** preg_replace moves on by one character where the pattern does not match. */
  lemma ReplaceAllNoMatch(s: string, pat: Pattern, exact: bool)
    requires s != [] && MatchLength(s, pat, exact).None?
    ensures ReplaceAll(s, pat, exact) == [s[0]] + ReplaceAll(s[1..], pat, exact)
  {
  }

  /** and replaces the whole match where it does. */
  lemma ReplaceAllMatch(s: string, pat: Pattern, exact: bool, k: nat)
    requires s != [] && MatchLength(s, pat, exact) == Some(k)
    ensures ReplaceAll(s, pat, exact) == pat.replacement + ReplaceAll(s[k..], pat, exact)
  {
  }

  /** A name at least as long as the token's, and different, does not
      appear where the token's name is. */
  lemma LongerNameDiffers(p: Parameter, rest: string, name: string)
    requires ValidName(p.name) && ValidName(name) && p.name != name && |name| >= |p.name|
    requires p.modifier == Required ==> rest == [] || rest[0] == '/'
    ensures var s := RenderPiece(Slot(p)) + rest;
      |name| + 1 <= |s| ==> s[1..|name| + 1] != name
  {
    var s := RenderPiece(Slot(p)) + rest;
    SlotLayout(p, rest);
    var m, k := |p.name|, |name| + 1;
    if k <= |s| && |name| > m {
      var after := Marker(p.modifier) + rest;
      assert after != [] && s[m + 1] == after[0];
      assert !NameChar(after[0]) by {
        if p.modifier == Required {
          assert after == rest;
        }
      }
      assert s[1..k][m] == s[m + 1];
      assert NameChar(name[m]);
    }
  }

  /** A pattern does not match at the start of a token with another name. */
  lemma NoMatchInOtherToken(p: Parameter, rest: string, pat: Pattern, exact: bool)
    requires ValidName(p.name) && ValidName(pat.name) && p.name != pat.name
    requires p.modifier == Required ==> rest == [] || rest[0] == '/'
    requires exact || !IsProperPrefix(pat.name, p.name)
    ensures MatchLength(RenderPiece(Slot(p)) + rest, pat, exact).None?
  {
    var s := RenderPiece(Slot(p)) + rest;
    var n, k := |pat.name|, |pat.name| + 1;
    if n >= |p.name| {
      LongerNameDiffers(p, rest, pat.name);
    } else {
      SlotLayout(p, rest);
      if s[1..k] == pat.name {
        assert p.name[..n] == s[1..k];
        assert exact;
        assert s[k] == p.name[n];
      }
    }
  }

  /** A pattern does not match at a literal character. */
  lemma LitStep(c: char, rt: string, pat: Pattern, exact: bool)
    requires ValidName(pat.name)
    requires c == ':' ==> rt == [] || !NameChar(rt[0])
    ensures ReplaceAll([c] + rt, pat, exact) == [c] + ReplaceAll(rt, pat, exact)
  {
    var s := [c] + rt;
    assert s[0] == c && s[1..] == rt;
    if c == ':' {
      var k := |pat.name| + 1;
      if k <= |s| {
        assert s[1..k][0] == s[1] == rt[0];
        assert pat.name[0] != s[1];
      }
    }
    assert MatchLength(s, pat, exact).None?;
  }

  /** A pattern replaces the token it names, unless it demands a marker the
      token lacks. */
  lemma SameNameMatch(p: Parameter, rt: string, pat: Pattern, exact: bool)
    requires p.name == pat.name
    requires p.modifier == Required ==> rt == [] || rt[0] == '/'
    ensures var s := RenderPiece(Slot(p)) + rt;
      var k := |pat.name| + 1 + |Marker(p.modifier)|;
      && k <= |s| && s[k..] == rt
      && MatchLength(s, pat, exact) == if pat.markerRequired && p.modifier == Required then None else Some(k)
  {
    var s := RenderPiece(Slot(p)) + rt;
    var m := Marker(p.modifier);
    var k := |pat.name| + 1;
    assert s == ":" + p.name + m + rt;
    assert s[1..k] == pat.name;
    if m == [] {
      assert k < |s| ==> s[k] == rt[0] == '/';
      assert s[k..] == rt;
    } else {
      assert s[k] == m[0] && IsMarker(s[k]);
      assert s[k + 1..] == rt;
    }
  }

  /** The effect of one pattern on the text of a token followed by `rt`. */
  lemma NameMarkerColonFree(p: Parameter)
    requires ':' !in p.name
    ensures ':' !in p.name + Marker(p.modifier)
  {
    var nm := p.name + Marker(p.modifier);
    forall i | 0 <= i < |nm| ensures nm[i] != ':' {
      if i < |p.name| {
        assert nm[i] == p.name[i] && p.name[i] in p.name;
      }
    }
  }

  lemma CharConsAssoc(c: char, a: string, b: string)
    ensures [c] + (a + b) == ([c] + a) + b
  {
  }

  /** Where the pattern does not match at a token, the token passes through. */
  lemma SlotSkip(p: Parameter, rt: string, pat: Pattern, exact: bool)
    requires ':' !in p.name
    requires MatchLength(RenderPiece(Slot(p)) + rt, pat, exact).None?
    ensures ReplaceAll(RenderPiece(Slot(p)) + rt, pat, exact) == RenderPiece(Slot(p)) + ReplaceAll(rt, pat, exact)
  {
    var s := RenderPiece(Slot(p)) + rt;
    var nm := p.name + Marker(p.modifier);
    SlotLayout(p, rt);
    ReplaceAllNoMatch(s, pat, exact);
    NameMarkerColonFree(p);
    ReplaceAllSkips(nm, rt, pat, exact);
    SlotText(p);
    CharConsAssoc(':', nm, ReplaceAll(rt, pat, exact));
  }

  lemma SlotStep(p: Parameter, rt: string, pat: Pattern, exact: bool)
    requires ':' !in p.name && PatternOk(pat) && ValidName(p.name)
    requires p.modifier == Required ==> rt == [] || rt[0] == '/'
    requires exact || !IsProperPrefix(pat.name, p.name)
    ensures ReplaceAll(RenderPiece(Slot(p)) + rt, pat, exact)
            == RenderPiece(StepPiece(Slot(p), pat)) + ReplaceAll(rt, pat, exact)
  {
    var s := RenderPiece(Slot(p)) + rt;
    if p.name != pat.name {
      NoMatchInOtherToken(p, rt, pat, exact);
      SlotSkip(p, rt, pat, exact);
    } else if pat.markerRequired && p.modifier == Required {
      SameNameMatch(p, rt, pat, exact);
      SlotSkip(p, rt, pat, exact);
    } else {
      SameNameMatch(p, rt, pat, exact);
      ReplaceAllMatch(s, pat, exact, |pat.name| + 1 + |Marker(p.modifier)|);
    }
  }



  /** The effect of one pattern on the text of one piece followed by `rt`. */
  lemma PieceStep(x: Piece, rt: string, pat: Pattern, exact: bool)
    requires PieceColonFree(x) && PatternOk(pat)
    requires x.Lit? && x.c == ':' ==> rt == [] || !NameChar(rt[0])
    requires x.Slot? ==> ValidName(x.param.name)
    requires x.Slot? && x.param.modifier == Required ==> rt == [] || rt[0] == '/'
    requires exact || !(x.Slot? && IsProperPrefix(pat.name, x.param.name))
    ensures ReplaceAll(RenderPiece(x) + rt, pat, exact) == RenderPiece(StepPiece(x, pat)) + ReplaceAll(rt, pat, exact)
  {
    match x
    case Lit(c) => LitStep(c, rt, pat, exact);
    case Text(t) => ReplaceAllSkips(t, rt, pat, exact);
    case Slot(p) => SlotStep(p, rt, pat, exact);
  }

  lemma StepCons(x: Piece, tail: seq<Piece>, pat: Pattern)
    ensures Step([x] + tail, pat) == [StepPiece(x, pat)] + Step(tail, pat)
  {
  }

  /** One pattern run over a parsed path rewrites it piece by piece. */
  lemma {:induction false} ReplaceAllRender(ps: seq<Piece>, pat: Pattern, exact: bool)
    requires WellFormed(ps) && PiecesColonFree(ps) && PatternOk(pat)
    requires exact || NoPrefixCollision(ps, [pat])
    ensures ReplaceAll(Render(ps), pat, exact) == Render(Step(ps, pat))
  {
    if ps != [] {
      var x, tail := ps[0], ps[1..];
      assert ps == [x] + tail;
      var rt := Render(tail);
      RenderCons(x, tail);
      StepCons(x, tail, pat);
      RenderCons(StepPiece(x, pat), Step(tail, pat));
      WellFormedCons(x, tail);
      if tail != [] {
        RenderCons(tail[0], tail[1..]);
        assert tail == [tail[0]] + tail[1..];
      }
      assert exact || NoPrefixCollision(tail, [pat]) by {
        if !exact {
          forall i, j | 0 <= i < |tail| && 0 <= j < 1 && tail[i].Slot?
            ensures !IsProperPrefix([pat][j].name, tail[i].param.name)
          {
            assert tail[i] == ps[i + 1];
          }
        }
      }
      assert !exact ==> !(x.Slot? && IsProperPrefix(pat.name, x.param.name)) by {
        if !exact && x.Slot? {
          assert [pat][0] == pat;
        }
      }
      ReplaceAllRender(tail, pat, exact);
      PieceStep(x, rt, pat, exact);
    }
  }

  /** A pattern step keeps a parsed path well formed. */
  lemma {:induction false} StepWellFormed(ps: seq<Piece>, pat: Pattern)
    requires WellFormed(ps)
    ensures WellFormed(Step(ps, pat))
  {
    if ps != [] {
      assert ps == [ps[0]] + ps[1..];
      WellFormedCons(ps[0], ps[1..]);
      StepWellFormed(ps[1..], pat);
      StepCons(ps[0], ps[1..], pat);
      WellFormedCons(StepPiece(ps[0], pat), Step(ps[1..], pat));
    }
  }

  /** The patterns, run in turn over a parsed path, rewrite it piece by piece. */
  lemma {:induction false} ApplyPatternsRender(ps: seq<Piece>, pats: seq<Pattern>, exact: bool)
    requires WellFormed(ps) && PiecesColonFree(ps)
    requires forall j :: 0 <= j < |pats| ==> PatternOk(pats[j])
    requires exact || NoPrefixCollision(ps, pats)
    ensures ApplyPatterns(Render(ps), pats, exact) == Render(StepAll(ps, pats))
    decreases |pats|
  {
    if pats != [] {
      var pat := pats[0];
      assert exact || NoPrefixCollision(ps, [pat]) by {
        if !exact {
          forall i, j | 0 <= i < |ps| && 0 <= j < 1 && ps[i].Slot?
            ensures !IsProperPrefix([pat][j].name, ps[i].param.name)
          {
            assert [pat][j] == pats[0];
          }
        }
      }
      ReplaceAllRender(ps, pat, exact);
      var next := Step(ps, pat);
      StepWellFormed(ps, pat);
      assert PiecesColonFree(next) by {
        forall i | 0 <= i < |next|
          ensures PieceColonFree(next[i])
        {
          assert PieceColonFree(ps[i]);
        }
      }
      assert exact || NoPrefixCollision(next, pats[1..]) by {
        if !exact {
          forall i, j | 0 <= i < |next| && 0 <= j < |pats[1..]| && next[i].Slot?
            ensures !IsProperPrefix(pats[1..][j].name, next[i].param.name)
          {
            assert next[i] == ps[i];
            assert pats[1..][j] == pats[j + 1];
          }
        }
      }
      ApplyPatternsRender(next, pats[1..], exact);
    }
  }

  lemma {:induction false} StepAllPointwise(ps: seq<Piece>, pats: seq<Pattern>)
    ensures |StepAll(ps, pats)| == |ps|
    ensures forall i :: 0 <= i < |ps| ==> StepAll(ps, pats)[i] == FoldPiece(ps[i], pats)
    decreases |pats|
  {
    if pats != [] {
      StepAllPointwise(Step(ps, pats[0]), pats[1..]);
    }
  }

  /** A piece no pattern changes comes through the fold unchanged. */
  lemma {:induction false} FoldFixed(x: Piece, pats: seq<Pattern>)
    requires forall j :: 0 <= j < |pats| ==> StepPiece(x, pats[j]) == x
    ensures FoldPiece(x, pats) == x
    decreases |pats|
  {
    if pats != [] {
      assert StepPiece(x, pats[0]) == x;
      FoldFixed(x, pats[1..]);
    }
  }

  /** A token that has a pattern of its own ends up as Fill says. */
  lemma {:induction false} FoldSlot(p: Parameter, params: seq<Parameter>, subs: map<string, string>)
    requires p in params
    ensures FoldPiece(Slot(p), PatternsFor(params, subs)) == FillPiece(Slot(p), subs)
  {
    var pats := PatternsFor(params, subs);
    assert pats[1..] == PatternsFor(params[1..], subs);
    var first := StepPiece(Slot(p), pats[0]);
    if params[0].name == p.name {
      assert first == FillPiece(Slot(p), subs);
      forall j | 0 <= j < |pats[1..]|
        ensures StepPiece(first, pats[1..][j]) == first
      {
        assert pats[1..][j] == PatternFor(params[j + 1], subs);
      }
      FoldFixed(first, pats[1..]);
    } else {
      assert first == Slot(p);
      assert p in params[1..];
      FoldSlot(p, params[1..], subs);
    }
  }

  /** Every token of a sequence of pieces is among its Params. */
  lemma {:induction false} SlotsInParams(ps: seq<Piece>)
    ensures forall i :: 0 <= i < |ps| && ps[i].Slot? ==> ps[i].param in Params(ps)
  {
    if ps != [] {
      SlotsInParams(ps[1..]);
      assert forall i :: 1 <= i < |ps| ==> ps[i] == ps[1..][i - 1];
    }
  }

  /** Running the patterns of every token over the pieces is filling them. */
  lemma StepAllIsFill(ps: seq<Piece>, subs: map<string, string>)
    ensures StepAll(ps, PatternsFor(Params(ps), subs)) == Fill(ps, subs)
  {
    var pats := PatternsFor(Params(ps), subs);
    SlotsInParams(ps);
    StepAllPointwise(ps, pats);
    forall i | 0 <= i < |ps|
      ensures StepAll(ps, pats)[i] == Fill(ps, subs)[i]
    {
      match ps[i]
      case Slot(p) =>
        FoldSlot(p, Params(ps), subs);
      case _ =>
        FoldFixed(ps[i], pats);
    }
  }

  /** The conditions ApplyPatternsRender needs, for a parsed path. */
  lemma PatternsReady(path: string, subs: map<string, string>, exact: bool)
    requires NamesColonFree(ExtractRouteParameters(path))
    requires ValuesColonFree(subs)
    requires exact || PrefixFree(ExtractRouteParameters(path))
    ensures PiecesColonFree(Parse(path))
    ensures forall j :: 0 <= j < |PatternsFor(ExtractRouteParameters(path), subs)| ==>
      PatternOk(PatternsFor(ExtractRouteParameters(path), subs)[j])
    ensures exact || NoPrefixCollision(Parse(path), PatternsFor(ExtractRouteParameters(path), subs))
  {
    var ps := Parse(path);
    var params := ExtractRouteParameters(path);
    var pats := PatternsFor(params, subs);
    ParseWellFormed(path);
    SlotsInParams(ps);
    forall i | 0 <= i < |ps|
      ensures PieceColonFree(ps[i])
    {
      if ps[i].Slot? {
        var j :| 0 <= j < |params| && params[j] == ps[i].param;
      }
    }
    forall j | 0 <= j < |pats|
      ensures PatternOk(pats[j])
    {
      assert pats[j] == PatternFor(params[j], subs);
    }
    if !exact {
      forall i, j | 0 <= i < |ps| && 0 <= j < |pats| && ps[i].Slot?
        ensures !IsProperPrefix(pats[j].name, ps[i].param.name)
      {
        var k :| 0 <= k < |params| && params[k] == ps[i].param;
        assert pats[j].name == params[j].name;
      }
    }
  }

  /** replacePathParameters as the intended rewrite of the parsed path: each
      token with a value becomes that value, an omitted optional or wildcard
      token disappears, an omitted required token stays. With the source's
      prefix matching this needs prefix-free names. */
  lemma SubstitutionMatchesTemplate(path: string, subs: map<string, string>, exact: bool)
    requires NamesColonFree(ExtractRouteParameters(path))
    requires ValuesColonFree(subs)
    requires exact || PrefixFree(ExtractRouteParameters(path))
    ensures ApplyPatterns(path, PatternsFor(ExtractRouteParameters(path), subs), exact)
            == Render(Fill(Parse(path), subs))
  {
    var ps := Parse(path);
    ParseRenders(path);
    ParseWellFormed(path);
    PatternsReady(path, subs, exact);
    ApplyPatternsRender(ps, PatternsFor(ExtractRouteParameters(path), subs), exact);
    StepAllIsFill(ps, subs);
  }


  /** When every required parameter has a value, no token is left. */
  lemma FillLeavesNoToken(path: string, subs: map<string, string>)
    requires AllRequiredPresent(ExtractRouteParameters(path), subs)
    ensures forall i :: 0 <= i < |Parse(path)| ==> !Fill(Parse(path), subs)[i].Slot?
  {
    var ps := Parse(path);
    var params := ExtractRouteParameters(path);
    SlotsInParams(ps);
    forall i | 0 <= i < |ps| && ps[i].Slot?
      ensures !FillPiece(ps[i], subs).Slot?
    {
      var j :| 0 <= j < |params| && params[j] == ps[i].param;
    }
  }

  /** A path without `:` comes through the patterns unchanged. */
  lemma {:induction false} ApplyPatternsNoColon(path: string, pats: seq<Pattern>, exact: bool)
    requires ':' !in path
    ensures ApplyPatterns(path, pats, exact) == path
    decreases |pats|
  {
    if pats != [] {
      ReplaceAllSkips(path, [], pats[0], exact);
      assert path + [] == path;
      ApplyPatternsNoColon(path, pats[1..], exact);
    }
  }
}
