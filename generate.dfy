/**
 * `generateUri` of src/RadixRouter.php once the route is found: extract the
 * parameters of the route's path, fail listing the required ones without a
 * substitution, substitute, and normalise the result.
 */
module UriGeneration {
  import opened Wrappers
  import opened RouterErrors
  import opened PathNormalizer
  import opened PathTemplate
  import opened TemplateSubstitution

  /** The URI generated from a route's name and path. */
  function GenerateFromPath(routeName: string, path: string, subs: map<string, string>): (r: Result<string, Error>)
    ensures r.Success? ==> IsNormal(r.value)
  {
    var params := ExtractRouteParameters(path);
    var missing := MissingNames(params, subs);
    if missing != [] then Failure(MissingParameters(routeName, missing))
    else Success(NormalizePath(Substitute(path, params, subs)))
  }

  /** `generateUri` as the source writes it: each pattern also rewrites a
      token whose name merely starts with the parameter's name. */
  function GenerateFromPathAsWritten(routeName: string, path: string, subs: map<string, string>): (r: Result<string, Error>)
    ensures r.Success? ==> IsNormal(r.value)
    ensures r.Failure? <==> GenerateFromPath(routeName, path, subs).Failure?
    ensures r.Failure? ==> r == GenerateFromPath(routeName, path, subs)
  {
    var params := ExtractRouteParameters(path);
    var missing := MissingNames(params, subs);
    if missing != [] then Failure(MissingParameters(routeName, missing))
    else Success(NormalizePath(SubstituteAsWritten(path, params, subs)))
  }

  /** The two readings of the patterns generate the same URI whenever no
      parameter name is a proper prefix of another. */
  lemma GenerateAsWrittenAgrees(routeName: string, path: string, subs: map<string, string>)
    requires NamesColonFree(ExtractRouteParameters(path))
    requires ValuesColonFree(subs)
    requires PrefixFree(ExtractRouteParameters(path))
    ensures GenerateFromPathAsWritten(routeName, path, subs) == GenerateFromPath(routeName, path, subs)
  {
    SubstitutionMatchesTemplate(path, subs, true);
    SubstitutionMatchesTemplate(path, subs, false);
  }

  /** Generation fails exactly when a required parameter has no substitution,
      and the error lists every such parameter in path order. */
  lemma GenerateFailsIffMissing(routeName: string, path: string, subs: map<string, string>)
    ensures var params := ExtractRouteParameters(path);
      && (GenerateFromPath(routeName, path, subs).Failure? <==> !AllRequiredPresent(params, subs))
      && (GenerateFromPath(routeName, path, subs).Failure? ==>
            GenerateFromPath(routeName, path, subs).error == MissingParameters(routeName, MissingNames(params, subs)))
  {
    MissingNamesEmpty(ExtractRouteParameters(path), subs);
  }

  /** A generated URI is the normalised path with every token replaced by its
      value and every omitted optional or wildcard token removed; no token is
      left. */
  lemma GenerateFillsTemplate(routeName: string, path: string, subs: map<string, string>)
    requires NamesColonFree(ExtractRouteParameters(path))
    requires ValuesColonFree(subs)
    ensures var r := GenerateFromPath(routeName, path, subs);
      r.Success? ==>
        && r.value == NormalizePath(Render(Fill(Parse(path), subs)))
        && forall i :: 0 <= i < |Parse(path)| ==> !Fill(Parse(path), subs)[i].Slot?
    ensures PrefixFree(ExtractRouteParameters(path)) ==>
      GenerateFromPathAsWritten(routeName, path, subs) == GenerateFromPath(routeName, path, subs)
  {
    var params := ExtractRouteParameters(path);
    if MissingNames(params, subs) == [] {
      MissingNamesEmpty(params, subs);
      SubstitutionMatchesTemplate(path, subs, true);
      FillLeavesNoToken(path, subs);
    }
    if PrefixFree(params) {
      GenerateAsWrittenAgrees(routeName, path, subs);
    }
  }

  /** Generating again from a generated URI (a path without tokens) gives it
      back. */
  lemma GenerateIsStable(routeName: string, path: string, subs: map<string, string>, subs2: map<string, string>)
    requires GenerateFromPath(routeName, path, subs).Success?
    requires ':' !in GenerateFromPath(routeName, path, subs).value
    ensures GenerateFromPath(routeName, GenerateFromPath(routeName, path, subs).value, subs2)
            == GenerateFromPath(routeName, path, subs)
  {
    var uri := GenerateFromPath(routeName, path, subs).value;
    GenerateStaticPath(routeName, uri, subs2);
    NormalizeFixpoint(uri);
  }

  /** A path without parameters is only normalised. */
  lemma GenerateStaticPath(routeName: string, path: string, subs: map<string, string>)
    requires ':' !in path
    ensures GenerateFromPath(routeName, path, subs) == Success(NormalizePath(path))
  {
    ParsePlain(path, []);
    assert path + [] == path;
    assert Plain(path) + [] == Plain(path);
    ParamsPlain(path);
    assert ExtractRouteParameters(path) == [];
    assert PatternsFor([], subs) == [];
  }

  /** Parse, Fill and Render together, for text without `:` in front of `rest`. */
  lemma FilledPlain(t: string, rest: string, subs: map<string, string>, filled: string)
    requires ':' !in t
    requires Render(Fill(Parse(rest), subs)) == filled
    ensures Render(Fill(Parse(t + rest), subs)) == t + filled
  {
    ParsePlain(t, rest);
    FillAppend(Plain(t), Parse(rest), subs);
    FillPlain(t, subs);
    RenderAppend(Plain(t), Fill(Parse(rest), subs));
    RenderPlain(t);
  }

  /** Parse, Fill and Render together, for a token in front of `rest`. */
  lemma FilledToken(name: string, m: Modifier, rest: string, subs: map<string, string>, filled: string)
    requires ValidName(name)
    requires rest == [] || !NameChar(rest[0])
    requires m == Required ==> rest == [] || !IsMarker(rest[0])
    requires Render(Fill(Parse(rest), subs)) == filled
    ensures Render(Fill(Parse(":" + name + Marker(m) + rest), subs))
            == RenderPiece(FillPiece(Slot(Parameter(name, m)), subs)) + filled
  {
    var x := Slot(Parameter(name, m));
    ParseToken(name, m, rest);
    FillAppend([x], Parse(rest), subs);
    RenderAppend([FillPiece(x, subs)], Fill(Parse(rest), subs));
    assert Render([FillPiece(x, subs)]) == RenderPiece(FillPiece(x, subs)) + Render([]);
  }

  /** The parameters of text without `:` in front of `rest`. */
  lemma ParamsOfPlain(t: string, rest: string, params: seq<Parameter>)
    requires ':' !in t
    requires Params(Parse(rest)) == params
    ensures Params(Parse(t + rest)) == params
  {
    ParsePlain(t, rest);
    ParamsAppend(Plain(t), Parse(rest));
    ParamsPlain(t);
  }

  /** The parameters of a token in front of `rest`. */
  lemma ParamsOfToken(name: string, m: Modifier, rest: string, params: seq<Parameter>)
    requires ValidName(name)
    requires rest == [] || !NameChar(rest[0])
    requires m == Required ==> rest == [] || !IsMarker(rest[0])
    requires Params(Parse(rest)) == params
    ensures Params(Parse(":" + name + Marker(m) + rest)) == [Parameter(name, m)] + params
  {
    ParseToken(name, m, rest);
    ParamsAppend([Slot(Parameter(name, m))], Parse(rest));
  }

  /** Generation once the template reading of the path is known. */
  lemma GenerateFrom(routeName: string, path: string, subs: map<string, string>, params: seq<Parameter>, filled: string)
    requires Params(Parse(path)) == params
    requires Render(Fill(Parse(path), subs)) == filled
    requires NamesColonFree(params) && ValuesColonFree(subs)
    requires AllRequiredPresent(params, subs)
    ensures GenerateFromPath(routeName, path, subs) == Success(NormalizePath(filled))
    ensures PrefixFree(params) ==> GenerateFromPathAsWritten(routeName, path, subs) == Success(NormalizePath(filled))
  {
    MissingNamesEmpty(params, subs);
    GenerateFillsTemplate(routeName, path, subs);
  }

  /** A path written as literal text followed by a token, repeatedly. */
  datatype Segment = Segment(text: string, param: Parameter)

  function Build(segs: seq<Segment>): string {
    if segs == [] then "" else segs[0].text + (RenderPiece(Slot(segs[0].param)) + Build(segs[1..]))
  }

  /** Texts and names without `:`, valid names, and every text after the
      first starting with a slash, so that each token is read as written. */
  predicate SegmentsOk(segs: seq<Segment>) {
    forall i :: 0 <= i < |segs| ==>
      && ':' !in segs[i].text
      && ValidName(segs[i].param.name)
      && ':' !in segs[i].param.name
      && (i > 0 ==> segs[i].text != [] && segs[i].text[0] == '/')
  }

  /** SegmentsOk, built one segment at a time from the end. */
  lemma SegmentsOkCons(seg: Segment, segs: seq<Segment>)
    requires ':' !in seg.text && ValidName(seg.param.name) && ':' !in seg.param.name
    requires SegmentsOk(segs)
    requires segs != [] ==> segs[0].text != [] && segs[0].text[0] == '/'
    ensures SegmentsOk([seg] + segs)
  {
    forall i | 1 <= i < |segs| + 1 ensures ([seg] + segs)[i] == segs[i - 1] {
    }
  }

  function SegmentParams(segs: seq<Segment>): seq<Parameter> {
    if segs == [] then [] else [segs[0].param] + SegmentParams(segs[1..])
  }

  /** The text each token becomes, in between the literal texts. */
  function Filled(segs: seq<Segment>, subs: map<string, string>): string {
    if segs == [] then "" else segs[0].text + (RenderPiece(FillPiece(Slot(segs[0].param), subs)) + Filled(segs[1..], subs))
  }

  lemma {:induction false} BuildReads(segs: seq<Segment>, subs: map<string, string>)
    requires SegmentsOk(segs)
    ensures Params(Parse(Build(segs))) == SegmentParams(segs)
    ensures Render(Fill(Parse(Build(segs)), subs)) == Filled(segs, subs)
  {
    if segs != [] {
      var rest := Build(segs[1..]);
      assert SegmentsOk(segs[1..]) by {
        forall i | 0 <= i < |segs[1..]|
          ensures ':' !in segs[1..][i].text && ValidName(segs[1..][i].param.name) && ':' !in segs[1..][i].param.name
        {
          assert segs[1..][i] == segs[i + 1];
        }
      }
      BuildReads(segs[1..], subs);
      assert rest == [] || rest[0] == '/' by {
        if |segs| > 1 {
          assert segs[1..][0] == segs[1];
        }
      }
      var p := segs[0].param;
      assert RenderPiece(Slot(p)) + rest == ":" + p.name + Marker(p.modifier) + rest;
      ParamsOfToken(p.name, p.modifier, rest, SegmentParams(segs[1..]));
      FilledToken(p.name, p.modifier, rest, subs, Filled(segs[1..], subs));
      ParamsOfPlain(segs[0].text, RenderPiece(Slot(p)) + rest, SegmentParams(segs));
      FilledPlain(segs[0].text, RenderPiece(Slot(p)) + rest, subs,
        RenderPiece(FillPiece(Slot(p), subs)) + Filled(segs[1..], subs));
    }
  }

  lemma {:induction false} SegmentParamsNames(segs: seq<Segment>)
    ensures |SegmentParams(segs)| == |segs|
    ensures forall i :: 0 <= i < |segs| ==> SegmentParams(segs)[i] == segs[i].param
  {
    if segs != [] {
      SegmentParamsNames(segs[1..]);
    }
  }

  /** Generation from a path given as segments: the filled text, normalised. */
  lemma GenerateFromSegments(routeName: string, segs: seq<Segment>, subs: map<string, string>, filled: string)
    requires SegmentsOk(segs) && ValuesColonFree(subs)
    requires AllRequiredPresent(SegmentParams(segs), subs)
    requires Filled(segs, subs) == filled
    ensures GenerateFromPath(routeName, Build(segs), subs) == Success(NormalizePath(filled))
    ensures PrefixFree(SegmentParams(segs)) ==>
      GenerateFromPathAsWritten(routeName, Build(segs), subs) == Success(NormalizePath(filled))
  {
    BuildReads(segs, subs);
    SegmentParamsNames(segs);
    assert NamesColonFree(SegmentParams(segs));
    GenerateFrom(routeName, Build(segs), subs, SegmentParams(segs), filled);
  }

  /** Generation from segments whose filled text is already normal. */
  lemma GenerateFromSegmentsNormal(routeName: string, segs: seq<Segment>, subs: map<string, string>, filled: string)
    requires SegmentsOk(segs) && ValuesColonFree(subs)
    requires AllRequiredPresent(SegmentParams(segs), subs)
    requires Filled(segs, subs) == filled
    requires IsNormal(filled)
    ensures GenerateFromPath(routeName, Build(segs), subs) == Success(filled)
  {
    GenerateFromSegments(routeName, segs, subs, filled);
    NormalizeFixpoint(filled);
  }
}
