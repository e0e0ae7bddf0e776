/**
 * `LibvirtNWFilterDef.FilterRef`: a reference to another filter by name, with
 * `name`/`value` parameters, rendered as a `<filterref ...>` element. Names and
 * values are copied into the quoted attributes verbatim, without escaping.
 */
module FilterRefs {
  import opened Strings

  datatype Parameter = Parameter(name: string, value: string)

  /** `Parameter.toString()`: one self-closing element on its own line. */
  function RenderParameter(p: Parameter): (s: string)
    ensures "<parameter name='" <= s
    ensures |s| == |p.name| + |p.value| + 30 && s[|s| - 4..] == "'/>\n"
  {
    "<parameter name='" + p.name + "' value='" + p.value + "'/>\n"
  }

  /** Where the name and the value sit in a rendered parameter: both are copied verbatim. */
  lemma RenderParameterLayout(p: Parameter)
    ensures var s, n := RenderParameter(p), |p.name|;
      && s[17..17 + n] == p.name
      && s[17 + n..26 + n] == "' value='"
      && s[26 + n..26 + n + |p.value|] == p.value
  {
  }

  datatype FilterRef = FilterRef(filter: string, parameters: seq<Parameter>)

  /** The constructor: a reference to `filter` without parameters. */
  function NewFilterRef(filter: string): (f: FilterRef)
    ensures f.filter == filter && f.parameters == []
  {
    FilterRef(filter, [])
  }

  /** `addParameter`: the parameter goes at the end of the list; the filter name is kept. */
  function AddParameter(f: FilterRef, p: Parameter): (g: FilterRef)
    ensures g.filter == f.filter && |g.parameters| == |f.parameters| + 1
    ensures g.parameters[..|f.parameters|] == f.parameters && g.parameters[|f.parameters|] == p
  {
    f.(parameters := f.parameters + [p])
  }

  /** `FilterRef.toString()`: the opening tag first, `</filterref>` last. */
  function RenderFilterRef(f: FilterRef): (s: string)
    ensures "<filterref filter='" + f.filter + "'>\n" <= s
    ensures |s| >= 13 && s[|s| - 13..] == "</filterref>\n"
  {
    var open, body := "<filterref filter='" + f.filter + "'>\n", Concat(f.parameters, RenderParameter);
    PrefixExtends(open, open, body);
    PrefixExtends(open, open + body, "</filterref>\n");
    open + body + "</filterref>\n"
  }

  /** A parameter whose name and value can be told apart from the quotes around them. */
  predicate WellFormedParameter(p: Parameter) {
    '\'' !in p.name && '\'' !in p.value
  }

  predicate WellFormedFilterRef(f: FilterRef) {
    && '\'' !in f.filter
    && forall i :: 0 <= i < |f.parameters| ==> WellFormedParameter(f.parameters[i])
  }

  // ---------------------------------------------------------------------------
  // Properties of the rendering.
  // ---------------------------------------------------------------------------

  /** A fresh reference renders as an opening and a closing tag and nothing between. */
  lemma NewFilterRefRendering(filter: string)
    ensures RenderFilterRef(NewFilterRef(filter))
      == "<filterref filter='" + filter + "'>\n</filterref>\n"
  {
  }

  /** Adding a parameter inserts its element just before `</filterref>`; nothing else changes. */
  lemma AddParameterRendering(f: FilterRef, p: Parameter)
    ensures |RenderFilterRef(f)| >= 13
    ensures RenderFilterRef(AddParameter(f, p))
      == RenderFilterRef(f)[..|RenderFilterRef(f)| - 13] + RenderParameter(p) + "</filterref>\n"
  {
    var open, body, item := "<filterref filter='" + f.filter + "'>\n", Concat(f.parameters, RenderParameter), RenderParameter(p);
    ConcatAppend(f.parameters, [p], RenderParameter);
    ConcatOne(p, RenderParameter);
    assert RenderFilterRef(AddParameter(f, p)) == open + (body + item) + "</filterref>\n";
    InsertBeforeClose(open, body, item, "</filterref>\n");
  }

  /**
   * Without escaping a quote inside a value is ambiguous: two different parameters
   * render the same text, so the quote-free requirement of the round trip is needed.
   */
  lemma QuoteMakesParametersAmbiguous()
    ensures var p, q := Parameter("ip' value='a", "b"), Parameter("ip", "a' value='b");
      p != q && RenderParameter(p) == RenderParameter(q)
  {
    var p, q := Parameter("ip' value='a", "b"), Parameter("ip", "a' value='b");
    assert p.name != q.name;

  }

  // ---------------------------------------------------------------------------
  // Reading a rendered reference back.
  // ---------------------------------------------------------------------------

  /** Reads one `<parameter name='...' value='...'/>` element and its newline. */
  function ParseParameter(s: string): (r: Option<Parsed<Parameter>>)
    ensures r.Some? ==> |r.value.rest| < |s|
  {
    var s1 :- Expect(s, "<parameter name='");
    var name := TakeUntil(s1, '\'');
    var s2 :- Expect(name.rest, "' value='");
    var value := TakeUntil(s2, '\'');
    var s3 :- Expect(value.rest, "'/>\n");
    Some(Parsed(Parameter(name.value, value.value), s3))
  }

  /** Reads parameter elements up to the closing `</filterref>`. */
  function ParseParameters(s: string): (r: Option<Parsed<seq<Parameter>>>)
    ensures r.Some? ==> |r.value.rest| <= |s|
    decreases |s|
  {
    if "</filterref>\n" <= s then Some(Parsed([], s))
    else
      var p :- ParseParameter(s);
      var more :- ParseParameters(p.rest);
      Some(Parsed([p.value] + more.value, more.rest))
  }

  /** Reads one filter reference element and its trailing newline. */
  function ParseFilterRef(s: string): (r: Option<Parsed<FilterRef>>)
    ensures r.Some? ==> |r.value.rest| < |s|
  {
    var s1 :- Expect(s, "<filterref filter='");
    var filter := TakeUntil(s1, '\'');
    var s2 :- Expect(filter.rest, "'>\n");
    var params :- ParseParameters(s2);
    var s3 :- Expect(params.rest, "</filterref>\n");
    Some(Parsed(FilterRef(filter.value, params.value), s3))
  }

  /** A quote-free parameter reads back exactly, leaving what follows it. */
  lemma ParseParameterRoundTrip(p: Parameter, rest: string)
    requires WellFormedParameter(p)
    ensures ParseParameter(RenderParameter(p) + rest) == Some(Parsed(p, rest))
  {
    var x := p.value + ("'/>\n" + rest);
    var y := p.name + ("' value='" + x);
    Assoc("<parameter name='" + p.name + "' value='" + p.value, "'/>\n", rest);
    Assoc("<parameter name='" + p.name + "' value='", p.value, "'/>\n" + rest);
    Assoc("<parameter name='" + p.name, "' value='", x);
    Assoc("<parameter name='", p.name, "' value='" + x);
    assert RenderParameter(p) + rest == "<parameter name='" + y;
    ExpectPrefix("<parameter name='", y);
    TakeUntilSplits(p.name, "' value='" + x, '\'');
    ExpectPrefix("' value='", x);
    TakeUntilSplits(p.value, "'/>\n" + rest, '\'');
    ExpectPrefix("'/>\n", rest);
  }

  lemma ParameterIsNotClose(p: Parameter, tail: string)
    ensures !("</filterref>\n" <= RenderParameter(p) + tail)
  {
    assert (RenderParameter(p) + tail)[1] == 'p';
  }

  lemma ParseParametersCons(p: Parameter, tail: string)
    requires WellFormedParameter(p)
    requires ParseParameters(tail).Some?
    ensures ParseParameters(RenderParameter(p) + tail)
      == Some(Parsed([p] + ParseParameters(tail).value.value, ParseParameters(tail).value.rest))
  {
    ParameterIsNotClose(p, tail);
    ParseParameterRoundTrip(p, tail);
  }

  /** The list after the first parameter element is read by the recursive call. */
  lemma ParseParametersStep(ps: seq<Parameter>, rest: string)
    requires |ps| > 0 && WellFormedParameter(ps[0])
    requires ParseParameters(Concat(ps[1..], RenderParameter) + rest) == Some(Parsed(ps[1..], rest))
    ensures ParseParameters(Concat(ps, RenderParameter) + rest) == Some(Parsed(ps, rest))
  {
    var head, others := RenderParameter(ps[0]), Concat(ps[1..], RenderParameter);
    Assoc(head, others, rest);
    assert Concat(ps, RenderParameter) + rest == head + (others + rest);
    ParseParametersCons(ps[0], others + rest);
    assert [ps[0]] + ps[1..] == ps;
  }

  lemma {:induction false} ParseParametersRoundTrip(ps: seq<Parameter>, rest: string)
    requires forall i :: 0 <= i < |ps| ==> WellFormedParameter(ps[i])
    requires "</filterref>\n" <= rest
    ensures ParseParameters(Concat(ps, RenderParameter) + rest) == Some(Parsed(ps, rest))
  {
    if ps == [] {
      assert Concat(ps, RenderParameter) + rest == rest;
    } else {
      assert forall i :: 0 <= i < |ps[1..]| ==> ps[1..][i] == ps[i + 1];
      ParseParametersRoundTrip(ps[1..], rest);
      ParseParametersStep(ps, rest);
    }
  }

  /** A well-formed reference, followed by anything, reads back exactly and leaves the rest. */
  lemma ParseFilterRefRoundTrip(f: FilterRef, rest: string)
    requires WellFormedFilterRef(f)
    ensures ParseFilterRef(RenderFilterRef(f) + rest) == Some(Parsed(f, rest))
  {
    var body := Concat(f.parameters, RenderParameter);
    var x := body + ("</filterref>\n" + rest);
    Assoc("<filterref filter='" + f.filter + "'>\n" + body, "</filterref>\n", rest);
    Assoc("<filterref filter='" + f.filter + "'>\n", body, "</filterref>\n" + rest);
    Assoc("<filterref filter='" + f.filter, "'>\n", x);
    Assoc("<filterref filter='", f.filter, "'>\n" + x);
    assert RenderFilterRef(f) + rest == "<filterref filter='" + (f.filter + ("'>\n" + x));
    ExpectPrefix("<filterref filter='", f.filter + ("'>\n" + x));
    TakeUntilSplits(f.filter, "'>\n" + x, '\'');
    ExpectPrefix("'>\n", x);
    ParseParametersRoundTrip(f.parameters, "</filterref>\n" + rest);
    ExpectPrefix("</filterref>\n", rest);
  }

  /** Different well-formed references render differently. */
  lemma RenderFilterRefInjective(f: FilterRef, g: FilterRef)
    requires WellFormedFilterRef(f) && WellFormedFilterRef(g)
    ensures RenderFilterRef(f) == RenderFilterRef(g) <==> f == g
  {
    ParseFilterRefRoundTrip(f, "");
    ParseFilterRefRoundTrip(g, "");
    assert RenderFilterRef(f) + "" == RenderFilterRef(f);
    assert RenderFilterRef(g) + "" == RenderFilterRef(g);
  }
}
