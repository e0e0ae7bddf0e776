/**
 * `LibvirtNWFilterDef` itself: a named filter with a uuid, an optional chain, the
 * filters it references and its rules, rendered as one `<filter ...>` document.
 */
module Filters {
  import opened Strings
  import opened Rules
  import opened FilterRefs

  /** The chain a filter is attached to; its table string is the `chain` value. */
  datatype Chain = Root | Mac | Vlan | Stp | Ipv4 | Ipv6 | Arp | Rarp

  function ChainName(c: Chain): (name: string)
    ensures |name| > 0 && '\'' !in name
  {
    match c
    case Root => "root"
    case Mac => "mac"
    case Vlan => "vlan"
    case Stp => "stp"
    case Ipv4 => "ipv4"
    case Ipv6 => "ipv6"
    case Arp => "arp"
    case Rarp => "rarp"
  }

  function ParseChain(s: string): (r: Option<Chain>)
    ensures r.Some? ==> ChainName(r.value) == s
  {
    if s == "root" then Some(Root)
    else if s == "mac" then Some(Mac)
    else if s == "vlan" then Some(Vlan)
    else if s == "stp" then Some(Stp)
    else if s == "ipv4" then Some(Ipv4)
    else if s == "ipv6" then Some(Ipv6)
    else if s == "arp" then Some(Arp)
    else if s == "rarp" then Some(Rarp)
    else None
  }

  lemma ChainNameRoundTrip(c: Chain)
    ensures ParseChain(ChainName(c)) == Some(c)
  {
  }

  /** A filter; `chain` is `None` when the two-argument constructor left it null. */
  datatype Filter = Filter(
    name: string,
    uuid: string,
    chain: Option<Chain>,
    filterRefs: seq<FilterRef>,
    rules: seq<Rule>)

  /** The two-argument constructor: no chain, no references, no rules. */
  function NewFilter(name: string, uuid: string): (f: Filter)
    ensures f.name == name && f.uuid == uuid && f.chain == None
    ensures f.filterRefs == [] && f.rules == []
  {
    Filter(name, uuid, None, [], [])
  }

  /** The three-argument constructor: the chain is set. */
  function NewFilterWithChain(name: string, uuid: string, chain: Chain): (f: Filter)
    ensures f.name == name && f.uuid == uuid && f.chain == Some(chain)
    ensures f.filterRefs == [] && f.rules == []
  {
    Filter(name, uuid, Some(chain), [], [])
  }

  /** `addRule`: the rule goes at the end of the rule list; nothing else changes. */
  function AddRule(f: Filter, r: Rule): (g: Filter)
    ensures |g.rules| == |f.rules| + 1
    ensures g.rules[..|f.rules|] == f.rules && g.rules[|f.rules|] == r
    ensures g.(rules := f.rules) == f
  {
    f.(rules := f.rules + [r])
  }

  /** `addFilterRef`: the reference goes at the end of the reference list; nothing else changes. */
  function AddFilterRef(f: Filter, ref: FilterRef): (g: Filter)
    ensures |g.filterRefs| == |f.filterRefs| + 1
    ensures g.filterRefs[..|f.filterRefs|] == f.filterRefs && g.filterRefs[|f.filterRefs|] == ref
    ensures g.(filterRefs := f.filterRefs) == f
  {
    f.(filterRefs := f.filterRefs + [ref])
  }

  /** `<filter name='N`, the part of the opening tag both forms share. */
  function FilterHead(f: Filter): string {
    "<filter name='" + f.name
  }

  /** The rest of the opening tag: the chain attribute is written only when a chain is set. */
  function ChainEnd(chain: Option<Chain>): string {
    if chain.None? then "'>\n" else "' chain='" + ChainName(chain.value) + "'>\n"
  }

  function FilterOpenTag(f: Filter): string {
    FilterHead(f) + ChainEnd(f.chain)
  }

  function UuidLine(uuid: string): string {
    "<uuid>" + uuid + "</uuid>\n"
  }

  /** `LibvirtNWFilterDef.toString()`: opening tag, uuid, references, rules, closing tag. */
  function RenderFilter(f: Filter): (s: string)
    ensures FilterOpenTag(f) + UuidLine(f.uuid) <= s
    ensures |s| >= 10 && s[|s| - 10..] == "</filter>\n"
  {
    var head, refs, rules := FilterOpenTag(f) + UuidLine(f.uuid), Concat(f.filterRefs, RenderFilterRef), Concat(f.rules, RenderRule);
    PrefixExtends(head, head, refs);
    PrefixExtends(head, head + refs, rules);
    PrefixExtends(head, head + refs + rules, "</filter>\n");
    head + refs + rules + "</filter>\n"
  }

  /** The strings copied into the document can be told apart from the markup around them. */
  predicate WellFormedFilter(f: Filter) {
    && '\'' !in f.name
    && '<' !in f.uuid
    && (forall i :: 0 <= i < |f.filterRefs| ==> WellFormedFilterRef(f.filterRefs[i]))
    && (forall i :: 0 <= i < |f.rules| ==> WellFormedRule(f.rules[i]))
  }

  function NormalizeRules(rs: seq<Rule>): (qs: seq<Rule>)
    ensures |qs| == |rs|
  {
    seq(|rs|, i requires 0 <= i < |rs| => NormalizeRule(rs[i]))
  }

  /** The canonical filter with the same rendering: every rule is canonical. */
  function NormalizeFilter(f: Filter): Filter {
    f.(rules := NormalizeRules(f.rules))
  }

  // ---------------------------------------------------------------------------
  // Properties of the rendering.
  // ---------------------------------------------------------------------------

  /**
   * The opening tag ends right after the name exactly when no chain is set, and it
   * carries `chain='c'` exactly when one is set.
   */
  lemma ChainAttribute(f: Filter)
    ensures FilterHead(f) + "'>\n" <= RenderFilter(f) <==> f.chain.None?
    ensures FilterHead(f) + "' chain='" <= RenderFilter(f) <==> f.chain.Some?
    ensures f.chain.Some? ==> FilterHead(f) + "' chain='" + ChainName(f.chain.value) + "'>\n" <= RenderFilter(f)
  {
    var head, end := FilterHead(f), ChainEnd(f.chain);
    var s := RenderFilter(f);
    OpenTagStartsFilter(f);
    assert s[|head| + 1] == (head + end)[|head| + 1] == end[1];
    assert (head + "'>\n")[|head| + 1] == '>';
    assert (head + "' chain='")[|head| + 1] == ' ';
    if f.chain.Some? {
      var name := ChainName(f.chain.value);
      Assoc(head + "' chain='", name, "'>\n");
      Assoc(head, "' chain='", name + "'>\n");
      PrefixExtends(head + "' chain='", head + "' chain='", name + "'>\n");
    }
  }

  /** The opening tag is the start of the document. */
  lemma OpenTagStartsFilter(f: Filter)
    ensures FilterOpenTag(f) <= RenderFilter(f)
  {
    var tag, uuid := FilterOpenTag(f), UuidLine(f.uuid);
    var refs, rules := Concat(f.filterRefs, RenderFilterRef), Concat(f.rules, RenderRule);
    PrefixExtends(tag, tag, uuid);
    PrefixExtends(tag, tag + uuid, refs);
    PrefixExtends(tag, tag + uuid + refs, rules);
    PrefixExtends(tag, tag + uuid + refs + rules, "</filter>\n");
  }

  /** A filter built without a chain renders as its opening tag, uuid and closing tag. */
  lemma NewFilterRendering(name: string, uuid: string)
    ensures RenderFilter(NewFilter(name, uuid))
      == "<filter name='" + name + "'>\n<uuid>" + uuid + "</uuid>\n</filter>\n"
  {
  }

  /** A filter built with a chain shows it in the opening tag. */
  lemma NewFilterWithChainRendering(name: string, uuid: string, chain: Chain)
    ensures RenderFilter(NewFilterWithChain(name, uuid, chain))
      == ("<filter name='" + name + "' chain='" + ChainName(chain) + "'>\n") + ("<uuid>" + uuid + "</uuid>\n") + "</filter>\n"
  {
  }

  /** Adding a rule inserts its element just before `</filter>`; nothing else changes. */
  lemma AddRuleRendering(f: Filter, r: Rule)
    ensures |RenderFilter(f)| >= 10
    ensures RenderFilter(AddRule(f, r))
      == RenderFilter(f)[..|RenderFilter(f)| - 10] + RenderRule(r) + "</filter>\n"
  {
    var before := FilterOpenTag(f) + UuidLine(f.uuid) + Concat(f.filterRefs, RenderFilterRef);
    var body, item := Concat(f.rules, RenderRule), RenderRule(r);
    ConcatAppend(f.rules, [r], RenderRule);
    ConcatOne(r, RenderRule);
    assert RenderFilter(AddRule(f, r)) == before + (body + item) + "</filter>\n";
    InsertBeforeClose(before, body, item, "</filter>\n");
  }

  /**
   * Adding a reference inserts its element after the existing references and
   * before every rule, whatever rules the filter already has.
   */
  lemma AddFilterRefRendering(f: Filter, g: FilterRef)
    ensures var tail := Concat(f.rules, RenderRule) + "</filter>\n";
      && |RenderFilter(f)| >= |tail|
      && RenderFilter(AddFilterRef(f, g))
        == RenderFilter(f)[..|RenderFilter(f)| - |tail|] + RenderFilterRef(g) + tail
  {
    var before := FilterOpenTag(f) + UuidLine(f.uuid);
    var body, item := Concat(f.filterRefs, RenderFilterRef), RenderFilterRef(g);
    var rules := Concat(f.rules, RenderRule);
    var tail := rules + "</filter>\n";
    ConcatAppend(f.filterRefs, [g], RenderFilterRef);
    ConcatOne(g, RenderFilterRef);
    Assoc(before + (body + item), rules, "</filter>\n");
    Assoc(before + body, rules, "</filter>\n");
    assert RenderFilter(AddFilterRef(f, g)) == before + (body + item) + tail;
    assert RenderFilter(f) == before + body + tail;
    InsertBeforeClose(before, body, item, tail);
  }

  lemma {:induction false} NormalizeRulesInvisible(rs: seq<Rule>)
    ensures Concat(NormalizeRules(rs), RenderRule) == Concat(rs, RenderRule)
  {
    if rs != [] {
      NormalizeRuleInvisible(rs[0]);
      assert NormalizeRules(rs)[1..] == NormalizeRules(rs[1..]);
      NormalizeRulesInvisible(rs[1..]);
    }
  }

  /** Normalisation is invisible in the output. */
  lemma NormalizeFilterInvisible(f: Filter)
    ensures RenderFilter(NormalizeFilter(f)) == RenderFilter(f)
  {
    NormalizeRulesInvisible(f.rules);
  }

  // ---------------------------------------------------------------------------
  // Reading a rendered filter back.
  // ---------------------------------------------------------------------------

  /** Reads the end of an opening tag: `'>` alone, or a chain attribute before it. */
  function ParseChainEnd(s: string): (r: Option<Parsed<Option<Chain>>>)
    ensures r.Some? ==> |r.value.rest| < |s|
  {
    if "'>\n" <= s then Some(Parsed(None, s[3..]))
    else
      var s1 :- Expect(s, "' chain='");
      var c := TakeUntil(s1, '\'');
      var chain :- ParseChain(c.value);
      var s2 :- Expect(c.rest, "'>\n");
      Some(Parsed(Some(chain), s2))
  }

  /** The values read from an opening tag. */
  datatype FilterTag = FilterTag(name: string, chain: Option<Chain>)

  function ParseFilterOpenTag(s: string): (r: Option<Parsed<FilterTag>>)
    ensures r.Some? ==> |r.value.rest| < |s|
  {
    var s1 :- Expect(s, "<filter name='");
    var name := TakeUntil(s1, '\'');
    var end :- ParseChainEnd(name.rest);
    Some(Parsed(FilterTag(name.value, end.value), end.rest))
  }

  /** Reads the `<uuid>` line. */
  function ParseUuid(s: string): (r: Option<Parsed<string>>)
    ensures r.Some? ==> |r.value.rest| < |s|
  {
    var s1 :- Expect(s, "<uuid>");
    var uuid := TakeUntil(s1, '<');
    var s2 :- Expect(uuid.rest, "</uuid>\n");
    Some(Parsed(uuid.value, s2))
  }

  /** Reads filter references as long as the next element is one. */
  function ParseFilterRefs(s: string): (r: Option<Parsed<seq<FilterRef>>>)
    ensures r.Some? ==> |r.value.rest| <= |s|
    decreases |s|
  {
    if "<filterref filter='" <= s then
      var g :- ParseFilterRef(s);
      var more :- ParseFilterRefs(g.rest);
      Some(Parsed([g.value] + more.value, more.rest))
    else Some(Parsed([], s))
  }

  /** Reads rule elements up to the closing `</filter>`. */
  function ParseRules(s: string): (r: Option<Parsed<seq<Rule>>>)
    ensures r.Some? ==> |r.value.rest| <= |s|
    decreases |s|
  {
    if "</filter>\n" <= s then Some(Parsed([], s))
    else
      var r :- ParseRule(s);
      var more :- ParseRules(r.rest);
      Some(Parsed([r.value] + more.value, more.rest))
  }

  /** Reads a whole filter document; what follows it is returned as the rest. */
  function ParseFilter(s: string): (r: Option<Parsed<Filter>>)
  {
    var tag :- ParseFilterOpenTag(s);
    var uuid :- ParseUuid(tag.rest);
    var refs :- ParseFilterRefs(uuid.rest);
    var rules :- ParseRules(refs.rest);
    var s1 :- Expect(rules.rest, "</filter>\n");
    Some(Parsed(Filter(tag.value.name, uuid.value, tag.value.chain, refs.value, rules.value), s1))
  }

  lemma ChainEndRoundTrip(chain: Option<Chain>, tail: string)
    ensures ParseChainEnd(ChainEnd(chain) + tail) == Some(Parsed(chain, tail))
  {
    if chain.None? {
      assert ("'>\n" + tail)[3..] == tail;
    } else {
      var name := ChainName(chain.value);
      var x := name + ("'>\n" + tail);
      Assoc("' chain='" + name, "'>\n", tail);
      Assoc("' chain='", name, "'>\n" + tail);
      assert ChainEnd(chain) + tail == "' chain='" + x;
      assert ("' chain='" + x)[1] == ' ';
      ExpectPrefix("' chain='", x);
      TakeUntilSplits(name, "'>\n" + tail, '\'');
      ChainNameRoundTrip(chain.value);
      ExpectPrefix("'>\n", tail);
    }
  }

  lemma ParseFilterOpenTagRoundTrip(f: Filter, tail: string)
    requires '\'' !in f.name
    ensures ParseFilterOpenTag(FilterOpenTag(f) + tail) == Some(Parsed(FilterTag(f.name, f.chain), tail))
  {
    var end := ChainEnd(f.chain);
    Assoc("<filter name='", f.name, end);
    Assoc("<filter name='", f.name + end, tail);
    Assoc(f.name, end, tail);
    assert FilterOpenTag(f) + tail == "<filter name='" + (f.name + (end + tail));
    ExpectPrefix("<filter name='", f.name + (end + tail));
    TakeUntilSplits(f.name, end + tail, '\'');
    ChainEndRoundTrip(f.chain, tail);
  }

  lemma UuidRoundTrip(uuid: string, tail: string)
    requires '<' !in uuid
    ensures ParseUuid(UuidLine(uuid) + tail) == Some(Parsed(uuid, tail))
  {
    Assoc("<uuid>" + uuid, "</uuid>\n", tail);
    Assoc("<uuid>", uuid, "</uuid>\n" + tail);
    ExpectPrefix("<uuid>", uuid + ("</uuid>\n" + tail));
    TakeUntilSplits(uuid, "</uuid>\n" + tail, '<');
    ExpectPrefix("</uuid>\n", tail);
  }

  lemma FilterRefsStep(gs: seq<FilterRef>, rest: string)
    requires |gs| > 0 && WellFormedFilterRef(gs[0])
    requires ParseFilterRefs(Concat(gs[1..], RenderFilterRef) + rest) == Some(Parsed(gs[1..], rest))
    ensures ParseFilterRefs(Concat(gs, RenderFilterRef) + rest) == Some(Parsed(gs, rest))
  {
    var head, others := RenderFilterRef(gs[0]), Concat(gs[1..], RenderFilterRef);
    Assoc(head, others, rest);
    assert Concat(gs, RenderFilterRef) + rest == head + (others + rest);
    Assoc("<filterref filter='", gs[0].filter, "'>\n" + Concat(gs[0].parameters, RenderParameter) + "</filterref>\n");
    assert "<filterref filter='" <= head;
    ParseFilterRefRoundTrip(gs[0], others + rest);
    assert [gs[0]] + gs[1..] == gs;
  }

  lemma {:induction false} ParseFilterRefsRoundTrip(gs: seq<FilterRef>, rest: string)
    requires forall i :: 0 <= i < |gs| ==> WellFormedFilterRef(gs[i])
    requires !("<filterref filter='" <= rest)
    ensures ParseFilterRefs(Concat(gs, RenderFilterRef) + rest) == Some(Parsed(gs, rest))
  {
    if gs == [] {
      assert Concat(gs, RenderFilterRef) + rest == rest;
    } else {
      assert forall i :: 0 <= i < |gs[1..]| ==> gs[1..][i] == gs[i + 1];
      ParseFilterRefsRoundTrip(gs[1..], rest);
      FilterRefsStep(gs, rest);
    }
  }

  /** A rendered rule starts neither the closing tag nor a reference. */
  lemma RuleStartsNoOtherElement(r: Rule, tail: string)
    ensures !("</filter>\n" <= RenderRule(r) + tail)
    ensures !("<filterref filter='" <= RenderRule(r) + tail)
  {
    RenderRuleStart(r, tail);
  }

  /** One rule element in front of a list is read, then the list after it. */
  lemma ParseRulesCons(r: Rule, tail: string)
    requires WellFormedRule(r)
    requires ParseRules(tail).Some?
    ensures ParseRules(RenderRule(r) + tail)
      == Some(Parsed([NormalizeRule(r)] + ParseRules(tail).value.value, ParseRules(tail).value.rest))
  {
    RuleStartsNoOtherElement(r, tail);
    ParseRuleRoundTrip(r, tail);
  }

  lemma RulesStep(rs: seq<Rule>, rest: string)
    requires |rs| > 0 && WellFormedRule(rs[0])
    requires ParseRules(Concat(rs[1..], RenderRule) + rest) == Some(Parsed(NormalizeRules(rs[1..]), rest))
    ensures ParseRules(Concat(rs, RenderRule) + rest) == Some(Parsed(NormalizeRules(rs), rest))
  {
    var head, others := RenderRule(rs[0]), Concat(rs[1..], RenderRule);
    Assoc(head, others, rest);
    assert Concat(rs, RenderRule) + rest == head + (others + rest);
    ParseRulesCons(rs[0], others + rest);
    NormalizeRulesCons(rs);
  }

  lemma NormalizeRulesCons(rs: seq<Rule>)
    requires |rs| > 0
    ensures NormalizeRules(rs) == [NormalizeRule(rs[0])] + NormalizeRules(rs[1..])
  {
  }

  lemma {:induction false} ParseRulesRoundTrip(rs: seq<Rule>, rest: string)
    requires forall i :: 0 <= i < |rs| ==> WellFormedRule(rs[i])
    requires "</filter>\n" <= rest
    ensures ParseRules(Concat(rs, RenderRule) + rest) == Some(Parsed(NormalizeRules(rs), rest))
  {
    if rs == [] {
      assert Concat(rs, RenderRule) + rest == rest;
    } else {
      assert forall i :: 0 <= i < |rs[1..]| ==> rs[1..][i] == rs[i + 1];
      ParseRulesRoundTrip(rs[1..], rest);
      RulesStep(rs, rest);
    }
  }

  /** What follows the references (rules, then the closing tag) never starts a reference. */
  lemma RulesAreNotFilterRefs(rs: seq<Rule>, rest: string)
    ensures !("<filterref filter='" <= Concat(rs, RenderRule) + ("</filter>\n" + rest))
  {
    if rs == [] {
      assert (Concat(rs, RenderRule) + ("</filter>\n" + rest))[1] == '/';
    } else {
      var others := Concat(rs[1..], RenderRule) + ("</filter>\n" + rest);
      Assoc(RenderRule(rs[0]), Concat(rs[1..], RenderRule), "</filter>\n" + rest);
      assert Concat(rs, RenderRule) + ("</filter>\n" + rest) == RenderRule(rs[0]) + others;
      RuleStartsNoOtherElement(rs[0], others);
    }
  }

  /**
   * Parsing inverts rendering up to normalisation: the rendered document, followed
   * by anything, reads back as the canonical filter and leaves the rest.
   */
  lemma ParseFilterRoundTrip(f: Filter, rest: string)
    requires WellFormedFilter(f)
    ensures ParseFilter(RenderFilter(f) + rest) == Some(Parsed(NormalizeFilter(f), rest))
  {
    var tag, uuid := FilterOpenTag(f), UuidLine(f.uuid);
    var refs, rules := Concat(f.filterRefs, RenderFilterRef), Concat(f.rules, RenderRule);
    var r := "</filter>\n" + rest;
    var x := rules + r;
    var y := refs + x;
    var z := uuid + y;
    Assoc(tag + uuid + refs + rules, "</filter>\n", rest);
    Assoc(tag + uuid + refs, rules, r);
    Assoc(tag + uuid, refs, x);
    Assoc(tag, uuid, y);
    assert RenderFilter(f) + rest == tag + z;
    ParseFilterOpenTagRoundTrip(f, z);
    UuidRoundTrip(f.uuid, y);
    RulesAreNotFilterRefs(f.rules, rest);
    ParseFilterRefsRoundTrip(f.filterRefs, x);
    ParseRulesRoundTrip(f.rules, r);
    ExpectPrefix("</filter>\n", rest);
  }

  /** Two well-formed filters render alike exactly when their canonical forms agree. */
  lemma RenderFilterInjective(f: Filter, g: Filter)
    requires WellFormedFilter(f) && WellFormedFilter(g)
    ensures RenderFilter(f) == RenderFilter(g) <==> NormalizeFilter(f) == NormalizeFilter(g)
  {
    ParseFilterRoundTrip(f, "");
    ParseFilterRoundTrip(g, "");
    assert RenderFilter(f) + "" == RenderFilter(f);
    assert RenderFilter(g) + "" == RenderFilter(g);
    NormalizeFilterInvisible(f);
    NormalizeFilterInvisible(g);
  }
}
