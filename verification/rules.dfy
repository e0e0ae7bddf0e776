/**
 * `LibvirtNWFilterDef.Rule`: an action, a direction, an optional priority and the
 * property elements the rule matches, rendered as a `<rule ...>` element.
 */
module Rules {
  import opened Strings
  import opened Decimal
  import opened Properties

  /** What the rule does to matching traffic; its table string is the `action` value. */
  datatype Action = Accept | Reject | Drop | Return

  function ActionName(a: Action): (name: string)
    ensures |name| > 0 && '\'' !in name
  {
    match a
    case Accept => "accept"
    case Reject => "reject"
    case Drop => "drop"
    case Return => "return"
  }

  function ParseAction(s: string): (r: Option<Action>)
    ensures r.Some? ==> ActionName(r.value) == s
  {
    if s == "accept" then Some(Accept)
    else if s == "reject" then Some(Reject)
    else if s == "drop" then Some(Drop)
    else if s == "return" then Some(Return)
    else None
  }

  lemma ActionNameRoundTrip(a: Action)
    ensures ParseAction(ActionName(a)) == Some(a)
  {
  }

  /** The traffic direction; its table string is the `direction` value. */
  datatype Direction = In | Out | InOut

  function DirectionName(d: Direction): (name: string)
    ensures |name| > 0 && '\'' !in name
  {
    match d
    case In => "in"
    case Out => "out"
    case InOut => "inout"
  }

  function ParseDirection(s: string): (r: Option<Direction>)
    ensures r.Some? ==> DirectionName(r.value) == s
  {
    if s == "in" then Some(In)
    else if s == "out" then Some(Out)
    else if s == "inout" then Some(InOut)
    else None
  }

  lemma DirectionNameRoundTrip(d: Direction)
    ensures ParseDirection(DirectionName(d)) == Some(d)
  {
  }

  /** A rule; `priority` 0 is the Java field default and means "no priority given". */
  datatype Rule = Rule(action: Action, direction: Direction, priority: int, properties: seq<Property>)

  /** The two-argument constructor: the priority stays at its default 0. */
  function NewRule(action: Action, direction: Direction): (r: Rule)
    ensures r.action == action && r.direction == direction
    ensures r.priority == 0 && r.properties == []
  {
    Rule(action, direction, 0, [])
  }

  /** The three-argument constructor. */
  function NewRuleWithPriority(action: Action, direction: Direction, priority: int): (r: Rule)
    ensures r.action == action && r.direction == direction
    ensures r.priority == priority && r.properties == []
  {
    Rule(action, direction, priority, [])
  }

  /** `addProperty`: the property goes at the end of the list; nothing else changes. */
  function AddProperty(r: Rule, p: Property): (r': Rule)
    ensures |r'.properties| == |r.properties| + 1
    ensures r'.properties[..|r.properties|] == r.properties && r'.properties[|r.properties|] == p
    ensures r'.(properties := r.properties) == r
  {
    r.(properties := r.properties + [p])
  }

  /** `<rule action='A' direction='D`, the part of the opening tag both forms share. */
  function RuleHead(r: Rule): string {
    "<rule action='" + ActionName(r.action) + "' direction='" + DirectionName(r.direction)
  }

  /** The rest of the opening tag: the priority attribute is written only when it is not 0. */
  function TagEnd(priority: int): string {
    if priority == 0 then "'>\n" else "' priority='" + IntToString(priority) + "'>\n"
  }

  function RuleOpenTag(r: Rule): string {
    RuleHead(r) + TagEnd(r.priority)
  }

  /** `Rule.toString()`: the opening tag first, `</rule>` last. */
  function RenderRule(r: Rule): (s: string)
    ensures RuleOpenTag(r) <= s
    ensures |s| >= 8 && s[|s| - 8..] == "</rule>\n"
  {
    var tag, body := RuleOpenTag(r), Concat(r.properties, RenderProperty);
    PrefixExtends(tag, tag, body);
    PrefixExtends(tag, tag + body, "</rule>\n");
    tag + body + "</rule>\n"
  }

  /** Every property of the rule can be rendered unambiguously. */
  predicate WellFormedRule(r: Rule) {
    forall i :: 0 <= i < |r.properties| ==> WellFormed(r.properties[i])
  }

  function NormalizeAll(ps: seq<Property>): (qs: seq<Property>)
    ensures |qs| == |ps|
  {
    seq(|ps|, i requires 0 <= i < |ps| => Normalize(ps[i]))
  }

  /** The canonical rule with the same rendering: every property is canonical. */
  function NormalizeRule(r: Rule): Rule {
    r.(properties := NormalizeAll(r.properties))
  }

  // ---------------------------------------------------------------------------
  // Properties of the rendering.
  // ---------------------------------------------------------------------------

  /**
   * The opening tag ends right after the direction exactly when the priority is 0,
   * and carries `priority='n'` exactly when the priority n is not 0.
   */
  lemma PriorityAttribute(r: Rule)
    ensures RuleHead(r) + "'>\n" <= RenderRule(r) <==> r.priority == 0
    ensures RuleHead(r) + "' priority='" + IntToString(r.priority) + "'>\n" <= RenderRule(r)
      <==> r.priority != 0
  {
    var head := RuleHead(r);
    var s := RenderRule(r);
    var plain := head + "'>\n";
    var marked := head + "' priority='" + IntToString(r.priority) + "'>\n";
    Assoc(head, TagEnd(r.priority), Concat(r.properties, RenderProperty));
    assert head + TagEnd(r.priority) <= s;
    assert plain[|head| + 1] == '>';
    assert marked[|head| + 1] == ' ';
    if r.priority == 0 {
      assert s[|head| + 1] == '>';
    } else {
      assert s[|head| + 1] == ' ';
    }
  }

  /** A freshly constructed rule is an opening tag without priority and a closing tag. */
  lemma NewRuleRendering(action: Action, direction: Direction)
    ensures RenderRule(NewRule(action, direction))
      == "<rule action='" + ActionName(action) + "' direction='" + DirectionName(direction) + "'>\n</rule>\n"
  {
  }

  /** A rule built with a priority shows it, unless it is 0. */
  lemma NewRuleWithPriorityRendering(action: Action, direction: Direction, priority: int)
    ensures var head := "<rule action='" + ActionName(action) + "' direction='" + DirectionName(direction);
      RenderRule(NewRuleWithPriority(action, direction, priority)) ==
        if priority == 0 then head + "'>\n</rule>\n"
        else head + "' priority='" + IntToString(priority) + "'>\n</rule>\n"
  {
  }

  /** Adding a property inserts its element just before `</rule>`; nothing else changes. */
  lemma AddPropertyRendering(r: Rule, p: Property)
    ensures |RenderRule(r)| >= 8
    ensures RenderRule(AddProperty(r, p))
      == RenderRule(r)[..|RenderRule(r)| - 8] + RenderProperty(p) + "</rule>\n"
  {
    var r' := AddProperty(r, p);
    var tag, body, item := RuleOpenTag(r), Concat(r.properties, RenderProperty), RenderProperty(p);
    assert RuleOpenTag(r') == tag;
    ConcatAppend(r.properties, [p], RenderProperty);
    ConcatOne(p, RenderProperty);
    assert RenderRule(r') == tag + (body + item) + "</rule>\n";
    InsertBeforeClose(tag, body, item, "</rule>\n");
  }

  lemma {:induction false} NormalizeAllInvisible(ps: seq<Property>)
    ensures Concat(NormalizeAll(ps), RenderProperty) == Concat(ps, RenderProperty)
  {
    var qs := NormalizeAll(ps);
    forall i | 0 <= i < |qs| ensures RenderProperty(qs[i]) == RenderProperty(ps[i]) {
      NormalizeInvisible(ps[i]);
    }
    ConcatPointwise(qs, ps, RenderProperty);
  }

  /** Normalisation is invisible in the output. */
  lemma NormalizeRuleInvisible(r: Rule)
    ensures RenderRule(NormalizeRule(r)) == RenderRule(r)
  {
    NormalizeAllInvisible(r.properties);
  }

  // ---------------------------------------------------------------------------
  // Reading a rendered rule back.
  // ---------------------------------------------------------------------------

  /** The values read from an opening tag. */
  datatype RuleTag = RuleTag(action: Action, direction: Direction, priority: int)

  /** Reads the end of an opening tag: `'>` alone, or a priority attribute before it. */
  function ParseTagEnd(s: string): (r: Option<Parsed<int>>)
    ensures r.Some? ==> |r.value.rest| < |s|
  {
    if "'>\n" <= s then Some(Parsed(0, s[3..]))
    else
      var s1 :- Expect(s, "' priority='");
      var n := TakeUntil(s1, '\'');
      var priority :- ParseInt(n.value);
      var s2 :- Expect(n.rest, "'>\n");
      Some(Parsed(priority, s2))
  }

  /** Reads an opening `<rule ...>` tag in either of its two forms. */
  function ParseRuleOpenTag(s: string): (r: Option<Parsed<RuleTag>>)
    ensures r.Some? ==> |r.value.rest| < |s|
  {
    var s1 :- Expect(s, "<rule action='");
    var a := TakeUntil(s1, '\'');
    var action :- ParseAction(a.value);
    var s2 :- Expect(a.rest, "' direction='");
    var d := TakeUntil(s2, '\'');
    var direction :- ParseDirection(d.value);
    var end :- ParseTagEnd(d.rest);
    Some(Parsed(RuleTag(action, direction, end.value), end.rest))
  }

  /** Reads property elements up to the closing `</rule>`. */
  function ParseProperties(s: string): (r: Option<Parsed<seq<Property>>>)
    ensures r.Some? ==> |r.value.rest| <= |s|
    decreases |s|
  {
    if "</rule>\n" <= s then Some(Parsed([], s))
    else
      var p :- ParseProperty(s);
      var more :- ParseProperties(p.rest);
      Some(Parsed([p.value] + more.value, more.rest))
  }

  /** Reads one rule element and its trailing newline. */
  function ParseRule(s: string): (r: Option<Parsed<Rule>>)
    ensures r.Some? ==> |r.value.rest| < |s|
  {
    var tag :- ParseRuleOpenTag(s);
    var props :- ParseProperties(tag.rest);
    var s1 :- Expect(props.rest, "</rule>\n");
    Some(Parsed(Rule(tag.value.action, tag.value.direction, tag.value.priority, props.value), s1))
  }

  /** The end of the opening tag reads back as the priority. */
  lemma TagEndRoundTrip(priority: int, tail: string)
    ensures ParseTagEnd(TagEnd(priority) + tail) == Some(Parsed(priority, tail))
  {
    if priority == 0 {
      assert ("'>\n" + tail)[3..] == tail;
    } else {
      var num := IntToString(priority);
      var x := num + ("'>\n" + tail);
      Assoc("' priority='" + num, "'>\n", tail);
      Assoc("' priority='", num, "'>\n" + tail);
      assert TagEnd(priority) + tail == "' priority='" + x;
      assert ("' priority='" + x)[1] == ' ';
      ExpectPrefix("' priority='", x);
      TakeUntilSplits(num, "'>\n" + tail, '\'');
      IntToStringRoundTrip(priority);
      ExpectPrefix("'>\n", tail);
    }
  }

  /** The shared head of the opening tag reads back as the action and direction. */
  lemma ParseRuleHead(r: Rule, tail: string)
    requires ParseTagEnd(tail).Some?
    requires tail[0] == '\''
    ensures ParseRuleOpenTag(RuleHead(r) + tail)
      == Some(Parsed(RuleTag(r.action, r.direction, ParseTagEnd(tail).value.value), ParseTagEnd(tail).value.rest))
  {
    var an, dn := ActionName(r.action), DirectionName(r.direction);
    var s2 := "' direction='" + (dn + tail);
    Assoc("<rule action='" + an + "' direction='", dn, tail);
    Assoc("<rule action='" + an, "' direction='", dn + tail);
    Assoc("<rule action='", an, s2);
    assert RuleHead(r) + tail == "<rule action='" + (an + s2);
    ExpectPrefix("<rule action='", an + s2);
    TakeUntilSplits(an, s2, '\'');
    ActionNameRoundTrip(r.action);
    ExpectPrefix("' direction='", dn + tail);
    TakeUntilSplits(dn, tail, '\'');
    DirectionNameRoundTrip(r.direction);
  }

  /** The opening tag reads back as the rule's action, direction and priority. */
  lemma ParseRuleOpenTagRoundTrip(r: Rule, tail: string)
    ensures ParseRuleOpenTag(RuleOpenTag(r) + tail)
      == Some(Parsed(RuleTag(r.action, r.direction, r.priority), tail))
  {
    Assoc(RuleHead(r), TagEnd(r.priority), tail);
    TagEndRoundTrip(r.priority, tail);
    ParseRuleHead(r, TagEnd(r.priority) + tail);
  }

  /** Every rendered rule, whatever follows it, starts with `<rule action='`. */
  lemma RenderRuleStart(r: Rule, tail: string)
    ensures "<rule action='" <= RenderRule(r) + tail
    ensures (RenderRule(r) + tail)[1] == 'r'
  {
    var a := "<rule action='";
    PrefixExtends(a, a, ActionName(r.action));
    PrefixExtends(a, a + ActionName(r.action), "' direction='");
    PrefixExtends(a, a + ActionName(r.action) + "' direction='", DirectionName(r.direction));
    PrefixExtends(a, RuleHead(r), TagEnd(r.priority));
    PrefixExtends(a, RuleOpenTag(r), Concat(r.properties, RenderProperty));
    PrefixExtends(a, RuleOpenTag(r) + Concat(r.properties, RenderProperty), "</rule>\n");
    PrefixExtends(a, RenderRule(r), tail);
  }

  /** A rendered property never starts the closing `</rule>` tag. */
  lemma PropertyIsNotClose(p: Property, tail: string)
    ensures !("</rule>\n" <= RenderProperty(p) + tail)
  {
    var name := ProtocolName(p.protocol);
    assert (RenderProperty(p) + tail)[1] == name[0];
  }

  /** One property element in front of a list is read, then the list after it. */
  lemma ParsePropertiesCons(p: Property, tail: string)
    requires WellFormed(p)
    requires ParseProperties(tail).Some?
    ensures ParseProperties(RenderProperty(p) + tail)
      == Some(Parsed([Normalize(p)] + ParseProperties(tail).value.value, ParseProperties(tail).value.rest))
  {
    PropertyIsNotClose(p, tail);
    ParsePropertyRoundTrip(p, tail);
  }

  lemma PropertiesStep(ps: seq<Property>, rest: string)
    requires |ps| > 0 && WellFormed(ps[0])
    requires ParseProperties(Concat(ps[1..], RenderProperty) + rest) == Some(Parsed(NormalizeAll(ps[1..]), rest))
    ensures ParseProperties(Concat(ps, RenderProperty) + rest) == Some(Parsed(NormalizeAll(ps), rest))
  {
    var head, others := RenderProperty(ps[0]), Concat(ps[1..], RenderProperty);
    Assoc(head, others, rest);
    assert Concat(ps, RenderProperty) + rest == head + (others + rest);
    ParsePropertiesCons(ps[0], others + rest);
    NormalizeAllCons(ps);
  }

  lemma NormalizeAllCons(ps: seq<Property>)
    requires |ps| > 0
    ensures NormalizeAll(ps) == [Normalize(ps[0])] + NormalizeAll(ps[1..])
  {
  }

  lemma {:induction false} ParsePropertiesRoundTrip(ps: seq<Property>, rest: string)
    requires forall i :: 0 <= i < |ps| ==> WellFormed(ps[i])
    requires "</rule>\n" <= rest
    ensures ParseProperties(Concat(ps, RenderProperty) + rest) == Some(Parsed(NormalizeAll(ps), rest))
  {
    if ps == [] {
      assert Concat(ps, RenderProperty) + rest == rest;
    } else {
      assert forall i :: 0 <= i < |ps[1..]| ==> ps[1..][i] == ps[i + 1];
      ParsePropertiesRoundTrip(ps[1..], rest);
      PropertiesStep(ps, rest);
    }
  }

  /**
   * Parsing inverts rendering up to normalisation: the rendered rule, followed by
   * anything, reads back as the canonical rule and leaves the rest.
   */
  lemma ParseRuleRoundTrip(r: Rule, rest: string)
    requires WellFormedRule(r)
    ensures ParseRule(RenderRule(r) + rest) == Some(Parsed(NormalizeRule(r), rest))
  {
    var tag := RuleOpenTag(r);
    var body := Concat(r.properties, RenderProperty);
    Assoc(tag + body, "</rule>\n", rest);
    Assoc(tag, body, "</rule>\n" + rest);
    ParseRuleOpenTagRoundTrip(r, body + ("</rule>\n" + rest));
    ParsePropertiesRoundTrip(r.properties, "</rule>\n" + rest);
    ExpectPrefix("</rule>\n", rest);
  }

  /** Two well-formed rules render alike exactly when their canonical forms agree. */
  lemma RenderRuleInjective(r: Rule, q: Rule)
    requires WellFormedRule(r) && WellFormedRule(q)
    ensures RenderRule(r) == RenderRule(q) <==> NormalizeRule(r) == NormalizeRule(q)
  {
    ParseRuleRoundTrip(r, "");
    ParseRuleRoundTrip(q, "");
    assert RenderRule(r) + "" == RenderRule(r);
    assert RenderRule(q) + "" == RenderRule(q);
    NormalizeRuleInvisible(r);
    NormalizeRuleInvisible(q);
  }
}
