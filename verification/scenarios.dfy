/**
 * The documents the unit tests of `LibvirtNWFilterDef` expect, derived from the
 * model: each lemma builds the objects the way a test does and states the text
 * the test compares against. The expected text is written in the pieces the
 * renderer emits (tag fragments, names, values), one parenthesized group per
 * element or attribute; the pieces concatenate to the test's string literals.
 */
module Scenarios {
  import opened Strings
  import opened Decimal
  import opened Properties
  import opened Rules
  import opened FilterRefs
  import opened Filters

  const FilterName := "mynetworkfilter"

  /** `setDstportstart`. */
  function WithDstPortStart(p: Property, port: int): Property {
    p.(dstPortStart := port)
  }

  /** `setDstportend`. */
  function WithDstPortEnd(p: Property, port: int): Property {
    p.(dstPortEnd := port)
  }

  // ---------------------------------------------------------------------------
  // Building blocks: the shape of one element, with its names as parameters.
  // ---------------------------------------------------------------------------

  lemma LookupOne(a: Attribute, k: Key)
    ensures Lookup([a], k) == if a.key == k then Some(a.value) else None
  {
    assert [a][1..] == [];
  }

  lemma LookupTwo(a: Attribute, b: Attribute, k: Key)
    ensures Lookup([a, b], k) == if a.key == k then Some(a.value) else if b.key == k then Some(b.value) else None
  {
    assert [a, b][1..] == [b];
    LookupOne(b, k);
  }

  /** A property without attributes. */
  lemma NoAttributeProperty(p: Property, protocol: string)
    requires forall k :: Gate(p, k).None?
    requires ProtocolName(p.protocol) == protocol
    ensures RenderProperty(p) == "<" + protocol + " " + "/>\n"
  {
    AttributesUnique(p, []);
  }

  /** A property whose only open gate is that of `a`. */
  lemma OneAttributeProperty(p: Property, a: Attribute, protocol: string, name: string)
    requires forall k :: Gate(p, k) == if a.key == k then Some(a.value) else None
    requires ProtocolName(p.protocol) == protocol && KeyName(a.key) == name
    ensures RenderProperty(p) == "<" + protocol + " " + (name + "='" + a.value + "' ") + "/>\n"
  {
    forall k ensures Lookup([a], k) == Gate(p, k) {
      LookupOne(a, k);
    }
    AttributesUnique(p, [a]);
    ConcatOne(a, RenderAttribute);
  }

  /** A property whose open gates are exactly those of `a` and then `b`. */
  lemma TwoAttributeProperty(p: Property, a: Attribute, b: Attribute, protocol: string, first: string, second: string)
    requires Rank(a.key) < Rank(b.key)
    requires forall k :: Gate(p, k) == if a.key == k then Some(a.value) else if b.key == k then Some(b.value) else None
    requires ProtocolName(p.protocol) == protocol && KeyName(a.key) == first && KeyName(b.key) == second
    ensures RenderProperty(p) == "<" + protocol + " " + (first + "='" + a.value + "' ") + (second + "='" + b.value + "' ") + "/>\n"
  {
    forall k ensures Lookup([a, b], k) == Gate(p, k) {
      LookupTwo(a, b, k);
    }
    AttributesUnique(p, [a, b]);
    assert [a, b][1..] == [b];
    ConcatOne(b, RenderAttribute);
  }

  /** The opening tag of an inbound rule with a priority. */
  lemma PriorityOpenTag(action: Action, priority: int, name: string, number: string)
    requires priority != 0 && ActionName(action) == name && IntToString(priority) == number
    ensures RuleOpenTag(NewRuleWithPriority(action, In, priority))
      == "<rule action='" + name + "' direction='" + "in" + "' priority='" + number + "'>\n"
  {
  }

  /** A rule with one property: opening tag, the property element, closing tag. */
  lemma OnePropertyRule(r: Rule, p: Property)
    requires r.properties == []
    ensures RenderRule(AddProperty(r, p)) == RuleOpenTag(r) + RenderProperty(p) + "</rule>\n"
  {
    assert AddProperty(r, p).properties == [p];
    ConcatOne(p, RenderProperty);
  }

  /** A filter with one rule and no references: opening tag, uuid, the rule, closing tag. */
  lemma OneRuleFilter(f: Filter, r: Rule)
    requires f.filterRefs == [] && f.rules == []
    ensures RenderFilter(AddRule(f, r)) == FilterOpenTag(f) + UuidLine(f.uuid) + RenderRule(r) + "</filter>\n"
  {
    assert AddRule(f, r).rules == [r];
    ConcatOne(r, RenderRule);
  }

  /** The opening tag of a filter on a chain. */
  lemma ChainOpenTag(name: string, uuid: string, chain: Chain, chainName: string)
    requires ChainName(chain) == chainName
    ensures FilterOpenTag(NewFilterWithChain(name, uuid, chain))
      == "<filter name='" + name + "' chain='" + chainName + "'>\n"
  {
    Assoc("<filter name='" + name, "' chain='" + chainName, "'>\n");
    Assoc("<filter name='" + name, "' chain='", chainName);
  }

  /** The decimal texts of the numbers the tests use. */
  lemma PortNumbers()
    ensures IntToString(0) == "0" && IntToString(8) == "8"
    ensures IntToString(20) == "20" && IntToString(21) == "21" && IntToString(22) == "22"
    ensures IntToString(53) == "53" && IntToString(80) == "80"
  {
  }

  lemma PriorityNumbers()
    ensures IntToString(100) == "100" && IntToString(110) == "110" && IntToString(120) == "120"
    ensures IntToString(130) == "130" && IntToString(250) == "250" && IntToString(500) == "500"
    ensures IntToString(1000) == "1000"
  {
  }

  // ---------------------------------------------------------------------------
  // The properties the tests build.
  // ---------------------------------------------------------------------------

  lemma BareProperty(protocol: Protocol)
    ensures RenderProperty(NewProperty(protocol)) == "<" + ProtocolName(protocol) + " " + "/>\n"
  {
    assert !IsNotBlank("");
    NoAttributeProperty(NewProperty(protocol), ProtocolName(protocol));
  }

  /** A property with only its destination start port set renders that one attribute. */
  lemma DstPortOnlyRendering(protocol: Protocol, port: int, name: string, number: string)
    requires port > 0 && ProtocolName(protocol) == name && IntToString(port) == number
    ensures RenderProperty(WithDstPortStart(NewProperty(protocol), port))
      == "<" + name + " " + ("dstportstart" + "='" + number + "' ") + "/>\n"
  {
    assert !IsNotBlank("");
    OneAttributeProperty(WithDstPortStart(NewProperty(protocol), port), Attribute(DstPortStart, number), name, "dstportstart");
  }

  /** The properties of the tests with more than one attribute. */
  function StatefulTcp(): Property {
    AddState(AddState(WithDstPortStart(NewProperty(Tcp), 22), New), Established)
  }

  function PortRangeTcp(): Property {
    WithDstPortEnd(WithDstPortStart(NewProperty(Tcp), 20), 21)
  }

  function IcmpEcho(): Property {
    NewProperty(Icmp).(icmpCode := 0).(icmpType := 8)
  }

  function DnsUdp(): Property {
    WithDstPortStart(NewProperty(Udp).(srcIpAddr := Some(InetAddress("8.8.8.8"))), 53)
  }

  lemma Ssh()
    ensures RenderProperty(WithDstPortStart(NewProperty(Tcp), 22)) == "<" + "tcp" + " " + ("dstportstart" + "='" + "22" + "' ") + "/>\n"
  {
    PortNumbers();
    DstPortOnlyRendering(Tcp, 22, "tcp", "22");
  }

  lemma Http()
    ensures RenderProperty(WithDstPortStart(NewProperty(Tcp), 80)) == "<" + "tcp" + " " + ("dstportstart" + "='" + "80" + "' ") + "/>\n"
  {
    PortNumbers();
    DstPortOnlyRendering(Tcp, 80, "tcp", "80");
  }

  lemma StatefulGates()
    ensures forall k :: Gate(StatefulTcp(), k) == (if k == DstPortStart then Some("22") else if k == States then Some("NEW" + "," + "ESTABLISHED") else None)
  {
    var p := StatefulTcp();
    PortNumbers();
    assert p.states == [New, Established];
    assert StateNames(p.states) == ["NEW", "ESTABLISHED"];
    assert ["NEW", "ESTABLISHED"][1..] == ["ESTABLISHED"];
    assert !IsNotBlank("");
  }

  /** TCP to port 22 in the states NEW and ESTABLISHED: the state list comes after the port. */
  lemma StatefulProperty()
    ensures RenderProperty(StatefulTcp())
      == "<" + "tcp" + " " + ("dstportstart" + "='" + "22" + "' ") + ("state" + "='" + ("NEW" + "," + "ESTABLISHED") + "' ") + "/>\n"
  {
    StatefulGates();
    TwoAttributeProperty(StatefulTcp(),
                         Attribute(DstPortStart, "22"), Attribute(States, "NEW" + "," + "ESTABLISHED"),
                         "tcp", "dstportstart", "state");
  }

  lemma PortRangeGates()
    ensures forall k :: Gate(PortRangeTcp(), k) == (if k == DstPortStart then Some("20") else if k == DstPortEnd then Some("21") else None)
  {
    PortNumbers();
    assert !IsNotBlank("");
  }

  /** TCP to the port range 20 to 21: the start port comes before the end port. */
  lemma PortRangeProperty()
    ensures RenderProperty(PortRangeTcp())
      == "<" + "tcp" + " " + ("dstportstart" + "='" + "20" + "' ") + ("dstportend" + "='" + "21" + "' ") + "/>\n"
  {
    PortRangeGates();
    TwoAttributeProperty(PortRangeTcp(),
                         Attribute(DstPortStart, "20"), Attribute(DstPortEnd, "21"), "tcp", "dstportstart", "dstportend");
  }

  lemma IcmpGates()
    ensures forall k :: Gate(IcmpEcho(), k) == (if k == Type then Some("8") else if k == Code then Some("0") else None)
  {
    PortNumbers();
    assert !IsNotBlank("");
  }

  /** ICMP type 8, code 0, with the code set first: `type` is still written before `code`. */
  lemma IcmpProperty()
    ensures RenderProperty(IcmpEcho())
      == "<" + "icmp" + " " + ("type" + "='" + "8" + "' ") + ("code" + "='" + "0" + "' ") + "/>\n"
  {
    IcmpGates();
    TwoAttributeProperty(IcmpEcho(), Attribute(Type, "8"), Attribute(Code, "0"),
                         "icmp", "type", "code");
  }

  lemma UdpGates()
    ensures forall k :: Gate(DnsUdp(), k) == (if k == SrcIpAddr then Some("8.8.8.8") else if k == DstPortStart then Some("53") else None)
  {
    PortNumbers();
    assert !IsNotBlank("");
  }

  /** UDP from 8.8.8.8 to port 53: the source address comes before the destination port. */
  lemma UdpProperty()
    ensures RenderProperty(DnsUdp())
      == "<" + "udp" + " " + ("srcipaddr" + "='" + "8.8.8.8" + "' ") + ("dstportstart" + "='" + "53" + "' ") + "/>\n"
  {
    UdpGates();
    TwoAttributeProperty(DnsUdp(),
                         Attribute(SrcIpAddr, "8.8.8.8"), Attribute(DstPortStart, "53"), "udp", "srcipaddr", "dstportstart");
  }

  // ---------------------------------------------------------------------------
  // The test cases.
  // ---------------------------------------------------------------------------

  /** `testConstruct`. */
  lemma ConstructScenario()
    ensures var name, uuid := FilterName, "a605f65e-aa7b-4150-a790-f2b70acea205";
      RenderFilter(NewFilter(name, uuid)) == "<filter name='" + name + "'>\n<uuid>" + uuid + "</uuid>\n</filter>\n"
  {
    NewFilterRendering(FilterName, "a605f65e-aa7b-4150-a790-f2b70acea205");
  }

  /** `testConstructWithChain`. */
  lemma ConstructWithChainScenario()
    ensures var name, uuid := FilterName, "bbec2924-f327-40c4-abc3-fa07ca528695";
      RenderFilter(NewFilterWithChain(name, uuid, Root))
        == ("<filter name='" + name + "' chain='" + "root" + "'>\n") + ("<uuid>" + uuid + "</uuid>\n") + "</filter>\n"
  {
    ChainOpenTag(FilterName, "bbec2924-f327-40c4-abc3-fa07ca528695", Root, "root");
  }

  /** `testEmptyRule`: a rule without priority and without properties. */
  lemma EmptyRuleScenario()
    ensures var name, uuid := FilterName, "91158295-6b01-4946-86f2-748034de55b5";
      RenderFilter(AddRule(NewFilterWithChain(name, uuid, Root), NewRule(Accept, In)))
        == ("<filter name='" + name + "' chain='" + "root" + "'>\n") + ("<uuid>" + uuid + "</uuid>\n")
           + (("<rule action='" + "accept" + "' direction='" + "in" + "'>\n") + "</rule>\n")
           + "</filter>\n"
  {
    var f := NewFilterWithChain(FilterName, "91158295-6b01-4946-86f2-748034de55b5", Root);
    OneRuleFilter(f, NewRule(Accept, In));
    ChainOpenTag(FilterName, "91158295-6b01-4946-86f2-748034de55b5", Root, "root");
    assert RenderRule(NewRule(Accept, In)) == RuleOpenTag(NewRule(Accept, In)) + "</rule>\n";
  }

  /** `testEmptyRuleWithPriority`. */
  lemma EmptyRuleWithPriorityScenario()
    ensures var name, uuid := FilterName, "6530e1de-bf73-4cb3-812c-778da0c05113";
      RenderFilter(AddRule(NewFilterWithChain(name, uuid, Root), NewRuleWithPriority(Accept, In, 100)))
        == ("<filter name='" + name + "' chain='" + "root" + "'>\n") + ("<uuid>" + uuid + "</uuid>\n")
           + (("<rule action='" + "accept" + "' direction='" + "in" + "' priority='" + "100" + "'>\n") + "</rule>\n")
           + "</filter>\n"
  {
    var f, r := NewFilterWithChain(FilterName, "6530e1de-bf73-4cb3-812c-778da0c05113", Root), NewRuleWithPriority(Accept, In, 100);
    OneRuleFilter(f, r);
    ChainOpenTag(FilterName, "6530e1de-bf73-4cb3-812c-778da0c05113", Root, "root");
    assert RenderRule(r) == RuleOpenTag(r) + "</rule>\n";
    PriorityNumbers();
    PriorityOpenTag(Accept, 100, "accept", "100");
  }

  /** `testRulesWithProperties`: one IP property with destination port 22. */
  lemma RulesWithPropertiesScenario()
    ensures var name, uuid := FilterName, "6530e1de-bf73-4cb3-812c-778da0c05113";
      RenderFilter(AddRule(NewFilterWithChain(name, uuid, Root),
                           AddProperty(NewRuleWithPriority(Accept, In, 100), WithDstPortStart(NewProperty(Ip), 22))))
        == ("<filter name='" + name + "' chain='" + "root" + "'>\n") + ("<uuid>" + uuid + "</uuid>\n")
           + (("<rule action='" + "accept" + "' direction='" + "in" + "' priority='" + "100" + "'>\n")
              + ("<" + "ip" + " " + ("dstportstart" + "='" + "22" + "' ") + "/>\n")
              + "</rule>\n")
           + "</filter>\n"
  {
    var p := WithDstPortStart(NewProperty(Ip), 22);
    var f, r := NewFilterWithChain(FilterName, "6530e1de-bf73-4cb3-812c-778da0c05113", Root), NewRuleWithPriority(Accept, In, 100);
    OneRuleFilter(f, AddProperty(r, p));
    ChainOpenTag(FilterName, "6530e1de-bf73-4cb3-812c-778da0c05113", Root, "root");
    OnePropertyRule(r, p);
    PriorityNumbers();
    PriorityOpenTag(Accept, 100, "accept", "100");
    PortNumbers();
    DstPortOnlyRendering(Ip, 22, "ip", "22");
  }

  /** The rules of `testManyRules`, in the order the test adds them. */
  function FirstRule(): Rule {
    AddProperty(NewRuleWithPriority(Accept, In, 100), NewProperty(Icmp))
  }

  function SecondRule(): Rule {
    AddProperty(NewRuleWithPriority(Accept, In, 110),
                StatefulTcp())
  }

  function ThirdRule(): Rule {
    AddProperty(NewRuleWithPriority(Accept, In, 120), WithDstPortStart(NewProperty(Tcp), 80))
  }

  function FourthRule(): Rule {
    AddProperty(NewRuleWithPriority(Accept, In, 130), PortRangeTcp())
  }

  function FifthRule(): Rule {
    AddProperty(NewRuleWithPriority(Drop, In, 1000), NewProperty(All))
  }

  lemma FirstRuleRendering()
    ensures RenderRule(FirstRule())
      == ("<rule action='" + "accept" + "' direction='" + "in" + "' priority='" + "100" + "'>\n")
         + ("<" + "icmp" + " " + "/>\n")
         + "</rule>\n"
  {
    OnePropertyRule(NewRuleWithPriority(Accept, In, 100), NewProperty(Icmp));
    PriorityNumbers();
    PriorityOpenTag(Accept, 100, "accept", "100");
    BareProperty(Icmp);
  }

  lemma SecondRuleRendering()
    ensures RenderRule(SecondRule())
      == ("<rule action='" + "accept" + "' direction='" + "in" + "' priority='" + "110" + "'>\n")
         + ("<" + "tcp" + " " + ("dstportstart" + "='" + "22" + "' ") + ("state" + "='" + ("NEW" + "," + "ESTABLISHED") + "' ") + "/>\n")
         + "</rule>\n"
  {
    OnePropertyRule(NewRuleWithPriority(Accept, In, 110),
                    StatefulTcp());
    PriorityNumbers();
    PriorityOpenTag(Accept, 110, "accept", "110");
    StatefulProperty();
  }

  lemma ThirdRuleRendering()
    ensures RenderRule(ThirdRule())
      == ("<rule action='" + "accept" + "' direction='" + "in" + "' priority='" + "120" + "'>\n")
         + ("<" + "tcp" + " " + ("dstportstart" + "='" + "80" + "' ") + "/>\n")
         + "</rule>\n"
  {
    OnePropertyRule(NewRuleWithPriority(Accept, In, 120), WithDstPortStart(NewProperty(Tcp), 80));
    PriorityNumbers();
    PriorityOpenTag(Accept, 120, "accept", "120");
    Http();
  }

  lemma FourthRuleRendering()
    ensures RenderRule(FourthRule())
      == ("<rule action='" + "accept" + "' direction='" + "in" + "' priority='" + "130" + "'>\n")
         + ("<" + "tcp" + " " + ("dstportstart" + "='" + "20" + "' ") + ("dstportend" + "='" + "21" + "' ") + "/>\n")
         + "</rule>\n"
  {
    OnePropertyRule(NewRuleWithPriority(Accept, In, 130), PortRangeTcp());
    PriorityNumbers();
    PriorityOpenTag(Accept, 130, "accept", "130");
    PortRangeProperty();
  }

  lemma FifthRuleRendering()
    ensures RenderRule(FifthRule())
      == ("<rule action='" + "drop" + "' direction='" + "in" + "' priority='" + "1000" + "'>\n")
         + ("<" + "all" + " " + "/>\n")
         + "</rule>\n"
  {
    OnePropertyRule(NewRuleWithPriority(Drop, In, 1000), NewProperty(All));
    PriorityNumbers();
    PriorityOpenTag(Drop, 1000, "drop", "1000");
    BareProperty(All);
  }

  /** The filter `testManyRules` builds: a reference first, then five rules in insertion order. */
  function ManyRulesFilter(): Filter {
    var f := NewFilterWithChain(FilterName, "8581ab95-7099-46da-9761-7500c7719a45", Chain.Ipv4);
    var f := AddFilterRef(f, NewFilterRef("allow-dhcp"));
    AddRule(AddRule(AddRule(AddRule(AddRule(f, FirstRule()), SecondRule()), ThirdRule()), FourthRule()), FifthRule())
  }

  /** Five rules render one after the other. */
  lemma FiveRules(r0: Rule, r1: Rule, r2: Rule, r3: Rule, r4: Rule)
    ensures Concat([r0, r1, r2, r3, r4], RenderRule)
      == RenderRule(r0) + (RenderRule(r1) + (RenderRule(r2) + (RenderRule(r3) + RenderRule(r4))))
  {
    assert [r0, r1, r2, r3, r4][1..] == [r1, r2, r3, r4];
    assert [r1, r2, r3, r4][1..] == [r2, r3, r4];
    assert [r2, r3, r4][1..] == [r3, r4];
    assert [r3, r4][1..] == [r4];
    ConcatOne(r4, RenderRule);
    assert Concat([r3, r4], RenderRule) == RenderRule(r3) + RenderRule(r4);
    assert Concat([r2, r3, r4], RenderRule) == RenderRule(r2) + (RenderRule(r3) + RenderRule(r4));
    assert Concat([r1, r2, r3, r4], RenderRule) == RenderRule(r1) + (RenderRule(r2) + (RenderRule(r3) + RenderRule(r4)));
  }

  /** Nine pieces of text, grouped two ways, make the same text. */
  lemma Regroup(o: string, u: string, g: string, r0: string, r1: string, r2: string, r3: string, r4: string, c: string)
    ensures o + u + g + (r0 + (r1 + (r2 + (r3 + r4)))) + c == o + u + g + r0 + r1 + r2 + r3 + r4 + c
  {
    Assoc(r2, r3, r4);
    Assoc(r1, r2 + r3, r4);
    Assoc(r1, r2, r3);
    Assoc(r0, r1 + r2 + r3, r4);
    Assoc(r0, r1 + r2, r3);
    Assoc(r0, r1, r2);
    var x := o + u + g;
    Assoc(x, r0 + r1 + r2 + r3, r4);
    Assoc(x, r0 + r1 + r2, r3);
    Assoc(x, r0 + r1, r2);
    Assoc(x, r0, r1);
  }

  /** The document of `testManyRules`, element by element. */
  lemma ManyRulesShape()
    ensures RenderFilter(ManyRulesFilter())
      == FilterOpenTag(NewFilterWithChain(FilterName, "8581ab95-7099-46da-9761-7500c7719a45", Chain.Ipv4))
         + UuidLine("8581ab95-7099-46da-9761-7500c7719a45")
         + RenderFilterRef(NewFilterRef("allow-dhcp"))
         + RenderRule(FirstRule()) + RenderRule(SecondRule()) + RenderRule(ThirdRule())
         + RenderRule(FourthRule()) + RenderRule(FifthRule()) + "</filter>\n"
  {
    var f := ManyRulesFilter();
    var g := NewFilterRef("allow-dhcp");
    assert f.filterRefs == [g];
    assert f.rules == [FirstRule(), SecondRule(), ThirdRule(), FourthRule(), FifthRule()];
    ConcatOne(g, RenderFilterRef);
    FiveRules(FirstRule(), SecondRule(), ThirdRule(), FourthRule(), FifthRule());
    Regroup(FilterOpenTag(f), UuidLine(f.uuid), RenderFilterRef(g),
            RenderRule(FirstRule()), RenderRule(SecondRule()), RenderRule(ThirdRule()),
            RenderRule(FourthRule()), RenderRule(FifthRule()), "</filter>\n");
  }

  lemma AllowDhcp()
    ensures RenderFilterRef(NewFilterRef("allow-dhcp")) == "<filterref filter='" + "allow-dhcp" + "'>\n" + "</filterref>\n"
  {
    assert RenderFilterRef(NewFilterRef("allow-dhcp")) == "<filterref filter='" + "allow-dhcp" + "'>\n" + "" + "</filterref>\n";
  }

  /** The first three lines of `testManyRules`: opening tag, uuid, the reference. */
  lemma ManyRulesHead()
    ensures FilterOpenTag(NewFilterWithChain(FilterName, "8581ab95-7099-46da-9761-7500c7719a45", Chain.Ipv4))
         + UuidLine("8581ab95-7099-46da-9761-7500c7719a45")
         + RenderFilterRef(NewFilterRef("allow-dhcp"))
      == ("<filter name='" + "mynetworkfilter" + "' chain='" + "ipv4" + "'>\n")
       + ("<uuid>" + "8581ab95-7099-46da-9761-7500c7719a45" + "</uuid>\n")
       + ("<filterref filter='" + "allow-dhcp" + "'>\n" + "</filterref>\n")
  {
    ChainOpenTag(FilterName, "8581ab95-7099-46da-9761-7500c7719a45", Chain.Ipv4, "ipv4");
    AllowDhcp();
  }

  /** `testManyRules`: the whole document; each line of the test is one group. */
  lemma ManyRulesScenario()
    ensures RenderFilter(ManyRulesFilter())
      == ("<filter name='" + "mynetworkfilter" + "' chain='" + "ipv4" + "'>\n")
       + ("<uuid>" + "8581ab95-7099-46da-9761-7500c7719a45" + "</uuid>\n")
       + ("<filterref filter='" + "allow-dhcp" + "'>\n" + "</filterref>\n")
       + (("<rule action='" + "accept" + "' direction='" + "in" + "' priority='" + "100" + "'>\n")
          + ("<" + "icmp" + " " + "/>\n")
          + "</rule>\n")
       + (("<rule action='" + "accept" + "' direction='" + "in" + "' priority='" + "110" + "'>\n")
          + ("<" + "tcp" + " " + ("dstportstart" + "='" + "22" + "' ") + ("state" + "='" + ("NEW" + "," + "ESTABLISHED") + "' ") + "/>\n")
          + "</rule>\n")
       + (("<rule action='" + "accept" + "' direction='" + "in" + "' priority='" + "120" + "'>\n")
          + ("<" + "tcp" + " " + ("dstportstart" + "='" + "80" + "' ") + "/>\n")
          + "</rule>\n")
       + (("<rule action='" + "accept" + "' direction='" + "in" + "' priority='" + "130" + "'>\n")
          + ("<" + "tcp" + " " + ("dstportstart" + "='" + "20" + "' ") + ("dstportend" + "='" + "21" + "' ") + "/>\n")
          + "</rule>\n")
       + (("<rule action='" + "drop" + "' direction='" + "in" + "' priority='" + "1000" + "'>\n")
          + ("<" + "all" + " " + "/>\n")
          + "</rule>\n")
       + "</filter>\n"
  {
    ManyRulesShape();
    ManyRulesHead();
    FirstRuleRendering();
    SecondRuleRendering();
    ThirdRuleRendering();
    FourthRuleRendering();
    FifthRuleRendering();
  }

  /** `testICMPRules`: a bare ICMP property, then one with code 0 and type 8 set in that order. */
  lemma IcmpScenario()
    ensures RenderRule(AddProperty(NewRuleWithPriority(Accept, In, 100), NewProperty(Icmp)))
      == ("<rule action='" + "accept" + "' direction='" + "in" + "' priority='" + "100" + "'>\n")
         + ("<" + "icmp" + " " + "/>\n")
         + "</rule>\n"
    ensures RenderRule(AddProperty(NewRuleWithPriority(Accept, In, 100),
                                   IcmpEcho()))
      == ("<rule action='" + "accept" + "' direction='" + "in" + "' priority='" + "100" + "'>\n")
         + ("<" + "icmp" + " " + ("type" + "='" + "8" + "' ") + ("code" + "='" + "0" + "' ") + "/>\n")
         + "</rule>\n"
  {
    FirstRuleRendering();
    OnePropertyRule(NewRuleWithPriority(Accept, In, 100), IcmpEcho());
    PriorityNumbers();
    PriorityOpenTag(Accept, 100, "accept", "100");
    IcmpProperty();
  }

  /** `testTCPRules`. */
  lemma TcpScenario()
    ensures RenderRule(AddProperty(NewRuleWithPriority(Accept, In, 500), WithDstPortStart(NewProperty(Tcp), 22)))
      == ("<rule action='" + "accept" + "' direction='" + "in" + "' priority='" + "500" + "'>\n")
         + ("<" + "tcp" + " " + ("dstportstart" + "='" + "22" + "' ") + "/>\n")
         + "</rule>\n"
  {
    OnePropertyRule(NewRuleWithPriority(Accept, In, 500), WithDstPortStart(NewProperty(Tcp), 22));
    PriorityNumbers();
    PriorityOpenTag(Accept, 500, "accept", "500");
    Ssh();
  }

  /** `testUDPRules`. */
  lemma UdpScenario()
    ensures RenderRule(AddProperty(NewRuleWithPriority(Accept, In, 250),
                                   DnsUdp()))
      == ("<rule action='" + "accept" + "' direction='" + "in" + "' priority='" + "250" + "'>\n")
         + ("<" + "udp" + " " + ("srcipaddr" + "='" + "8.8.8.8" + "' ") + ("dstportstart" + "='" + "53" + "' ") + "/>\n")
         + "</rule>\n"
  {
    OnePropertyRule(NewRuleWithPriority(Accept, In, 250),
                    DnsUdp());
    PriorityNumbers();
    PriorityOpenTag(Accept, 250, "accept", "250");
    UdpProperty();
  }

  /** `testFilterRef`: a reference without parameters, and one with an `IP` parameter. */
  lemma FilterRefScenario()
    ensures RenderFilterRef(NewFilterRef("no-arp")) == "<filterref filter='" + "no-arp" + "'>\n" + "</filterref>\n"
    ensures RenderFilterRef(AddParameter(NewFilterRef("no-ip-spoofing"), Parameter("IP", "192.168.1.100")))
      == ("<filterref filter='" + "no-ip-spoofing" + "'>\n")
         + ("<parameter name='" + "IP" + "' value='" + "192.168.1.100" + "'/>\n")
         + "</filterref>\n"
  {
    assert RenderFilterRef(NewFilterRef("no-arp")) == "<filterref filter='" + "no-arp" + "'>\n" + "" + "</filterref>\n";
    var p := Parameter("IP", "192.168.1.100");
    assert AddParameter(NewFilterRef("no-ip-spoofing"), p).parameters == [p];
    ConcatOne(p, RenderParameter);
  }
}
