/**
 * `LibvirtNWFilterDef.Rule.Property`: one protocol match clause of a rule,
 * rendered as a self-closing element `<proto attr='v' ... />`.
 */
module Properties {
  import opened Strings
  import opened Decimal

  /** The match protocol; its table string is the element name. */
  datatype Protocol =
    | Mac | Vlan | Stp | Ip | Ipv4 | Ipv6 | Arp | Rarp
    | Tcp | Udp | Icmp | Icmpv6 | All | TcpIpv6 | UdpIpv6 | AllIpv6

  function ProtocolName(p: Protocol): (name: string)
    ensures |name| > 0 && name[0] != '/'
    ensures ' ' !in name
  {
    match p
    case Mac => "mac"
    case Vlan => "vlan"
    case Stp => "stp"
    case Ip => "ip"
    case Ipv4 => "ipv4"
    case Ipv6 => "ipv6"
    case Arp => "arp"
    case Rarp => "rarp"
    case Tcp => "tcp"
    case Udp => "udp"
    case Icmp => "icmp"
    case Icmpv6 => "icmpv6"
    case All => "all"
    case TcpIpv6 => "tcp-ipv6"
    case UdpIpv6 => "udp-ipv6"
    case AllIpv6 => "all-ipv6"
  }

  /** Reads a protocol back from its table string. */
  function ParseProtocol(s: string): (r: Option<Protocol>)
    ensures r.Some? ==> ProtocolName(r.value) == s
  {
    if s == "mac" then Some(Mac)
    else if s == "vlan" then Some(Vlan)
    else if s == "stp" then Some(Stp)
    else if s == "ip" then Some(Ip)
    else if s == "ipv4" then Some(Ipv4)
    else if s == "ipv6" then Some(Ipv6)
    else if s == "arp" then Some(Arp)
    else if s == "rarp" then Some(Rarp)
    else if s == "tcp" then Some(Tcp)
    else if s == "udp" then Some(Udp)
    else if s == "icmp" then Some(Icmp)
    else if s == "icmpv6" then Some(Icmpv6)
    else if s == "all" then Some(All)
    else if s == "tcp-ipv6" then Some(TcpIpv6)
    else if s == "udp-ipv6" then Some(UdpIpv6)
    else if s == "all-ipv6" then Some(AllIpv6)
    else None
  }

  /** The protocol table is injective: every protocol is read back from its string. */
  lemma ProtocolNameRoundTrip(p: Protocol)
    ensures ParseProtocol(ProtocolName(p)) == Some(p)
  {
  }

  /** A connection-tracking state; `NoState` is the source's `NONE`. */
  datatype State = NoState | New | Established | Related | Invalid

  function StateName(s: State): (name: string)
    ensures |name| > 0 && ',' !in name && '\'' !in name
  {
    match s
    case NoState => "NONE"
    case New => "NEW"
    case Established => "ESTABLISHED"
    case Related => "RELATED"
    case Invalid => "INVALID"
  }

  function ParseState(s: string): (r: Option<State>)
    ensures r.Some? ==> StateName(r.value) == s
  {
    if s == "NONE" then Some(NoState)
    else if s == "NEW" then Some(New)
    else if s == "ESTABLISHED" then Some(Established)
    else if s == "RELATED" then Some(Related)
    else if s == "INVALID" then Some(Invalid)
    else None
  }

  lemma StateNameRoundTrip(s: State)
    ensures ParseState(StateName(s)) == Some(s)
  {
  }

  function StateNames(states: seq<State>): seq<string> {
    seq(|states|, i requires 0 <= i < |states| => StateName(states[i]))
  }

  /** Reads a list of state strings; fails if any of them is not in the table. */
  function ParseStateList(names: seq<string>): (r: Option<seq<State>>)
    ensures r.Some? ==> |r.value| == |names|
  {
    if names == [] then Some([])
    else
      var first :- ParseState(names[0]);
      var others :- ParseStateList(names[1..]);
      Some([first] + others)
  }

  lemma {:induction false} StateListRoundTrip(states: seq<State>)
    ensures ParseStateList(StateNames(states)) == Some(states)
  {
    if states != [] {
      StateNameRoundTrip(states[0]);
      assert StateNames(states)[1..] == StateNames(states[1..]);
      StateListRoundTrip(states[1..]);
      assert [states[0]] + states[1..] == states;
    }
  }

  /** No character outside the state names and the separator appears in a join of them. */
  lemma {:induction false} JoinedStatesAvoid(states: seq<State>, c: char)
    requires c != ',' && forall s: State :: c !in StateName(s)
    ensures c !in Join(StateNames(states), ",")
  {
    if |states| > 1 {
      assert StateNames(states)[1..] == StateNames(states[1..]);
      JoinedStatesAvoid(states[1..], c);
    }
  }

  /** A parsed address, represented by the text `getHostAddress` returns for it. */
  datatype InetAddress = InetAddress(hostAddress: string)

  /**
   * A property. Unset strings are empty, unset addresses `None`; ports are unset at 0
   * and `icmpType`/`icmpCode` (the source's `type` and `code`) at -1.
   */
  datatype Property = Property(
    protocol: Protocol,
    srcMacAddr: string,
    srcIpAddr: Option<InetAddress>,
    srcIpMask: string,
    dstIpAddr: Option<InetAddress>,
    dstIpMask: string,
    srcPortStart: int,
    srcPortEnd: int,
    dstPortStart: int,
    dstPortEnd: int,
    icmpType: int,
    icmpCode: int,
    states: seq<State>)

  /** `new Property(protocol)`: nothing set but the protocol. */
  function NewProperty(protocol: Protocol): (p: Property)
    ensures p.protocol == protocol && p.srcIpAddr == None && p.dstIpAddr == None
    ensures p.srcMacAddr == "" && p.srcIpMask == "" && p.dstIpMask == ""
    ensures p.srcPortStart == 0 && p.srcPortEnd == 0 && p.dstPortStart == 0 && p.dstPortEnd == 0
    ensures p.icmpType == -1 && p.icmpCode == -1 && p.states == []
  {
    Property(protocol, "", None, "", None, "", 0, 0, 0, 0, -1, -1, [])
  }

  /** `addState`: the state goes to the end of the list; nothing else changes. */
  function AddState(p: Property, s: State): (q: Property)
    ensures |q.states| == |p.states| + 1
    ensures q.states[..|p.states|] == p.states && q.states[|p.states|] == s
    ensures q.(states := p.states) == p
  {
    p.(states := p.states + [s])
  }

  /** The attributes a property element can carry, in the order they are emitted. */
  datatype Key =
    | SrcMacAddr | SrcIpAddr | SrcIpMask | DstIpAddr | DstIpMask
    | SrcPortStart | SrcPortEnd | DstPortStart | DstPortEnd
    | Type | Code | States

  function KeyName(k: Key): (name: string)
    ensures |name| > 0 && name[0] != '/'
    ensures '=' !in name
  {
    match k
    case SrcMacAddr => "srcmacaddr"
    case SrcIpAddr => "srcipaddr"
    case SrcIpMask => "srcipmask"
    case DstIpAddr => "dstipaddr"
    case DstIpMask => "dstipmask"
    case SrcPortStart => "srcportstart"
    case SrcPortEnd => "srcportend"
    case DstPortStart => "dstportstart"
    case DstPortEnd => "dstportend"
    case Type => "type"
    case Code => "code"
    case States => "state"
  }

  function ParseKey(s: string): (r: Option<Key>)
    ensures r.Some? ==> KeyName(r.value) == s
  {
    if s == "srcmacaddr" then Some(SrcMacAddr)
    else if s == "srcipaddr" then Some(SrcIpAddr)
    else if s == "srcipmask" then Some(SrcIpMask)
    else if s == "dstipaddr" then Some(DstIpAddr)
    else if s == "dstipmask" then Some(DstIpMask)
    else if s == "srcportstart" then Some(SrcPortStart)
    else if s == "srcportend" then Some(SrcPortEnd)
    else if s == "dstportstart" then Some(DstPortStart)
    else if s == "dstportend" then Some(DstPortEnd)
    else if s == "type" then Some(Type)
    else if s == "code" then Some(Code)
    else if s == "state" then Some(States)
    else None
  }

  lemma KeyNameRoundTrip(k: Key)
    ensures ParseKey(KeyName(k)) == Some(k)
  {
  }

  /** Position of a key in the fixed emission order. */
  function Rank(k: Key): nat {
    match k
    case SrcMacAddr => 0
    case SrcIpAddr => 1
    case SrcIpMask => 2
    case DstIpAddr => 3
    case DstIpMask => 4
    case SrcPortStart => 5
    case SrcPortEnd => 6
    case DstPortStart => 7
    case DstPortEnd => 8
    case Type => 9
    case Code => 10
    case States => 11
  }

  datatype Attribute = Attribute(key: Key, value: string)

  /** The value of the first attribute with key `k`, if any. */
  function Lookup(attrs: seq<Attribute>, k: Key): Option<string>
    decreases |attrs|
  {
    if attrs == [] then None
    else if attrs[0].key == k then Some(attrs[0].value)
    else Lookup(attrs[1..], k)
  }

  /** Keys strictly follow the fixed emission order (so no key appears twice). */
  predicate InKeyOrder(attrs: seq<Attribute>) {
    forall i, j :: 0 <= i < j < |attrs| ==> Rank(attrs[i].key) < Rank(attrs[j].key)
  }

  predicate QuoteFree(attrs: seq<Attribute>) {
    forall i :: 0 <= i < |attrs| ==> '\'' !in attrs[i].value
  }

  function AddressText(a: Option<InetAddress>): string {
    match a
    case None => ""
    case Some(addr) => addr.hostAddress
  }

  /** The four port attributes. */
  predicate IsPort(k: Key) {
    k in {SrcPortStart, SrcPortEnd, DstPortStart, DstPortEnd}
  }

  /** The attributes whose value is a number: the ports, `type` and `code`. */
  predicate IsNumeric(k: Key) {
    IsPort(k) || k == Type || k == Code
  }

  /**
   * The gating rule of each attribute: its text when the source emits it, `None`
   * when it does not. Strings need a non-blank value, addresses need to be
   * present, ports need to be positive, `type` and `code` non-negative, and the
   * state list non-empty (its value is the comma-joined state names).
   */
  function Gate(p: Property, k: Key): (v: Option<string>)
    ensures v.Some? && IsNumeric(k) ==> |v.value| > 0 && forall i :: 0 <= i < |v.value| ==> IsDigit(v.value[i])
    ensures v.Some? && IsPort(k) ==> v.value[0] != '0'
  {
    match k
    case SrcMacAddr => if IsNotBlank(p.srcMacAddr) then Some(p.srcMacAddr) else None
    case SrcIpAddr => if p.srcIpAddr.Some? then Some(p.srcIpAddr.value.hostAddress) else None
    case SrcIpMask => if IsNotBlank(p.srcIpMask) then Some(p.srcIpMask) else None
    case DstIpAddr => if p.dstIpAddr.Some? then Some(p.dstIpAddr.value.hostAddress) else None
    case DstIpMask => if IsNotBlank(p.dstIpMask) then Some(p.dstIpMask) else None
    case SrcPortStart => if p.srcPortStart > 0 then Some(IntToString(p.srcPortStart)) else None
    case SrcPortEnd => if p.srcPortEnd > 0 then Some(IntToString(p.srcPortEnd)) else None
    case DstPortStart => if p.dstPortStart > 0 then Some(IntToString(p.dstPortStart)) else None
    case DstPortEnd => if p.dstPortEnd > 0 then Some(IntToString(p.dstPortEnd)) else None
    case Type => if p.icmpType >= 0 then Some(IntToString(p.icmpType)) else None
    case Code => if p.icmpCode >= 0 then Some(IntToString(p.icmpCode)) else None
    case States => if |p.states| > 0 then Some(Join(StateNames(p.states), ",")) else None
  }

  /** The order in which `toString()` tests and appends the attributes; `state` is last. */
  const LeadingKeys: seq<Key> := [
    SrcMacAddr, SrcIpAddr, SrcIpMask, DstIpAddr, DstIpMask,
    SrcPortStart, SrcPortEnd, DstPortStart, DstPortEnd, Type, Code]
  const EmissionOrder: seq<Key> := LeadingKeys + [States]

  /** The attributes whose gate is open, taken in the order of `keys`. */
  function Collect(p: Property, keys: seq<Key>): (attrs: seq<Attribute>)
    ensures forall i :: 0 <= i < |attrs| ==> attrs[i].key in keys && Gate(p, attrs[i].key) == Some(attrs[i].value)
    decreases |keys|
  {
    if keys == [] then []
    else
      var rest := Collect(p, keys[1..]);
      match Gate(p, keys[0])
      case None => rest
      case Some(v) => [Attribute(keys[0], v)] + rest
  }

  lemma {:induction false} CollectLookup(p: Property, keys: seq<Key>, k: Key)
    ensures Lookup(Collect(p, keys), k) == if k in keys then Gate(p, k) else None
    decreases |keys|
  {
    if keys != [] {
      CollectLookup(p, keys[1..], k);
      assert k in keys <==> k == keys[0] || k in keys[1..];
      var rest := Collect(p, keys[1..]);
      if Gate(p, keys[0]).Some? {
        assert ([Attribute(keys[0], Gate(p, keys[0]).value)] + rest)[1..] == rest;
      }
    }
  }

  lemma {:induction false} CollectInOrder(p: Property, keys: seq<Key>)
    requires forall i, j :: 0 <= i < j < |keys| ==> Rank(keys[i]) < Rank(keys[j])
    ensures InKeyOrder(Collect(p, keys))
    decreases |keys|
  {
    if keys != [] {
      var tail := keys[1..];
      CollectInOrder(p, tail);
      var rest := Collect(p, tail);
      forall i | 0 <= i < |rest| ensures Rank(keys[0]) < Rank(rest[i].key) {
        var j :| 0 <= j < |tail| && tail[j] == rest[i].key;
        assert keys[j + 1] == tail[j];
      }
      match Gate(p, keys[0])
      case None =>
      case Some(v) =>
        var attrs := [Attribute(keys[0], v)] + rest;
        assert forall i :: 1 <= i < |attrs| ==> attrs[i] == rest[i - 1];
    }
  }

  lemma {:induction false} CollectAppend(p: Property, keys: seq<Key>, more: seq<Key>)
    ensures Collect(p, keys + more) == Collect(p, keys) + Collect(p, more)
    decreases |keys|
  {
    if keys == [] {
      assert keys + more == more;
    } else {
      var k, tail, rest := keys[0], keys[1..], Collect(p, more);
      assert (keys + more)[0] == k;
      assert (keys + more)[1..] == tail + more;
      CollectAppend(p, tail, more);
      match Gate(p, k)
      case None =>
      case Some(v) =>
        assert [Attribute(k, v)] + (Collect(p, tail) + rest) == ([Attribute(k, v)] + Collect(p, tail)) + rest;
    }
  }

  lemma {:induction false} CollectAgrees(p: Property, q: Property, keys: seq<Key>)
    requires forall i :: 0 <= i < |keys| ==> Gate(p, keys[i]) == Gate(q, keys[i])
    ensures Collect(p, keys) == Collect(q, keys)
    decreases |keys|
  {
    if keys != [] {
      CollectAgrees(p, q, keys[1..]);
    }
  }

  /** The emission order lists every key once, at the position given by its rank. */
  lemma EmissionOrderRanks()
    ensures |EmissionOrder| == 12
    ensures forall i :: 0 <= i < |EmissionOrder| ==> Rank(EmissionOrder[i]) == i
  {
  }

  lemma EveryKeyEmittable(k: Key)
    ensures k in EmissionOrder
  {
    assert EmissionOrder[Rank(k)] == k;
  }

  /**
   * Every attribute the property element carries, in emission order: an attribute
   * is present exactly when its gate is open, with the gate's text, and the keys
   * strictly follow the fixed order.
   */
  function Attributes(p: Property): (attrs: seq<Attribute>)
    ensures forall k :: Lookup(attrs, k) == Gate(p, k)
    ensures InKeyOrder(attrs)
    ensures forall i :: 0 <= i < |attrs| ==> Gate(p, attrs[i].key) == Some(attrs[i].value)
  {
    var attrs := Collect(p, EmissionOrder);
    forall k: Key ensures Lookup(attrs, k) == Gate(p, k) {
      CollectLookup(p, EmissionOrder, k);
      EveryKeyEmittable(k);
    }
    EmissionOrderRanks();
    CollectInOrder(p, EmissionOrder);
    attrs
  }

  lemma {:induction false} LookupPresent(attrs: seq<Attribute>, i: nat)
    requires i < |attrs|
    ensures Lookup(attrs, attrs[i].key).Some?
  {
    if i > 0 && attrs[0].key != attrs[i].key {
      LookupPresent(attrs[1..], i - 1);
    }
  }

  lemma {:induction false} LookupFound(attrs: seq<Attribute>, k: Key) returns (i: nat)
    requires Lookup(attrs, k).Some?
    ensures i < |attrs| && attrs[i].key == k && Lookup(attrs, k) == Some(attrs[i].value)
  {
    if attrs[0].key == k {
      i := 0;
    } else {
      var j := LookupFound(attrs[1..], k);
      i := j + 1;
    }
  }

  lemma {:induction false} LookupAbsent(attrs: seq<Attribute>, k: Key)
    requires forall i :: 0 <= i < |attrs| ==> attrs[i].key != k
    ensures Lookup(attrs, k) == None
  {
    if attrs != [] {
      LookupAbsent(attrs[1..], k);
    }
  }

  /** In a key-ordered list the first key occurs nowhere else, and the lookups of the others skip it. */
  lemma FirstKeyOnlyOnce(attrs: seq<Attribute>, k: Key)
    requires InKeyOrder(attrs) && |attrs| > 0
    ensures Lookup(attrs[1..], attrs[0].key) == None
    ensures k != attrs[0].key ==> Lookup(attrs[1..], k) == Lookup(attrs, k)
  {
    forall i | 0 <= i < |attrs[1..]| ensures attrs[1..][i].key != attrs[0].key {
      assert Rank(attrs[0].key) < Rank(attrs[i + 1].key);
    }
    LookupAbsent(attrs[1..], attrs[0].key);
  }

  lemma RankInjective(k: Key, l: Key)
    ensures Rank(k) == Rank(l) ==> k == l
  {
  }

  /** Two key-ordered lists with the same lookups are the same list. */
  lemma {:induction false} InKeyOrderUnique(a: seq<Attribute>, b: seq<Attribute>)
    requires InKeyOrder(a) && InKeyOrder(b)
    requires forall k :: Lookup(a, k) == Lookup(b, k)
    ensures a == b
    decreases |a|
  {
    if a == [] {
      assert b != [] ==> Lookup(b, b[0].key).Some?;
    } else {
      LookupPresent(a, 0);
      assert Lookup(b, a[0].key).Some?;
      var j := LookupFound(b, a[0].key);
      LookupPresent(b, 0);
      var i := LookupFound(a, b[0].key);
      assert Rank(a[0].key) <= Rank(a[i].key);
      assert Rank(b[0].key) <= Rank(b[j].key);
      assert j == 0;
      RankInjective(a[0].key, b[0].key);
      assert a[0] == b[0];
      forall k ensures Lookup(a[1..], k) == Lookup(b[1..], k) {
        FirstKeyOnlyOnce(a, k);
        FirstKeyOnlyOnce(b, k);
      }
      InKeyOrderUnique(a[1..], b[1..]);
      assert a == [a[0]] + a[1..] && b == [b[0]] + b[1..];
    }
  }

  /**
   * The emitted attributes are characterised by the gates alone: any key-ordered
   * list whose lookups agree with the gates is exactly that list.
   */
  lemma AttributesUnique(p: Property, attrs: seq<Attribute>)
    requires InKeyOrder(attrs)
    requires forall k :: Lookup(attrs, k) == Gate(p, k)
    ensures Attributes(p) == attrs
  {
    InKeyOrderUnique(Attributes(p), attrs);
  }

  /** The strings that are copied verbatim into a quoted attribute hold no quote. */
  predicate WellFormed(p: Property) {
    && '\'' !in p.srcMacAddr
    && '\'' !in p.srcIpMask
    && '\'' !in p.dstIpMask
    && '\'' !in AddressText(p.srcIpAddr)
    && '\'' !in AddressText(p.dstIpAddr)
  }

  function RenderAttribute(a: Attribute): string {
    KeyName(a.key) + "='" + a.value + "' "
  }

  /** `Property.toString()`: `<proto ` first, `/>` last. */
  function RenderProperty(p: Property): (s: string)
    ensures "<" + ProtocolName(p.protocol) + " " <= s
    ensures |s| >= 3 && s[|s| - 3..] == "/>\n"
  {
    var open, body := "<" + ProtocolName(p.protocol) + " ", Concat(Attributes(p), RenderAttribute);
    PrefixExtends(open, open, body);
    PrefixExtends(open, open + body, "/>\n");
    open + body + "/>\n"
  }

  /**
   * The canonical property with the same rendering: blank strings become empty,
   * ports that are not positive become 0, negative type and code become -1.
   */
  function Normalize(p: Property): Property {
    p.(
      srcMacAddr := if IsNotBlank(p.srcMacAddr) then p.srcMacAddr else "",
      srcIpMask := if IsNotBlank(p.srcIpMask) then p.srcIpMask else "",
      dstIpMask := if IsNotBlank(p.dstIpMask) then p.dstIpMask else "",
      srcPortStart := if p.srcPortStart > 0 then p.srcPortStart else 0,
      srcPortEnd := if p.srcPortEnd > 0 then p.srcPortEnd else 0,
      dstPortStart := if p.dstPortStart > 0 then p.dstPortStart else 0,
      dstPortEnd := if p.dstPortEnd > 0 then p.dstPortEnd else 0,
      icmpType := if p.icmpType >= 0 then p.icmpType else -1,
      icmpCode := if p.icmpCode >= 0 then p.icmpCode else -1)
  }

  lemma NormalizeKeepsGate(p: Property, k: Key)
    ensures Gate(Normalize(p), k) == Gate(p, k)
  {
    var n := Normalize(p);
    match k
    case SrcMacAddr => assert !IsNotBlank("");
    case SrcIpMask => assert !IsNotBlank("");
    case DstIpMask => assert !IsNotBlank("");
    case _ =>
  }

  /** Normalisation is invisible in the output: the canonical form has the same attributes. */
  lemma NormalizeInvisible(p: Property)
    ensures Attributes(Normalize(p)) == Attributes(p)
    ensures RenderProperty(Normalize(p)) == RenderProperty(p)
  {
    forall i | 0 <= i < |EmissionOrder| ensures Gate(Normalize(p), EmissionOrder[i]) == Gate(p, EmissionOrder[i]) {
      NormalizeKeepsGate(p, EmissionOrder[i]);
    }
    CollectAgrees(Normalize(p), p, EmissionOrder);
  }

  // ---------------------------------------------------------------------------
  // Reading a rendered property back.
  // ---------------------------------------------------------------------------

  /** Reads `key='value' ` pairs up to the closing `/>`. */
  function ParseAttributes(s: string): (r: Option<Parsed<seq<Attribute>>>)
    ensures r.Some? ==> |r.value.rest| <= |s|
    decreases |s|
  {
    if "/>" <= s then Some(Parsed([], s))
    else
      var name := TakeUntil(s, '=');
      var k :- ParseKey(name.value);
      var s1 :- Expect(name.rest, "='");
      var value := TakeUntil(s1, '\'');
      var s2 :- Expect(value.rest, "' ");
      var more :- ParseAttributes(s2);
      Some(Parsed([Attribute(k, value.value)] + more.value, more.rest))
  }

  function ReadText(v: Option<string>): string {
    match v
    case None => ""
    case Some(t) => t
  }

  function ReadAddress(v: Option<string>): Option<InetAddress> {
    match v
    case None => None
    case Some(t) => Some(InetAddress(t))
  }

  function ReadInt(v: Option<string>, unset: int): Option<int> {
    match v
    case None => Some(unset)
    case Some(t) => ParseInt(t)
  }

  function ReadStates(v: Option<string>): Option<seq<State>> {
    match v
    case None => Some([])
    case Some(t) => ParseStateList(Split(t, ','))
  }

  /** Builds the property an attribute list describes; absent attributes stay unset. */
  function FromAttributes(protocol: Protocol, attrs: seq<Attribute>): Option<Property> {
    var srcPortStart :- ReadInt(Lookup(attrs, SrcPortStart), 0);
    var srcPortEnd :- ReadInt(Lookup(attrs, SrcPortEnd), 0);
    var dstPortStart :- ReadInt(Lookup(attrs, DstPortStart), 0);
    var dstPortEnd :- ReadInt(Lookup(attrs, DstPortEnd), 0);
    var icmpType :- ReadInt(Lookup(attrs, Type), -1);
    var icmpCode :- ReadInt(Lookup(attrs, Code), -1);
    var states :- ReadStates(Lookup(attrs, States));
    Some(Property(
      protocol,
      ReadText(Lookup(attrs, SrcMacAddr)),
      ReadAddress(Lookup(attrs, SrcIpAddr)),
      ReadText(Lookup(attrs, SrcIpMask)),
      ReadAddress(Lookup(attrs, DstIpAddr)),
      ReadText(Lookup(attrs, DstIpMask)),
      srcPortStart, srcPortEnd, dstPortStart, dstPortEnd,
      icmpType, icmpCode, states))
  }

  /** Reads one property element `<proto ... />` and its newline. */
  function ParseProperty(s: string): (r: Option<Parsed<Property>>)
    ensures r.Some? ==> |r.value.rest| < |s|
  {
    var s1 :- Expect(s, "<");
    var name := TakeUntil(s1, ' ');
    var protocol :- ParseProtocol(name.value);
    var s2 :- Expect(name.rest, " ");
    var attrs :- ParseAttributes(s2);
    var s3 :- Expect(attrs.rest, "/>\n");
    var p :- FromAttributes(protocol, attrs.value);
    Some(Parsed(p, s3))
  }

  // ---------------------------------------------------------------------------
  // Properties of the rendering.
  // ---------------------------------------------------------------------------

  /** Normalising twice changes nothing more. */
  lemma NormalizeIdempotent(p: Property)
    ensures Normalize(Normalize(p)) == Normalize(p)
  {
  }

  /** No attribute is set: every gate of the source is closed. */
  predicate Bare(p: Property) {
    && !IsNotBlank(p.srcMacAddr) && p.srcIpAddr.None? && !IsNotBlank(p.srcIpMask)
    && p.dstIpAddr.None? && !IsNotBlank(p.dstIpMask)
    && p.srcPortStart <= 0 && p.srcPortEnd <= 0 && p.dstPortStart <= 0 && p.dstPortEnd <= 0
    && p.icmpType < 0 && p.icmpCode < 0 && p.states == []
  }

  /** `Bare` is exactly "every gate is closed". */
  lemma BareIffAllClosed(p: Property)
    ensures Bare(p) <==> forall k :: Gate(p, k).None?
  {
    if forall k :: Gate(p, k).None? {
      assert Gate(p, SrcMacAddr).None? && Gate(p, SrcIpAddr).None? && Gate(p, SrcIpMask).None?;
      assert Gate(p, DstIpAddr).None? && Gate(p, DstIpMask).None? && Gate(p, SrcPortStart).None?;
      assert Gate(p, SrcPortEnd).None? && Gate(p, DstPortStart).None? && Gate(p, DstPortEnd).None?;
      assert Gate(p, Type).None? && Gate(p, Code).None? && Gate(p, States).None?;
    }
  }

  lemma BareIffNoAttributes(p: Property)
    ensures Attributes(p) == [] <==> Bare(p)
  {
    var attrs := Attributes(p);
    BareIffAllClosed(p);
    if attrs == [] {
      forall k ensures Gate(p, k).None? {
        assert Lookup(attrs, k) == Gate(p, k);
      }
    } else {
      assert Lookup(attrs, attrs[0].key).Some?;
    }
  }

  /**
   * A property renders as exactly `<proto />` plus newline (a space before `/>`
   * even with no attribute) if and only if none of its attributes is emitted.
   */
  lemma BarePropertyRendering(p: Property)
    ensures RenderProperty(p) == "<" + ProtocolName(p.protocol) + " />\n" <==> Bare(p)
  {
    BareIffNoAttributes(p);
    var attrs := Attributes(p);
    if attrs != [] {
      assert |Concat(attrs, RenderAttribute)| > 0;
    }
  }

  /** A freshly constructed property renders as `<proto />`. */
  lemma NewPropertyRendering(protocol: Protocol)
    ensures RenderProperty(NewProperty(protocol)) == "<" + ProtocolName(protocol) + " />\n"
  {
    BarePropertyRendering(NewProperty(protocol));
  }

  /** The `state` attribute's text, empty when no state was added. */
  function StateText(p: Property): string {
    if |p.states| > 0 then RenderAttribute(Attribute(States, Join(StateNames(p.states), ","))) else ""
  }

  /** The element up to the `state` attribute. */
  function LeadingText(p: Property): string {
    "<" + ProtocolName(p.protocol) + " " + Concat(Collect(p, LeadingKeys), RenderAttribute)
  }

  lemma CollectStates(p: Property)
    ensures Collect(p, [States]) == if |p.states| > 0 then [Attribute(States, Join(StateNames(p.states), ","))] else []
  {
    assert [States][1..] == [];
  }

  /** The `state` attribute always comes last, just before `/>`. */
  lemma StateAttributeLast(p: Property)
    ensures RenderProperty(p) == LeadingText(p) + StateText(p) + "/>\n"
  {
    var lead := Collect(p, LeadingKeys);
    var last := Collect(p, [States]);
    CollectAppend(p, LeadingKeys, [States]);
    assert Attributes(p) == lead + last;
    ConcatAppend(lead, last, RenderAttribute);
    CollectStates(p);
    if |p.states| > 0 {
      assert last[1..] == [];
      assert Concat(last, RenderAttribute) == StateText(p) + "";
    }
    assert Concat(last, RenderAttribute) == StateText(p);
    var head := "<" + ProtocolName(p.protocol) + " ";
    Assoc(head, Concat(lead, RenderAttribute), StateText(p));
  }

  lemma AddStateKeepsLeading(p: Property, s: State)
    ensures LeadingText(AddState(p, s)) == LeadingText(p)
  {
    var q := AddState(p, s);
    assert forall i :: 0 <= i < |LeadingKeys| ==> Gate(q, LeadingKeys[i]) == Gate(p, LeadingKeys[i]);
    CollectAgrees(q, p, LeadingKeys);
  }

  /** How a `state` attribute with value `j` ends the element. */
  lemma StateAttributeText(head: string, j: string)
    ensures var r := head + RenderAttribute(Attribute(States, j)) + "/>\n";
      r == head + "state='" + j + "' />\n" && r[..|r| - 5] == head + "state='" + j
  {
    assert KeyName(States) + "='" == "state='";
    assert "' " + "/>\n" == "' />\n";
    Assoc(head + "state='" + j, "' ", "/>\n");
  }

  lemma StateNamesAppend(states: seq<State>, s: State)
    ensures StateNames(states + [s]) == StateNames(states) + [StateName(s)]
  {
  }

  /** Both renderings around `addState`, each split at the `state` attribute. */
  lemma AddStateSplit(p: Property, s: State)
    ensures var head := LeadingText(p);
      && RenderProperty(AddState(p, s)) == head + StateText(AddState(p, s)) + "/>\n"
      && RenderProperty(p) == head + StateText(p) + "/>\n"
      && Join(StateNames(AddState(p, s).states), ",") ==
           if p.states == [] then StateName(s) else Join(StateNames(p.states), ",") + "," + StateName(s)
  {
    StateAttributeLast(p);
    StateAttributeLast(AddState(p, s));
    AddStateKeepsLeading(p, s);
    StateNamesAppend(p.states, s);
    JoinAppend(StateNames(p.states), StateName(s), ",");
  }

  lemma AddFirstState(p: Property, s: State)
    requires p.states == []
    ensures var before := RenderProperty(p);
      RenderProperty(AddState(p, s)) == before[..|before| - 3] + "state='" + StateName(s) + "' />\n"
  {
    AddStateSplit(p, s);
    var head := LeadingText(p);
    var before := RenderProperty(p);
    StateAttributeText(head, StateName(s));
    assert before == head + "/>\n";
    assert before[..|before| - 3] == head;
  }

  lemma AddLaterState(p: Property, s: State)
    requires p.states != []
    ensures var before := RenderProperty(p);
      RenderProperty(AddState(p, s)) == before[..|before| - 5] + "," + StateName(s) + "' />\n"
  {
    AddStateSplit(p, s);
    var head := LeadingText(p);
    var oldJoined := Join(StateNames(p.states), ",");
    StateAttributeText(head, oldJoined + "," + StateName(s));
    StateAttributeText(head, oldJoined);
    var x := head + "state='";
    Assoc(x, oldJoined + ",", StateName(s));
    Assoc(x, oldJoined, ",");
  }

  /**
   * `addState` changes only the `state` attribute, which is always last: the
   * first state creates `state='S' ` just before `/>`, a later one appends `,S`
   * inside the quotes.
   */
  lemma AddStateRendering(p: Property, s: State)
    ensures var before := RenderProperty(p);
      RenderProperty(AddState(p, s)) ==
        if p.states == [] then before[..|before| - 3] + "state='" + StateName(s) + "' />\n"
        else before[..|before| - 5] + "," + StateName(s) + "' />\n"
  {
    if p.states == [] {
      AddFirstState(p, s);
    } else {
      AddLaterState(p, s);
    }
  }

  /** The text of an open gate holds no quote when the property is well formed. */
  lemma GateQuoteFree(p: Property, k: Key)
    requires WellFormed(p)
    requires Gate(p, k).Some?
    ensures '\'' !in Gate(p, k).value
  {
    if k == States {
      JoinedStatesAvoid(p.states, '\'');
    }
  }

  lemma AttributesQuoteFree(p: Property)
    requires WellFormed(p)
    ensures QuoteFree(Attributes(p))
  {
    var attrs := Attributes(p);
    forall i | 0 <= i < |attrs| ensures '\'' !in attrs[i].value {
      GateQuoteFree(p, attrs[i].key);
    }
  }

  lemma ParseOneAttribute(a: Attribute, tail: string)
    requires '\'' !in a.value
    requires !("/>" <= RenderAttribute(a) + tail)
    ensures ParseAttributes(RenderAttribute(a) + tail) ==
      match ParseAttributes(tail)
      case None => None
      case Some(more) => Some(Parsed([a] + more.value, more.rest))
  {
    var k := KeyName(a.key);
    Assoc(k + "='" + a.value, "' ", tail);
    Assoc(k + "='", a.value, "' " + tail);
    Assoc(k, "='", a.value + ("' " + tail));
    TakeUntilSplits(k, "='" + (a.value + ("' " + tail)), '=');
    KeyNameRoundTrip(a.key);
    ExpectPrefix("='", a.value + ("' " + tail));
    TakeUntilSplits(a.value, "' " + tail, '\'');
    ExpectPrefix("' ", tail);
  }

  lemma {:induction false} ParseAttributesRoundTrip(attrs: seq<Attribute>, rest: string)
    requires QuoteFree(attrs)
    requires "/>" <= rest
    ensures ParseAttributes(Concat(attrs, RenderAttribute) + rest) == Some(Parsed(attrs, rest))
  {
    if attrs == [] {
      assert Concat(attrs, RenderAttribute) + rest == rest;
    } else {
      var a := attrs[0];
      var tail := Concat(attrs[1..], RenderAttribute) + rest;
      Assoc(RenderAttribute(a), Concat(attrs[1..], RenderAttribute), rest);
      assert (RenderAttribute(a) + tail)[0] == KeyName(a.key)[0];
      ParseOneAttribute(a, tail);
      ParseAttributesRoundTrip(attrs[1..], rest);
      assert [a] + attrs[1..] == attrs;
    }
  }

  lemma ReadPort(n: int)
    ensures ReadInt(if n > 0 then Some(IntToString(n)) else None, 0) == Some(if n > 0 then n else 0)
  {
    IntToStringRoundTrip(n);
  }

  lemma ReadTypeOrCode(n: int)
    ensures ReadInt(if n >= 0 then Some(IntToString(n)) else None, -1) == Some(if n >= 0 then n else -1)
  {
    IntToStringRoundTrip(n);
  }

  lemma ReadStateList(states: seq<State>)
    ensures ReadStates(if |states| > 0 then Some(Join(StateNames(states), ",")) else None) == Some(states)
  {
    if |states| > 0 {
      SplitJoin(StateNames(states), ',');
      StateListRoundTrip(states);
    }
  }

  /** Each number and the state list read back from the attributes are the canonical ones. */
  lemma ReadNumbersOfAttributes(p: Property)
    ensures var attrs, n := Attributes(p), Normalize(p);
      && ReadInt(Lookup(attrs, SrcPortStart), 0) == Some(n.srcPortStart)
      && ReadInt(Lookup(attrs, SrcPortEnd), 0) == Some(n.srcPortEnd)
      && ReadInt(Lookup(attrs, DstPortStart), 0) == Some(n.dstPortStart)
      && ReadInt(Lookup(attrs, DstPortEnd), 0) == Some(n.dstPortEnd)
      && ReadInt(Lookup(attrs, Type), -1) == Some(n.icmpType)
      && ReadInt(Lookup(attrs, Code), -1) == Some(n.icmpCode)
      && ReadStates(Lookup(attrs, States)) == Some(n.states)
  {
    ReadPortsOfAttributes(p);
    ReadTypeCodeStatesOfAttributes(p);
  }

  /** The port half of `ReadNumbersOfAttributes`. */
  lemma ReadPortsOfAttributes(p: Property)
    ensures var attrs, n := Attributes(p), Normalize(p);
      && ReadInt(Lookup(attrs, SrcPortStart), 0) == Some(n.srcPortStart)
      && ReadInt(Lookup(attrs, SrcPortEnd), 0) == Some(n.srcPortEnd)
      && ReadInt(Lookup(attrs, DstPortStart), 0) == Some(n.dstPortStart)
      && ReadInt(Lookup(attrs, DstPortEnd), 0) == Some(n.dstPortEnd)
  {
    var attrs := Attributes(p);
    assert Lookup(attrs, SrcPortStart) == Gate(p, SrcPortStart);
    assert Lookup(attrs, SrcPortEnd) == Gate(p, SrcPortEnd);
    assert Lookup(attrs, DstPortStart) == Gate(p, DstPortStart);
    assert Lookup(attrs, DstPortEnd) == Gate(p, DstPortEnd);
    ReadPort(p.srcPortStart);
    ReadPort(p.srcPortEnd);
    ReadPort(p.dstPortStart);
    ReadPort(p.dstPortEnd);
  }

  /** The `type`, `code` and `state` half of `ReadNumbersOfAttributes`. */
  lemma ReadTypeCodeStatesOfAttributes(p: Property)
    ensures var attrs, n := Attributes(p), Normalize(p);
      && ReadInt(Lookup(attrs, Type), -1) == Some(n.icmpType)
      && ReadInt(Lookup(attrs, Code), -1) == Some(n.icmpCode)
      && ReadStates(Lookup(attrs, States)) == Some(n.states)
  {
    var attrs := Attributes(p);
    assert Lookup(attrs, Type) == Gate(p, Type);
    assert Lookup(attrs, Code) == Gate(p, Code);
    assert Lookup(attrs, States) == Gate(p, States);
    ReadTypeOrCode(p.icmpType);
    ReadTypeOrCode(p.icmpCode);
    ReadStateList(p.states);
  }

  /** Each string and address read back from the attributes is the canonical one. */
  lemma ReadTextsOfAttributes(p: Property)
    ensures var attrs, n := Attributes(p), Normalize(p);
      && ReadText(Lookup(attrs, SrcMacAddr)) == n.srcMacAddr
      && ReadAddress(Lookup(attrs, SrcIpAddr)) == n.srcIpAddr
      && ReadText(Lookup(attrs, SrcIpMask)) == n.srcIpMask
      && ReadAddress(Lookup(attrs, DstIpAddr)) == n.dstIpAddr
      && ReadText(Lookup(attrs, DstIpMask)) == n.dstIpMask
  {
    var attrs := Attributes(p);
    assert Lookup(attrs, SrcMacAddr) == Gate(p, SrcMacAddr);
    assert Lookup(attrs, SrcIpAddr) == Gate(p, SrcIpAddr);
    assert Lookup(attrs, SrcIpMask) == Gate(p, SrcIpMask);
    assert Lookup(attrs, DstIpAddr) == Gate(p, DstIpAddr);
    assert Lookup(attrs, DstIpMask) == Gate(p, DstIpMask);
  }

  /** Reading the attributes back recovers the canonical property. */
  lemma FromAttributesRoundTrip(p: Property)
    ensures FromAttributes(p.protocol, Attributes(p)) == Some(Normalize(p))
  {
    ReadNumbersOfAttributes(p);
    ReadTextsOfAttributes(p);
  }

  /**
   * Parsing inverts rendering up to normalisation: the rendered element, followed
   * by anything, reads back as the canonical property and leaves the rest.
   */
  lemma ParsePropertyRoundTrip(p: Property, rest: string)
    requires WellFormed(p)
    ensures ParseProperty(RenderProperty(p) + rest) == Some(Parsed(Normalize(p), rest))
  {
    var name := ProtocolName(p.protocol);
    var body := Concat(Attributes(p), RenderAttribute);
    var s := RenderProperty(p) + rest;
    Assoc("<" + name + " " + body, "/>\n", rest);
    Assoc("<" + name + " ", body, "/>\n" + rest);
    Assoc("<" + name, " ", body + ("/>\n" + rest));
    Assoc("<", name, " " + (body + ("/>\n" + rest)));
    assert s == "<" + (name + (" " + (body + ("/>\n" + rest))));
    ExpectPrefix("<", name + (" " + (body + ("/>\n" + rest))));
    TakeUntilSplits(name, " " + (body + ("/>\n" + rest)), ' ');
    ProtocolNameRoundTrip(p.protocol);
    ExpectPrefix(" ", body + ("/>\n" + rest));
    AttributesQuoteFree(p);
    ParseAttributesRoundTrip(Attributes(p), "/>\n" + rest);
    ExpectPrefix("/>\n", rest);
    FromAttributesRoundTrip(p);
  }

  /** Two well-formed properties render alike exactly when their canonical forms agree. */
  lemma RenderPropertyInjective(p: Property, q: Property)
    requires WellFormed(p) && WellFormed(q)
    ensures RenderProperty(p) == RenderProperty(q) <==> Normalize(p) == Normalize(q)
  {
    ParsePropertyRoundTrip(p, "");
    ParsePropertyRoundTrip(q, "");
    assert RenderProperty(p) + "" == RenderProperty(p);
    assert RenderProperty(q) + "" == RenderProperty(q);
    NormalizeInvisible(p);
    NormalizeInvisible(q);
  }
}
