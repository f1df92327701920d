/**
 The marker rules the firewall is expected to show, as expressions.  An object is
 its fields in key order, so key sets are compared as sequences, and the program's
 strict comparison is equality of values.
 */
module MarkerRules {
  import opened JsonText
  import opened FirewallSnapshot
  import opened Redaction

  datatype MarkerIdentity = MarkerIdentity(
    table: string, interface: string, client: string, service: string, foreign: string, gateway: string, port: int)

  datatype Chain = InputChain | ForwardChain | OutputChain

  function ChainName(c: Chain): string {
    match c
    case InputChain => "canary_input"
    case ForwardChain => "canary_forward"
    case OutputChain => "canary_output"
  }

  /** `_match` */
  function Match(left: Json, right: Json): Json {
    Obj([Field("match", Obj([Field("left", left), Field("op", Str("==")), Field("right", right)]))])
  }

  function Meta(key: string): Json {
    Obj([Field("meta", Obj([Field("key", Str(key))]))])
  }

  function Payload(protocol: string, field: string): Json {
    Obj([Field("payload", Obj([Field("field", Str(field)), Field("protocol", Str(protocol))]))])
  }

  function Counter(name: string): Json {
    Obj([Field("counter", Str(name))])
  }

  const DNS_PAYLOAD :=
    Obj([Field("payload", Obj([Field("base", Str("th")), Field("len", Int(104)), Field("offset", Int(160))]))])

  /** `expected_marker_rule_expressions` */
  function ExpectedRules(d: MarkerIdentity, c: Chain): seq<seq<Json>> {
    var iif, from := Match(Meta("iifname"), Str(d.interface)), Match(Payload("ip", "saddr"), Str(d.client));
    match c
    case InputChain => [
      [iif, from, Match(Payload("ip", "daddr"), Str(d.gateway)), Match(Payload("icmp", "type"), Str("echo-request")),
       Counter("marker_gateway")],
      [iif, from, Match(Payload("ip", "daddr"), Str(d.gateway)), Match(Payload("tcp", "dport"), Int(d.port)),
       Counter("marker_host_listener")]]
    case ForwardChain => [
      [iif, Match(Meta("oifname"), Str(d.interface)), from, Match(Payload("ip", "daddr"), Str(d.service)),
       Match(Payload("tcp", "dport"), Int(5432)), Counter("marker_same_network")],
      [iif, from, Match(Payload("ip", "daddr"), Str("1.1.1.1")), Match(Payload("tcp", "dport"), Int(443)),
       Counter("marker_literal_ip")],
      [iif, from, Match(Payload("ip", "daddr"), Str("169.254.169.254")), Match(Payload("tcp", "dport"), Int(80)),
       Counter("marker_metadata")],
      [iif, from, Match(Payload("ip", "daddr"), Str(d.foreign)), Match(Payload("tcp", "dport"), Int(5432)),
       Counter("marker_foreign_network")]]
    case OutputChain => [
      [Match(Meta("skuid"), Int(0)), Match(Payload("udp", "dport"), Int(53)),
       Match(DNS_PAYLOAD, Str("0x076578616d706c6503636f6d00")), Counter("marker_external_dns")]]
  }

  function Keys(fields: seq<Field>): (keys: seq<string>)
    ensures |keys| == |fields| && forall i :: 0 <= i < |fields| ==> keys[i] == fields[i].key
  {
    seq(|fields|, i requires 0 <= i < |fields| => fields[i].key)
  }

  const MATCH_KEYS := ["left", "op", "right"]

  /** What every expected expression looks like. */
  predicate IsExpected(e: Json) {
    && e.Obj? && |e.fields| == 1
    && var v := e.fields[0].value;
      if e.fields[0].key == "match" then
        && v.Obj? && Keys(v.fields) == MATCH_KEYS && v.fields[1].value == Str("==")
        && v.fields[0].value.Obj? && |v.fields[0].value.fields| == 1 && v.fields[0].value.fields[0].value.Obj?
      else e.fields[0].key == "counter" && v.Str?
  }

  lemma {:induction false} MatchIsExpected(left: Json, right: Json)
    requires left.Obj? && |left.fields| == 1 && left.fields[0].value.Obj?
    ensures IsExpected(Match(left, right))
  {
  }

  lemma {:induction false} MetaMatch(key: string, right: Json)
    ensures IsExpected(Match(Meta(key), right))
  {
  }

  lemma {:induction false} PayloadMatch(protocol: string, field: string, right: Json)
    ensures IsExpected(Match(Payload(protocol, field), right))
  {
  }

  lemma {:induction false} CounterReference(name: string)
    ensures IsExpected(Counter(name))
  {
  }

  predicate AllExpected(items: seq<Json>) {
    forall k :: 0 <= k < |items| ==> IsExpected(items[k])
  }

  lemma {:induction false} CommonMatches(d: MarkerIdentity)
    ensures IsExpected(Match(Meta("iifname"), Str(d.interface)))
    ensures IsExpected(Match(Payload("ip", "saddr"), Str(d.client)))
  {
    MetaMatch("iifname", Str(d.interface));
    PayloadMatch("ip", "saddr", Str(d.client));
  }

  lemma {:induction false} InputIsExpected(d: MarkerIdentity)
    ensures AllExpected(ExpectedRules(d, InputChain)[0]) && AllExpected(ExpectedRules(d, InputChain)[1])
  {
    hide IsExpected, Match, Meta, Payload, Counter;
    CommonMatches(d);
    PayloadMatch("ip", "daddr", Str(d.gateway));
    PayloadMatch("icmp", "type", Str("echo-request"));
    PayloadMatch("tcp", "dport", Int(d.port));
    CounterReference("marker_gateway");
    CounterReference("marker_host_listener");
  }

  lemma {:induction false} ForwardIsExpected(d: MarkerIdentity)
    ensures AllExpected(ExpectedRules(d, ForwardChain)[0]) && AllExpected(ExpectedRules(d, ForwardChain)[1])
    ensures AllExpected(ExpectedRules(d, ForwardChain)[2]) && AllExpected(ExpectedRules(d, ForwardChain)[3])
  {
    hide IsExpected, Match, Meta, Payload, Counter;
    CommonMatches(d);
    MetaMatch("oifname", Str(d.interface));
    PayloadMatch("ip", "daddr", Str(d.service));
    PayloadMatch("ip", "daddr", Str("1.1.1.1"));
    PayloadMatch("ip", "daddr", Str("169.254.169.254"));
    PayloadMatch("ip", "daddr", Str(d.foreign));
    PayloadMatch("tcp", "dport", Int(5432));
    PayloadMatch("tcp", "dport", Int(443));
    PayloadMatch("tcp", "dport", Int(80));
    CounterReference("marker_same_network");
    CounterReference("marker_literal_ip");
    CounterReference("marker_metadata");
    CounterReference("marker_foreign_network");
  }

  lemma {:induction false} OutputIsExpected(d: MarkerIdentity)
    ensures AllExpected(ExpectedRules(d, OutputChain)[0])
  {
    MatchIsExpected(DNS_PAYLOAD, Str("0x076578616d706c6503636f6d00"));
    hide IsExpected, Match, Meta, Payload, Counter;
    MetaMatch("skuid", Int(0));
    PayloadMatch("udp", "dport", Int(53));
    CounterReference("marker_external_dns");
  }

  lemma {:induction false} ExpectedRulesAreExpected(d: MarkerIdentity, c: Chain, i: nat)
    requires i < |ExpectedRules(d, c)|
    ensures AllExpected(ExpectedRules(d, c)[i])
  {
    InputIsExpected(d);
    ForwardIsExpected(d);
    OutputIsExpected(d);
    hide AllExpected, Match, Meta, Payload, Counter;
  }

  /** Seven rules in all, at most four in a chain, at most six expressions in a rule. */
  lemma {:induction false} ExpectedCounts(d: MarkerIdentity, c: Chain)
    ensures |ExpectedRules(d, InputChain)| + |ExpectedRules(d, ForwardChain)| + |ExpectedRules(d, OutputChain)| == 7
    ensures 1 <= |ExpectedRules(d, c)| <= 4
    ensures forall i :: 0 <= i < |ExpectedRules(d, c)| ==> 4 <= |ExpectedRules(d, c)[i]| <= 6
  {
  }

  // ----- rules as listed -----

  /** `rule.get("expr")`; a missing key reads as null. */
  function Exprs(rule: Json): Json {
    if rule.Obj? then Get(rule.fields, "expr") else rule
  }

  const RULE_KEYS := ["chain", "expr", "family", "table"]
  const RULE_KEYS_WITH_HANDLE := ["chain", "expr", "family", "handle", "table"]

  /** The listed rule is the expected one, up to its handle. */
  predicate RuleMatches(rule: Json, table: string, c: Chain, exprs: seq<Json>) {
    && rule.Obj? && (Keys(rule.fields) == RULE_KEYS || Keys(rule.fields) == RULE_KEYS_WITH_HANDLE)
    && Get(rule.fields, "family") == Str("inet") && Get(rule.fields, "table") == Str(table)
    && Get(rule.fields, "chain") == Str(ChainName(c)) && Get(rule.fields, "expr") == Arr(exprs)
  }

  predicate ChainMatches(d: MarkerIdentity, c: Chain, observed: seq<Json>) {
    && |observed| == |ExpectedRules(d, c)|
    && forall i :: 0 <= i < |observed| ==> RuleMatches(observed[i], d.table, c, ExpectedRules(d, c)[i])
  }

  // ----- shapes -----

  function Shape(input: seq<Json>, forward: seq<Json>, output: seq<Json>): Json {
    Obj([Field("canary_forward", Arr(forward)), Field("canary_input", Arr(input)), Field("canary_output", Arr(output))])
  }

  function AsArrays(rules: seq<seq<Json>>): (r: seq<Json>)
    ensures |r| == |rules| && forall i :: 0 <= i < |rules| ==> r[i] == Arr(rules[i])
  {
    seq(|rules|, i requires 0 <= i < |rules| => Arr(rules[i]))
  }

  function ExpectedShape(d: MarkerIdentity): Json {
    Shape(AsArrays(ExpectedRules(d, InputChain)), AsArrays(ExpectedRules(d, ForwardChain)),
      AsArrays(ExpectedRules(d, OutputChain)))
  }

  // ----- the expected shape is within the limits of the projection -----

  /** At most `n` nodes, and nothing more than `room` levels down. */
  predicate Small(j: Json, n: nat, room: int) {
    Nodes(j) <= n && Shallow(j, room)
  }

  lemma {:induction false} OneField(f: Field, n: nat, room: int)
    requires Small(f.value, n, room - 1) && room >= 0
    ensures Small(Obj([f]), 1 + n, room)
  {
    FieldsGrow([f], 0, room - 1);
    assert [f][..0] == [] && [f][..1] == [f];
  }

  lemma {:induction false} TwoFields(f: Field, g: Field, n: nat, m: nat, room: int)
    requires Small(f.value, n, room - 1) && Small(g.value, m, room - 1) && room >= 0
    ensures Small(Obj([f, g]), 1 + n + m, room)
  {
    var fs := [f, g];
    FieldsGrow(fs, 0, room - 1);
    FieldsGrow(fs, 1, room - 1);
    assert fs[..0] == [] && fs[..2] == fs;
  }

  lemma {:induction false} ThreeFields(f: Field, g: Field, h: Field, n: nat, m: nat, k: nat, room: int)
    requires Small(f.value, n, room - 1) && Small(g.value, m, room - 1) && Small(h.value, k, room - 1) && room >= 0
    ensures Small(Obj([f, g, h]), 1 + n + m + k, room)
  {
    var fs := [f, g, h];
    FieldsGrow(fs, 0, room - 1);
    FieldsGrow(fs, 1, room - 1);
    FieldsGrow(fs, 2, room - 1);
    assert fs[..0] == [] && fs[..3] == fs;
  }

  lemma {:induction false} ManyItems(items: seq<Json>, n: nat, room: int)
    requires forall i :: 0 <= i < |items| ==> Small(items[i], n, room)
    ensures NodesOfItems(items) <= |items| * n && ShallowItems(items, room)
    decreases |items|
  {
    if items != [] {
      ManyItems(items[..|items| - 1], n, room);
      assert |items| * n == (|items| - 1) * n + n;
    }
  }

  lemma {:induction false} SmallArray(items: seq<Json>, n: nat, room: int)
    requires room >= 0 && forall i :: 0 <= i < |items| ==> Small(items[i], n, room - 1)
    ensures Small(Arr(items), 1 + |items| * n, room)
  {
    ManyItems(items, n, room - 1);
  }

  predicate Scalar(j: Json) {
    !j.Arr? && !j.Obj?
  }

  lemma {:induction false} SmallMatch(left: Json, right: Json)
    requires Small(left, 5, 2) && Scalar(right)
    ensures Small(Match(left, right), 9, 4)
  {
    assert Small(right, 1, 2) && Small(Str("=="), 1, 2);
    ThreeFields(Field("left", left), Field("op", Str("==")), Field("right", right), 5, 1, 1, 3);
    hide Small;
    OneField(Match(left, right).fields[0], 8, 4);
  }

  lemma {:induction false} SmallMeta(key: string, right: Json)
    requires Scalar(right)
    ensures Small(Match(Meta(key), right), 9, 4)
  {
    assert Small(Str(key), 1, 0);
    OneField(Field("key", Str(key)), 1, 1);
    OneField(Meta(key).fields[0], 2, 2);
    SmallMatch(Meta(key), right);
  }

  lemma {:induction false} SmallPayload(protocol: string, field: string, right: Json)
    requires Scalar(right)
    ensures Small(Match(Payload(protocol, field), right), 9, 4)
  {
    assert Small(Str(protocol), 1, 0) && Small(Str(field), 1, 0);
    TwoFields(Field("field", Str(field)), Field("protocol", Str(protocol)), 1, 1, 1);
    OneField(Payload(protocol, field).fields[0], 3, 2);
    SmallMatch(Payload(protocol, field), right);
  }

  lemma {:induction false} SmallDns(right: Json)
    requires Scalar(right)
    ensures Small(Match(DNS_PAYLOAD, right), 9, 4)
  {
    assert Small(Str("th"), 1, 0) && Small(Int(104), 1, 0) && Small(Int(160), 1, 0);
    ThreeFields(Field("base", Str("th")), Field("len", Int(104)), Field("offset", Int(160)), 1, 1, 1, 1);
    OneField(DNS_PAYLOAD.fields[0], 4, 2);
    SmallMatch(DNS_PAYLOAD, right);
  }

  lemma {:induction false} SmallCounter(name: string)
    ensures Small(Counter(name), 9, 4)
  {
    assert Small(Str(name), 1, 3);
    OneField(Field("counter", Str(name)), 1, 4);
  }

  predicate AllSmall(items: seq<Json>) {
    forall k :: 0 <= k < |items| ==> Small(items[k], 9, 4)
  }

  lemma {:induction false} CommonIsSmall(d: MarkerIdentity)
    ensures Small(Match(Meta("iifname"), Str(d.interface)), 9, 4)
    ensures Small(Match(Payload("ip", "saddr"), Str(d.client)), 9, 4)
  {
    SmallMeta("iifname", Str(d.interface));
    SmallPayload("ip", "saddr", Str(d.client));
  }

  lemma {:induction false} InputIsSmall(d: MarkerIdentity)
    ensures AllSmall(ExpectedRules(d, InputChain)[0]) && AllSmall(ExpectedRules(d, InputChain)[1])
  {
    hide Small, Match, Meta, Payload, Counter;
    CommonIsSmall(d);
    SmallPayload("ip", "daddr", Str(d.gateway));
    SmallPayload("icmp", "type", Str("echo-request"));
    SmallPayload("tcp", "dport", Int(d.port));
    SmallCounter("marker_gateway");
    SmallCounter("marker_host_listener");
  }

  lemma {:induction false} ForwardIsSmall(d: MarkerIdentity)
    ensures AllSmall(ExpectedRules(d, ForwardChain)[0]) && AllSmall(ExpectedRules(d, ForwardChain)[1])
    ensures AllSmall(ExpectedRules(d, ForwardChain)[2]) && AllSmall(ExpectedRules(d, ForwardChain)[3])
  {
    hide Small, Match, Meta, Payload, Counter;
    CommonIsSmall(d);
    SmallMeta("oifname", Str(d.interface));
    SmallPayload("ip", "daddr", Str(d.service));
    SmallPayload("ip", "daddr", Str("1.1.1.1"));
    SmallPayload("ip", "daddr", Str("169.254.169.254"));
    SmallPayload("ip", "daddr", Str(d.foreign));
    SmallPayload("tcp", "dport", Int(5432));
    SmallPayload("tcp", "dport", Int(443));
    SmallPayload("tcp", "dport", Int(80));
    SmallCounter("marker_same_network");
    SmallCounter("marker_literal_ip");
    SmallCounter("marker_metadata");
    SmallCounter("marker_foreign_network");
  }

  lemma {:induction false} OutputIsSmall(d: MarkerIdentity)
    ensures AllSmall(ExpectedRules(d, OutputChain)[0])
  {
    hide Small, Match, Meta, Payload, Counter;
    SmallDns(Str("0x076578616d706c6503636f6d00"));
    SmallMeta("skuid", Int(0));
    SmallPayload("udp", "dport", Int(53));
    SmallCounter("marker_external_dns");
  }

  lemma {:induction false} SmallRules(rules: seq<seq<Json>>)
    requires forall i :: 0 <= i < |rules| ==> |rules[i]| <= 6 && AllSmall(rules[i])
    ensures Small(Arr(AsArrays(rules)), 1 + |rules| * 55, 6)
  {
    forall i | 0 <= i < |rules| ensures Small(Arr(rules[i]), 55, 5) {
      assert AllSmall(rules[i]);
      SmallArray(rules[i], 9, 5);
      assert |rules[i]| * 9 <= 54;
    }
    hide Small, AllSmall;
    SmallArray(AsArrays(rules), 55, 6);
  }

  lemma {:induction false} ExpectedIsSupported(d: MarkerIdentity)
    ensures Supported(ExpectedShape(d))
  {
    InputIsSmall(d);
    ForwardIsSmall(d);
    OutputIsSmall(d);
    ExpectedCounts(d, InputChain);
    ExpectedCounts(d, ForwardChain);
    ExpectedCounts(d, OutputChain);
    ChainSizes(d);
    hide Small, AllSmall, ExpectedRules;
    SmallRules(ExpectedRules(d, InputChain));
    SmallRules(ExpectedRules(d, ForwardChain));
    SmallRules(ExpectedRules(d, OutputChain));
    var shape := ExpectedShape(d);
    ThreeFields(shape.fields[0], shape.fields[1], shape.fields[2], 221, 111, 56, 7);
    SmallIsSupported(shape);
  }

  lemma {:induction false} ChainSizes(d: MarkerIdentity)
    ensures |ExpectedRules(d, InputChain)| == 2 && |ExpectedRules(d, ForwardChain)| == 4
      && |ExpectedRules(d, OutputChain)| == 1
  {
  }

  lemma {:induction false} SmallIsSupported(j: Json)
    requires Small(j, 389, 7)
    ensures Supported(j)
  {
    MoreRoom(j, 7, MAX_DEPTH);
  }

  lemma {:induction false} MoreRoom(j: Json, a: int, b: int)
    requires Shallow(j, a) && a <= b
    ensures Shallow(j, b)
    decreases j
  {
    match j
    case Arr(items) => MoreRoomItems(items, a - 1, b - 1);
    case Obj(fields) => MoreRoomFields(fields, a - 1, b - 1);
    case _ =>
  }

  lemma {:induction false} MoreRoomItems(items: seq<Json>, a: int, b: int)
    requires ShallowItems(items, a) && a <= b
    ensures ShallowItems(items, b)
    decreases items
  {
    if items != [] {
      MoreRoomItems(items[..|items| - 1], a, b);
      MoreRoom(items[|items| - 1], a, b);
    }
  }

  lemma {:induction false} MoreRoomField(f: Field, a: int, b: int)
    requires ShallowField(f, a) && a <= b
    ensures ShallowField(f, b)
    decreases f
  {
    MoreRoom(f.value, a, b);
  }

  lemma {:induction false} MoreRoomFields(fields: seq<Field>, a: int, b: int)
    requires ShallowFields(fields, a) && a <= b
    ensures ShallowFields(fields, b)
    decreases fields
  {
    if fields != [] {
      MoreRoomFields(fields[..|fields| - 1], a, b);
      MoreRoomField(fields[|fields| - 1], a, b);
    }
  }
}
