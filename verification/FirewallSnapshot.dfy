/**
 Identities of a firewall ruleset.  The strict one keeps the order of the listing;
 the semantic one keeps only the order of the rules within each chain.  A digest
 is modelled by the text it is taken of.
 */
module FirewallSnapshot {
  import opened Wrappers
  import opened JsonText
  import opened TextOrder

  /** `fields.get(key)`; a missing key reads as null. */
  function Get(fields: seq<Field>, key: string): Json {
    if fields == [] then Null
    else if fields[0].key == key then fields[0].value
    else Get(fields[1..], key)
  }

  predicate HasKey(fields: seq<Field>, key: string) {
    exists i :: 0 <= i < |fields| && fields[i].key == key
  }

  predicate Volatile(key: string) {
    key == "handle" || key == "packets" || key == "bytes"
  }

  function Canonicalize(j: Json): Json
    decreases j
  {
    match j
    case Obj(fields) => Obj(CanonicalFields(fields))
    case Arr(items) => Arr(CanonicalItems(items))
    case _ => j
  }

  function CanonicalItems(items: seq<Json>): (r: seq<Json>)
    ensures |r| == |items|
    decreases items
  {
    if items == [] then [] else [Canonicalize(items[0])] + CanonicalItems(items[1..])
  }

  function CanonicalField(f: Field): Field
    decreases f
  {
    Field(f.key, Canonicalize(f.value))
  }

  function CanonicalFields(fields: seq<Field>): seq<Field>
    decreases fields
  {
    if fields == [] then []
    else if Volatile(fields[0].key) then CanonicalFields(fields[1..])
    else [CanonicalField(fields[0])] + CanonicalFields(fields[1..])
  }

  /** An entry of the listing is an object. */
  type Entry = seq<Field>

  predicate NamesTable(payload: Json, table: string) {
    payload.Obj? && Get(payload.fields, "family") == Str("inet") && Get(payload.fields, "table") == Str(table)
  }

  predicate BelongsTo(entry: Entry, table: string) {
    || (exists i :: 0 <= i < |entry| && NamesTable(entry[i].value, table))
    || (var t := Get(entry, "table");
        t.Obj? && Get(t.fields, "family") == Str("inet") && Get(t.fields, "name") == Str(table))
  }

  predicate Kept(entry: Entry, exclude: Option<string>) {
    !HasKey(entry, "metainfo") && !(exclude.Some? && exclude.value != "" && BelongsTo(entry, exclude.value))
  }

  /** The canonical forms of the entries that count, in listing order. */
  function Retained(entries: seq<Entry>, exclude: Option<string>): seq<Json> {
    if entries == [] then []
    else
      var n := |entries| - 1;
      Retained(entries[..n], exclude)
      + if Kept(entries[n], exclude) then [Canonicalize(Obj(entries[n]))] else []
  }

  function CountKinds(counts: map<string, nat>, entry: Entry): map<string, nat> {
    if entry == [] then counts
    else
      var n := |entry| - 1;
      var before := CountKinds(counts, entry[..n]);
      before[entry[n].key := (if entry[n].key in before then before[entry[n].key] else 0) + 1]
  }

  function KindCounts(entries: seq<Entry>, exclude: Option<string>): map<string, nat> {
    if entries == [] then map[]
    else
      var n := |entries| - 1;
      var before := KindCounts(entries[..n], exclude);
      if Kept(entries[n], exclude) then CountKinds(before, entries[n]) else before
  }

  function CanonicalText(retained: seq<Json>): string {
    Encode(Arr(retained))
  }

  // ----- the semantic form -----

  /** The chain a canonical entry is a rule of, if it is a rule. */
  function RuleIdentity(canonical: Json): Option<Json> {
    if canonical.Obj? then
      var rule := Get(canonical.fields, "rule");
      if rule.Obj? then
        Some(Arr([Get(rule.fields, "family"), Get(rule.fields, "table"), Get(rule.fields, "chain")]))
      else None
    else None
  }

  predicate IsRuleOf(canonical: Json, key: string) {
    var id := RuleIdentity(canonical);
    id.Some? && Encode(id.value) == key
  }

  /** The texts of the entries that are no rules. */
  function NonRuleTexts(retained: seq<Json>): seq<string> {
    if retained == [] then []
    else
      var n := |retained| - 1;
      NonRuleTexts(retained[..n]) + if RuleIdentity(retained[n]).None? then [Encode(retained[n])] else []
  }

  /** The rules of one chain, in order. */
  function RulesUnder(retained: seq<Json>, key: string): seq<Json> {
    if retained == [] then []
    else
      var n := |retained| - 1;
      RulesUnder(retained[..n], key) + if IsRuleOf(retained[n], key) then [retained[n]] else []
  }

  /** The keys of the chains, in the order of their first rules. */
  function ChainKeys(retained: seq<Json>): seq<string> {
    if retained == [] then []
    else
      var n := |retained| - 1;
      var before, id := ChainKeys(retained[..n]), RuleIdentity(retained[n]);
      if id.Some? && Encode(id.value) !in before then before + [Encode(id.value)] else before
  }

  function Texts(ss: seq<string>): (r: seq<Json>)
    ensures |r| == |ss| && forall i :: 0 <= i < |ss| ==> r[i] == Str(ss[i])
  {
    seq(|ss|, i requires 0 <= i < |ss| => Str(ss[i]))
  }

  function Group(retained: seq<Json>, key: string): Json {
    Obj([Field("identity", Str(key)), Field("rules", Arr(RulesUnder(retained, key)))])
  }

  function Groups(retained: seq<Json>, keys: seq<string>): (r: seq<Json>)
    ensures |r| == |keys| && forall i :: 0 <= i < |keys| ==> r[i] == Group(retained, keys[i])
  {
    seq(|keys|, i requires 0 <= i < |keys| => Group(retained, keys[i]))
  }

  function SemanticValue(retained: seq<Json>): Json {
    Obj([
      Field("non_rules", Arr(Texts(Sort(NonRuleTexts(retained))))),
      Field("rule_groups", Arr(Groups(retained, Sort(ChainKeys(retained)))))])
  }

  function SemanticText(retained: seq<Json>): string {
    Encode(SemanticValue(retained))
  }
}
