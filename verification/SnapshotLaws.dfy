/** What equal snapshots mean, and the programs that compute them. */
module SnapshotLaws {
  import opened Wrappers
  import opened JsonText
  import opened TextOrder
  import opened FirewallSnapshot

  // ----- canonical forms are proper values -----

  ghost predicate AllProper(js: seq<Json>) {
    forall i :: 0 <= i < |js| ==> Proper(js[i])
  }

  lemma {:induction false} ArrProper(js: seq<Json>)
    requires AllProper(js)
    ensures Proper(Arr(js))
  {
  }

  lemma {:induction false} CanonicalProper(j: Json)
    requires Proper(j)
    ensures Proper(Canonicalize(j))
    decreases j
  {
    match j
    case Obj(fields) => CanonicalFieldsProper(fields);
    case Arr(items) =>
      assert AllProper(items);
      CanonicalItemsProper(items);
      assert Canonicalize(j) == Arr(CanonicalItems(items));
    case _ =>
  }

  lemma {:induction false} CanonicalItemsProper(items: seq<Json>)
    requires AllProper(items)
    ensures AllProper(CanonicalItems(items))
    decreases items
  {
    hide Proper;
    if items != [] {
      CanonicalProper(items[0]);
      assert AllProper(items[1..]);
      CanonicalItemsProper(items[1..]);
      assert CanonicalItems(items) == [Canonicalize(items[0])] + CanonicalItems(items[1..]);
    }
  }

  lemma {:induction false} CanonicalFieldsProper(fields: seq<Field>)
    requires KeysSorted(fields) && forall i :: 0 <= i < |fields| ==> Proper(fields[i].value)
    ensures var r := CanonicalFields(fields);
      && KeysSorted(r)
      && (forall i :: 0 <= i < |r| ==> Proper(r[i].value))
      && (forall i :: 0 <= i < |r| ==> exists j :: 0 <= j < |fields| && fields[j].key == r[i].key)
    decreases fields
  {
    hide Before;
    if fields != [] {
      CanonicalProper(fields[0].value);
      CanonicalFieldsProper(fields[1..]);
    }
  }

  lemma {:induction false} GetProper(fields: seq<Field>, key: string)
    requires forall i :: 0 <= i < |fields| ==> Proper(fields[i].value)
    ensures Proper(Get(fields, key))
    decreases |fields|
  {
    if fields != [] {
      GetProper(fields[1..], key);
    }
  }

  ghost predicate ProperEntries(entries: seq<Entry>) {
    forall i :: 0 <= i < |entries| ==> Proper(Obj(entries[i]))
  }

  lemma {:induction false} RetainedProper(entries: seq<Entry>, exclude: Option<string>)
    requires ProperEntries(entries)
    ensures AllProper(Retained(entries, exclude))
    decreases |entries|
  {
    if entries != [] {
      var n := |entries| - 1;
      RetainedProper(entries[..n], exclude);
      CanonicalProper(Obj(entries[n]));
    }
  }

  lemma {:induction false} IdentityProper(canonical: Json)
    requires Proper(canonical) && RuleIdentity(canonical).Some?
    ensures Proper(RuleIdentity(canonical).value)
  {
    GetProper(canonical.fields, "rule");
    var rule := Get(canonical.fields, "rule");
    GetProper(rule.fields, "family");
    GetProper(rule.fields, "table");
    GetProper(rule.fields, "chain");
  }

  lemma {:induction false} RulesProper(retained: seq<Json>, key: string)
    requires AllProper(retained)
    ensures AllProper(RulesUnder(retained, key))
    decreases |retained|
  {
    if retained != [] {
      RulesProper(retained[..|retained| - 1], key);
    }
  }

  lemma {:induction false} GroupProper(retained: seq<Json>, key: string)
    requires AllProper(retained)
    ensures Proper(Group(retained, key))
  {
    hide RulesUnder;
    RulesProper(retained, key);
    assert Before("identity", "rules");
    var fields := [Field("identity", Str(key)), Field("rules", Arr(RulesUnder(retained, key)))];
    assert KeysSorted(fields);
  }

  lemma {:induction false} SemanticProper(retained: seq<Json>)
    requires AllProper(retained)
    ensures Proper(SemanticValue(retained))
  {
    hide Group, NonRuleTexts, ChainKeys, Sort;
    var keys := Sort(ChainKeys(retained));
    forall i | 0 <= i < |keys| ensures Proper(Group(retained, keys[i])) {
      GroupProper(retained, keys[i]);
    }
    assert "non_rules"[0] == 'n' && "rule_groups"[0] == 'r';
    assert Before("non_rules", "rule_groups");
    var v := SemanticValue(retained);
    assert KeysSorted(v.fields);
    assert v.fields[1].value == Arr(Groups(retained, keys));
    ArrProper(Groups(retained, keys));
    assert Proper(v.fields[0].value) && Proper(v.fields[1].value);
  }

  // ----- chains -----

  lemma {:induction false} KeyListed(retained: seq<Json>, key: string)
    ensures key in ChainKeys(retained) <==> RulesUnder(retained, key) != []
    decreases |retained|
  {
    hide Encode, RuleIdentity;
    if retained != [] {
      KeyListed(retained[..|retained| - 1], key);
    }
  }

  lemma {:induction false} KeysDistinct(retained: seq<Json>)
    ensures Distinct(ChainKeys(retained))
    decreases |retained|
  {
    hide Encode, RuleIdentity;
    if retained != [] {
      KeysDistinct(retained[..|retained| - 1]);
    }
  }

  lemma {:induction false} DistinctCounts(ss: seq<string>, s: string)
    requires Distinct(ss)
    ensures multiset(ss)[s] == if s in ss then 1 else 0
    decreases |ss|
  {
    if ss != [] {
      assert ss == [ss[0]] + ss[1..];
      DistinctCounts(ss[1..], s);
      assert ss[0] !in ss[1..];
    }
  }

  /** Every listed key is the text of the identity of a rule in the list. */
  lemma {:induction false} KeyHasIdentity(retained: seq<Json>, key: string) returns (id: Json)
    requires AllProper(retained) && key in ChainKeys(retained)
    ensures Proper(id) && Encode(id) == key
    decreases |retained|
  {
    hide Encode, RuleIdentity;
    var n := |retained| - 1;
    if key in ChainKeys(retained[..n]) {
      id := KeyHasIdentity(retained[..n], key);
    } else {
      id := RuleIdentity(retained[n]).value;
      IdentityProper(retained[n]);
    }
  }

  /** The rules of the chain with the given family, table and chain name. */
  ghost function RulesOf(retained: seq<Json>, id: Json): seq<Json> {
    if retained == [] then []
    else
      var n := |retained| - 1;
      RulesOf(retained[..n], id) + if RuleIdentity(retained[n]) == Some(id) then [retained[n]] else []
  }

  lemma {:induction false} RulesByText(retained: seq<Json>, id: Json)
    requires AllProper(retained) && Proper(id)
    ensures RulesOf(retained, id) == RulesUnder(retained, Encode(id))
    decreases |retained|
  {
    hide Encode, RuleIdentity, Proper;
    if retained != [] {
      var n := |retained| - 1;
      RulesByText(retained[..n], id);
      var other := RuleIdentity(retained[n]);
      if other.Some? && Encode(other.value) == Encode(id) {
        IdentityProper(retained[n]);
        EncodeInjective(other.value, id);
      }
    }
  }

  // ----- entries that are no rules -----

  ghost function NonRules(retained: seq<Json>): seq<Json> {
    if retained == [] then []
    else
      var n := |retained| - 1;
      NonRules(retained[..n]) + if RuleIdentity(retained[n]).None? then [retained[n]] else []
  }

  ghost function EncodeAll(js: seq<Json>): seq<string> {
    if js == [] then [] else EncodeAll(js[..|js| - 1]) + [Encode(js[|js| - 1])]
  }

  lemma {:induction false} EncodeAllSnoc(js: seq<Json>, j: Json)
    ensures EncodeAll(js + [j]) == EncodeAll(js) + [Encode(j)]
  {
    assert (js + [j])[..|js|] == js;
  }

  lemma {:induction false} NonRulesEncoded(retained: seq<Json>)
    requires AllProper(retained)
    ensures NonRuleTexts(retained) == EncodeAll(NonRules(retained)) && AllProper(NonRules(retained))
    decreases |retained|
  {
    hide Encode, RuleIdentity, Proper;
    if retained != [] {
      var n := |retained| - 1;
      NonRulesEncoded(retained[..n]);
      EncodeAllSnoc(NonRules(retained[..n]), retained[n]);
      assert NonRules(retained[..n]) + [] == NonRules(retained[..n]);
    }
  }

  lemma {:induction false} EncodeAllCount(js: seq<Json>, j: Json)
    requires AllProper(js) && Proper(j)
    ensures multiset(EncodeAll(js))[Encode(j)] == multiset(js)[j]
    decreases |js|
  {
    hide Encode, Proper;
    if js != [] {
      var n := |js| - 1;
      assert js == js[..n] + [js[n]];
      EncodeAllCount(js[..n], j);
      if Encode(js[n]) == Encode(j) {
        EncodeInjective(js[n], j);
      }
    }
  }

  lemma {:induction false} EncodedMember(js: seq<Json>, s: string) returns (j: Json)
    requires AllProper(js) && s in EncodeAll(js)
    ensures Proper(j) && Encode(j) == s
    decreases |js|
  {
    hide Encode, Proper;
    var n := |js| - 1;
    if s == Encode(js[n]) {
      j := js[n];
    } else {
      j := EncodedMember(js[..n], s);
    }
  }

  /** Because texts determine values, counting texts is counting values. */
  lemma {:induction false} EncodeAllEqualIff(a: seq<Json>, b: seq<Json>)
    requires AllProper(a) && AllProper(b)
    ensures multiset(EncodeAll(a)) == multiset(EncodeAll(b)) <==> multiset(a) == multiset(b)
  {
    hide Encode, Proper, EncodeAll;
    var ta, tb := multiset(EncodeAll(a)), multiset(EncodeAll(b));
    if ta == tb {
      forall j ensures multiset(a)[j] == multiset(b)[j] {
        if j in a || j in b {
          EncodeAllCount(a, j);
          EncodeAllCount(b, j);
        } else {
          assert j !in multiset(a) && j !in multiset(b);
        }
      }
    }
    if multiset(a) == multiset(b) {
      forall s ensures ta[s] == tb[s] {
        if s in EncodeAll(a) || s in EncodeAll(b) {
          var j;
          if s in EncodeAll(a) {
            j := EncodedMember(a, s);
          } else {
            j := EncodedMember(b, s);
          }
          EncodeAllCount(a, j);
          EncodeAllCount(b, j);
        } else {
          assert s !in ta && s !in tb;
        }
      }
    }
  }

  // ----- the theorem -----

  /** The same things that are no rules, and the same rules in the same order in
      each chain. */
  ghost predicate SameTopology(a: seq<Json>, b: seq<Json>) {
    && multiset(NonRules(a)) == multiset(NonRules(b))
    && forall id :: Proper(id) ==> RulesOf(a, id) == RulesOf(b, id)
  }

  lemma {:induction false} EqualTextsShareChains(a: seq<Json>, b: seq<Json>, key: string)
    requires SemanticValue(a) == SemanticValue(b)
    ensures RulesUnder(a, key) == RulesUnder(b, key)
  {
    hide Sort, ChainKeys, NonRuleTexts, RulesUnder;
    var ka, kb := Sort(ChainKeys(a)), Sort(ChainKeys(b));
    var ga, gb := Groups(a, ka), Groups(b, kb);
    assert SemanticValue(a).fields[1].value == Arr(ga) && SemanticValue(b).fields[1].value == Arr(gb);
    assert ga == gb;
    forall i | 0 <= i < |ka| ensures ka[i] == kb[i] && RulesUnder(a, ka[i]) == RulesUnder(b, kb[i]) {
      assert ga[i] == Group(a, ka[i]) && gb[i] == Group(b, kb[i]);
      assert Group(a, ka[i]).fields[0] == Group(b, kb[i]).fields[0];
      assert Group(a, ka[i]).fields[1] == Group(b, kb[i]).fields[1];
    }
    assert ka == kb;
    KeyListed(a, key);
    KeyListed(b, key);
    MembersOf(ka, ChainKeys(a), key);
    MembersOf(kb, ChainKeys(b), key);
  }

  lemma {:induction false} EqualTextsShareNonRules(a: seq<Json>, b: seq<Json>)
    requires SemanticValue(a) == SemanticValue(b)
    ensures Sort(NonRuleTexts(a)) == Sort(NonRuleTexts(b))
  {
    hide Sort, ChainKeys, NonRuleTexts, RulesUnder;
    var na, nb := Sort(NonRuleTexts(a)), Sort(NonRuleTexts(b));
    assert SemanticValue(a).fields[0].value == Arr(Texts(na)) && SemanticValue(b).fields[0].value == Arr(Texts(nb));
    assert Texts(na) == Texts(nb);
    forall i | 0 <= i < |na| ensures na[i] == nb[i] {
      assert Texts(na)[i] == Str(na[i]) && Texts(nb)[i] == Str(nb[i]);
    }
  }

  lemma {:induction false} SameChainsSameKeys(a: seq<Json>, b: seq<Json>)
    requires AllProper(a) && AllProper(b)
    requires forall id :: Proper(id) ==> RulesOf(a, id) == RulesOf(b, id)
    ensures multiset(ChainKeys(a)) == multiset(ChainKeys(b))
    ensures forall key :: key in ChainKeys(a) ==> RulesUnder(a, key) == RulesUnder(b, key)
  {
    hide Encode, RulesUnder, RulesOf, ChainKeys, Proper;
    KeysDistinct(a);
    KeysDistinct(b);
    forall key ensures multiset(ChainKeys(a))[key] == multiset(ChainKeys(b))[key]
      ensures key in ChainKeys(a) ==> RulesUnder(a, key) == RulesUnder(b, key)
    {
      DistinctCounts(ChainKeys(a), key);
      DistinctCounts(ChainKeys(b), key);
      if key in ChainKeys(a) || key in ChainKeys(b) {
        var id;
        if key in ChainKeys(a) {
          id := KeyHasIdentity(a, key);
        } else {
          id := KeyHasIdentity(b, key);
        }
        RulesByText(a, id);
        RulesByText(b, id);
        KeyListed(a, key);
        KeyListed(b, key);
      }
    }
  }

  /** Two rulesets have the same semantic identity exactly when they hold the same
      entries that are no rules, in any order, and every chain has the same rules in
      the same order. */
  lemma {:induction false} SemanticIdentity(a: seq<Json>, b: seq<Json>)
    requires AllProper(a) && AllProper(b)
    ensures SemanticText(a) == SemanticText(b) <==> SameTopology(a, b)
  {
    hide Encode, Proper, Sort, NonRuleTexts, ChainKeys, RulesUnder, RulesOf, EncodeAll, NonRules;
    NonRulesEncoded(a);
    NonRulesEncoded(b);
    EncodeAllEqualIff(NonRules(a), NonRules(b));
    SortEqualIff(NonRuleTexts(a), NonRuleTexts(b));
    SemanticProper(a);
    SemanticProper(b);
    if SemanticText(a) == SemanticText(b) {
      EncodeInjective(SemanticValue(a), SemanticValue(b));
      EqualTextsShareNonRules(a, b);
      forall id | Proper(id) ensures RulesOf(a, id) == RulesOf(b, id) {
        EqualTextsShareChains(a, b, Encode(id));
        RulesByText(a, id);
        RulesByText(b, id);
      }
    }
    if SameTopology(a, b) {
      SameChainsSameKeys(a, b);
      SortEqualIff(ChainKeys(a), ChainKeys(b));
      var keys := Sort(ChainKeys(a));
      forall i | 0 <= i < |keys| ensures Group(a, keys[i]) == Group(b, keys[i]) {
        MembersOf(keys, ChainKeys(a), keys[i]);
      }
      assert Groups(a, keys) == Groups(b, keys);
      assert SemanticValue(a) == SemanticValue(b);
    }
  }

  /** The strict identity is the retained list itself, so it implies the semantic one. */
  lemma {:induction false} StrictIdentity(a: seq<Json>, b: seq<Json>)
    requires AllProper(a) && AllProper(b)
    ensures CanonicalText(a) == CanonicalText(b) <==> a == b
    ensures CanonicalText(a) == CanonicalText(b) ==> SemanticText(a) == SemanticText(b)
  {
    if CanonicalText(a) == CanonicalText(b) {
      EncodeInjective(Arr(a), Arr(b));
    }
  }

  // ----- the programs -----

  /** `canonical_snapshot` */
  method CanonicalSnapshot(entries: seq<Entry>, exclude: Option<string>)
    returns (text: string, counts: map<string, nat>)
    ensures text == CanonicalText(Retained(entries, exclude))
    ensures counts == KindCounts(entries, exclude)
  {
    var retained: seq<Json> := [];
    counts := map[];
    for i := 0 to |entries|
      invariant retained == Retained(entries[..i], exclude)
      invariant counts == KindCounts(entries[..i], exclude)
    {
      assert entries[..i + 1][..i] == entries[..i];
      var entry := entries[i];
      if HasKey(entry, "metainfo") {
        continue;
      }
      if exclude.Some? && exclude.value != "" && BelongsTo(entry, exclude.value) {
        continue;
      }
      retained := retained + [Canonicalize(Obj(entry))];
      ghost var before := counts;
      for k := 0 to |entry|
        invariant counts == CountKinds(before, entry[..k])
      {
        assert entry[..k + 1][..k] == entry[..k];
        var kind := entry[k].key;
        counts := counts[kind := (if kind in counts then counts[kind] else 0) + 1];
      }
      assert entry[..|entry|] == entry;
    }
    assert entries[..|entries|] == entries;
    text := CanonicalText(retained);
  }

  /** One more canonical entry for the two collections of the semantic snapshot. */
  lemma {:induction false} OneMoreEntry(retained: seq<Json>, canonical: Json, key: string)
    ensures NonRuleTexts(retained + [canonical])
      == NonRuleTexts(retained) + if RuleIdentity(canonical).None? then [Encode(canonical)] else []
    ensures RulesUnder(retained + [canonical], key)
      == RulesUnder(retained, key) + if IsRuleOf(canonical, key) then [canonical] else []
    ensures var id := RuleIdentity(canonical);
      ChainKeys(retained + [canonical])
      == if id.Some? && Encode(id.value) !in ChainKeys(retained) then ChainKeys(retained) + [Encode(id.value)]
         else ChainKeys(retained)
  {
    assert (retained + [canonical])[..|retained|] == retained;
  }

  /** The dictionary of rules by chain: its keys in insertion order, and its lists. */
  ghost predicate GroupsHold(groups: map<string, seq<Json>>, order: seq<string>, retained: seq<Json>) {
    && order == ChainKeys(retained)
    && (forall key :: key in groups <==> key in order)
    && forall key :: key in groups ==> groups[key] == RulesUnder(retained, key)
  }

  /** `rule_groups.setdefault(key, []).append(canonical)`, or one more non-rule. */
  method FileEntry(
      nonRules: seq<string>, groups: map<string, seq<Json>>, order: seq<string>, canonical: Json,
      ghost retained: seq<Json>)
    returns (nonRules': seq<string>, groups': map<string, seq<Json>>, order': seq<string>)
    requires nonRules == NonRuleTexts(retained) && GroupsHold(groups, order, retained)
    ensures nonRules' == NonRuleTexts(retained + [canonical])
    ensures GroupsHold(groups', order', retained + [canonical])
  {
    hide NonRuleTexts, RulesUnder, ChainKeys, Encode, RuleIdentity;
    forall key ensures RulesUnder(retained + [canonical], key)
      == RulesUnder(retained, key) + if IsRuleOf(canonical, key) then [canonical] else []
    {
      OneMoreEntry(retained, canonical, key);
    }
    OneMoreEntry(retained, canonical, "");
    var id := RuleIdentity(canonical);
    nonRules', groups', order' := nonRules, groups, order;
    if id.Some? {
      var key := Encode(id.value);
      KeyListed(retained, key);
      if key !in groups {
        groups', order' := groups[key := []], order + [key];
      }
      groups' := groups'[key := groups'[key] + [canonical]];
    } else {
      nonRules' := nonRules + [Encode(canonical)];
    }
  }

  /** The sorted, grouped value both programs digest. */
  method Normalized(nonRules: seq<string>, groups: map<string, seq<Json>>, order: seq<string>, ghost retained: seq<Json>)
    returns (text: string)
    requires nonRules == NonRuleTexts(retained) && GroupsHold(groups, order, retained)
    ensures text == SemanticText(retained)
  {
    hide NonRuleTexts, RulesUnder, ChainKeys, Encode, Sort;
    var keys := Sort(order);
    var listed: seq<Json> := [];
    for i := 0 to |keys|
      invariant |listed| == i && forall k :: 0 <= k < i ==> listed[k] == Group(retained, keys[k])
    {
      MembersOf(keys, order, keys[i]);
      listed := listed + [Obj([Field("identity", Str(keys[i])), Field("rules", Arr(groups[keys[i]]))])];
    }
    assert listed == Groups(retained, keys);
    text := Encode(Obj([Field("non_rules", Arr(Texts(Sort(nonRules)))), Field("rule_groups", Arr(listed))]));
  }

  /** `semantic_snapshot` of the boundary */
  method SemanticSnapshot(entries: seq<Entry>, exclude: Option<string>) returns (text: string)
    ensures text == SemanticText(Retained(entries, exclude))
  {
    hide NonRuleTexts, RulesUnder, ChainKeys, Encode;
    var nonRules: seq<string>, groups: map<string, seq<Json>>, order: seq<string> := [], map[], [];
    EmptyCollections();
    for i := 0 to |entries|
      invariant nonRules == NonRuleTexts(Retained(entries[..i], exclude))
      invariant GroupsHold(groups, order, Retained(entries[..i], exclude))
    {
      assert entries[..i + 1][..i] == entries[..i];
      var entry := entries[i];
      ghost var retained := Retained(entries[..i], exclude);
      if Kept(entry, exclude) {
        nonRules, groups, order := FileEntry(nonRules, groups, order, Canonicalize(Obj(entry)), retained);
      } else {
        assert retained + [] == retained;
      }
    }
    assert entries[..|entries|] == entries;
    text := Normalized(nonRules, groups, order, Retained(entries, exclude));
  }

  lemma {:induction false} EmptyCollections()
    ensures NonRuleTexts([]) == [] && GroupsHold(map[], [], [])
  {
  }

  /** `firewall_snapshot_from_json` of the probe: it lists the canonical entries
      first and sorts that list out afterwards. It agrees with the boundary's two
      functions when no table is excluded, because all three results are the same
      functions of the same list. */
  method ProbeSnapshot(entries: seq<Entry>) returns (strict: string, semantic: string, counts: map<string, nat>)
    ensures strict == CanonicalText(Retained(entries, None))
    ensures semantic == SemanticText(Retained(entries, None))
    ensures counts == KindCounts(entries, None)
  {
    hide NonRuleTexts, RulesUnder, ChainKeys, Encode;
    var retained: seq<Json> := [];
    counts := map[];
    for i := 0 to |entries|
      invariant retained == Retained(entries[..i], None)
      invariant counts == KindCounts(entries[..i], None)
    {
      assert entries[..i + 1][..i] == entries[..i];
      if !HasKey(entries[i], "metainfo") {
        retained := retained + [Canonicalize(Obj(entries[i]))];
        counts := CountKinds(counts, entries[i]);
      }
    }
    assert entries[..|entries|] == entries;
    strict := CanonicalText(retained);
    var nonRules: seq<string>, groups: map<string, seq<Json>>, order: seq<string> := [], map[], [];
    EmptyCollections();
    for i := 0 to |retained|
      invariant nonRules == NonRuleTexts(retained[..i])
      invariant GroupsHold(groups, order, retained[..i])
    {
      assert retained[..i + 1] == retained[..i] + [retained[i]];
      nonRules, groups, order := FileEntry(nonRules, groups, order, retained[i], retained[..i]);
    }
    assert retained[..|retained|] == retained;
    semantic := Normalized(nonRules, groups, order, retained);
  }

  /** Both identities of two rulesets, as the methods compute them. */
  lemma {:induction false} RulesetIdentities(a: seq<Entry>, b: seq<Entry>, exclude: Option<string>)
    requires ProperEntries(a) && ProperEntries(b)
    ensures var ra, rb := Retained(a, exclude), Retained(b, exclude);
      && (CanonicalText(ra) == CanonicalText(rb) <==> ra == rb)
      && (SemanticText(ra) == SemanticText(rb) <==> SameTopology(ra, rb))
      && (CanonicalText(ra) == CanonicalText(rb) ==> SemanticText(ra) == SemanticText(rb))
  {
    hide Encode, Retained;
    RetainedProper(a, exclude);
    RetainedProper(b, exclude);
    StrictIdentity(Retained(a, exclude), Retained(b, exclude));
    SemanticIdentity(Retained(a, exclude), Retained(b, exclude));
  }
}
