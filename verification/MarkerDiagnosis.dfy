/** The diagnosis of the marker rules: the first difference, or none at all. */
module MarkerDiagnosis {
  import opened Wrappers
  import opened JsonText
  import opened FirewallSnapshot
  import opened Redaction
  import opened MarkerRules

  datatype Class =
    | MatchedShape | UnsupportedStructure | RuleType | RuleCount | RuleOrder | RuleKeys | RuleIdentity
    | ExpressionCollectionType | ExpressionCount | ExpressionOrder | ExpressionType | ExpressionKeys
    | ExpressionKindOrOrder | UnexpectedVerdictOrAction | MatchKeys | MatchOperator | SelectorType
    | SelectorKindOrKeys | SelectorIdentity | RightValueType | RightValueIdentity | CounterReferenceShape
    | CounterReferenceKeys | CounterDynamicFields | CounterReferenceIdentity

  datatype Kind = MatchKind | CounterKind | ActionKind | UnknownKind | MultipleKind | NonObject | NoKind

  const ACTION_KEYS := {"accept", "drop", "reject", "jump", "goto", "return", "queue", "masq", "snat", "dnat"}

  /** `_marker_expression_kind` */
  function KindOf(j: Json): Kind {
    if !j.Obj? then NonObject
    else if |j.fields| != 1 then (if j.fields == [] then UnknownKind else MultipleKind)
    else if j.fields[0].key == "match" then MatchKind
    else if j.fields[0].key == "counter" then CounterKind
    else if j.fields[0].key in ACTION_KEYS then ActionKind
    else UnknownKind
  }

  /** `_literal_type_class`, for the comparison of two values. */
  predicate SameType(a: Json, b: Json) {
    && a.Null? == b.Null? && a.Bool? == b.Bool? && a.Int? == b.Int? && a.Float? == b.Float?
    && a.Str? == b.Str? && a.Arr? == b.Arr? && a.Obj? == b.Obj?
  }

  predicate HasAction(fields: seq<Field>) {
    exists i :: 0 <= i < |fields| && fields[i].key in ACTION_KEYS
  }

  function MatchMismatch(e: Json, o: Json): Option<Class>
    requires e.Obj? && Keys(e.fields) == MATCH_KEYS
    requires e.fields[0].value.Obj? && |e.fields[0].value.fields| == 1 && e.fields[0].value.fields[0].value.Obj?
  {
    if !o.Obj? || Keys(o.fields) != MATCH_KEYS then Some(MatchKeys)
    else if o.fields[1].value != e.fields[1].value then Some(MatchOperator)
    else
      var left, seen := e.fields[0].value, o.fields[0].value;
      if !seen.Obj? then Some(SelectorType)
      else if Keys(seen.fields) != Keys(left.fields) then Some(SelectorKindOrKeys)
      else
        var selector, found := left.fields[0].value, seen.fields[0].value;
        if !found.Obj? then Some(SelectorType)
        else if Keys(found.fields) != Keys(selector.fields) then Some(SelectorKindOrKeys)
        else if found != selector then Some(SelectorIdentity)
        else if !SameType(o.fields[2].value, e.fields[2].value) then Some(RightValueType)
        else if o.fields[2].value != e.fields[2].value then Some(RightValueIdentity)
        else None
  }

  function CounterMismatch(e: Json, o: Json): Option<Class> {
    if o.Obj? then
      if HasKey(o.fields, "packets") || HasKey(o.fields, "bytes") then Some(CounterDynamicFields)
      else if Keys(o.fields) != ["name"] then Some(CounterReferenceKeys)
      else Some(CounterReferenceShape)
    else if !o.Str? then Some(CounterReferenceShape)
    else if o != e then Some(CounterReferenceIdentity)
    else None
  }

  /** How an observed expression differs from the expected one. */
  function ExprMismatch(e: Json, o: Json): Option<Class>
    requires IsExpected(e)
  {
    if !o.Obj? then Some(ExpressionType)
    else if HasAction(o.fields) then Some(UnexpectedVerdictOrAction)
    else if |o.fields| != 1 then Some(ExpressionKeys)
    else if KindOf(o) != KindOf(e) then Some(ExpressionKindOrOrder)
    else if e.fields[0].key == "match" then MatchMismatch(e.fields[0].value, o.fields[0].value)
    else CounterMismatch(e.fields[0].value, o.fields[0].value)
  }

  /** No difference is found exactly between equal expressions. */
  lemma {:induction false} NoMismatchIffEqual(e: Json, o: Json)
    requires IsExpected(e)
    ensures ExprMismatch(e, o) == None <==> o == e
  {
    ExpectedShapeOf(e);
    if ExprMismatch(e, o) == None {
      assert o.fields == [o.fields[0]] && e.fields == [e.fields[0]];
      if e.fields[0].key == "match" {
        MatchesAreEqual(e.fields[0].value, o.fields[0].value);
      }
    }
  }

  lemma {:induction false} ExpectedShapeOf(e: Json)
    requires IsExpected(e)
    ensures e.Obj? && |e.fields| == 1 && !HasAction(e.fields)
    ensures e.fields[0].key == "match" || (e.fields[0].key == "counter" && e.fields[0].value.Str?)
  {
  }

  lemma {:induction false} MatchesAreEqual(e: Json, o: Json)
    requires e.Obj? && Keys(e.fields) == MATCH_KEYS
    requires e.fields[0].value.Obj? && |e.fields[0].value.fields| == 1 && e.fields[0].value.fields[0].value.Obj?
    requires MatchMismatch(e, o) == None
    ensures o == e
  {
    var left, seen := e.fields[0].value, o.fields[0].value;
    assert Keys(seen.fields)[0] == Keys(left.fields)[0];
    assert seen.fields == [seen.fields[0]] && left.fields == [left.fields[0]];
    assert forall i :: 0 <= i < 3 ==> Keys(o.fields)[i] == Keys(e.fields)[i];
    assert o.fields == [o.fields[0], o.fields[1], o.fields[2]] && e.fields == [e.fields[0], e.fields[1], e.fields[2]];
  }

  // ----- one rule -----

  datatype Finding = Finding(
    class_: Class, chain: Option<Chain>, rule: nat, expression: nat, expectedKind: Kind, observedKind: Kind,
    expectedCount: nat, observedCount: nat)

  function At(class_: Class, c: Chain, i: nat): Finding {
    Finding(class_, Some(c), i + 1, 0, NoKind, NoKind, 0, 0)
  }

  predicate SameItems(a: seq<Json>, b: seq<Json>) {
    multiset(a) == multiset(b)
  }

  /** What a finding about rule `i` of a chain says; expressions before the one named in
      it are equal to the expected ones. */
  ghost predicate Explains(table: string, c: Chain, expected: seq<seq<Json>>, i: nat, rule: Json, f: Finding)
    requires i < |expected| && AllExpected(expected[i])
  {
    var items := Exprs(rule);
    && f.chain == Some(c) && f.rule == i + 1 && !RuleMatches(rule, table, c, expected[i])
    && match f.class_
       case RuleType => f == At(RuleType, c, i) && !rule.Obj?
       case RuleKeys =>
         && f == At(RuleKeys, c, i) && rule.Obj?
         && Keys(rule.fields) != RULE_KEYS && Keys(rule.fields) != RULE_KEYS_WITH_HANDLE
       case RuleIdentity =>
         && f == At(RuleIdentity, c, i) && rule.Obj?
         && !(Get(rule.fields, "family") == Str("inet") && Get(rule.fields, "table") == Str(table)
              && Get(rule.fields, "chain") == Str(ChainName(c)))
       case RuleOrder =>
         && f == At(RuleOrder, c, i) && items.Arr? && items.items != expected[i]
         && exists k :: 0 <= k < |expected| && k != i && items.items == expected[k]
       case ExpressionCollectionType =>
         f == At(ExpressionCollectionType, c, i).(expectedCount := |expected[i]|) && !items.Arr?
       case ExpressionCount =>
         && items.Arr? && |items.items| != |expected[i]|
         && f == At(ExpressionCount, c, i).(expectedCount := |expected[i]|, observedCount := |items.items|)
       case ExpressionOrder =>
         && items.Arr? && items.items != expected[i] && SameItems(items.items, expected[i])
         && f == At(ExpressionOrder, c, i).(expectedCount := |expected[i]|, observedCount := |items.items|)
       case class_ =>
         && items.Arr? && |items.items| == |expected[i]| && 1 <= f.expression <= |expected[i]|
         && var k := f.expression - 1;
           && expected[i][..k] == items.items[..k]
           && ExprMismatch(expected[i][k], items.items[k]) == Some(class_)
           && f == Finding(class_, Some(c), i + 1, f.expression, KindOf(expected[i][k]), KindOf(items.items[k]),
                |expected[i]|, |items.items|)
  }

  /** The checks on one rule, in order. */
  method DiagnoseRule(table: string, c: Chain, expected: seq<seq<Json>>, i: nat, rule: Json) returns (f: Option<Finding>)
    requires i < |expected| && AllExpected(expected[i])
    ensures f == None <==> RuleMatches(rule, table, c, expected[i])
    ensures f.Some? ==> Explains(table, c, expected, i, rule, f.value)
  {
    if !rule.Obj? {
      return Some(At(RuleType, c, i));
    }
    if Keys(rule.fields) != RULE_KEYS && Keys(rule.fields) != RULE_KEYS_WITH_HANDLE {
      return Some(At(RuleKeys, c, i));
    }
    if Get(rule.fields, "family") != Str("inet") || Get(rule.fields, "table") != Str(table)
       || Get(rule.fields, "chain") != Str(ChainName(c)) {
      return Some(At(RuleIdentity, c, i));
    }
    hide Get, Keys, ChainName;
    var items, wanted := Exprs(rule), expected[i];
    assert RuleMatches(rule, table, c, wanted) <==> items == Arr(wanted);
    if items.Arr? && items.items != wanted
       && (exists k | 0 <= k < |expected| :: k != i && items.items == expected[k]) {
      return Some(At(RuleOrder, c, i));
    }
    f := DiagnoseExpressions(c, i, wanted, items);
    if f.Some? {
      assert Explains(table, c, expected, i, rule, f.value);
    }
  }

  /** What a finding about the expressions says. */
  ghost predicate ExpressionsDiffer(c: Chain, i: nat, wanted: seq<Json>, items: Json, f: Finding)
    requires AllExpected(wanted)
  {
    && f.chain == Some(c) && f.rule == i + 1 && items != Arr(wanted)
    && match f.class_
       case ExpressionCollectionType =>
         f == At(ExpressionCollectionType, c, i).(expectedCount := |wanted|) && !items.Arr?
       case ExpressionCount =>
         && items.Arr? && |items.items| != |wanted|
         && f == At(ExpressionCount, c, i).(expectedCount := |wanted|, observedCount := |items.items|)
       case ExpressionOrder =>
         && items.Arr? && items.items != wanted && SameItems(items.items, wanted)
         && f == At(ExpressionOrder, c, i).(expectedCount := |wanted|, observedCount := |items.items|)
       case class_ =>
         && items.Arr? && |items.items| == |wanted| && 1 <= f.expression <= |wanted|
         && var k := f.expression - 1;
           && wanted[..k] == items.items[..k]
           && ExprMismatch(wanted[k], items.items[k]) == Some(class_)
           && f == Finding(class_, Some(c), i + 1, f.expression, KindOf(wanted[k]), KindOf(items.items[k]),
                |wanted|, |items.items|)
  }

  predicate IsExpressionClass(class_: Class) {
    class_ !in {RuleType, RuleKeys, RuleIdentity, RuleOrder, RuleCount, MatchedShape, UnsupportedStructure,
      ExpressionCollectionType, ExpressionCount, ExpressionOrder}
  }

  lemma {:induction false} MismatchClass(e: Json, o: Json)
    requires IsExpected(e)
    ensures ExprMismatch(e, o).Some? ==> IsExpressionClass(ExprMismatch(e, o).value)
  {
  }

  method DiagnoseExpressions(c: Chain, i: nat, wanted: seq<Json>, items: Json) returns (f: Option<Finding>)
    requires AllExpected(wanted)
    ensures f == None <==> items == Arr(wanted)
    ensures f.Some? ==> ExpressionsDiffer(c, i, wanted, items, f.value)
    ensures f.Some? ==> f.value.class_ !in {RuleType, RuleKeys, RuleIdentity, RuleOrder}
  {
    hide ExprMismatch, KindOf, IsExpected, SameItems;
    if !items.Arr? {
      return Some(At(ExpressionCollectionType, c, i).(expectedCount := |wanted|));
    }
    var seen := items.items;
    if |seen| != |wanted| {
      return Some(At(ExpressionCount, c, i).(expectedCount := |wanted|, observedCount := |seen|));
    }
    if seen != wanted && SameItems(seen, wanted) {
      return Some(At(ExpressionOrder, c, i).(expectedCount := |wanted|, observedCount := |seen|));
    }
    var k, class_ := FirstDifference(wanted, seen);
    if class_.Some? {
      return Some(Finding(class_.value, Some(c), i + 1, k + 1, KindOf(wanted[k]), KindOf(seen[k]), |wanted|, |seen|));
    }
    return None;
  }

  method FirstDifference(wanted: seq<Json>, seen: seq<Json>) returns (k: nat, class_: Option<Class>)
    requires AllExpected(wanted) && |seen| == |wanted|
    ensures class_ == None <==> seen == wanted
    ensures class_.Some? ==>
      && k < |wanted| && wanted[..k] == seen[..k]
      && ExprMismatch(wanted[k], seen[k]) == class_ && IsExpressionClass(class_.value)
  {
    hide ExprMismatch, IsExpected, IsExpressionClass;
    for n := 0 to |wanted|
      invariant wanted[..n] == seen[..n]
    {
      assert IsExpected(wanted[n]);
      NoMismatchIffEqual(wanted[n], seen[n]);
      MismatchClass(wanted[n], seen[n]);
      class_ := ExprMismatch(wanted[n], seen[n]);
      if class_.Some? {
        return n, class_;
      }
    }
    assert wanted[..|wanted|] == wanted && seen[..|seen|] == seen;
    return 0, None;
  }
}
