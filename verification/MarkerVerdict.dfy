/** The whole diagnosis: which rules it looks at, what it reports, and what that means. */
module MarkerVerdict {
  import opened Wrappers
  import opened JsonText
  import opened FirewallSnapshot
  import opened Redaction
  import opened MarkerRules
  import opened MarkerDiagnosis

  // ----- the rules looked at -----

  /** What one pass over the listing collects.  It stops at the first malformed entry;
      a null entry stops it as well, but is not told from no malformed entry at all. */
  datatype Scan =
    | Scanned(input: seq<Json>, forward: seq<Json>, output: seq<Json>, stopped: bool, malformed: Json)
    | TypeError

  const NOTHING_SEEN := Scanned([], [], [], false, Null)

  function ScannedRules(s: Scan, c: Chain): seq<Json>
    requires s.Scanned?
  {
    match c
    case InputChain => s.input
    case ForwardChain => s.forward
    case OutputChain => s.output
  }

  function AddRule(s: Scan, c: Chain, rule: Json): Scan
    requires s.Scanned?
  {
    match c
    case InputChain => s.(input := s.input + [rule])
    case ForwardChain => s.(forward := s.forward + [rule])
    case OutputChain => s.(output := s.output + [rule])
  }

  function RuleIn(entry: Json): Json {
    if entry.Obj? then Get(entry.fields, "rule") else Null
  }

  /** The entry that ends the pass, and what is kept of it. */
  predicate Stops(entry: Json) {
    !entry.Obj? || (!RuleIn(entry).Null? && !RuleIn(entry).Obj? && Keys(entry.fields) == ["rule"])
  }

  function Offender(entry: Json): Json {
    if entry.Obj? then RuleIn(entry) else entry
  }

  predicate InTable(entry: Json, table: string) {
    RuleIn(entry).Obj? && Get(RuleIn(entry).fields, "table") == Str(table)
  }

  predicate IsMarkerRule(entry: Json, table: string, c: Chain) {
    InTable(entry, table) && Get(RuleIn(entry).fields, "chain") == Str(ChainName(c))
  }

  /** A chain that cannot be looked up in a dictionary raises. */
  predicate Raises(entry: Json, table: string) {
    InTable(entry, table)
    && (Get(RuleIn(entry).fields, "chain").Arr? || Get(RuleIn(entry).fields, "chain").Obj?)
  }

  /** The marker rules of one chain among the entries, in order. */
  function MarkerRulesIn(entries: seq<Json>, table: string, c: Chain): seq<Json> {
    if entries == [] then []
    else
      var n := |entries| - 1;
      MarkerRulesIn(entries[..n], table, c) + if IsMarkerRule(entries[n], table, c) then [RuleIn(entries[n])] else []
  }

  /** The entries before the first one that stops the pass. */
  function UpToStop(entries: seq<Json>): (r: seq<Json>)
    ensures r <= entries && (forall i :: 0 <= i < |r| ==> !Stops(r[i]))
    ensures |r| < |entries| ==> Stops(entries[|r|])
  {
    if entries == [] || Stops(entries[0]) then []
    else
      assert entries == [entries[0]] + entries[1..];
      [entries[0]] + UpToStop(entries[1..])
  }

  lemma {:induction false} NotStopped(entries: seq<Json>, i: nat)
    requires i < |UpToStop(entries)|
    ensures !Stops(entries[i])
  {
    assert UpToStop(entries)[i] == entries[i];
  }

  /** The rules collected so far are the marker rules among `entries`. */
  ghost predicate Collected(s: Scan, entries: seq<Json>, table: string) {
    && s.Scanned? && !s.stopped && s.malformed == Null
    && s.input == MarkerRulesIn(entries, table, InputChain)
    && s.forward == MarkerRulesIn(entries, table, ForwardChain)
    && s.output == MarkerRulesIn(entries, table, OutputChain)
  }

  lemma {:induction false} OneMore(entries: seq<Json>, entry: Json, table: string, c: Chain)
    ensures MarkerRulesIn(entries + [entry], table, c)
      == MarkerRulesIn(entries, table, c) + if IsMarkerRule(entry, table, c) then [RuleIn(entry)] else []
  {
    assert (entries + [entry])[..|entries|] == entries;
  }

  lemma {:induction false} OneChain(entry: Json, table: string, a: Chain, b: Chain)
    requires IsMarkerRule(entry, table, a) && IsMarkerRule(entry, table, b)
    ensures a == b
  {
    ChainsAreDistinct();
  }

  /** Append the entry to the list of its chain. */
  method AddEntry(s: Scan, ghost entries: seq<Json>, entry: Json, table: string) returns (t: Scan)
    requires Collected(s, entries, table)
    ensures Collected(t, entries + [entry], table)
  {
    OneMore(entries, entry, table, InputChain);
    OneMore(entries, entry, table, ForwardChain);
    OneMore(entries, entry, table, OutputChain);
    hide MarkerRulesIn, RuleIn;
    if IsMarkerRule(entry, table, InputChain) && IsMarkerRule(entry, table, ForwardChain) {
      OneChain(entry, table, InputChain, ForwardChain);
    }
    if IsMarkerRule(entry, table, InputChain) && IsMarkerRule(entry, table, OutputChain) {
      OneChain(entry, table, InputChain, OutputChain);
    }
    if IsMarkerRule(entry, table, ForwardChain) && IsMarkerRule(entry, table, OutputChain) {
      OneChain(entry, table, ForwardChain, OutputChain);
    }
    hide IsMarkerRule;
    t := s;
    if IsMarkerRule(entry, table, InputChain) {
      t := AddRule(s, InputChain, RuleIn(entry));
    } else if IsMarkerRule(entry, table, ForwardChain) {
      t := AddRule(s, ForwardChain, RuleIn(entry));
    } else if IsMarkerRule(entry, table, OutputChain) {
      t := AddRule(s, OutputChain, RuleIn(entry));
    }
  }

  /** One pass over the entries. */
  method Collect(entries: seq<Json>, table: string) returns (s: Scan)
    ensures s.TypeError? <==> exists i :: 0 <= i < |UpToStop(entries)| && Raises(entries[i], table)
    ensures s.Scanned? ==>
      && (forall c :: ScannedRules(s, c) == MarkerRulesIn(UpToStop(entries), table, c))
      && s.stopped == (|UpToStop(entries)| < |entries|)
      && s.malformed == (if s.stopped then Offender(entries[|UpToStop(entries)|]) else Null)
  {
    hide Stops, Raises, MarkerRulesIn, Offender, Collected;
    s := NOTHING_SEEN;
    ghost var before := UpToStop(entries);
    NothingCollected(table);
    for i := 0 to |entries|
      invariant i <= |before| && Collected(s, before[..i], table)
      invariant forall k :: 0 <= k < i ==> !Raises(entries[k], table)
    {
      var entry := entries[i];
      if i < |before| {
        NotStopped(entries, i);
      }
      CollectedIs(s, before[..i], table);
      if Stops(entry) {
        assert before[..i] == before;
        return s.(stopped := true, malformed := Offender(entry));
      }
      assert i < |before| by {
        assert |before| < |entries| ==> Stops(entries[|before|]);
      }
      assert before[..i + 1] == before[..i] + [entry];
      if Raises(entry, table) {
        return TypeError;
      }
      s := AddEntry(s, before[..i], entry, table);
    }
    assert before[..|entries|] == before;
    CollectedIs(s, before, table);
  }

  lemma {:induction false} CollectedIs(s: Scan, entries: seq<Json>, table: string)
    requires Collected(s, entries, table)
    ensures s.Scanned? && !s.stopped && s.malformed == Null
    ensures forall c :: ScannedRules(s, c) == MarkerRulesIn(entries, table, c)
  {
    hide MarkerRulesIn;
  }

  lemma {:induction false} NothingCollected(table: string)
    ensures Collected(NOTHING_SEEN, [], table)
  {
  }

  lemma {:induction false} ChainsAreDistinct()
    ensures forall a: Chain, b: Chain :: ChainName(a) == ChainName(b) <==> a == b
  {
    assert "canary_input"[7] == 'i' && "canary_forward"[7] == 'f' && "canary_output"[7] == 'o';
  }

  // ----- the chains in order -----

  function Position(c: Chain): nat {
    match c
    case InputChain => 0
    case ForwardChain => 1
    case OutputChain => 2
  }

  /** The first difference in chain, rule and expression order. */
  ghost predicate FirstDifferenceIs(d: MarkerIdentity, s: Scan, f: Finding)
    requires s.Scanned?
  {
    && f.chain.Some?
    && var c := f.chain.value;
      var expected, observed := ExpectedRules(d, c), ScannedRules(s, c);
      && (forall b: Chain :: Position(b) < Position(c) ==> ChainMatches(d, b, ScannedRules(s, b)))
      && (if f.class_ == RuleCount then f == At(RuleCount, c, 0).(rule := 0) && |observed| != |expected|
          else
            && |observed| == |expected| && 1 <= f.rule <= |expected|
            && (forall i :: 0 <= i < f.rule - 1 ==> RuleMatches(observed[i], d.table, c, expected[i]))
            && AllExpected(expected[f.rule - 1])
            && Explains(d.table, c, expected, f.rule - 1, observed[f.rule - 1], f))
  }

  /** Chain by chain the collected rules are the expected ones, up to their handles. */
  predicate RulesMatch(d: MarkerIdentity, s: Scan)
    requires s.Scanned?
  {
    && ChainMatches(d, InputChain, s.input) && ChainMatches(d, ForwardChain, s.forward)
    && ChainMatches(d, OutputChain, s.output)
  }

  predicate ListingMatches(d: MarkerIdentity, entries: seq<Json>) {
    && ChainMatches(d, InputChain, MarkerRulesIn(entries, d.table, InputChain))
    && ChainMatches(d, ForwardChain, MarkerRulesIn(entries, d.table, ForwardChain))
    && ChainMatches(d, OutputChain, MarkerRulesIn(entries, d.table, OutputChain))
  }

  method DiagnoseChain(d: MarkerIdentity, s: Scan, c: Chain) returns (f: Option<Finding>)
    requires s.Scanned? && forall b: Chain :: Position(b) < Position(c) ==> ChainMatches(d, b, ScannedRules(s, b))
    ensures f == None <==> ChainMatches(d, c, ScannedRules(s, c))
    ensures f.Some? ==> FirstDifferenceIs(d, s, f.value)
  {
    hide ExpectedRules, RuleMatches, Explains, AllExpected;
    var expected, observed := ExpectedRules(d, c), ScannedRules(s, c);
    if |observed| != |expected| {
      return Some(At(RuleCount, c, 0).(rule := 0));
    }
    for i := 0 to |expected|
      invariant forall k :: 0 <= k < i ==> RuleMatches(observed[k], d.table, c, expected[k])
    {
      ExpectedRulesAreExpected(d, c, i);
      f := DiagnoseRule(d.table, c, expected, i, observed[i]);
      if f.Some? {
        ExplainsIsNotCount(d.table, c, expected, i, observed[i], f.value);
        return;
      }
    }
    f := None;
  }

  lemma {:induction false} ExplainsIsNotCount(
    table: string, c: Chain, expected: seq<seq<Json>>, i: nat, rule: Json, f: Finding)
    requires i < |expected| && AllExpected(expected[i]) && Explains(table, c, expected, i, rule, f)
    ensures f.class_ != RuleCount && f.chain == Some(c) && f.rule == i + 1
    ensures f.class_ != MatchedShape && f.class_ != UnsupportedStructure
  {
    if f.class_ in {RuleCount, MatchedShape, UnsupportedStructure} {
      assert IsExpected(expected[i][f.expression - 1]);
      MismatchClass(expected[i][f.expression - 1], Exprs(rule).items[f.expression - 1]);
    }
  }

  method DiagnoseChains(d: MarkerIdentity, s: Scan) returns (f: Option<Finding>)
    requires s.Scanned?
    ensures f == None <==> RulesMatch(d, s)
    ensures f.Some? ==> FirstDifferenceIs(d, s, f.value)
  {
    hide ChainMatches, FirstDifferenceIs;
    f := DiagnoseChain(d, s, InputChain);
    if f.Some? {
      return;
    }
    f := DiagnoseChain(d, s, ForwardChain);
    if f.Some? {
      return;
    }
    f := DiagnoseChain(d, s, OutputChain);
  }

  // ----- the diagnostic -----

  const MAX_COUNT := 64

  datatype Diagnostic = Diagnostic(
    class_: Class, stopMatched: bool, chain: Option<Chain>, rule: nat, expression: nat,
    expectedKind: Kind, observedKind: Kind, expectedShape: string, observedShape: string, shapesEqual: bool,
    expectedRules: nat, observedRules: nat, expectedCount: nat, observedCount: nat, truncated: bool,
    expectedSupported: bool, observedSupported: bool, matched: bool)

  function Bounded(n: nat): nat {
    if n <= MAX_COUNT then n else MAX_COUNT
  }

  function RuleTotal(d: MarkerIdentity): nat {
    |ExpectedRules(d, InputChain)| + |ExpectedRules(d, ForwardChain)| + |ExpectedRules(d, OutputChain)|
  }

  /** `result` */
  function Report(
    d: MarkerIdentity, s: Scan, f: Finding, expectedShape: string, observedShape: string, es: bool, os: bool): Diagnostic
    requires s.Scanned?
  {
    var seen := |s.input| + |s.forward| + |s.output|;
    var matched := f.class_ == MatchedShape;
    Diagnostic(f.class_, matched, f.chain, f.rule, f.expression, f.expectedKind, f.observedKind,
      expectedShape, observedShape, expectedShape == observedShape,
      Bounded(RuleTotal(d)), Bounded(seen), Bounded(f.expectedCount), Bounded(f.observedCount),
      RuleTotal(d) > MAX_COUNT || seen > MAX_COUNT || f.expectedCount > MAX_COUNT || f.observedCount > MAX_COUNT,
      es, os, matched)
  }

  /** `marker_diagnostic_state_rows` accepts it (texts standing for digests). */
  predicate ValidDiagnostic(x: Diagnostic) {
    && x.stopMatched == (x.class_ == MatchedShape) && x.matched == (x.class_ == MatchedShape)
    && x.expectedSupported && x.shapesEqual == (x.expectedShape == x.observedShape)
    && x.rule <= MAX_COUNT && x.expression <= MAX_COUNT && x.expectedRules == 7 && x.observedRules <= MAX_COUNT
    && x.expectedCount <= MAX_COUNT && x.observedCount <= MAX_COUNT
  }

  function Plain(class_: Class): Finding {
    Finding(class_, None, 0, 0, NoKind, NoKind, 0, 0)
  }

  function ExprsOf(rules: seq<Json>): (r: seq<Json>)
    ensures |r| == |rules| && forall i :: 0 <= i < |rules| ==> r[i] == Exprs(rules[i])
  {
    seq(|rules|, i requires 0 <= i < |rules| => Exprs(rules[i]))
  }

  /** The value whose shape is reported for the observed rules. */
  function ObservedSource(s: Scan): Json
    requires s.Scanned?
  {
    if s.malformed.Null? then Shape(ExprsOf(s.input), ExprsOf(s.forward), ExprsOf(s.output))
    else Obj([Field("malformed_rule", s.malformed)])
  }

  /** `diagnose_marker_rule_expressions`; no diagnostic when it raises. */
  method Diagnose(entries: Json, d: MarkerIdentity) returns (x: Option<Diagnostic>, ghost s: Scan, ghost f: Finding)
    ensures x.Some? ==> s.Scanned? && ValidDiagnostic(x.value)
    ensures x == None ==> entries.Arr? && exists i :: 0 <= i < |UpToStop(entries.items)| && Raises(entries.items[i], d.table)
    ensures x.Some? && entries.Arr? ==>
      && (forall c :: ScannedRules(s, c) == MarkerRulesIn(UpToStop(entries.items), d.table, c))
      && s.malformed == (if |UpToStop(entries.items)| < |entries.items| then Offender(entries.items[|UpToStop(entries.items)|]) else Null)
    ensures x.Some? && !entries.Arr? ==> s == NOTHING_SEEN.(stopped := true, malformed := entries)
    ensures x.Some? ==>
      && x.value.class_ == f.class_
      && (f.class_ == MatchedShape <==> s.malformed == Null && RulesMatch(d, s))
      && (f.class_ == UnsupportedStructure <==> !Supported(ObservedSource(s)))
      && (f.class_ == MatchedShape ==> x.value.shapesEqual)
      && (f.class_ !in {MatchedShape, UnsupportedStructure} && s.malformed == Null ==> FirstDifferenceIs(d, s, f))
      && (f.class_ != UnsupportedStructure && s.malformed != Null ==> f == Plain(RuleType))
      && x.value.chain == f.chain && x.value.rule == f.rule && x.value.expression == f.expression
  {
    hide Supported, ChainMatches, FirstDifferenceIs, ExpectedShape, UpToStop, MarkerRulesIn, Raises, Offender;
    var scan;
    if entries.Arr? {
      scan := Collect(entries.items, d.table);
      if scan.TypeError? {
        s, f := scan, Plain(RuleType);
        return None, s, f;
      }
    } else {
      scan := NOTHING_SEEN.(stopped := true, malformed := entries);
    }
    s := scan;
    var expectedShape, expectedSupported := ShapeDigest(ExpectedShape(d));
    var observedShape, observedSupported := ShapeDigest(ObservedSource(scan));
    ExpectedIsSupported(d);
    MatchedIsSupported(d, scan);
    var finding;
    if !expectedSupported || !observedSupported {
      finding := Plain(UnsupportedStructure);
    } else if scan.malformed != Null {
      finding := Plain(RuleType);
    } else {
      var found := DiagnoseChains(d, scan);
      finding := if found.Some? then found.value else Plain(MatchedShape);
      if found.Some? {
        DifferenceIsNoVerdict(d, scan, finding);
      }
    }
    f := finding;
    ReportIsValid(d, scan, finding, expectedShape, observedShape, observedSupported);
    x := Some(Report(d, scan, finding, expectedShape, observedShape, expectedSupported, observedSupported));
  }

  /** Rules that match have the expected shape. */
  lemma {:induction false} MatchedIsSupported(d: MarkerIdentity, s: Scan)
    requires s.Scanned?
    ensures s.malformed == Null && RulesMatch(d, s) ==>
      ObservedSource(s) == ExpectedShape(d)
  {
    if s.malformed == Null && RulesMatch(d, s) {
      hide ChainMatches, ExpectedRules, ExprsOf, AsArrays;
      ChainShape(d, InputChain, s.input);
      ChainShape(d, ForwardChain, s.forward);
      ChainShape(d, OutputChain, s.output);
    }
  }

  lemma {:induction false} ChainShape(d: MarkerIdentity, c: Chain, observed: seq<Json>)
    ensures ChainMatches(d, c, observed) ==> ExprsOf(observed) == AsArrays(ExpectedRules(d, c))
  {
    hide ExpectedRules, Get, Keys;
  }

  lemma {:induction false} DifferenceIsNoVerdict(d: MarkerIdentity, s: Scan, f: Finding)
    requires s.Scanned? && FirstDifferenceIs(d, s, f)
    ensures f.class_ !in {MatchedShape, UnsupportedStructure} && f.rule <= 4 && f.expression <= 6
    ensures f.expectedCount <= 6
  {
    var c := f.chain.value;
    ExpectedCounts(d, c);
    if f.class_ != RuleCount {
      ExplainsIsNotCount(d.table, c, ExpectedRules(d, c), f.rule - 1, ScannedRules(s, c)[f.rule - 1], f);
    }
    hide ExpectedRules, RuleMatches, AllExpected;
  }

  lemma {:induction false} ReportIsValid(
    d: MarkerIdentity, s: Scan, f: Finding, expectedShape: string, observedShape: string, os: bool)
    requires s.Scanned? && f.rule <= 4 && f.expression <= 6
    ensures ValidDiagnostic(Report(d, s, f, expectedShape, observedShape, true, os))
  {
    ExpectedCounts(d, InputChain);
    hide ExpectedRules;
  }

  /** On a listing of objects, which is all `read_ruleset` lets through: the shape is
      reported as matched exactly when no rule is malformed and, chain by chain, the
      listed marker rules are the expected ones up to their handles. */
  method DiagnoseListing(entries: seq<Json>, d: MarkerIdentity) returns (x: Option<Diagnostic>)
    requires forall i :: 0 <= i < |entries| ==> entries[i].Obj?
    ensures x.Some? ==>
      (x.value.matched <==>
        && (forall i :: 0 <= i < |entries| ==> !Stops(entries[i]))
        && ListingMatches(d, entries))
    ensures x == None ==> exists i :: 0 <= i < |entries| && Raises(entries[i], d.table)
  {
    ghost var s, f;
    x, s, f := Diagnose(Arr(entries), d);
    hide ChainMatches, MarkerRulesIn, FirstDifferenceIs, Supported, Raises;
    if x.Some? {
      if |UpToStop(entries)| == |entries| {
        assert UpToStop(entries) == entries;
        ScanMatches(d, s, entries);
        forall i | 0 <= i < |entries| ensures !Stops(entries[i]) {
          assert UpToStop(entries)[i] == entries[i];
        }
      } else {
        ObjectsOffend(entries[|UpToStop(entries)|]);
      }
    }
  }

  lemma {:induction false} ScanMatches(d: MarkerIdentity, s: Scan, entries: seq<Json>)
    requires s.Scanned? && forall c :: ScannedRules(s, c) == MarkerRulesIn(entries, d.table, c)
    ensures RulesMatch(d, s) <==> ListingMatches(d, entries)
  {
    hide ChainMatches, MarkerRulesIn;
    assert s.input == ScannedRules(s, InputChain) && s.forward == ScannedRules(s, ForwardChain)
      && s.output == ScannedRules(s, OutputChain);
  }

  lemma {:induction false} ObjectsOffend(entry: Json)
    requires entry.Obj? && Stops(entry)
    ensures Offender(entry) != Null
  {
  }

  /** A null entry ends the pass unnoticed: whatever follows it is not looked at. */
  lemma {:induction false} NullEndsThePass(entries: seq<Json>, rest: seq<Json>)
    requires forall i :: 0 <= i < |entries| ==> !Stops(entries[i])
    ensures UpToStop(entries + [Null] + rest) == entries
    ensures Offender((entries + [Null] + rest)[|entries|]) == Null
    decreases |entries|
  {
    var whole := entries + [Null] + rest;
    if entries == [] {
      assert whole[0] == Null;
    } else {
      NullEndsThePass(entries[1..], rest);
      assert whole[0] == entries[0] && whole[1..] == entries[1..] + [Null] + rest;
      assert entries == [entries[0]] + entries[1..];
    }
  }

  /** The diagnosis of a list with a null in it is that of the entries before the null:
      rules behind it make no difference, missing or too many. */
  method NullHidesTheRest(entries: seq<Json>, rest: seq<Json>, d: MarkerIdentity) returns (x: Option<Diagnostic>)
    requires forall i :: 0 <= i < |entries| ==> !Stops(entries[i])
    ensures x.Some? ==> (x.value.matched <==> ListingMatches(d, entries))
    ensures x == None ==> exists i :: 0 <= i < |entries| && Raises(entries[i], d.table)
  {
    var whole := entries + [Null] + rest;
    NullEndsThePass(entries, rest);
    ghost var s, f;
    x, s, f := Diagnose(Arr(whole), d);
    hide ChainMatches, MarkerRulesIn, FirstDifferenceIs, Supported, Raises, UpToStop, Offender;
    hide RulesMatch, ListingMatches;
    if x.Some? {
      ScanMatches(d, s, entries);
    } else {
      ghost var i :| 0 <= i < |UpToStop(whole)| && Raises(whole[i], d.table);
      assert whole[i] == entries[i];
    }
  }
}
