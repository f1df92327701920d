/** What the bounded wait for the recorded rules reports about its observations. */
module RestorationPoll {
  import opened Wrappers
  import opened RestorationState
  import FirewallSnapshot
  import SnapshotLaws

  const TABLE := "fp_hosted_replay_ro_001"
  const ATTEMPTS := 20

  /** The identity of the foreign rules in a listing. */
  function IdentityOf(entries: seq<FirewallSnapshot.Entry>): Identity {
    var exclude := Some(TABLE);
    var retained := FirewallSnapshot.Retained(entries, exclude);
    Identity(
      FirewallSnapshot.CanonicalText(retained),
      FirewallSnapshot.SemanticText(retained),
      FirewallSnapshot.KindCounts(entries, exclude))
  }

  ghost predicate FromRuleset(i: Identity) {
    exists entries :: SnapshotLaws.ProperEntries(entries) && i == IdentityOf(entries)
  }

  lemma {:induction false} StrictImpliesSemantic(a: Identity, b: Identity)
    requires FromRuleset(a) && FromRuleset(b) && StrictlyEqual(a, b)
    ensures SemanticallyEqual(a, b)
  {
    var s :| SnapshotLaws.ProperEntries(s) && a == IdentityOf(s);
    var t :| SnapshotLaws.ProperEntries(t) && b == IdentityOf(t);
    SnapshotLaws.RulesetIdentities(s, t, Some(TABLE));
  }

  datatype Classification =
    | PreNetworkIdentity
    | PersistentInstallationIdentity
    | ListOrderSerializationVariance
    | StableUnrelatedForeignDrift
    | UnstableForeignDrift
    | OwnedShapeFailed
    | ObservationQueryFailed

  datatype Observation = Observation(
    ordinal: nat, classification: Classification, ownedTablePresent: bool, foreign: Option<Identity>,
    equalsPre: bool, semanticEqualsPre: bool, equalsInstallation: bool, semanticEqualsInstallation: bool,
    equalsPrior: bool, semanticEqualsPrior: bool)

  function Blank(ordinal: nat, classification: Classification, present: bool): Observation {
    Observation(ordinal, classification, present, None, false, false, false, false, false, false)
  }

  predicate StrictlyInstallation(l: Ledger, i: Identity) {
    l.installation.Some? && StrictlyEqual(i, l.installation.value)
  }

  predicate SemanticallyInstallation(l: Ledger, i: Identity) {
    l.installation.Some? && SemanticallyEqual(i, l.installation.value)
  }

  function Classify(pre: bool, semanticPre: bool, inst: bool, semanticInst: bool, prior: bool, semanticPrior: bool): Classification {
    if pre then PreNetworkIdentity
    else if inst then PersistentInstallationIdentity
    else if semanticPre || semanticInst || (semanticPrior && !prior) then ListOrderSerializationVariance
    else if prior then StableUnrelatedForeignDrift
    else UnstableForeignDrift
  }

  function Observe(l: Ledger, ordinal: nat, reading: Reading, prior: Option<Identity>): Observation {
    var f := reading.foreign;
    var pre, semanticPre := StrictlyEqual(f, l.preimage), SemanticallyEqual(f, l.preimage);
    var inst, semanticInst := StrictlyInstallation(l, f), SemanticallyInstallation(l, f);
    var same := prior.Some? && StrictlyEqual(f, prior.value);
    var similar := prior.Some? && SemanticallyEqual(f, prior.value);
    Observation(
      ordinal, Classify(pre, semanticPre, inst, semanticInst, same, similar), reading.owned != Absent, Some(f),
      pre, semanticPre, inst, semanticInst, same, similar)
  }

  /** What is reported after the given readings. */
  function ObserveAll(l: Ledger, seen: seq<Reading>): (os: seq<Observation>)
    ensures |os| == |seen|
  {
    if seen == [] then []
    else
      var n := |seen| - 1;
      ObserveAll(l, seen[..n])
      + [Observe(l, n + 1, seen[n], if n == 0 then None else Some(seen[n - 1].foreign))]
  }

  /** The class of a wait that ran out of attempts. */
  function Terminal(os: seq<Observation>): Classification {
    if forall o | o in os :: o.equalsInstallation then PersistentInstallationIdentity
    else if forall o | o in os :: o.semanticEqualsPre || o.semanticEqualsInstallation then
      ListOrderSerializationVariance
    else if os != [] && (forall o | o in os[1..] :: o.semanticEqualsPrior)
            && (exists o | o in os[1..] :: !o.equalsPrior) then
      ListOrderSerializationVariance
    else if os != [] && (forall o | o in os[1..] :: o.equalsPrior) then StableUnrelatedForeignDrift
    else UnstableForeignDrift
  }

  lemma {:induction false} ObservationAt(l: Ledger, seen: seq<Reading>, i: nat)
    requires i < |seen|
    ensures ObserveAll(l, seen)[i]
      == Observe(l, i + 1, seen[i], if i == 0 then None else Some(seen[i - 1].foreign))
    decreases |seen|
  {
    hide Observe;
    var n := |seen| - 1;
    if i < n {
      ObservationAt(l, seen[..n], i);
    }
  }

  ghost predicate AllSame(seen: seq<Reading>) {
    forall i :: 0 <= i < |seen| ==> StrictlyEqual(seen[i].foreign, seen[0].foreign)
  }

  ghost predicate AllSimilar(seen: seq<Reading>) {
    forall i :: 0 <= i < |seen| ==> SemanticallyEqual(seen[i].foreign, seen[0].foreign)
  }

  predicate SameAsPrior(seen: seq<Reading>, i: nat)
    requires 0 < i < |seen|
  {
    StrictlyEqual(seen[i].foreign, seen[i - 1].foreign)
  }

  predicate SimilarToPrior(seen: seq<Reading>, i: nat)
    requires 0 < i < |seen|
  {
    SemanticallyEqual(seen[i].foreign, seen[i - 1].foreign)
  }

  lemma {:induction false} PriorsSame(l: Ledger, seen: seq<Reading>)
    requires seen != []
    ensures (forall o | o in ObserveAll(l, seen)[1..] :: o.equalsPrior) <==> AllSame(seen)
    ensures (forall o | o in ObserveAll(l, seen)[1..] :: o.semanticEqualsPrior) <==> AllSimilar(seen)
  {
    hide ObserveAll, Classify, StrictlyEqual, SemanticallyEqual;
    var os := ObserveAll(l, seen);
    var later := os[1..];
    forall i | 0 < i < |seen|
      ensures later[i - 1].equalsPrior == SameAsPrior(seen, i)
      ensures later[i - 1].semanticEqualsPrior == SimilarToPrior(seen, i)
    {
      ObservationAt(l, seen, i);
    }
    assert forall k :: 0 <= k < |later| ==>
      later[k].equalsPrior == SameAsPrior(seen, k + 1) && later[k].semanticEqualsPrior == SimilarToPrior(seen, k + 1);
    PriorsChain(seen, |seen|);
    hide SameAsPrior, SimilarToPrior, AllSame, AllSimilar;
    assert (forall o | o in later :: o.equalsPrior) <==> (forall i :: 0 < i < |seen| ==> SameAsPrior(seen, i)) by {
      forall i | 0 < i < |seen| ensures SameAsPrior(seen, i) == later[i - 1].equalsPrior && later[i - 1] in later {
      }
    }
    assert (forall o | o in later :: o.semanticEqualsPrior)
      <==> (forall i :: 0 < i < |seen| ==> SimilarToPrior(seen, i)) by {
      forall i | 0 < i < |seen|
        ensures SimilarToPrior(seen, i) == later[i - 1].semanticEqualsPrior && later[i - 1] in later
      {
      }
    }
  }

  lemma {:induction false} PriorsChain(seen: seq<Reading>, n: nat)
    requires 0 < n <= |seen|
    ensures (forall i :: 0 < i < n ==> SameAsPrior(seen, i)) <==> AllSame(seen[..n])
    ensures (forall i :: 0 < i < n ==> SimilarToPrior(seen, i)) <==> AllSimilar(seen[..n])
    ensures seen[..|seen|] == seen
    decreases n
  {
    if n > 1 {
      PriorsChain(seen, n - 1);
      var before, now := seen[..n - 1], seen[..n];
      assert now == before + [seen[n - 1]] && now[0] == before[0];
      assert AllSame(now) <==> AllSame(before) && StrictlyEqual(seen[n - 1].foreign, seen[0].foreign);
      assert AllSimilar(now) <==> AllSimilar(before) && SemanticallyEqual(seen[n - 1].foreign, seen[0].foreign);
      assert seen[n - 2] == before[n - 2];
      assert (forall i :: 0 < i < n ==> SameAsPrior(seen, i))
        <==> (forall i :: 0 < i < n - 1 ==> SameAsPrior(seen, i)) && SameAsPrior(seen, n - 1);
      assert (forall i :: 0 < i < n ==> SimilarToPrior(seen, i))
        <==> (forall i :: 0 < i < n - 1 ==> SimilarToPrior(seen, i)) && SimilarToPrior(seen, n - 1);
    }
  }

  lemma {:induction false} EachObserved(l: Ledger, seen: seq<Reading>)
    ensures (forall o | o in ObserveAll(l, seen) :: o.equalsInstallation)
       <==> (forall i :: 0 <= i < |seen| ==> StrictlyInstallation(l, seen[i].foreign))
    ensures (forall o | o in ObserveAll(l, seen) :: o.semanticEqualsPre || o.semanticEqualsInstallation)
       <==> (forall i :: 0 <= i < |seen| ==>
              SemanticallyEqual(seen[i].foreign, l.preimage) || SemanticallyInstallation(l, seen[i].foreign))
  {
    hide ObserveAll, StrictlyEqual, SemanticallyEqual, Classify, StrictlyInstallation, SemanticallyInstallation;
    var os := ObserveAll(l, seen);
    forall i | 0 <= i < |seen|
      ensures os[i].equalsInstallation == StrictlyInstallation(l, seen[i].foreign)
      ensures os[i].semanticEqualsPre == SemanticallyEqual(seen[i].foreign, l.preimage)
      ensures os[i].semanticEqualsInstallation == SemanticallyInstallation(l, seen[i].foreign)
      ensures os[i] in os
    {
      ObservationAt(l, seen, i);
    }
  }

  /** Every terminal class, in terms of what was read. */
  lemma {:induction false} TerminalMeaning(l: Ledger, seen: seq<Reading>)
    requires seen != [] && FromRuleset(l.preimage)
    requires l.installation.Some? ==> FromRuleset(l.installation.value)
    requires forall i :: 0 <= i < |seen| ==> FromRuleset(seen[i].foreign)
    ensures var t := Terminal(ObserveAll(l, seen));
      var installed := forall i :: 0 <= i < |seen| ==> StrictlyInstallation(l, seen[i].foreign);
      var explained := forall i :: 0 <= i < |seen| ==>
        SemanticallyEqual(seen[i].foreign, l.preimage) || SemanticallyInstallation(l, seen[i].foreign);
      && (t == PersistentInstallationIdentity <==> installed)
      && (t == ListOrderSerializationVariance <==>
            !installed && (explained || (AllSimilar(seen) && !AllSame(seen))))
      && (t == StableUnrelatedForeignDrift <==>
            && AllSame(seen)
            && !SemanticallyEqual(seen[0].foreign, l.preimage)
            && !SemanticallyInstallation(l, seen[0].foreign))
      && (t == UnstableForeignDrift <==> !explained && !AllSimilar(seen))
  {
    hide ObserveAll, FromRuleset;
    EachObserved(l, seen);
    PriorsSame(l, seen);
    forall i | 0 <= i < |seen| && StrictlyInstallation(l, seen[i].foreign)
      ensures SemanticallyInstallation(l, seen[i].foreign)
    {
      StrictImpliesSemantic(seen[i].foreign, l.installation.value);
    }
    forall i | 0 <= i < |seen| && StrictlyEqual(seen[i].foreign, seen[0].foreign)
      ensures SemanticallyEqual(seen[i].foreign, seen[0].foreign)
    {
      StrictImpliesSemantic(seen[i].foreign, seen[0].foreign);
    }
    assert AllSame(seen) ==> AllSimilar(seen);
  }
}
