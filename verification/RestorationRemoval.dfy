/** `remove`: the bounded wait, the deletion, and the retirement of all evidence. */
module RestorationRemoval {
  import opened Wrappers
  import opened RestorationState
  import opened RestorationHost
  import opened RestorationSteps
  import opened RestorationPoll
  import opened RestorationProtocol

  /** `_validated_current_owned`: shape and content are the recorded ones. */
  predicate RecordedOwned(l: Ledger, owned: Owned) {
    && ValidateOwned(owned, l.markersInstalled).Some?
    && ValidateOwned(owned, l.markersInstalled) == (if l.markersInstalled then l.combined else l.owned)
    && (l.markersInstalled ==> MarkerEntries(owned) == l.marker)
  }

  /** What a present table has to pass: `_validated_current_owned`, or just the shape when no markers are recorded. */
  predicate OwnedIsCurrent(l: Ledger, owned: Owned) {
    || owned == Absent
    || (if l.markersInstalled then RecordedOwned(l, owned) else ValidateOwned(owned, false).Some?)
  }

  function ShapeCode(l: Ledger, owned: Owned): string {
    if l.markersInstalled && ValidateOwned(owned, true).Some? && ValidateOwned(owned, true) == l.combined then
      "FIREWALL_MARKER_INSTALLATION_MISMATCH"
    else "FIREWALL_INSTALLATION_MISMATCH"
  }

  /** No reading among `seen` shows the recorded rules. */
  ghost predicate NoneMatches(seen: seq<Reading>, l: Ledger) {
    forall i :: 0 <= i < |seen| ==> !Matches(seen[i], l.preimage)
  }

  /** How a wait that read `seen` may end. */
  ghost predicate WaitEnds(l: Ledger, o: Outcome, seen: seq<Reading>, os: seq<Observation>, summary: Option<Classification>) {
    && 1 <= |seen| <= ATTEMPTS
    && var n := |seen| - 1;
      match summary
      case Some(PreNetworkIdentity) =>
        o == Done && os == ObserveAll(l, seen) && Matches(seen[n], l.preimage) && NoneMatches(seen[..n], l)
      case Some(OwnedShapeFailed) =>
        && o.Error? && !OwnedIsCurrent(l, seen[n].owned) && NoneMatches(seen[..n], l)
        && os == ObserveAll(l, seen[..n]) + [Blank(n + 1, OwnedShapeFailed, true)]
      case Some(ObservationQueryFailed) =>
        && o.Error? && |seen| < ATTEMPTS && NoneMatches(seen, l)
        && os == ObserveAll(l, seen) + [Blank(n + 2, ObservationQueryFailed, false)]
      case Some(terminal) =>
        && o == Error("FIREWALL_FOREIGN_STATE_DRIFT") && |seen| == ATTEMPTS && NoneMatches(seen, l)
        && os == ObserveAll(l, seen) && terminal == Terminal(os)
      case None => o == Crashed && NoneMatches(seen, l)
  }

  /** `wait_for_restoration_preimage`: returns only on the recorded rules, never adopts
      others, and otherwise fails after exactly the allowed number of attempts. */
  method WaitForPreimage(h: Host, calm: bool, l: Ledger, first: Reading)
    returns (o: Outcome, entries: Reading, os: seq<Observation>, summary: Option<Classification>, ghost seen: seq<Reading>)
    requires h.Ok() && h.readings != [] && h.readings[|h.readings| - 1] == first && first.owned == h.owned
    modifies h
    ensures h.Ok() && old(h.history) <= h.history
    ensures WaitEnds(l, o, seen, os, summary) && seen[0] == first && entries == seen[|seen| - 1]
    ensures h.View() == old(h.View()).(readings := old(h.readings) + seen[1..], foreign := h.foreign)
    ensures entries.owned == h.owned && h.readings[|h.readings| - 1] == entries
    ensures calm ==> h.foreign == old(h.foreign)
    ensures calm && first.foreign == h.foreign && OwnedIsCurrent(l, h.owned) ==>
      (if Matches(first, l.preimage) then o == Done && seen == [first]
       else o == Error("FIREWALL_FOREIGN_STATE_DRIFT"))
  {
    hide SafeRun, Inv, StepOk, Allowed, ObserveAll, Observe, OwnedIsCurrent, Terminal, StrictlyEqual;
    entries, os, summary, seen := first, [], None, [first];
    var prior: Option<Identity> := None;
    var attempt := 0;
    while true
      invariant h.Ok() && old(h.history) <= h.history
      invariant 0 <= attempt < ATTEMPTS && |seen| == attempt + 1 && seen[0] == first && entries == seen[attempt]
      invariant prior == if attempt == 0 then None else Some(seen[attempt - 1].foreign)
      invariant os == ObserveAll(l, seen[..attempt]) && NoneMatches(seen[..attempt], l)
      invariant h.View() == old(h.View()).(readings := old(h.readings) + seen[1..], foreign := h.foreign)
      invariant entries.owned == h.owned && h.readings[|h.readings| - 1] == entries
      invariant calm ==> h.foreign == old(h.foreign)
      invariant calm && first.foreign == h.foreign ==> entries.foreign == h.foreign
      decreases ATTEMPTS - attempt
    {
      var ordinal := attempt + 1;
      if !OwnedIsCurrent(l, entries.owned) {
        assert entries.owned != Absent by { AbsentIsCurrent(l); }
        os, summary := os + [Blank(ordinal, OwnedShapeFailed, entries.owned != Absent)], Some(OwnedShapeFailed);
        o := Error(ShapeCode(l, entries.owned));
        return;
      }
      ObserveMore(l, seen, attempt);
      os := os + [Observe(l, ordinal, entries, prior)];
      prior := Some(entries.foreign);
      if StrictlyEqual(entries.foreign, l.preimage) {
        o, summary := Done, Some(PreNetworkIdentity);
        return;
      }
      assert seen == seen[..attempt] + [entries];
      assert NoneMatches(seen, l);
      if ordinal == ATTEMPTS {
        break;
      }
      var next;
      o, next := h.Read(calm);
      if o != Done {
        if o.Error? {
          os, summary := os + [Blank(ordinal + 1, ObservationQueryFailed, false)], Some(ObservationQueryFailed);
        }
        return;
      }
      entries := next;
      seen := seen + [entries];
      assert seen[..ordinal] == seen[..attempt] + [seen[attempt]];
      attempt := ordinal;
    }
    TerminalIsTerminal(os);
    o, summary := Error("FIREWALL_FOREIGN_STATE_DRIFT"), Some(Terminal(os));
  }

  lemma {:induction false} AbsentIsCurrent(l: Ledger)
    ensures OwnedIsCurrent(l, Absent)
  {
  }

  lemma {:induction false} TerminalIsTerminal(os: seq<Observation>)
    ensures Terminal(os) !in {PreNetworkIdentity, OwnedShapeFailed, ObservationQueryFailed}
  {
  }

  lemma {:induction false} ObserveMore(l: Ledger, seen: seq<Reading>, attempt: nat)
    requires |seen| == attempt + 1
    ensures ObserveAll(l, seen) == ObserveAll(l, seen[..attempt])
      + [Observe(l, attempt + 1, seen[attempt], if attempt == 0 then None else Some(seen[attempt - 1].foreign))]
  {
  }

  lemma {:induction false} CompletionReads(s: State)
    requires Inv(s) && CompletionPath in s.disk
    ensures CompletionOf(s.disk).Some?
    ensures
      var c := CompletionOf(s.disk).value;
      && ValidCompletion(c) && s.owned == Absent
      && StrictlyEqual(c.preimage, s.captured) && StrictlyEqual(c.postimage, s.captured)
      && (LedgerOf(s.disk).Some? ==>
            && c.ledger == Effective(s.disk, LedgerOf(s.disk).value)
            && LedgerOf(s.disk).value.preimage == s.captured)
  {
  }

  lemma {:induction false} EmptyBut(s: State, d: Disk)
    requires Inv(s) && LedgerPath !in s.disk
    requires d == s.disk - {IntentPath, InstalledPath}
    ensures d - {CompletionPath} == map[]
  {
    forall p: Path ensures p !in d - {CompletionPath} {
      assert p in s.disk ==> !IsStage(p);
    }
  }

  /** Retire what is left: the marker evidence, then the completion. */
  method RetireCompletion(h: Host, calm: bool) returns (o: Outcome)
    requires h.Ok() && LedgerPath !in h.disk
    modifies h
    ensures h.Ok() && old(h.history) <= h.history && h.captured == old(h.captured)
    ensures o.Done? ==> h.disk == map[] && h.owned == Absent
    ensures calm ==> o.Done? && h.foreign == old(h.foreign)
  {
    hide SafeRun, Inv, StepOk, Allowed;
    OkIsSafe(h);
    EmptyBut(h.View(), h.disk - {IntentPath, InstalledPath});
    NoLedgerNoTable(h.View());
    :- RetireMarkerEvidence(h, calm);
    OkIsSafe(h);
    CompletionMayGo(h.View());
    o := RetirePath(h, calm, CompletionPath, "FIREWALL_RESTORATION_COMPLETION_RETIREMENT_FAILED");
  }

  lemma {:induction false} NoLedgerNoTable(s: State)
    requires Inv(s) && LedgerPath !in s.disk
    ensures s.owned == Absent && NoStages(s.disk) && (CompletionPath !in s.disk ==> s.disk == map[])
  {
  }

  /** What `remove` makes of a disk without a ledger, before it retires anything. */
  function OrphanedVerdict(d: Disk, reading: Reading): Outcome {
    if reading.owned != Absent then Error("FIREWALL_LEDGER_MISSING")
    else if CompletionPath !in d then Error("FIREWALL_RESTORATION_EVIDENCE_MISSING")
    else match CompletionOf(d)
      case None => Error("FIREWALL_RESTORATION_EVIDENCE_INVALID")
      case Some(c) =>
        if !ValidCompletion(c) || !StrictlyEqual(c.postimage, reading.foreign) then
          Error("FIREWALL_RESTORATION_EVIDENCE_INVALID")
        else OrphanVerdict(d, c)
  }

  /** Without a ledger only a completion that matches the present rules counts. */
  method RemoveWithoutLedger(h: Host, calm: bool, reading: Reading) returns (o: Outcome)
    requires h.Ok() && LedgerPath !in h.disk && reading.owned == h.owned
    modifies h
    ensures h.Ok() && old(h.history) <= h.history && h.captured == old(h.captured)
    ensures o.Done? ==>
      && h.disk == map[] && h.owned == Absent
      && CompletionPath in old(h.disk) && Matches(reading, old(h.captured))
    ensures calm ==>
      && h.foreign == old(h.foreign)
      && (o.Done? <==> CompletionPath in old(h.disk) && Matches(reading, old(h.captured)))
      && (CompletionPath !in old(h.disk) ==> o == Error("FIREWALL_RESTORATION_EVIDENCE_MISSING"))
      && o == OrphanedVerdict(old(h.disk), reading)
  {
    hide SafeRun, Inv, StepOk, Allowed, OrphanVerdict;
    OkIsSafe(h);
    NoLedgerNoTable(h.View());
    if reading.owned != Absent {
      return Error("FIREWALL_LEDGER_MISSING");
    }
    if CompletionPath !in h.disk {
      return Error("FIREWALL_RESTORATION_EVIDENCE_MISSING");
    }
    CompletionReads(h.View());
    var c := CompletionOf(h.disk).value;
    if !ValidCompletion(c) || !StrictlyEqual(c.postimage, reading.foreign) {
      return Error("FIREWALL_RESTORATION_EVIDENCE_INVALID");
    }
    :- ValidateOrphans(h, calm, c);
    o := RetireCompletion(h, calm);
  }

  /** With a completion the table is gone and only evidence has to go. */
  method RemoveRestored(h: Host, calm: bool, reading: Reading, effective: Ledger) returns (o: Outcome)
    requires h.Ok() && LedgerOf(h.disk).Some? && effective == Effective(h.disk, LedgerOf(h.disk).value)
    requires NoStages(h.disk) && CompletionPath in h.disk && reading.owned == h.owned
    modifies h
    ensures h.Ok() && old(h.history) <= h.history && h.captured == old(h.captured)
    ensures o.Done? ==> h.disk == map[] && h.owned == Absent && Matches(reading, old(h.captured))
    ensures calm ==> h.foreign == old(h.foreign) && (o.Done? <==> Matches(reading, old(h.captured)))
  {
    hide SafeRun, Inv, StepOk, Allowed, Effective;
    OkIsSafe(h);
    CompletionReads(h.View());
    if reading.owned != Absent {
      return Error("FIREWALL_RESTORATION_EVIDENCE_INVALID");
    }
    var c := CompletionOf(h.disk).value;
    if !CompletionMatches(c, effective, reading.foreign) {
      EffectiveKeeps(h.disk, LedgerOf(h.disk).value);
      return Error("FIREWALL_RESTORATION_EVIDENCE_INVALID");
    }
    LedgerMayGo(h.View());
    :- RetirePath(h, calm, LedgerPath, "FIREWALL_LEDGER_RETIREMENT_FAILED");
    o := RetireCompletion(h, calm);
  }

  lemma {:induction false} EffectiveKeeps(d: Disk, l: Ledger)
    ensures Effective(d, l).preimage == l.preimage && Effective(d, l).installed == l.installed
    ensures Effective(d, l).interface == l.interface && Effective(d, l).subnet == l.subnet
  {
  }

  /** After reconciliation the table always has the shape the ledger records. */
  lemma {:induction false} OwnedStaysCurrent(s: State, l: Ledger)
    requires Inv(s) && LedgerOf(s.disk) == Some(l) && (s.owned.Marked? ==> InstalledPath in s.disk)
    ensures OwnedIsCurrent(Effective(s.disk, l), s.owned)
  {
  }

  /** The completion `remove` builds may be published. */
  lemma {:induction false} RestorationMayBePublished(s: State, l: Ledger, postimage: Identity)
    requires Inv(s) && LedgerOf(s.disk) == Some(l) && SafeNames(l.interface, l.subnet) && s.owned == Absent
    requires |s.readings| >= 2 && s.readings[|s.readings| - 1] == Reading(Absent, postimage)
    requires Matches(s.readings[|s.readings| - 2], l.preimage) && StrictlyEqual(postimage, l.preimage)
    ensures MayPublish(s, CompletionPath,
      CompletionText(Completion(Effective(s.disk, l), l.preimage, postimage)))
  {
  }

  /** The deletion batch: checked, then applied; only after a matching reading. */
  method DeleteTable(h: Host, calm: bool) returns (o: Outcome)
    requires h.Ok() && h.readings != [] && Matches(h.readings[|h.readings| - 1], h.captured)
    modifies h
    ensures h.Ok() && old(h.history) <= h.history && h.captured == old(h.captured)
    ensures o.Done? ==> h.View() == WithForeign(old(h.View()), h.foreign).(owned := Absent)
    ensures calm ==> o.Done? && h.foreign == old(h.foreign)
  {
    hide SafeRun, Inv, StepOk, Allowed, StrictlyEqual;
    o := h.Tick(calm);
    if o != Done {
      return if o.Error? then Error("FIREWALL_ATOMIC_ROLLBACK_CHECK_FAILED") else o;
    }
    OkIsSafe(h);
    TableMayGo(h.View());
    o := h.Apply(calm, Absent);
    if o.Error? {
      o := Error("FIREWALL_ATOMIC_ROLLBACK_FAILED");
    }
  }

  lemma {:induction false} OnlyCompletionLeft(s: State)
    requires Inv(s) && LedgerPath !in s.disk && IntentPath !in s.disk && InstalledPath !in s.disk
    requires CompletionPath in s.disk
    ensures s.disk.Keys == {CompletionPath} && s.owned == Absent
  {
    forall p: Path ensures p in s.disk <==> p == CompletionPath {
      assert p in s.disk ==> !IsStage(p);
    }
  }

  /** Publish the completion, then retire ledger and marker evidence. */
  method Conclude(h: Host, calm: bool, c: Completion) returns (o: Outcome)
    requires h.Ok() && MayPublish(h.View(), CompletionPath, CompletionText(c))
    requires NoStages(h.disk) && CompletionPath !in h.disk
    modifies h
    ensures h.Ok() && old(h.history) <= h.history && h.captured == old(h.captured)
    ensures o.Done? ==> h.disk.Keys == {CompletionPath} && h.owned == Absent
    ensures calm ==> o.Done? && h.foreign == old(h.foreign)
  {
    hide SafeRun, Inv, StepOk, Allowed, MayPublish;
    :- WriteEvidence(h, calm, CompletionPath, CompletionText(c));
    OkIsSafe(h);
    LedgerMayGo(h.View());
    :- RetirePath(h, calm, LedgerPath, "FIREWALL_LEDGER_RETIREMENT_FAILED");
    :- RetireMarkerEvidence(h, calm);
    OkIsSafe(h);
    OnlyCompletionLeft(h.View());
    return Done;
  }

  /** Read back after the deletion and conclude only on the recorded rules. */
  method ConfirmRestoration(h: Host, calm: bool, effective: Ledger) returns (o: Outcome)
    requires h.Ok() && LedgerOf(h.disk).Some? && effective == Effective(h.disk, LedgerOf(h.disk).value)
    requires ReadableLedger(LedgerOf(h.disk).value)
    requires NoStages(h.disk) && CompletionPath !in h.disk && h.owned == Absent
    requires h.readings != [] && Matches(h.readings[|h.readings| - 1], h.captured)
    modifies h
    ensures h.Ok() && old(h.history) <= h.history && h.captured == old(h.captured)
    ensures o.Done? ==> h.disk.Keys == {CompletionPath} && h.owned == Absent
    ensures calm ==> h.foreign == old(h.foreign)
    ensures calm && StrictlyEqual(h.foreign, old(h.captured)) ==> o.Done?
  {
    hide SafeRun, Inv, StepOk, Allowed, Effective, StrictlyEqual, MayPublish, SafeNames;
    ghost var l := LedgerOf(h.disk).value;
    ghost var before := h.readings[|h.readings| - 1];
    EffectiveKeeps(h.disk, l);
    OkIsSafe(h);
    LedgerRecords(h.View(), l);
    var after :- h.Read(calm);
    if after.owned != Absent {
      return Error("FIREWALL_ROLLBACK_RESIDUE");
    }
    if !StrictlyEqual(after.foreign, effective.preimage) {
      return Error("FIREWALL_FOREIGN_STATE_DRIFT");
    }
    assert h.readings[|h.readings| - 2] == before;
    OkIsSafe(h);
    RestorationMayBePublished(h.View(), l, after.foreign);
    o := Conclude(h, calm, Completion(effective, effective.preimage, after.foreign));
  }

  /** Wait for the recorded rules, delete the table, read back, publish the completion,
      and only then retire ledger and marker evidence. */
  method Restore(h: Host, calm: bool, effective: Ledger, first: Reading) returns (o: Outcome)
    requires h.Ok() && LedgerOf(h.disk).Some? && effective == Effective(h.disk, LedgerOf(h.disk).value)
    requires ReadableLedger(LedgerOf(h.disk).value)
    requires NoStages(h.disk) && CompletionPath !in h.disk && (h.owned.Marked? ==> InstalledPath in h.disk)
    requires h.readings != [] && h.readings[|h.readings| - 1] == first && first.owned == h.owned
    modifies h
    ensures h.Ok() && old(h.history) <= h.history && h.captured == old(h.captured)
    ensures o.Done? ==> h.disk.Keys == {CompletionPath} && h.owned == Absent
    ensures calm ==> h.foreign == old(h.foreign)
    ensures calm && first.foreign == h.foreign ==>
      && (o.Done? <==> Matches(first, old(h.captured)))
      && (!o.Done? ==> o == Error("FIREWALL_FOREIGN_STATE_DRIFT"))
  {
    hide SafeRun, Inv, StepOk, Allowed, Effective, OwnedIsCurrent, StrictlyEqual, ObserveAll, Terminal, SafeNames;
    ghost var l := LedgerOf(h.disk).value;
    EffectiveKeeps(h.disk, l);
    OkIsSafe(h);
    LedgerRecords(h.View(), l);
    OwnedStaysCurrent(h.View(), l);
    var entries, os, summary;
    ghost var seen;
    o, entries, os, summary, seen := WaitForPreimage(h, calm, effective, first);
    if o != Done {
      return;
    }
    assert Matches(entries, l.preimage);
    if entries.owned != Absent {
      :- DeleteTable(h, calm);
    }
    o := ConfirmRestoration(h, calm, effective);
  }

  lemma {:induction false} LedgerRecords(s: State, l: Ledger)
    requires Inv(s) && LedgerOf(s.disk) == Some(l)
    ensures l.preimage == s.captured
  {
  }

  lemma {:induction false} ReconciledFiles(d: Disk, e: Disk)
    requires e - {InstalledPath} == d - {InstalledPath, IntentStage, InstalledStage}
    ensures LedgerOf(e) == LedgerOf(d) && NoMarkerStages(e)
    ensures CompletionPath in e <==> CompletionPath in d
    ensures CompletionStage in e <==> CompletionStage in d
  {
    var rest := e - {InstalledPath};
    forall p | p != InstalledPath ensures p in e <==> p in rest {
    }
    assert LedgerPath in e ==> e[LedgerPath] == rest[LedgerPath];
    assert LedgerPath in d ==> d[LedgerPath] == rest[LedgerPath];
  }

  /** There is evidence, the names in its ledger are safe, and the foreign rules are the
      recorded ones. */
  predicate Recoverable(s: State) {
    && HasEvidence(s.disk)
    && (LedgerOf(s.disk).Some? ==> SafeNames(LedgerOf(s.disk).value.interface, LedgerOf(s.disk).value.subnet))
    && StrictlyEqual(s.foreign, s.captured)
  }

  /** A ledger on disk reads back exactly when its names are safe. */
  lemma {:induction false} LedgerReads(s: State)
    requires Inv(s)
    ensures LedgerPath in s.disk <==> LedgerOf(s.disk).Some?
    ensures LedgerPath in s.disk ==>
      var l := LedgerOf(s.disk).value;
      ReadLedger(s.disk) == if SafeNames(l.interface, l.subnet) then Some(l) else None
  {
  }

  /** `remove`: when it returns normally the table is gone and at most the completion
      is left; in a calm run it does so exactly in a recoverable state. */
  method Remove(h: Host, calm: bool) returns (o: Outcome)
    requires h.Ok()
    modifies h
    ensures h.Ok() && old(h.history) <= h.history && h.captured == old(h.captured)
    ensures o.Done? ==> h.owned == Absent
    ensures o.Done? && CompletionPath in old(h.disk) ==> h.disk == map[]
    ensures o.Done? && CompletionPath !in old(h.disk) ==> h.disk.Keys == {CompletionPath}
    ensures calm ==> h.foreign == old(h.foreign)
    ensures calm ==> (o.Done? <==> Recoverable(old(h.View())))
  {
    hide SafeRun, Inv, StepOk, Allowed, Effective, StrictlyEqual, ReadableLedger, SafeNames;
    OkIsSafe(h);
    LedgerReads(h.View());
    var reading :- h.Read(calm);
    :- ReconcileStage(h, calm, CompletionPath);
    ghost var d := h.disk;
    :- ReconcileMarkerStages(h, calm);
    WithoutStages(d, h.disk);
    if LedgerPath !in h.disk {
      o := RemoveWithoutLedger(h, calm, reading);
      return;
    }
    var l := ReadLedger(h.disk);
    if l == None {
      return Error("FIREWALL_LEDGER_INVALID");
    }
    d := h.disk;
    var effective :- ReconcileMarkerState(h, calm, l.value, reading);
    ReconciledFiles(d, h.disk);
    if CompletionPath in h.disk {
      o := RemoveRestored(h, calm, reading, effective);
    } else {
      o := Restore(h, calm, effective, reading);
    }
  }
}
