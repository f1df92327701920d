/**
 The commands of the restoration protocol, step by step.  Whatever fails, drifts or
 dies between two steps, the host stays `Ok`: each step is allowed and the run so
 far is safe.  Each contract adds what the command achieves when it returns
 normally, and exactly when it does so in a calm run.
 */
module RestorationProtocol {
  import opened Wrappers
  import opened RestorationState
  import opened RestorationHost
  import opened RestorationSteps
  import opened RestorationPoll

  function WithDisk(s: State, d: Disk, n: nat, f: Identity): State {
    s.(disk := d, nextInode := n, foreign := f)
  }

  lemma {:induction false} OkIsSafe(h: Host)
    requires h.Ok()
    ensures Inv(h.View())
  {
    hide Inv, StepOk;
    assert Inv(h.history[|h.history| - 1]);
  }

  // ----- files -----

  function InvalidCode(p: Path): string {
    if p == CompletionPath then "FIREWALL_RESTORATION_EVIDENCE_INVALID" else "FIREWALL_MARKER_STATE_INVALID"
  }

  function PersistenceCode(p: Path): string {
    if p == CompletionPath then "FIREWALL_RESTORATION_COMPLETION_FAILED"
    else "FIREWALL_MARKER_STATE_PERSISTENCE_FAILED"
  }

  function CollisionCode(p: Path): string {
    if p == CompletionPath then "FIREWALL_RESTORATION_EVIDENCE_COLLISION" else "FIREWALL_MARKER_STATE_COLLISION"
  }

  method RetirePath(h: Host, calm: bool, p: Path, code: string) returns (o: Outcome)
    requires h.Ok() && Allowed(h.View(), Removed(h.View(), p))
    modifies h
    ensures h.Ok() && old(h.history) <= h.history
    ensures h.View() ==
      if o.Done? then Removed(WithForeign(old(h.View()), h.foreign), p) else WithForeign(old(h.View()), h.foreign)
    ensures calm ==> o.Done? && h.foreign == old(h.foreign)
  {
    hide SafeRun, Inv, StepOk, Allowed;
    o := h.Unlink(calm, p);
    if o.Error? {
      o := Error(code);
    }
  }

  lemma {:induction false} StageIsTheFile(s: State, p: Path)
    requires Inv(s) && IsEvidence(p) && p in s.disk && StageOf(p) in s.disk
    ensures s.disk[p].inode == s.disk[StageOf(p)].inode
  {
  }

  method ReconcileStage(h: Host, calm: bool, p: Path) returns (o: Outcome)
    requires h.Ok() && IsEvidence(p)
    modifies h
    ensures h.Ok() && old(h.history) <= h.history
    ensures h.View() == WithDisk(
      old(h.View()), if o.Done? then old(h.disk) - {StageOf(p)} else old(h.disk), old(h.nextInode), h.foreign)
    ensures calm ==> o.Done? && h.foreign == old(h.foreign)
  {
    hide SafeRun, Inv, StepOk, Allowed;
    var stage := StageOf(p);
    if stage !in h.disk {
      assert h.disk - {stage} == h.disk;
      return Done;
    }
    OkIsSafe(h);
    if p in h.disk {
      StageIsTheFile(h.View(), p);
      if h.disk[p].inode != h.disk[stage].inode {
        return Error(InvalidCode(p));
      }
    }
    StageMayGo(h.View(), stage);
    o := RetirePath(h, calm, stage, PersistenceCode(p));
  }

  predicate NoMarkerStages(d: Disk) {
    IntentStage !in d && InstalledStage !in d
  }

  method ReconcileMarkerStages(h: Host, calm: bool) returns (o: Outcome)
    requires h.Ok()
    modifies h
    ensures h.Ok() && old(h.history) <= h.history
    ensures h.View() == WithDisk(old(h.View()), h.disk, old(h.nextInode), h.foreign)
    ensures h.disk.Keys <= old(h.disk.Keys)
    ensures h.disk - {IntentStage, InstalledStage} == old(h.disk) - {IntentStage, InstalledStage}
    ensures o.Done? ==> NoMarkerStages(h.disk)
    ensures calm ==> o.Done? && h.foreign == old(h.foreign)
  {
    hide SafeRun, Inv, StepOk, Allowed;
    :- ReconcileStage(h, calm, IntentPath);
    ghost var d := h.disk;
    assert d - {IntentStage, InstalledStage} == old(h.disk) - {IntentStage, InstalledStage};
    o := ReconcileStage(h, calm, InstalledPath);
    assert h.disk - {IntentStage, InstalledStage} == d - {IntentStage, InstalledStage};
  }

  lemma {:induction false} StagesChangeNothing(s: State, t: State, p: Path, content: Content)
    requires IsEvidence(p) && MayPublish(s, p, content)
    requires t == WithDisk(s, t.disk, t.nextInode, t.foreign)
    requires t.disk - {StageOf(p)} == s.disk - {StageOf(p)}
    ensures MayPublish(t, p, content)
  {
    forall q | q == LedgerPath || IsEvidence(q)
      ensures q in t.disk <==> q in s.disk
      ensures q in s.disk ==> t.disk[q] == s.disk[q]
    {
      assert q in t.disk - {StageOf(p)} <==> q in t.disk;
      assert q in s.disk - {StageOf(p)} <==> q in s.disk;
      assert q in s.disk ==> (t.disk - {StageOf(p)})[q] == (s.disk - {StageOf(p)})[q];
    }
    assert LedgerOf(t.disk) == LedgerOf(s.disk);
    assert IntentOf(t.disk) == IntentOf(s.disk);
    assert InstalledOf(t.disk) == InstalledOf(s.disk);
  }

  /** Create the stage and fill it. */
  method Stage(h: Host, calm: bool, p: Path, content: Content) returns (o: Outcome)
    requires h.Ok() && IsEvidence(p) && MayPublish(h.View(), p, content)
    requires p !in h.disk && StageOf(p) !in h.disk
    modifies h
    ensures h.Ok() && old(h.history) <= h.history
    ensures h.View() == WithDisk(old(h.View()), h.disk, h.nextInode, h.foreign)
    ensures o.Done? ==> h.disk == old(h.disk)[StageOf(p) := File(old(h.nextInode), content)]
    ensures o.Done? ==> MayPublish(h.View(), p, content)
    ensures calm ==> o.Done? && h.foreign == old(h.foreign)
  {
    hide SafeRun, Inv, StepOk, Allowed, MayPublish;
    var stage := StageOf(p);
    ghost var s := h.View();
    OkIsSafe(h);
    LedgerIsThere(h.View(), p, content);
    StageMayCome(h.View(), p);
    :- h.Create(calm, stage);
    OkIsSafe(h);
    StageMayFill(h.View(), p, content);
    :- h.Fill(calm, stage, content);
    assert h.disk == s.disk[stage := File(s.nextInode, content)];
    assert h.disk - {stage} == s.disk - {stage};
    StagesChangeNothing(s, h.View(), p, content);
    return Done;
  }

  /** Link a filled stage under its final name. */
  method Publish(h: Host, calm: bool, p: Path, content: Content) returns (o: Outcome)
    requires h.Ok() && IsEvidence(p) && MayPublish(h.View(), p, content)
    requires p !in h.disk && StageOf(p) in h.disk && h.disk[StageOf(p)].content == content
    modifies h
    ensures h.Ok() && old(h.history) <= h.history
    ensures h.View() == WithDisk(old(h.View()), h.disk, h.nextInode, h.foreign)
    ensures h.disk == old(h.disk) || h.disk == old(h.disk)[p := old(h.disk[StageOf(p)])]
    ensures o.Done? ==> p in h.disk
    ensures calm ==> o.Done? && h.foreign == old(h.foreign)
  {
    hide SafeRun, Inv, StepOk, Allowed, MayPublish;
    OkIsSafe(h);
    EvidenceMayCome(h.View(), p, content);
    :- h.Link(calm, StageOf(p), p);
    o := h.Tick(calm);
    if o.Error? {
      o := Error("FIREWALL_RESTORATION_COMPLETION_FAILED");
    }
  }

  lemma {:induction false} LedgerIsThere(s: State, p: Path, content: Content)
    requires MayPublish(s, p, content)
    ensures LedgerPath in s.disk
  {
  }

  /** The `finally` clause: the stage goes whether the publication succeeded or failed,
      but not when the process died. */
  method DropStage(h: Host, calm: bool, p: Path, before: Outcome) returns (o: Outcome)
    requires h.Ok() && IsEvidence(p)
    modifies h
    ensures h.Ok() && old(h.history) <= h.history
    ensures h.View() == WithDisk(old(h.View()), h.disk, h.nextInode, h.foreign)
    ensures o.Done? ==> before.Done? && h.disk == old(h.disk) - {StageOf(p)}
    ensures calm ==> (before.Done? ==> o.Done?) && h.foreign == old(h.foreign)
  {
    hide SafeRun, Inv, StepOk, Allowed;
    if !before.Crashed? && StageOf(p) in h.disk {
      OkIsSafe(h);
      StageMayGo(h.View(), StageOf(p));
      :- RetirePath(h, calm, StageOf(p), PersistenceCode(p));
    } else {
      assert StageOf(p) !in h.disk ==> h.disk - {StageOf(p)} == h.disk;
    }
    return before;
  }

  /** `_write_marker_evidence` and `write_completion` */
  method WriteEvidence(h: Host, calm: bool, p: Path, content: Content) returns (o: Outcome)
    requires h.Ok() && IsEvidence(p) && MayPublish(h.View(), p, content)
    modifies h
    ensures h.Ok() && old(h.history) <= h.history
    ensures h.View() == WithDisk(old(h.View()), h.disk, h.nextInode, h.foreign)
    ensures o.Done? ==>
      && p !in old(h.disk)
      && (exists inode :: h.disk == (old(h.disk) - {StageOf(p)})[p := File(inode, content)])
    ensures calm ==> o == (if p in old(h.disk) then Error(CollisionCode(p)) else Done) && h.foreign == old(h.foreign)
  {
    hide SafeRun, Inv, StepOk, Allowed, MayPublish;
    var stage := StageOf(p);
    ghost var s := h.View();
    :- ReconcileStage(h, calm, p);
    if p in h.disk {
      return Error(CollisionCode(p));
    }
    ghost var inode := h.nextInode;
    assert h.disk - {stage} == s.disk - {stage};
    StagesChangeNothing(s, h.View(), p, content);
    o := Stage(h, calm, p, content);
    if o == Done {
      o := Publish(h, calm, p, content);
    }
    if o.Error? && o.code != "FIREWALL_RESTORATION_COMPLETION_FAILED" {
      o := Error(PersistenceCode(p));
    }
    o := DropStage(h, calm, p, o);
    assert o.Done? ==> h.disk == (s.disk - {stage})[p := File(inode, content)];
  }

  // ----- marker evidence -----

  function ReadLedger(d: Disk): Option<Ledger> {
    match LedgerOf(d)
    case Some(l) => if ReadableLedger(l) then Some(l) else None
    case None => None
  }

  function ReadIntent(d: Disk, l: Option<Ledger>): Option<Intent> {
    match IntentOf(d)
    case Some(i) => if l.Some? && !ValidIntent(i, l.value) then None else Some(i)
    case None => None
  }

  function ReadInstalled(d: Disk, l: Option<Ledger>, i: Option<Intent>): Option<Installed> {
    match InstalledOf(d)
    case Some(n) =>
      if (l.Some? && !ValidInstalled(n, l.value)) || (i.Some? && !SameTransaction(n, i.value)) then None else Some(n)
    case None => None
  }

  /** Beside a ledger every piece of marker evidence reads back. */
  lemma {:induction false} MarkerEvidenceReads(s: State, l: Ledger)
    requires Inv(s) && LedgerOf(s.disk) == Some(l)
    ensures IntentPath in s.disk ==> ReadIntent(s.disk, Some(l)).Some?
    ensures InstalledPath in s.disk ==>
      && IntentPath in s.disk
      && ReadInstalled(s.disk, Some(l), ReadIntent(s.disk, Some(l))).Some?
      && ReadInstalled(s.disk, Some(l), ReadIntent(s.disk, Some(l))) == InstalledOf(s.disk)
    ensures InstalledPath !in s.disk ==> InstalledOf(s.disk) == None
    ensures s.owned.Base? && IntentPath in s.disk ==> ValidateOwned(s.owned, false) == l.owned
    ensures s.owned.Marked? ==> ReadIntent(s.disk, Some(l)).Some?
  {
  }

  /** The evidence `build_marker_installed` derives from a table that has its markers. */
  function Recovered(l: Ledger, i: Intent, table: Owned): Installed
    requires table.Marked?
  {
    var marker := MarkerPart(table.interface, table.markers);
    Installed(l, i, marker, table, Overlay(l, marker, table))
  }

  lemma {:induction false} RecoveryMayBePublished(s: State, l: Ledger)
    requires Inv(s) && LedgerOf(s.disk) == Some(l) && ReadableLedger(l)
    requires s.owned.Marked? && ReadIntent(s.disk, Some(l)).Some?
    ensures
      var n := Recovered(l, ReadIntent(s.disk, Some(l)).value, s.owned);
      ValidInstalled(n, l) && MayPublish(s, InstalledPath, InstalledText(n))
  {
  }

  lemma {:induction false} WithoutStages(d: Disk, e: Disk)
    requires e - {IntentStage, InstalledStage} == d - {IntentStage, InstalledStage} && NoMarkerStages(e)
    ensures e == d - {IntentStage, InstalledStage}
    ensures e - {InstalledPath} == d - {InstalledPath, IntentStage, InstalledStage}
    ensures LedgerOf(e) == LedgerOf(d)
  {
    assert e == e - {IntentStage, InstalledStage};
    assert e - {InstalledPath} == d - {InstalledPath, IntentStage, InstalledStage};
    assert LedgerPath in e <==> LedgerPath in d;
  }

  /** `reconcile_marker_state_for_cleanup`: afterwards marker evidence and table agree,
      and the ledger is completed by the evidence on disk. */
  method ReconcileMarkerState(h: Host, calm: bool, l: Ledger, reading: Reading) returns (o: Outcome, effective: Ledger)
    requires h.Ok() && LedgerOf(h.disk) == Some(l) && ReadableLedger(l) && reading.owned == h.owned
    modifies h
    ensures h.Ok() && old(h.history) <= h.history
    ensures h.View() == WithDisk(old(h.View()), h.disk, h.nextInode, h.foreign)
    ensures o.Done? ==>
      && effective == Effective(h.disk, l)
      && (h.owned.Marked? ==> InstalledPath in h.disk)
      && h.disk - {InstalledPath} == old(h.disk) - {InstalledPath, IntentStage, InstalledStage}
    ensures calm ==> o.Done? && h.foreign == old(h.foreign)
  {
    hide SafeRun, Inv, StepOk, Allowed, MayPublish, ValidIntent, ValidInstalled, SameTransaction;
    effective := l;
    :- ReconcileMarkerStages(h, calm);
    ghost var d := h.disk;
    WithoutStages(old(h.disk), d);
    OkIsSafe(h);
    MarkerEvidenceReads(h.View(), l);
    o, effective := Done, l;
    if IntentPath !in h.disk {
      if InstalledPath in h.disk {
        o := Error("FIREWALL_MARKER_STATE_INVALID");
      }
      return;
    }
    var intent := ReadIntent(h.disk, Some(l));
    if intent == None {
      o := Error("FIREWALL_MARKER_STATE_INVALID");
      return;
    }
    if InstalledPath in h.disk {
      var installed := ReadInstalled(h.disk, Some(l), intent);
      if installed == None {
        o := Error("FIREWALL_MARKER_STATE_INVALID");
        return;
      }
      effective := Overlay(l, installed.value.marker, installed.value.combined);
      return;
    }
    if reading.owned == Absent {
      return;
    }
    var base := ValidateOwned(reading.owned, false);
    if base.Some? && base == l.owned {
      return;
    }
    var combined, marker := ValidateOwned(reading.owned, true), MarkerEntries(reading.owned);
    if combined == None || marker == None {
      o := Error("FIREWALL_MARKER_RECOVERY_FAILED");
      return;
    }
    var installed := Recovered(l, intent.value, reading.owned);
    RecoveryMayBePublished(h.View(), l);
    if !ValidInstalled(installed, l) {
      o := Error("FIREWALL_MARKER_RECOVERY_FAILED");
      return;
    }
    o := WriteEvidence(h, calm, InstalledPath, InstalledText(installed));
    if o.Error? && o.code !in {"FIREWALL_MARKER_STATE_PERSISTENCE_FAILED", "FIREWALL_MARKER_STATE_COLLISION"} {
      o := Error("FIREWALL_MARKER_RECOVERY_FAILED");
    }
    effective := Overlay(l, marker.value, combined.value);
    if o.Done? {
      assert InstalledOf(h.disk) == Some(installed);
      assert h.disk - {InstalledPath} == d - {InstalledPath};
    }
  }

  /** What is left of the marker evidence once the ledger is gone. */
  lemma {:induction false} OrphansRead(s: State)
    requires Inv(s) && LedgerPath !in s.disk && CompletionPath in s.disk
    ensures NoStages(s.disk) && CompletionOf(s.disk).Some?
    ensures IntentPath in s.disk ==> IntentOf(s.disk).Some?
    ensures InstalledPath in s.disk ==>
      InstalledOf(s.disk).Some? && ReadInstalled(s.disk, None, IntentOf(s.disk)) == InstalledOf(s.disk)
    ensures OrphansHold(s.disk, CompletionOf(s.disk).value)
  {
  }

  /** What `validate_orphan_marker_evidence` finds, once the stages are gone. */
  function OrphanVerdict(d: Disk, c: Completion): Outcome {
    var intent := if IntentPath in d then ReadIntent(d, None) else None;
    var installed := if InstalledPath in d then ReadInstalled(d, None, intent) else None;
    if (IntentPath in d && intent == None) || (InstalledPath in d && installed == None) then
      Error("FIREWALL_MARKER_STATE_INVALID")
    else if (if installed.Some? then installed.value.effective != c.ledger
             else intent.Some? && intent.value.base != c.ledger) then
      Error("FIREWALL_MARKER_STATE_INVALID")
    else Done
  }

  /** `validate_orphan_marker_evidence` */
  method ValidateOrphans(h: Host, calm: bool, c: Completion) returns (o: Outcome)
    requires h.Ok() && LedgerPath !in h.disk && CompletionOf(h.disk) == Some(c)
    modifies h
    ensures h.Ok() && old(h.history) <= h.history
    ensures h.View() == WithForeign(old(h.View()), h.foreign)
    ensures calm ==> o.Done? && o == OrphanVerdict(old(h.disk), c) && h.foreign == old(h.foreign)
  {
    hide SafeRun, Inv, StepOk, Allowed;
    OkIsSafe(h);
    OrphansRead(h.View());
    o := ReconcileMarkerStages(h, calm);
    assert h.disk == old(h.disk) by {
      assert h.disk - {IntentStage, InstalledStage} == h.disk;
      assert old(h.disk) - {IntentStage, InstalledStage} == old(h.disk);
    }
    if o != Done {
      return;
    }
    var intent, installed := None, None;
    if IntentPath in h.disk {
      intent := ReadIntent(h.disk, None);
      if intent == None {
        return Error("FIREWALL_MARKER_STATE_INVALID");
      }
    }
    if InstalledPath in h.disk {
      installed := ReadInstalled(h.disk, None, intent);
      if installed == None {
        return Error("FIREWALL_MARKER_STATE_INVALID");
      }
    }
    if installed.Some? {
      if installed.value.effective != c.ledger {
        return Error("FIREWALL_MARKER_STATE_INVALID");
      }
    } else if intent.Some? && intent.value.base != c.ledger {
      return Error("FIREWALL_MARKER_STATE_INVALID");
    }
    return Done;
  }

  /** `retire_marker_evidence`: the intent first. */
  method RetireMarkerEvidence(h: Host, calm: bool) returns (o: Outcome)
    requires h.Ok() && LedgerPath !in h.disk
    modifies h
    ensures h.Ok() && old(h.history) <= h.history
    ensures h.View() == WithDisk(old(h.View()), h.disk, old(h.nextInode), h.foreign)
    ensures o.Done? ==> h.disk == old(h.disk) - {IntentPath, InstalledPath}
    ensures calm ==> o.Done? && h.foreign == old(h.foreign)
  {
    hide SafeRun, Inv, StepOk, Allowed;
    if IntentPath in h.disk {
      OkIsSafe(h);
      IntentMayGo(h.View());
      :- RetirePath(h, calm, IntentPath, "FIREWALL_MARKER_STATE_RETIREMENT_FAILED");
    }
    if InstalledPath in h.disk {
      OkIsSafe(h);
      InstalledMayGo(h.View());
      :- RetirePath(h, calm, InstalledPath, "FIREWALL_MARKER_STATE_RETIREMENT_FAILED");
    }
    assert h.disk == old(h.disk) - {IntentPath, InstalledPath};
    return Done;
  }
}
