/** `prepare`, `install`, `install_markers` and the two counter queries. */
module RestorationCommands {
  import opened Wrappers
  import opened RestorationState
  import opened RestorationHost
  import opened RestorationSteps
  import opened RestorationProtocol
  import opened RestorationRemoval

  predicate NoEvidenceFiles(d: Disk) {
    NoStages(d) && CompletionPath !in d && IntentPath !in d && InstalledPath !in d
  }

  lemma {:induction false} NothingElse(d: Disk)
    requires NoEvidenceFiles(d)
    ensures LedgerPath !in d ==> d == map[]
    ensures LedgerPath in d ==> d.Keys == {LedgerPath}
  {
    forall p: Path ensures p in d ==> p == LedgerPath {
      match p {
        case LedgerPath => case CompletionPath => case CompletionStage => case IntentPath =>
        case IntentStage => case InstalledPath => case InstalledStage =>
      }
    }
  }

  /** `prepare`: only on an empty disk, and what it records is what it read. */
  method Prepare(h: Host, calm: bool, interface: string, subnet: string) returns (o: Outcome)
    requires h.Ok()
    modifies h
    ensures h.Ok() && old(h.history) <= h.history
    ensures o.Done? ==>
      && old(h.disk) == map[] && h.owned == Absent && h.disk.Keys == {LedgerPath}
      && LedgerOf(h.disk) == Some(FreshLedger(interface, subnet, h.captured))
      && h.readings == old(h.readings) + [Reading(Absent, h.captured)]
    ensures !o.Done? ==> h.View() == old(h.View()).(foreign := h.foreign, readings := h.readings)
    ensures calm ==> h.foreign == old(h.foreign)
    ensures calm ==> (o.Done? <==> old(h.disk) == map[]) && (o.Done? ==> h.captured == h.foreign)
    ensures calm && !o.Done? ==> o == Error("FIREWALL_LEDGER_COLLISION")
  {
    hide SafeRun, Inv, StepOk, Allowed;
    if LedgerPath in h.disk || !NoEvidenceFiles(h.disk) {
      return Error("FIREWALL_LEDGER_COLLISION");
    }
    NothingElse(h.disk);
    OkIsSafe(h);
    NoLedgerNoTable(h.View());
    var reading :- h.Read(calm);
    if reading.owned != Absent {
      return Error("FIREWALL_TABLE_COLLISION");
    }
    OkIsSafe(h);
    PreimageMayBeRecorded(h.View(), interface, subnet, reading.foreign);
    o := h.WriteLedger(calm, FreshLedger(interface, subnet, reading.foreign), reading.foreign);
  }

  /** The command `install` accepts this state. */
  predicate Installable(s: State, interface: string, subnet: string) {
    && s.disk.Keys == {LedgerPath} && ReadLedger(s.disk).Some? && s.owned == Absent
    && var l := ReadLedger(s.disk).value; l.interface == interface && l.subnet == subnet && !l.installed
  }

  lemma {:induction false} FreshLedgerIsBlank(s: State, l: Ledger)
    requires Inv(s) && LedgerOf(s.disk) == Some(l) && !l.installed
    ensures l == FreshLedger(l.interface, l.subnet, l.preimage)
  {
  }

  /** `install`: apply the base table, read it back, record the installation. */
  method Install(h: Host, calm: bool, interface: string, subnet: string) returns (o: Outcome)
    requires h.Ok()
    modifies h
    ensures h.Ok() && old(h.history) <= h.history
    ensures o.Done? ==>
      && Installable(old(h.View()), interface, subnet)
      && h.owned == Base(interface, subnet) && h.disk.Keys == {LedgerPath} && h.readings != []
      && var l := LedgerOf(old(h.disk)).value;
        exists i ::
          LedgerOf(h.disk) == Some(l.(installed := true, installation := Some(i), owned := Some(h.owned)))
          && StrictlyEqual(h.readings[|h.readings| - 1].foreign, i)
    ensures calm ==> h.foreign == old(h.foreign) && (o.Done? <==> Installable(old(h.View()), interface, subnet))
  {
    hide SafeRun, Inv, StepOk, Allowed, SafeNames, StrictlyEqual;
    if !NoEvidenceFiles(h.disk) {
      return Error("FIREWALL_LEDGER_COLLISION");
    }
    NothingElse(h.disk);
    var read := ReadLedger(h.disk);
    if read == None {
      return Error("FIREWALL_LEDGER_INVALID");
    }
    var l := read.value;
    OkIsSafe(h);
    if !l.installed {
      FreshLedgerIsBlank(h.View(), l);
    }
    if l.interface != interface || l.subnet != subnet || l != FreshLedger(interface, subnet, l.preimage) {
      return Error("FIREWALL_LEDGER_INVALID");
    }
    var before :- h.Read(calm);
    if before.owned != Absent {
      return Error("FIREWALL_TABLE_COLLISION");
    }
    o := h.Tick(calm);
    if o != Done {
      return if o.Error? then Error("FIREWALL_ATOMIC_CHECK_FAILED") else o;
    }
    o := ApplyBase(h, calm, l, before);
  }

  /** The installation proper. */
  method ApplyBase(h: Host, calm: bool, l: Ledger, before: Reading) returns (o: Outcome)
    requires h.Ok() && ReadLedger(h.disk) == Some(l) && !l.installed && h.owned == Absent && h.disk.Keys == {LedgerPath}
    modifies h
    ensures h.Ok() && old(h.history) <= h.history
    ensures o.Done? ==>
      && h.owned == Base(l.interface, l.subnet) && h.disk.Keys == {LedgerPath} && h.readings != []
      && LedgerOf(h.disk) ==
           Some(l.(installed := true, installation := Some(before.foreign), owned := Some(h.owned)))
      && StrictlyEqual(h.readings[|h.readings| - 1].foreign, before.foreign)
    ensures calm ==> h.foreign == old(h.foreign) && (before.foreign == h.foreign ==> o.Done?)
  {
    hide SafeRun, Inv, StepOk, Allowed, SafeNames, StrictlyEqual;
    OkIsSafe(h);
    TableMayCome(h.View(), l);
    o := h.Apply(calm, Base(l.interface, l.subnet));
    if o != Done {
      return if o.Error? then Error("FIREWALL_ATOMIC_INSTALL_FAILED") else o;
    }
    var after :- h.Read(calm);
    var shape := ValidateOwned(after.owned, false);
    if shape == None {
      return Error("FIREWALL_INSTALLATION_MISMATCH");
    }
    if !StrictlyEqual(after.foreign, before.foreign) {
      StrictlyEqualIsReflexive(after.foreign);
      return Error("FIREWALL_FOREIGN_STATE_DRIFT");
    }
    OkIsSafe(h);
    InstallationMayBeRecorded(h.View(), l, before.foreign);
    o := h.WriteLedger(
      calm, l.(installed := true, installation := Some(before.foreign), owned := shape), h.captured);
  }

  lemma {:induction false} StrictlyEqualIsReflexive(a: Identity)
    ensures StrictlyEqual(a, a)
  {
  }

  /** The command `install_markers` gets as far as its final stop. */
  predicate Markable(s: State) {
    && NoMarkerStages(s.disk) && IntentPath !in s.disk && InstalledPath !in s.disk
    && ReadLedger(s.disk).Some? && ReadLedger(s.disk).value.installed && s.owned.Base?
  }

  lemma {:induction false} InstalledBaseIsRecorded(s: State, l: Ledger)
    requires Inv(s) && LedgerOf(s.disk) == Some(l) && l.installed
    ensures !l.markersInstalled && l.owned.Some? && l.owned.value.Base?
    ensures s.owned.Base? ==> ValidateOwned(s.owned, false) == l.owned
  {
  }

  lemma {:induction false} IntentMayBePublished(s: State, l: Ledger, markers: Markers)
    requires Inv(s) && LedgerOf(s.disk) == Some(l) && ReadableLedger(l) && l.installed && s.owned.Base?
    ensures
      var i := Intent(l, markers, Marked(l.interface, l.subnet, markers));
      ValidIntent(i, l) && MayPublish(s, IntentPath, IntentText(i))
  {
  }

  /** `install_markers` always stops: the intent is on disk before the markers are
      applied, and the evidence of what was installed before anything is compared. */
  method InstallMarkers(h: Host, calm: bool, markers: Markers, identityValid: bool, matched: bool) returns (o: Outcome)
    requires h.Ok()
    modifies h
    ensures h.Ok() && old(h.history) <= h.history
    ensures !o.Done?
    ensures calm ==> h.foreign == old(h.foreign)
    ensures calm && Markable(old(h.View())) && identityValid ==>
      && o == Error(if matched then "FIREWALL_DIAGNOSTIC_STOP_MATCHED_SHAPE" else "FIREWALL_MARKER_INSTALLATION_MISMATCH")
      && h.owned.Marked? && h.owned.markers == markers
      && IntentPath in h.disk && InstalledPath in h.disk && LedgerOf(h.disk) == LedgerOf(old(h.disk))
    ensures calm && !(Markable(old(h.View())) && identityValid) ==> h.owned == old(h.owned) && h.disk == old(h.disk)
  {
    hide SafeRun, Inv, StepOk, Allowed, SafeNames, StrictlyEqual, MayPublish, ValidInstalled;
    var read := ReadLedger(h.disk);
    if read == None || !read.value.installed {
      return Error("FIREWALL_LEDGER_INVALID");
    }
    var l := read.value;
    OkIsSafe(h);
    InstalledBaseIsRecorded(h.View(), l);
    if l.markersInstalled {
      return Error("FIREWALL_MARKER_COLLISION");
    }
    if IntentPath in h.disk || InstalledPath in h.disk || !NoMarkerStages(h.disk) {
      return Error("FIREWALL_MARKER_STATE_COLLISION");
    }
    if !identityValid {
      return Error("FIREWALL_MARKER_IDENTITY_INVALID");
    }
    o := h.Tick(calm);
    if o != Done {
      return if o.Error? then Error("FIREWALL_MARKER_ATOMIC_CHECK_FAILED") else o;
    }
    var before :- h.Read(calm);
    var shape := ValidateOwned(before.owned, false);
    if shape == None || shape != l.owned {
      return Error("FIREWALL_INSTALLATION_MISMATCH");
    }
    o := ApplyMarkers(h, calm, l, markers, before);
    if o == Done {
      return Error(if matched then "FIREWALL_DIAGNOSTIC_STOP_MATCHED_SHAPE" else "FIREWALL_MARKER_INSTALLATION_MISMATCH");
    }
  }

  /** The marker transaction proper. */
  method ApplyMarkers(h: Host, calm: bool, l: Ledger, markers: Markers, before: Reading) returns (o: Outcome)
    requires h.Ok() && ReadLedger(h.disk) == Some(l) && l.installed && h.owned.Base?
    requires NoMarkerStages(h.disk) && IntentPath !in h.disk && InstalledPath !in h.disk
    modifies h
    ensures h.Ok() && old(h.history) <= h.history
    ensures o.Done? ==>
      && h.owned.Marked? && h.owned.markers == markers
      && IntentPath in h.disk && InstalledPath in h.disk && LedgerOf(h.disk) == LedgerOf(old(h.disk))
    ensures calm ==> h.foreign == old(h.foreign) && (before.foreign == h.foreign ==> o.Done?)
  {
    hide SafeRun, Inv, StepOk, Allowed, SafeNames, StrictlyEqual, MayPublish, ValidInstalled;
    var i := Intent(l, markers, Marked(l.interface, l.subnet, markers));
    OkIsSafe(h);
    IntentMayBePublished(h.View(), l, markers);
    :- WriteEvidence(h, calm, IntentPath, IntentText(i));
    assert IntentOf(h.disk) == Some(i) && LedgerOf(h.disk) == Some(l);
    OkIsSafe(h);
    MarkersMayCome(h.View(), i);
    o := h.Apply(calm, i.batch);
    if o != Done {
      return if o.Error? then Error("FIREWALL_MARKER_ATOMIC_INSTALL_FAILED") else o;
    }
    o := RecordMarkers(h, calm, l, markers, before);
  }

  /** Read the applied markers back and record them. */
  method RecordMarkers(h: Host, calm: bool, l: Ledger, markers: Markers, before: Reading) returns (o: Outcome)
    requires h.Ok() && LedgerOf(h.disk) == Some(l) && ReadableLedger(l) && InstalledPath !in h.disk
    requires h.owned == Marked(l.interface, l.subnet, markers)
    requires IntentOf(h.disk) == Some(Intent(l, markers, h.owned))
    modifies h
    ensures h.Ok() && old(h.history) <= h.history && h.owned == old(h.owned)
    ensures o.Done? ==>
      IntentPath in h.disk && InstalledPath in h.disk && LedgerOf(h.disk) == LedgerOf(old(h.disk))
    ensures calm ==> h.foreign == old(h.foreign) && (before.foreign == h.foreign ==> o.Done?)
  {
    hide SafeRun, Inv, StepOk, Allowed, SafeNames, StrictlyEqual, MayPublish, ValidInstalled, ReadableLedger;
    var i := Intent(l, markers, h.owned);
    OkIsSafe(h);
    MarkerEvidenceReads(h.View(), l);
    var after :- h.Read(calm);
    if !after.owned.Marked? {
      return Error("FIREWALL_MARKER_INSTALLATION_MISMATCH");
    }
    var installed := Recovered(l, i, after.owned);
    OkIsSafe(h);
    RecoveryMayBePublished(h.View(), l);
    :- WriteEvidence(h, calm, InstalledPath, InstalledText(installed));
    if !StrictlyEqual(after.foreign, before.foreign) {
      StrictlyEqualIsReflexive(after.foreign);
      return Error("FIREWALL_FOREIGN_STATE_DRIFT");
    }
    o := h.Tick(calm);
  }

  /** `read_effective_ledger`: an intent without its outcome is pending. */
  method ReadEffectiveLedger(h: Host, calm: bool) returns (o: Outcome, effective: Option<Ledger>)
    requires h.Ok()
    modifies h
    ensures h.Ok() && old(h.history) <= h.history
    ensures h.View() == WithDisk(old(h.View()), h.disk, old(h.nextInode), h.foreign)
    ensures h.disk - {IntentStage, InstalledStage} == old(h.disk) - {IntentStage, InstalledStage}
    ensures o.Done? ==>
      && ReadLedger(old(h.disk)).Some?
      && effective == Some(Effective(h.disk, ReadLedger(old(h.disk)).value))
      && (IntentPath in h.disk <==> InstalledPath in h.disk) && NoMarkerStages(h.disk)
    ensures calm ==>
      && h.foreign == old(h.foreign)
      && (o.Done? <==> ReadLedger(old(h.disk)).Some? && (IntentPath in old(h.disk) <==> InstalledPath in old(h.disk)))
  {
    hide SafeRun, Inv, StepOk, Allowed, ReadableLedger, ValidIntent, ValidInstalled, SameTransaction;
    o, effective := Done, None;
    var read := ReadLedger(h.disk);
    if read == None {
      o := Error("FIREWALL_LEDGER_INVALID");
      return;
    }
    var l := read.value;
    ghost var d := h.disk;
    :- ReconcileMarkerStages(h, calm);
    WithoutStages(d, h.disk);
    OkIsSafe(h);
    MarkerEvidenceReads(h.View(), l);
    if InstalledPath !in h.disk {
      if IntentPath in h.disk {
        o := Error(if ReadIntent(h.disk, Some(l)).Some? then "FIREWALL_MARKER_STATE_PENDING"
                   else "FIREWALL_MARKER_STATE_INVALID");
        return;
      }
      effective := Some(l);
      return;
    }
    var intent := ReadIntent(h.disk, Some(l));
    var installed := ReadInstalled(h.disk, Some(l), intent);
    if IntentPath !in h.disk || intent == None || installed == None {
      o := Error("FIREWALL_MARKER_STATE_INVALID");
      return;
    }
    effective := Some(Overlay(l, installed.value.marker, installed.value.combined));
  }

  /** `counters` and `marker_counters`, up to reading the counters themselves. */
  method Counters(h: Host, calm: bool, markers: bool) returns (o: Outcome)
    requires h.Ok()
    modifies h
    ensures h.Ok() && old(h.history) <= h.history
    ensures h.disk - {IntentStage, InstalledStage} == old(h.disk) - {IntentStage, InstalledStage}
    ensures h.owned == old(h.owned) && h.captured == old(h.captured)
    ensures calm ==>
      && h.foreign == old(h.foreign)
      && (o.Done? <==>
            && ReadLedger(old(h.disk)).Some? && ReadLedger(old(h.disk)).value.installed
            && (IntentPath in old(h.disk) <==> InstalledPath in old(h.disk))
            && (markers ==> InstalledPath in old(h.disk))
            && h.owned != Absent)
  {
    hide SafeRun, Inv, StepOk, Allowed, Effective, ReadableLedger, RecordedOwned;
    ghost var d := h.disk;
    var effective :- ReadEffectiveLedger(h, calm);
    ghost var l := ReadLedger(d).value;
    WithoutStages(d, h.disk);
    EffectiveKeeps(h.disk, l);
    OkIsSafe(h);
    MarkersAreRecorded(h.View(), l);
    if !effective.value.installed || (markers && !effective.value.markersInstalled) {
      return Error(if markers then "FIREWALL_MARKER_LEDGER_INVALID" else "FIREWALL_LEDGER_INVALID");
    }
    var reading :- h.Read(calm);
    OkIsSafe(h);
    RecordedOwnedIsCurrent(h.View(), l);
    if !RecordedOwned(effective.value, reading.owned) {
      return Error(ShapeCode(effective.value, reading.owned));
    }
    return Done;
  }

  lemma {:induction false} RecordedOwnedIsCurrent(s: State, l: Ledger)
    requires Inv(s) && LedgerOf(s.disk) == Some(l) && l.installed
    requires IntentPath in s.disk <==> InstalledPath in s.disk
    ensures RecordedOwned(Effective(s.disk, l), s.owned) <==> s.owned != Absent
  {
  }

  lemma {:induction false} MarkersAreRecorded(s: State, l: Ledger)
    requires Inv(s) && LedgerOf(s.disk) == Some(l)
    requires IntentPath in s.disk <==> InstalledPath in s.disk
    ensures Effective(s.disk, l).markersInstalled <==> InstalledPath in s.disk
    ensures s.owned.Marked? ==> InstalledPath in s.disk
  {
  }
}
