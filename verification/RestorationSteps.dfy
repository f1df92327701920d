/** Which steps of the protocol are allowed, one lemma a step. */
module RestorationSteps {
  import opened Wrappers
  import opened RestorationState
  import opened RestorationHost

  /** `content` may be published as the evidence `p` in state `s`. */
  predicate MayPublish(s: State, p: Path, content: Content) {
    && LedgerOf(s.disk).Some?
    && var l := LedgerOf(s.disk).value;
      && SafeNames(l.interface, l.subnet)
      && match (p, content)
         case (IntentPath, IntentText(i)) =>
           ValidIntent(i, l) && s.owned.Base?
         case (InstalledPath, InstalledText(n)) =>
           && s.owned.Marked? && IntentOf(s.disk).Some?
           && var i := IntentOf(s.disk).value;
             && ValidInstalled(n, l) && SameTransaction(n, i)
             && n.combined == i.batch && n.marker == MarkerPart(l.interface, i.markers)
         case (CompletionPath, CompletionText(c)) =>
           var n := |s.readings|;
           && s.owned == Absent && c.ledger == Effective(s.disk, l)
           && ValidCompletion(c) && StrictlyEqual(c.preimage, s.captured) && StrictlyEqual(c.postimage, s.captured)
           && n >= 2 && Matches(s.readings[n - 2], s.captured) && Matches(s.readings[n - 1], s.captured)
           && s.readings[n - 1].owned == Absent
         case _ => false
  }

  predicate IsEvidence(p: Path) {
    p == CompletionPath || p == IntentPath || p == InstalledPath
  }

  lemma {:induction false} StageMayGo(s: State, stage: Path)
    requires Inv(s) && IsStage(stage)
    ensures Allowed(s, Removed(s, stage))
  {
    hide StrictlyEqual, SafeNames, ValidIntent, ValidInstalled, SameTransaction, Overlay;
    var t := Removed(s, stage);
    assert LedgerOf(t.disk) == LedgerOf(s.disk) && CompletionOf(t.disk) == CompletionOf(s.disk)
      && IntentOf(t.disk) == IntentOf(s.disk) && InstalledOf(t.disk) == InstalledOf(s.disk);
  }

  lemma {:induction false} StageMayCome(s: State, p: Path)
    requires Inv(s) && IsEvidence(p) && LedgerPath in s.disk && p !in s.disk && StageOf(p) !in s.disk
    ensures Allowed(s, Created(s, StageOf(p)))
  {
    hide StrictlyEqual, SafeNames, ValidIntent, ValidInstalled, SameTransaction, Overlay;
  }

  lemma {:induction false} StageMayFill(s: State, p: Path, content: Content)
    requires Inv(s) && IsEvidence(p) && p !in s.disk && StageOf(p) in s.disk
    ensures Allowed(s, Filled(s, StageOf(p), content))
  {
    hide StrictlyEqual, SafeNames, ValidIntent, ValidInstalled, SameTransaction, Overlay;
  }

  lemma {:induction false} EvidenceMayCome(s: State, p: Path, content: Content)
    requires Inv(s) && IsEvidence(p) && p !in s.disk && MayPublish(s, p, content)
    requires StageOf(p) in s.disk && s.disk[StageOf(p)].content == content
    ensures Allowed(s, Linked(s, StageOf(p), p))
  {
    hide StrictlyEqual, SafeNames;
    var t := Linked(s, StageOf(p), p);
    assert LedgerOf(t.disk) == LedgerOf(s.disk);
    assert p != InstalledPath ==> InstalledOf(t.disk) == InstalledOf(s.disk);
    assert p != IntentPath ==> IntentOf(t.disk) == IntentOf(s.disk);
    assert p != CompletionPath ==> CompletionOf(t.disk) == CompletionOf(s.disk);
  }

  predicate NoStages(d: Disk) {
    CompletionStage !in d && IntentStage !in d && InstalledStage !in d
  }

  lemma {:induction false} LedgerMayGo(s: State)
    requires Inv(s) && NoStages(s.disk) && CompletionPath in s.disk
    ensures Allowed(s, Removed(s, LedgerPath))
  {
    var t := Removed(s, LedgerPath);
    assert InstalledOf(t.disk) == InstalledOf(s.disk) && IntentOf(t.disk) == IntentOf(s.disk)
      && CompletionOf(t.disk) == CompletionOf(s.disk);
  }

  lemma {:induction false} IntentMayGo(s: State)
    requires Inv(s) && LedgerPath !in s.disk
    ensures Allowed(s, Removed(s, IntentPath))
  {
  }

  lemma {:induction false} InstalledMayGo(s: State)
    requires Inv(s) && LedgerPath !in s.disk && IntentPath !in s.disk
    ensures Allowed(s, Removed(s, InstalledPath))
  {
  }

  lemma {:induction false} CompletionMayGo(s: State)
    requires Inv(s) && LedgerPath !in s.disk && IntentPath !in s.disk && InstalledPath !in s.disk
    ensures Allowed(s, Removed(s, CompletionPath))
  {
    var t := Removed(s, CompletionPath);
    forall p: Path ensures p !in t.disk {
      assert p in s.disk ==> !IsStage(p);
    }
  }

  /** The ledger `prepare` writes. */
  function FreshLedger(interface: string, subnet: string, preimage: Identity): Ledger {
    Ledger(interface, subnet, preimage, false, None, None, false, None, None)
  }

  lemma {:induction false} PreimageMayBeRecorded(s: State, interface: string, subnet: string, preimage: Identity)
    requires Inv(s) && s.disk == map[]
    ensures Allowed(s, Recorded(s, FreshLedger(interface, subnet, preimage), preimage))
  {
  }

  lemma {:induction false} InstallationMayBeRecorded(s: State, l: Ledger, installation: Identity)
    requires Inv(s) && LedgerOf(s.disk) == Some(l) && s.owned == Base(l.interface, l.subnet)
    requires IntentPath !in s.disk && InstalledPath !in s.disk
    ensures Allowed(s,
      Recorded(s, l.(installed := true, installation := Some(installation), owned := Some(s.owned)), s.captured))
  {
  }

  lemma {:induction false} TableMayCome(s: State, l: Ledger)
    requires Inv(s) && LedgerOf(s.disk) == Some(l) && SafeNames(l.interface, l.subnet)
    requires s.owned == Absent && CompletionPath !in s.disk && InstalledPath !in s.disk
    ensures Allowed(s, s.(owned := Base(l.interface, l.subnet)))
  {
  }

  lemma {:induction false} MarkersMayCome(s: State, i: Intent)
    requires Inv(s) && IntentOf(s.disk) == Some(i) && s.owned.Base?
    ensures Allowed(s, s.(owned := i.batch))
  {
  }

  lemma {:induction false} TableMayGo(s: State)
    requires Inv(s) && s.readings != [] && Matches(s.readings[|s.readings| - 1], s.captured)
    ensures Allowed(s, s.(owned := Absent))
  {
  }
}
