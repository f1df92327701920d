/** Whole runs: any commands, interrupted anywhere, and the recovery that follows. */
module RestorationRuns {
  import opened Wrappers
  import opened RestorationState
  import opened RestorationHost
  import opened RestorationSteps
  import opened RestorationProtocol
  import opened RestorationRemoval
  import opened RestorationCommands

  datatype Command =
    | PrepareCommand(interface: string, subnet: string)
    | InstallCommand(interface: string, subnet: string)
    | MarkersCommand(markers: Markers, identityValid: bool, matched: bool)
    | CountersCommand(ofMarkers: bool)
    | RemoveCommand

  method Execute(h: Host, calm: bool, c: Command) returns (o: Outcome)
    requires h.Ok()
    modifies h
    ensures h.Ok() && old(h.history) <= h.history
  {
    hide SafeRun, Inv, StepOk, Allowed;
    match c {
      case PrepareCommand(interface, subnet) => o := Prepare(h, calm, interface, subnet);
      case InstallCommand(interface, subnet) => o := Install(h, calm, interface, subnet);
      case MarkersCommand(markers, valid, matched) => o := InstallMarkers(h, calm, markers, valid, matched);
      case CountersCommand(ofMarkers) => o := Counters(h, calm, ofMarkers);
      case RemoveCommand => o := Remove(h, calm);
    }
  }

  /** Any commands on a fresh host, with drift, failures and crashes between any steps. */
  method Session(foreign: Identity, commands: seq<Command>) returns (h: Host, outcomes: seq<Outcome>)
    ensures fresh(h) && h.Ok() && |outcomes| == |commands|
    ensures h.history != [] && h.history[0] == State(map[], 0, Absent, foreign, foreign, [])
  {
    hide SafeRun, Inv, StepOk, Allowed;
    h := new Host(foreign);
    outcomes := [];
    ghost var start := h.history;
    assert start[0] == h.View();
    for i := 0 to |commands|
      invariant fresh(h) && h.Ok() && start <= h.history && |outcomes| == i
      invariant h.history[0] == State(map[], 0, Absent, foreign, foreign, [])
    {
      var o := Execute(h, false, commands[i]);
      outcomes := outcomes + [o];
    }
  }

  /** At most two uninterrupted removals leave nothing behind, exactly from the
      recoverable states. */
  method Recover(h: Host) returns (o: Outcome)
    requires h.Ok()
    modifies h
    ensures h.Ok() && old(h.history) <= h.history
    ensures o.Done? <==> Recoverable(old(h.View()))
    ensures o.Done? ==> h.disk == map[] && h.owned == Absent && h.foreign == old(h.foreign)
  {
    hide SafeRun, Inv, StepOk, Allowed, StrictlyEqual, SafeNames;
    o := Remove(h, true);
    if o.Done? && CompletionPath in h.disk {
      assert LedgerPath !in h.disk && LedgerOf(h.disk) == None;
      assert Recoverable(h.View());
      o := Remove(h, true);
    }
  }

  // ----- what every run keeps -----

  lemma {:induction false} SafeAt(h: seq<State>, i: nat)
    requires SafeRun(h) && i < |h|
    ensures Inv(h[i]) && (i > 0 ==> StepOk(h[i - 1], h[i]))
  {
    hide Inv, StepOk;
  }

  /** A table in the kernel always has its readable ledger, which records the preimage. */
  lemma {:induction false} TableHasItsLedger(h: seq<State>, i: nat)
    requires SafeRun(h) && i < |h| && h[i].owned != Absent
    ensures LedgerPath in h[i].disk && CompletionPath !in h[i].disk && ReadLedger(h[i].disk).Some?
    ensures ReadLedger(h[i].disk).value.preimage == h[i].captured
  {
    SafeAt(h, i);
    LedgerReads(h[i]);
  }

  /** The last step that leaves a disk without files. */
  ghost predicate LastUnlink(h: seq<State>, k: nat) {
    0 < k < |h| && CompletionPath in h[k - 1].disk && h[k].disk == map[] && h[k].owned == Absent
  }

  /** Evidence goes only with the last file, and until then the preimage never changes. */
  lemma {:induction false} EvidenceIsNeverLost(h: seq<State>, i: nat, j: nat)
    requires SafeRun(h) && i <= j < |h| && HasEvidence(h[i].disk)
    ensures
      || (exists k :: i < k <= j && LastUnlink(h, k))
      || (&& HasEvidence(h[j].disk) && h[j].captured == h[i].captured
          && (LedgerOf(h[j].disk).Some? ==> LedgerOf(h[j].disk).value.preimage == h[i].captured))
    decreases j
  {
    hide SafeRun, StrictlyEqual, SafeNames, Effective;
    SafeAt(h, j);
    if i < j {
      EvidenceIsNeverLost(h, i, j - 1);
      if HasEvidence(h[j - 1].disk) && !HasEvidence(h[j].disk) {
        assert LastUnlink(h, j);
      }
    }
  }

  /** A completion published at step `k`, after two strict readings of the preimage. */
  ghost predicate Published(h: seq<State>, k: nat) {
    && 0 < k < |h| && CompletionPath !in h[k - 1].disk && CompletionPath in h[k].disk
    && var n := |h[k].readings|;
      && n >= 2 && Matches(h[k].readings[n - 2], h[k].captured) && Matches(h[k].readings[n - 1], h[k].captured)
      && h[k].readings[n - 1].owned == Absent
  }

  /** Wherever a completion exists the table is absent, the postimage is the preimage,
      and both had been read before it was published. */
  lemma {:induction false} CompletionIsSound(h: seq<State>, j: nat)
    requires SafeRun(h) && j < |h| && CompletionPath !in h[0].disk && CompletionPath in h[j].disk
    ensures h[j].owned == Absent && CompletionOf(h[j].disk).Some?
    ensures
      var c := CompletionOf(h[j].disk).value;
      StrictlyEqual(c.preimage, h[j].captured) && StrictlyEqual(c.postimage, h[j].captured)
    ensures exists k :: 0 <= k <= j && Published(h, k) && h[k].captured == h[j].captured
    decreases j
  {
    hide SafeRun, StrictlyEqual, SafeNames, Effective;
    SafeAt(h, j);
    CompletionReads(h[j]);
    if CompletionPath in h[j - 1].disk {
      CompletionIsSound(h, j - 1);
      var k :| 0 <= k <= j - 1 && Published(h, k) && h[k].captured == h[j - 1].captured;
      assert h[j].captured == h[j - 1].captured;
    } else {
      assert Published(h, j);
    }
  }

  // ----- two edges of the protocol -----

  /** With both pieces of marker evidence left beside a completion, a removal that was
      interrupted after retiring the intent can be finished, on the captured rules; one
      that had retired the installed record first would be refused for ever. */
  lemma {:induction false} ReverseRetirementIsUnsafe(s: State, reading: Reading)
    requires Inv(s) && LedgerPath !in s.disk && IntentPath in s.disk && InstalledPath in s.disk
    requires reading.owned == Absent && Matches(reading, s.captured)
    ensures Inv(Removed(s, IntentPath)) && !Inv(Removed(s, InstalledPath))
    ensures OrphanedVerdict(Removed(s, IntentPath).disk, reading) == Done
    ensures OrphanedVerdict(Removed(s, InstalledPath).disk, reading) == Error("FIREWALL_MARKER_STATE_INVALID")
  {
    IntentMayGo(s);
    var t := Removed(s, InstalledPath);
    assert IntentOf(t.disk) == IntentOf(s.disk) && CompletionOf(t.disk) == CompletionOf(s.disk);
    assert InstalledOf(t.disk) == None;
    var u := Removed(s, IntentPath);
    assert InstalledOf(u.disk) == InstalledOf(s.disk) && CompletionOf(u.disk) == CompletionOf(s.disk);
  }

  /** `prepare` does not check the names it records, `read_ledger` does: with an unsafe
      interface the evidence exists, nothing drifted, and no removal can succeed. */
  lemma {:induction false} UnsafeNamesBlockRemoval(foreign: Identity)
    ensures
      var l := FreshLedger("docker 0", "10.0.0.0/24", foreign);
      var s := State(map[LedgerPath := File(0, LedgerText(l))], 1, Absent, foreign, foreign, []);
      && Allowed(State(map[], 0, Absent, foreign, foreign, []), s)
      && HasEvidence(s.disk) && StrictlyEqual(s.foreign, s.captured) && !Recoverable(s)
  {
    var l := FreshLedger("docker 0", "10.0.0.0/24", foreign);
    var s := State(map[LedgerPath := File(0, LedgerText(l))], 1, Absent, foreign, foreign, []);
    var empty := State(map[], 0, Absent, foreign, foreign, []);
    PreimageMayBeRecorded(empty, l.interface, l.subnet, foreign);
    assert Recorded(empty, l, foreign) == s;
    assert l.interface[6] == ' ' && ' ' in l.interface;
    assert LedgerOf(s.disk) == Some(l);
  }

  /** Only a ledger fresh from `prepare` can be unreadable: nothing was applied yet. */
  lemma {:induction false} UnsafeLedgerIsFresh(s: State, l: Ledger)
    requires Inv(s) && LedgerOf(s.disk) == Some(l) && !SafeNames(l.interface, l.subnet)
    ensures s.owned == Absent && CompletionPath !in s.disk && l == FreshLedger(l.interface, l.subnet, s.captured)
  {
  }
}
