/**
 Files, kernel table and evidence of the firewall restoration protocol, and what
 must hold in every state it passes through.  A digest is modelled by the value it
 is taken of, and an applied batch reads back as the table it describes.
 */
module RestorationState {
  import opened Wrappers

  /** What a listing of the foreign rules is reduced to. */
  datatype Identity = Identity(text: string, semantic: string, counts: map<string, nat>)

  predicate StrictlyEqual(a: Identity, b: Identity) {
    a.text == b.text && a.counts == b.counts
  }

  predicate SemanticallyEqual(a: Identity, b: Identity) {
    a.semantic == b.semantic && a.counts == b.counts
  }

  datatype Markers = Markers(client: string, service: string, foreign: string, gateway: string, port: nat)

  /** The packet-owned table, as it is and as its digest. */
  datatype Owned =
    | Absent
    | Base(interface: string, subnet: string)
    | Marked(interface: string, subnet: string, markers: Markers)

  datatype MarkerPart = MarkerPart(interface: string, markers: Markers)

  datatype Ledger = Ledger(
    interface: string, subnet: string, preimage: Identity,
    installed: bool, installation: Option<Identity>, owned: Option<Owned>,
    markersInstalled: bool, marker: Option<MarkerPart>, combined: Option<Owned>)

  datatype Intent = Intent(base: Ledger, markers: Markers, batch: Owned)

  datatype Installed = Installed(
    base: Ledger, intent: Intent, marker: MarkerPart, combined: Owned, effective: Ledger)

  datatype Completion = Completion(ledger: Ledger, preimage: Identity, postimage: Identity)

  // ----- the validators -----

  predicate Digits(s: string, most: nat) {
    1 <= |s| <= most && forall c | c in s :: '0' <= c <= '9'
  }

  /** `SAFE_IFACE_RE` */
  predicate SafeInterface(s: string) {
    && 1 <= |s| <= 15
    && forall c | c in s :: 'a' <= c <= 'z' || 'A' <= c <= 'Z' || '0' <= c <= '9' || c in "_.-"
  }

  /** `SAFE_SUBNET_RE`: `dots` groups of up to three digits and a dot, one more group,
      a slash and up to two digits. */
  predicate SafeSubnet(s: string, dots: nat) {
    exists k | 1 <= k <= 3 && k < |s| ::
      && Digits(s[..k], 3)
      && (if dots > 0 then s[k] == '.' && SafeSubnet(s[k + 1..], dots - 1)
          else s[k] == '/' && Digits(s[k + 1..], 2))
  }

  predicate SafeNames(interface: string, subnet: string) {
    SafeInterface(interface) && SafeSubnet(subnet, 3)
  }

  /** `read_ledger` accepts it. */
  predicate ReadableLedger(l: Ledger) {
    && SafeNames(l.interface, l.subnet)
    && l.installed == l.installation.Some?
    && (l.installed ==> l.owned.Some?)
    && l.markersInstalled == (l.marker.Some? && l.combined.Some?)
  }

  /** `overlay_marker_ledger` */
  function Overlay(l: Ledger, marker: MarkerPart, combined: Owned): Ledger {
    l.(markersInstalled := true, marker := Some(marker), combined := Some(combined))
  }

  predicate ValidIntent(i: Intent, l: Ledger) {
    l.installed && !l.markersInstalled && i.base == l && i.batch == Marked(l.interface, l.subnet, i.markers)
  }

  predicate ValidInstalled(n: Installed, l: Ledger) {
    n.base == l && !l.markersInstalled && n.effective == Overlay(l, n.marker, n.combined)
  }

  predicate SameTransaction(n: Installed, i: Intent) {
    n.intent == i && n.base == i.base
  }

  predicate ValidCompletion(c: Completion) {
    StrictlyEqual(c.preimage, c.postimage)
  }

  predicate CompletionMatches(c: Completion, l: Ledger, current: Identity) {
    ValidCompletion(c) && c.ledger == l && StrictlyEqual(c.preimage, l.preimage) && StrictlyEqual(c.postimage, current)
  }

  /** `validate_owned`: the digest of a table of the expected shape. */
  function ValidateOwned(o: Owned, markers: bool): Option<Owned> {
    if (if markers then o.Marked? else o.Base?) then Some(o) else None
  }

  /** `canonical_snapshot(marker_entries(...))` */
  function MarkerEntries(o: Owned): Option<MarkerPart> {
    if o.Marked? then Some(MarkerPart(o.interface, o.markers)) else None
  }

  // ----- files -----

  datatype Path =
    | LedgerPath | CompletionPath | CompletionStage
    | IntentPath | IntentStage | InstalledPath | InstalledStage

  datatype Content =
    | Unwritten
    | LedgerText(ledger: Ledger)
    | CompletionText(completion: Completion)
    | IntentText(intent: Intent)
    | InstalledText(installed: Installed)

  datatype File = File(inode: nat, content: Content)

  type Disk = map<Path, File>

  function StageOf(p: Path): Path {
    match p
    case CompletionPath => CompletionStage
    case IntentPath => IntentStage
    case InstalledPath => InstalledStage
    case _ => p
  }

  predicate IsStage(p: Path) {
    p == CompletionStage || p == IntentStage || p == InstalledStage
  }

  function LedgerOf(d: Disk): Option<Ledger> {
    if LedgerPath in d && d[LedgerPath].content.LedgerText? then Some(d[LedgerPath].content.ledger) else None
  }

  function CompletionOf(d: Disk): Option<Completion> {
    if CompletionPath in d && d[CompletionPath].content.CompletionText? then
      Some(d[CompletionPath].content.completion) else None
  }

  function IntentOf(d: Disk): Option<Intent> {
    if IntentPath in d && d[IntentPath].content.IntentText? then Some(d[IntentPath].content.intent) else None
  }

  function InstalledOf(d: Disk): Option<Installed> {
    if InstalledPath in d && d[InstalledPath].content.InstalledText? then
      Some(d[InstalledPath].content.installed) else None
  }

  /** The ledger as `reconcile_marker_state_for_cleanup` completes it. */
  function Effective(d: Disk, l: Ledger): Ledger {
    match InstalledOf(d)
    case None => l
    case Some(n) => Overlay(l, n.marker, n.combined)
  }

  // ----- states -----

  /** One `nft list ruleset`. */
  datatype Reading = Reading(owned: Owned, foreign: Identity)

  datatype State = State(
    disk: Disk, nextInode: nat, owned: Owned, foreign: Identity,
    // the foreign rules that `prepare` recorded, and every reading so far
    captured: Identity, readings: seq<Reading>)

  /** Each final file holds what its name says; a stage next to a final file is
      the same file. */
  predicate FilesHold(d: Disk, nextInode: nat) {
    && (forall p :: p in d ==> d[p].inode < nextInode)
    && (LedgerPath in d ==> LedgerOf(d).Some?)
    && (CompletionPath in d ==> CompletionOf(d).Some?)
    && (IntentPath in d ==> IntentOf(d).Some?)
    && (InstalledPath in d ==> InstalledOf(d).Some?)
    && (CompletionPath in d && CompletionStage in d ==> d[CompletionPath].inode == d[CompletionStage].inode)
    && (IntentPath in d && IntentStage in d ==> d[IntentPath].inode == d[IntentStage].inode)
    && (InstalledPath in d && InstalledStage in d ==> d[InstalledPath].inode == d[InstalledStage].inode)
  }

  /** A ledger on disk records the captured rules, never claims markers, and can be
      read once anything else depends on it. */
  predicate LedgerHolds(s: State, l: Ledger) {
    && l.preimage == s.captured
    && (l.installed || s.owned != Absent || CompletionPath in s.disk ==> SafeNames(l.interface, l.subnet))
    && !l.markersInstalled && l.marker == None && l.combined == None
    && (if l.installed then l.installation.Some? && l.owned == Some(Base(l.interface, l.subnet))
        else l.installation == None && l.owned == None)
    && match s.owned
       case Absent => true
       case Base(i, n) => i == l.interface && n == l.subnet && InstalledPath !in s.disk
       case Marked(i, n, m) =>
         && i == l.interface && n == l.subnet
         && IntentOf(s.disk).Some? && IntentOf(s.disk).value.markers == m
  }

  predicate MarkersHold(d: Disk, l: Ledger) {
    && (IntentPath in d ==> IntentOf(d).Some? && ValidIntent(IntentOf(d).value, l))
    && (InstalledPath in d ==>
          && IntentOf(d).Some? && InstalledOf(d).Some?
          && var i, n := IntentOf(d).value, InstalledOf(d).value;
            && ValidInstalled(n, l) && SameTransaction(n, i)
            && n.combined == i.batch && n.marker == MarkerPart(l.interface, i.markers))
  }

  /** Evidence left behind after the ledger was retired, in retirement order. */
  predicate OrphansHold(d: Disk, c: Completion) {
    match InstalledOf(d)
    case Some(n) =>
      && n.effective == c.ledger && n.effective.markersInstalled
      && (IntentOf(d).Some? ==> SameTransaction(n, IntentOf(d).value) && !IntentOf(d).value.base.markersInstalled)
    case None => IntentOf(d).Some? ==> IntentOf(d).value.base == c.ledger
  }

  /** What holds in every state, whatever the foreign rules are. */
  predicate Inv(s: State) {
    && FilesHold(s.disk, s.nextInode)
    && (LedgerPath in s.disk ==>
          LedgerOf(s.disk).Some? && LedgerHolds(s, LedgerOf(s.disk).value) && MarkersHold(s.disk, LedgerOf(s.disk).value))
    && (LedgerPath !in s.disk ==>
          && s.owned == Absent
          && (forall p :: p in s.disk ==> !IsStage(p))
          && (CompletionPath !in s.disk ==> s.disk == map[]))
    && (CompletionPath in s.disk ==>
          && CompletionOf(s.disk).Some?
          && var c := CompletionOf(s.disk).value;
            && s.owned == Absent && ValidCompletion(c)
            && StrictlyEqual(c.preimage, s.captured) && StrictlyEqual(c.postimage, s.captured)
            && (LedgerOf(s.disk).Some? ==> c.ledger == Effective(s.disk, LedgerOf(s.disk).value))
            && (LedgerPath !in s.disk ==> OrphansHold(s.disk, c)))
  }

  predicate HasEvidence(d: Disk) {
    LedgerPath in d || CompletionPath in d
  }

  /** A reading that shows the captured foreign rules. */
  predicate Matches(r: Reading, captured: Identity) {
    StrictlyEqual(r.foreign, captured)
  }

  /** What one atomic step may do. */
  predicate StepOk(s: State, t: State) {
    var n := |t.readings|;
    && s.readings <= t.readings
    // the recorded preimage is immutable: only a new ledger on an empty disk sets it
    && (t.captured != s.captured ==> s.disk == map[] && LedgerOf(t.disk).Some?)
    && (LedgerOf(s.disk).Some? && LedgerOf(t.disk).Some? ==>
          var l, m := LedgerOf(s.disk).value, LedgerOf(t.disk).value;
          m.preimage == l.preimage && m.interface == l.interface && m.subnet == l.subnet)
    // evidence disappears only with the very last file
    && (HasEvidence(s.disk) && !HasEvidence(t.disk) ==> CompletionPath in s.disk && t.disk == map[] && t.owned == Absent)
    // a completion appears only after two strict readings, the second one clean
    && (CompletionPath !in s.disk && CompletionPath in t.disk ==>
          && n >= 2 && Matches(t.readings[n - 2], t.captured) && Matches(t.readings[n - 1], t.captured)
          && t.readings[n - 1].owned == Absent && LedgerOf(t.disk).Some?)
    // the table is deleted only after a strict reading
    && (s.owned != Absent && t.owned == Absent ==> n >= 1 && Matches(t.readings[n - 1], t.captured))
    // markers are applied only after their intent is on disk
    && (!s.owned.Marked? && t.owned.Marked? ==> IntentOf(s.disk).Some?)
  }

  /** Every state of a run satisfies the invariant and every step is allowed. */
  ghost predicate SafeRun(h: seq<State>) {
    && (forall i :: 0 <= i < |h| ==> Inv(h[i]))
    && (forall i :: 0 < i < |h| ==> StepOk(h[i - 1], h[i]))
  }

  lemma {:induction false} SafeRunExtends(h: seq<State>, s: State)
    requires SafeRun(h) && h != [] && Inv(s) && StepOk(h[|h| - 1], s)
    ensures SafeRun(h + [s])
  {
    hide Inv, StepOk;
  }
}
