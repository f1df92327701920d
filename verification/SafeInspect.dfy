/** The inspection with its fallback, and the diagnostic it leaves when it fails. */
module SafeInspect {
  import opened Wrappers
  import opened InspectGroups

  /** Which template a `docker inspect` is run with. */
  datatype Template = FullTemplate | AvailabilityTemplate | GroupTemplate(group: Group)

  datatype ParseClass = ValidObject | InvalidUtf8 | JsonSyntax | DuplicateKey | ToplevelType

  /** The end of a command: its exit code and what its output parses to. */
  datatype Completed = Completed(
    returncode: int, parse: ParseClass, payload: Payload,
    stdoutBytes: nat, stdoutLines: nat, stderrBytes: nat, stderrLines: nat)

  datatype ExitClass = ZeroExit | NonzeroExit | SignalExit

  function ExitClassOf(code: int): ExitClass {
    if code == 0 then ZeroExit else if code < 0 then SignalExit else NonzeroExit
  }

  datatype Terminal =
    | ObjectUnavailable | GroupFailed(group: Group) | InvalidUtf8Output | JsonRejected | DuplicateKeyRejected
    | ToplevelRejected | CompositionFailed

  datatype Diagnostic = Diagnostic(
    terminal: Terminal, attempt: int, exitClass: ExitClass, exitCode: int,
    stdoutBytes: nat, stdoutLines: nat, stderrBytes: nat, stderrLines: nat,
    utf8Valid: bool, parse: ParseClass, firstFailed: Option<Group>, succeeded: nat)

  /** `_diagnostic_envelope`, without the digests, which are computed from the rest. */
  function Envelope(c: Completed, attempt: int, terminal: Terminal, firstFailed: Option<Group>, succeeded: nat): Diagnostic {
    Diagnostic(terminal, attempt, ExitClassOf(c.returncode), c.returncode,
      c.stdoutBytes, c.stdoutLines, c.stderrBytes, c.stderrLines,
      c.parse != InvalidUtf8, c.parse, firstFailed, succeeded)
  }

  function GroupIndex(g: Group): nat {
    match g
    case IdentityConfig => 0
    case HostConfigSecurityTmpfs => 1
    case Publication => 2
    case NetworkRuntimeMounts => 3
    case StateHealth => 4
  }

  /** The cross-field checks of `inspection_state_lines`. */
  predicate ValidDiagnostic(x: Diagnostic) {
    && x.attempt >= 1 && x.succeeded <= 5
    && x.exitClass == ExitClassOf(x.exitCode)
    && (!x.utf8Valid <==> x.parse == InvalidUtf8)
    && match x.terminal
       case InvalidUtf8Output =>
         x.exitClass == ZeroExit && x.parse == InvalidUtf8 && x.firstFailed == None && x.succeeded == 0
       case JsonRejected =>
         x.exitClass == ZeroExit && x.parse == JsonSyntax && x.firstFailed == None && x.succeeded == 0
       case DuplicateKeyRejected =>
         x.exitClass == ZeroExit && x.parse == DuplicateKey && x.firstFailed == None && x.succeeded == 0
       case ToplevelRejected =>
         x.exitClass == ZeroExit && x.parse == ToplevelType && x.firstFailed == None && x.succeeded == 0
       case ObjectUnavailable =>
         x.exitClass != ZeroExit && x.firstFailed == Some(IdentityConfig) && x.succeeded == 0
       case CompositionFailed =>
         && x.exitClass != ZeroExit
         && ((x.succeeded == 0 && x.firstFailed == Some(IdentityConfig)) || x.succeeded == 5)
       case GroupFailed(g) =>
         x.exitClass != ZeroExit && x.firstFailed == Some(g) && x.succeeded == GroupIndex(g)
  }

  /** A command that ended well with an object. */
  predicate Usable(c: Completed) {
    c.returncode == 0 && c.parse == ValidObject
  }

  predicate Available(c: Completed, containerId: string) {
    && Usable(c) && c.payload.Keys == {SchemaVersion, Id} && c.payload[SchemaVersion] == Int(SCHEMA_VERSION)
    && ExactId(containerId) && c.payload[Id] == Str(containerId)
  }

  predicate GroupOk(run: Template -> Completed, g: Group) {
    Usable(run(GroupTemplate(g))) && ValidGroup(g, run(GroupTemplate(g)).payload)
  }

  /** The payloads of the first `n` groups. */
  function Payloads(run: Template -> Completed, n: nat): map<Group, Payload>
    requires n <= 5
  {
    if n == 0 then map[] else Payloads(run, n - 1)[GROUPS[n - 1] := run(GroupTemplate(GROUPS[n - 1])).payload]
  }

  lemma {:induction false} PayloadsHold(run: Template -> Completed, n: nat)
    requires n <= 5
    ensures forall g :: g in Payloads(run, n) <==> GroupIndex(g) < n
    ensures forall g | g in Payloads(run, n) :: Payloads(run, n)[g] == run(GroupTemplate(g)).payload
    decreases n
  {
    if n > 0 {
      PayloadsHold(run, n - 1);
      GroupAt(n - 1);
    }
  }

  lemma {:induction false} GroupAt(n: nat)
    requires n < 5
    ensures forall g: Group :: GroupIndex(g) == n <==> g == GROUPS[n]
  {
  }

  lemma {:induction false} FivePayloads(run: Template -> Completed)
    requires forall i :: 0 <= i < 5 ==> GroupOk(run, GROUPS[i])
    ensures AllValid(Payloads(run, 5)) && Payloads(run, 5)[IdentityConfig] == run(GroupTemplate(IdentityConfig)).payload
    ensures Id in Payloads(run, 5)[IdentityConfig]
  {
    hide ValidGroup, Payloads, Usable;
    PayloadsHold(run, 5);
    forall g: Group ensures GroupOk(run, g) {
      GroupBound(g);
      GroupAt(GroupIndex(g));
    }
    var ps := Payloads(run, 5);
    assert GroupOk(run, IdentityConfig);
    IdentityHasId(run(GroupTemplate(IdentityConfig)).payload);
    forall g: Group ensures g in ps <==> g in {IdentityConfig, HostConfigSecurityTmpfs, Publication, NetworkRuntimeMounts, StateHealth} {
      GroupBound(g);
    }
    forall g | g in ps ensures ValidGroup(g, ps[g]) {
      assert GroupOk(run, g);
    }
  }

  lemma {:induction false} GroupBound(g: Group)
    ensures GroupIndex(g) < 5
    ensures g in {IdentityConfig, HostConfigSecurityTmpfs, Publication, NetworkRuntimeMounts, StateHealth}
  {
  }

  /** The fallback has everything it needs, from a container with the right id. */
  predicate FallbackWorks(run: Template -> Completed, containerId: string) {
    && Available(run(AvailabilityTemplate), containerId)
    && (forall i :: 0 <= i < 5 ==> GroupOk(run, GROUPS[i]))
    && Id in run(GroupTemplate(IdentityConfig)).payload
    && run(GroupTemplate(IdentityConfig)).payload[Id] == Str(containerId)
  }

  /** `safe_inspect`: a payload or a diagnostic, never both; every diagnostic passes its
      validator. */
  method Inspect(run: Template -> Completed, containerId: string, attempt: int)
    returns (payload: Option<Payload>, diagnostic: Option<Diagnostic>)
    requires attempt >= 1
    ensures payload.Some? <==> diagnostic == None
    ensures payload.Some? <==>
      Usable(run(FullTemplate)) || (run(FullTemplate).returncode != 0 && FallbackWorks(run, containerId))
    ensures payload.Some? ==>
      if Usable(run(FullTemplate)) then payload.value == run(FullTemplate).payload
      else (
        && AllValid(Payloads(run, 5)) && MergeableFive(Payloads(run, 5))
        && payload.value == MergedFirst(Payloads(run, 5), 5))
    ensures diagnostic.Some? ==> ValidDiagnostic(diagnostic.value)
    ensures diagnostic.Some? && diagnostic.value.terminal.GroupFailed? ==>
      var k := diagnostic.value.succeeded;
      k < 5 && diagnostic.value.terminal.group == GROUPS[k] && !GroupOk(run, GROUPS[k])
      && forall i :: 0 <= i < k ==> GroupOk(run, GROUPS[i])
  {
    hide ValidGroup, Payloads, MergedFirst;
    payload, diagnostic := None, None;
    var completed := run(FullTemplate);
    if completed.returncode == 0 {
      if completed.parse == ValidObject {
        return Some(completed.payload), None;
      }
      var terminal := match completed.parse
        case InvalidUtf8 => InvalidUtf8Output
        case JsonSyntax => JsonRejected
        case DuplicateKey => DuplicateKeyRejected
        case _ => ToplevelRejected;
      diagnostic := Some(Envelope(completed, attempt, terminal, None, 0));
      return;
    }
    var availability := run(AvailabilityTemplate);
    if !Usable(availability) {
      diagnostic := Some(Envelope(completed, attempt, ObjectUnavailable, Some(IdentityConfig), 0));
      return;
    }
    if !Available(availability, containerId) {
      diagnostic := Some(Envelope(completed, attempt, CompositionFailed, Some(IdentityConfig), 0));
      return;
    }
    var payloads: map<Group, Payload> := map[];
    NoPayloads(run);
    for i := 0 to |GROUPS|
      invariant payloads == Payloads(run, i)
      invariant forall k :: 0 <= k < i ==> GroupOk(run, GROUPS[k])
    {
      var g := GROUPS[i];
      IndexAt(i);
      if !GroupOk(run, g) {
        diagnostic := Some(Envelope(completed, attempt, GroupFailed(g), Some(g), i));
        return;
      }
      OnePayload(run, i);
      payloads := payloads[g := run(GroupTemplate(g)).payload];
    }
    FivePayloads(run);
    var composed := Compose(containerId, payloads);
    GroupsAreAll(payloads);
    if composed.Composed? {
      payload := Some(composed.payload);
    } else {
      diagnostic := Some(Envelope(completed, attempt, CompositionFailed, composed.group, 5));
    }
  }

  predicate MergeableFive(payloads: map<Group, Payload>) {
    forall i :: 0 <= i < 5 ==> GROUPS[i] in payloads && ValidGroup(GROUPS[i], payloads[GROUPS[i]])
  }

  lemma {:induction false} NoPayloads(run: Template -> Completed)
    ensures Payloads(run, 0) == map[]
  {
  }

  lemma {:induction false} OnePayload(run: Template -> Completed, i: nat)
    requires i < 5
    ensures Payloads(run, i + 1) == Payloads(run, i)[GROUPS[i] := run(GroupTemplate(GROUPS[i])).payload]
  {
  }

  lemma {:induction false} IndexAt(i: nat)
    requires i < 5
    ensures GroupIndex(GROUPS[i]) == i
  {
  }

  /** Commands that render one container. */
  ghost predicate Renders(run: Template -> Completed, v: View) {
    forall i :: 0 <= i < 5 ==> run(GroupTemplate(GROUPS[i])).payload == GroupProjection(v, GROUPS[i])
  }

  /** When the partial commands render one container, the fallback returns exactly what
      the full command would have returned. */
  lemma {:induction false} FallbackIsFaithful(run: Template -> Completed, containerId: string, v: View)
    requires FallbackWorks(run, containerId) && Renders(run, v)
    ensures MergeableFive(Payloads(run, 5)) && MergedFirst(Payloads(run, 5), 5) == FullProjection(v)
  {
    FivePayloads(run);
    PayloadsHold(run, 5);
    hide ValidGroup, GroupProjection, FullProjection, Payloads, MergedFirst;
    GroupsAreAll(Payloads(run, 5));
    ProjectionsCompose(v, Payloads(run, 5));
  }
}
