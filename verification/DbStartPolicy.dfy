/**
 The one-shot policy that decides which request comes next while the database
 starts, and moves on only when the reply fits.  Whether a body has the prescribed
 fields is a parameter of each exchange; everything else is decided here.
 */
module DbStartPolicy {
  import opened Wrappers
  import opened HttpFraming

  datatype Step =
    | NegotiateHead | NegotiateGet | DbInspect | VolumeInspect | PgImageInspect | NetworkDb | VolumeCreate
    | DbCreate | DbStart | DbHealth | DbLogs | GotrueImageInspect | NetworkGotrue | GotrueCreate | GotrueStart
    | GotrueLogs | GotrueInspect | GotrueRemove | Complete | Failed

  /** What the policy descriptor prescribes. */
  datatype Descriptor = Descriptor(
    apiVersion: string, networkName: string, dbName: string, dbVolume: string,
    postgresImage: string, postgresImageId: string, gotrueImage: string, gotrueImageId: string)

  datatype Policy = Policy(
    state: Step, stepIndex: nat, healthProbes: nat, requestBytes: nat, responseBytes: nat,
    dbId: string, gotrueId: string, complete: bool, failed: bool)

  const INITIAL := Policy(NegotiateHead, 0, 0, 0, 0, "", "", false, false)

  const MAX_PROBES := 121

  // ----- requests and replies -----

  /** A check on fields of a body: it passes, it marks the policy failed, it only raises
      a violation, or it raises something else (a number with too many digits, say). */
  datatype Check = Passes | Fails(code: string) | Raises(code: string) | Escapes

  type Query = map<string, seq<string>>

  /** A target split into path and query, or the code it is refused with, or a target on
      which the splitting itself raises. */
  datatype Target = Refused(code: string) | Unsplit | Target(path: string, query: Query)

  /** A request: its target read as a ping and as a versioned path, the unquoted path,
      and what the checks on its body say. */
  datatype Request = Request(
    verb: string, ping: Target, versioned: Target, unquoted: string, bodyLength: nat, bodyCheck: Check)

  /** The status of a container's health: absent, a text, some other single value, or a
      list or object, which cannot be looked up in a set. */
  datatype HealthStatus = NoStatus | StatusText(text: string) | StatusScalar | StatusNested

  /** `State.Health`: absent or empty, an object, or something else, which has no `get`. */
  datatype HealthField = NoHealth | HealthObject(status: HealthStatus) | HealthOther

  /** The fields of a JSON reply that the policy looks at. */
  datatype Value = Value(
    id: Option<string>, name: Option<string>, image: Option<string>, networkAndPorts: Check,
    health: HealthField, exitCode: Option<int>)

  datatype ReplyBody = Unreadable(why: Check) | Json(value: Value)

  datatype Reply = Reply(code: nat, apiVersion: Option<string>, body: ReplyBody, bodyBytes: nat)

  datatype Decision = Decision(name: Step, phase: Phase, verb: string, statuses: set<nat>, stream: bool)

  /** `Escaped`: an exception that is not a policy violation. */
  datatype Result<+T> = Granted(value: T) | Violation(code: string) | Escaped

  function FailedPolicy(p: Policy): Policy {
    p.(failed := true, state := Failed)
  }

  // ----- authorize -----

  function ExpectedTarget(d: Descriptor, p: Policy, s: Step): string {
    match s
    case NegotiateHead => "/_ping"
    case NegotiateGet => "/_ping"
    case DbInspect => "/containers/" + d.dbName + "/json"
    case VolumeInspect => "/volumes/" + d.dbVolume
    case PgImageInspect => "/images/" + d.postgresImage + "/json"
    case GotrueImageInspect => "/images/" + d.gotrueImage + "/json"
    case NetworkDb => "/networks/create"
    case NetworkGotrue => "/networks/create"
    case VolumeCreate => "/volumes/create"
    case DbCreate => "/containers/create"
    case GotrueCreate => "/containers/create"
    case DbStart => "/containers/" + p.dbId + "/start"
    case GotrueStart => "/containers/" + p.gotrueId + "/start"
    case DbHealth => "/containers/" + d.dbName + "/json"
    case DbLogs => "/containers/" + d.dbName + "/logs"
    case GotrueLogs => "/containers/" + p.gotrueId + "/logs"
    case GotrueInspect => "/containers/" + p.gotrueId + "/json"
    case GotrueRemove => "/containers/" + p.gotrueId
    case _ => ""
  }

  function ExpectedVerb(s: Step): string {
    match s
    case NegotiateHead => "HEAD"
    case NetworkDb => "POST"
    case NetworkGotrue => "POST"
    case VolumeCreate => "POST"
    case DbCreate => "POST"
    case GotrueCreate => "POST"
    case DbStart => "POST"
    case GotrueStart => "POST"
    case GotrueRemove => "DELETE"
    case _ => "GET"
  }

  function ExpectedQuery(d: Descriptor, s: Step): Query {
    match s
    case DbCreate => map["name" := [d.dbName]]
    case DbLogs => map["stderr" := ["1"], "stdout" := ["1"], "tail" := [""]]
    case GotrueLogs => map["follow" := ["1"], "stderr" := ["1"], "stdout" := ["1"], "tail" := [""]]
    case GotrueRemove => map["force" := ["1"], "v" := ["1"]]
    case _ => map[]
  }

  function ExpectedStatuses(s: Step): set<nat> {
    match s
    case NegotiateHead => {200, 405}
    case DbInspect => {404}
    case VolumeInspect => {404}
    case NetworkDb => {409}
    case NetworkGotrue => {409}
    case VolumeCreate => {201}
    case DbCreate => {201}
    case GotrueCreate => {201}
    case DbStart => {204}
    case GotrueStart => {204}
    case GotrueRemove => {204}
    case _ => {200}
  }

  function PhaseOf(s: Step): Phase {
    match s
    case NegotiateHead => ApiNegotiation
    case NegotiateGet => ApiNegotiation
    case DbInspect => ContainerInspect
    case VolumeInspect => Phase.VolumeInspect
    case PgImageInspect => ImageInspect
    case GotrueImageInspect => ImageInspect
    case NetworkDb => NetworkInspectReuse
    case NetworkGotrue => NetworkInspectReuse
    case VolumeCreate => Phase.VolumeCreate
    case DbCreate => ContainerCreate
    case GotrueCreate => ContainerCreate
    case DbStart => ContainerStart
    case GotrueStart => ContainerStart
    case DbHealth => ContainerInspect
    case DbLogs => ContainerLogs
    case GotrueLogs => ContainerLogs
    case GotrueInspect => ContainerInspect
    case GotrueRemove => ContainerRemove
    case _ => UnknownApiPhase
  }

  predicate IsImageStep(s: Step) {
    s == PgImageInspect || s == GotrueImageInspect
  }

  predicate IsCreateStep(s: Step) {
    s == DbCreate || s == GotrueCreate
  }

  /** The steps whose request carries a body. */
  predicate TakesBody(s: Step) {
    s == NetworkDb || s == NetworkGotrue || s == Step.VolumeCreate || IsCreateStep(s)
  }

  predicate IsLogStep(s: Step) {
    s == DbLogs || s == GotrueLogs
  }

  predicate IsPing(s: Step) {
    s == NegotiateHead || s == NegotiateGet
  }

  function TargetOf(p: Policy, r: Request): Target {
    if IsPing(p.state) then r.ping else r.versioned
  }

  /** The request is the one the policy waits for. */
  predicate Fits(d: Descriptor, p: Policy, r: Request) {
    && !p.failed && !p.complete
    && TargetOf(p, r).Target?
    && r.verb == ExpectedVerb(p.state)
    && (if IsImageStep(p.state) then r.unquoted else TargetOf(p, r).path) == ExpectedTarget(d, p, p.state)
    && TargetOf(p, r).query == ExpectedQuery(d, p.state)
    && (if TakesBody(p.state) then r.bodyCheck == Passes else r.bodyLength == 0)
  }

  function DecisionFor(s: Step): Decision {
    Decision(s, PhaseOf(s), ExpectedVerb(s), ExpectedStatuses(s), IsLogStep(s))
  }

  /** What a check on a body that does not pass raises. */
  function RaisedBy<T>(c: Check): Result<T>
    requires !c.Passes?
  {
    if c.Escapes? then Escaped else Violation(c.code)
  }

  /** What is left of a policy whose check `c` failed. */
  function AfterCheck(p: Policy, c: Check): Policy {
    if c.Fails? then FailedPolicy(p) else p
  }

  /** The decision of a policy that is neither failed nor complete, on a request whose
      target could be read: the order of the checks depends on the state. */
  function Dispatched(d: Descriptor, p: Policy, r: Request): (Policy, Result<Decision>)
    requires TargetOf(p, r).Target?
  {
    var target := TargetOf(p, r);
    var verb, path, empty := r.verb == ExpectedVerb(p.state), ExpectedTarget(d, p, p.state), r.bodyLength == 0;
    var query := target.query == ExpectedQuery(d, p.state);
    var refuse := (code: string) => (FailedPolicy(p), Violation(code));
    var grant := (p, Granted(DecisionFor(p.state)));
    if IsImageStep(p.state) then
      if verb && r.unquoted == path && target.query == map[] && empty then grant else refuse("POLICY_IDENTITY_REJECTED")
    else if TakesBody(p.state) then
      if !verb || target.path != path then refuse("POLICY_ORDER_REJECTED")
      else if !query then
        refuse(if IsCreateStep(p.state) then "POLICY_QUERY_REJECTED" else "POLICY_ORDER_REJECTED")
      else if !r.bodyCheck.Passes? then (AfterCheck(p, r.bodyCheck), RaisedBy(r.bodyCheck))
      else grant
    else if IsLogStep(p.state) then
      if !verb || target.path != path || !empty then refuse("POLICY_ORDER_REJECTED")
      else if !query then refuse("POLICY_QUERY_REJECTED")
      else grant
    else if p.state == GotrueRemove then
      if !query then refuse("POLICY_QUERY_REJECTED")
      else if verb && target.path == path && empty then grant else refuse("POLICY_ORDER_REJECTED")
    else if verb && target.path == path && target.query == map[] && empty then grant
    else refuse("POLICY_ORDER_REJECTED")
  }

  function Authorized(d: Descriptor, p: Policy, r: Request): (Policy, Result<Decision>) {
    if p.failed || p.complete then (FailedPolicy(p), Violation("POLICY_ORDER_REJECTED"))
    else
      var q := p.(requestBytes := p.requestBytes + r.bodyLength);
      match TargetOf(p, r)
      case Refused(code) => (FailedPolicy(q), Violation(code))
      case Unsplit => (q, Escaped)
      case Target(_, _) => Dispatched(d, q, r)
  }

  // ----- accept -----

  predicate IsId(id: string) {
    |id| == 64 && forall c | c in id :: '0' <= c <= '9' || 'a' <= c <= 'f'
  }

  /** The steps whose reply has to be JSON. */
  predicate ReadsJson(s: Step) {
    IsImageStep(s) || s == Step.VolumeCreate || IsCreateStep(s) || s == DbHealth || s == GotrueInspect
  }

  function InspectIdentity(d: Descriptor, p: Policy, v: Value, database: bool): Check {
    if v.id != Some(if database then p.dbId else p.gotrueId)
       || v.image != Some(if database then d.postgresImageId else d.gotrueImageId)
       || (database && v.name != Some("/" + d.dbName)) then
      Fails("POLICY_IDENTITY_REJECTED")
    else v.networkAndPorts
  }

  /** The check on an accepted status's reply in the given state. */
  function ReplyCheck(d: Descriptor, p: Policy, r: Reply): Check {
    var s := p.state;
    if IsPing(s) then
      if r.code == 405 || r.apiVersion == Some(d.apiVersion) then Passes else Fails("POLICY_API_VERSION_REJECTED")
    else if !ReadsJson(s) then Passes
    else match r.body
      case Unreadable(why) => if why.Passes? then Fails("POLICY_RESPONSE_REJECTED") else why
      case Json(v) =>
        if IsImageStep(s) then
          if v.id == Some(if s == PgImageInspect then d.postgresImageId else d.gotrueImageId) then Passes
          else Fails("POLICY_IDENTITY_REJECTED")
        else if s == Step.VolumeCreate then
          if v.name == Some(d.dbVolume) then Passes else Fails("POLICY_IDENTITY_REJECTED")
        else if IsCreateStep(s) then
          if v.id == None || !IsId(v.id.value) then Fails("POLICY_RESPONSE_REJECTED")
          else if v.id.value == p.dbId || v.id.value == p.gotrueId then Fails("POLICY_IDENTITY_REJECTED")
          else Passes
        else if s == DbHealth then InspectIdentity(d, p, v, true)
        else
          var identity := InspectIdentity(d, p, v, false);
          if identity.Passes? && v.exitCode != Some(0) then Fails("POLICY_STATUS_REJECTED") else identity
  }

  function ReplyId(r: Reply): string {
    if r.body.Json? && r.body.value.id.Some? then r.body.value.id.value else ""
  }

  datatype Probe = Healthy | Waiting | Strange | NoObject | NotHashable

  function HealthOf(status: HealthStatus): Probe {
    match status
    case StatusText(text) =>
      if text == "healthy" then Healthy else if text == "starting" || text == "unhealthy" then Waiting else Strange
    case StatusNested => NotHashable
    case _ => Strange
  }

  function Health(r: Reply): Probe {
    match r.body
    case Unreadable(_) => Strange
    case Json(v) =>
      match v.health
      case NoHealth => Strange
      case HealthOther => NoObject
      case HealthObject(status) => HealthOf(status)
  }

  /** The state after a reply that passed its check; `probes` counts it in. */
  function NextStep(s: Step, probes: nat, r: Reply): Step {
    match s
    case NegotiateHead => if r.code == 405 then NegotiateGet else DbInspect
    case NegotiateGet => DbInspect
    case DbInspect => Step.VolumeInspect
    case VolumeInspect => PgImageInspect
    case PgImageInspect => NetworkDb
    case NetworkDb => Step.VolumeCreate
    case VolumeCreate => DbCreate
    case DbCreate => DbStart
    case DbStart => DbHealth
    case DbHealth =>
      (match Health(r)
       case Healthy => GotrueImageInspect
       case Waiting => if probes < MAX_PROBES then DbHealth else DbLogs
       case _ => Failed)
    case DbLogs => Failed
    case GotrueImageInspect => NetworkGotrue
    case NetworkGotrue => GotrueCreate
    case GotrueCreate => GotrueStart
    case GotrueStart => GotrueLogs
    case GotrueLogs => GotrueInspect
    case GotrueInspect => GotrueRemove
    case GotrueRemove => Complete
    case Complete => Complete
    case Failed => Failed
  }

  function Advance(p: Policy, r: Reply): Policy {
    var probes := if p.state == DbHealth then p.healthProbes + 1 else p.healthProbes;
    var next := NextStep(p.state, probes, r);
    p.(state := next, healthProbes := probes,
       dbId := if p.state == DbCreate then ReplyId(r) else p.dbId,
       gotrueId := if p.state == GotrueCreate then ReplyId(r) else p.gotrueId,
       complete := p.complete || p.state == GotrueRemove, failed := p.failed || (next == Failed && p.state != Failed))
  }

  predicate HealthKnown(p: Policy, r: Reply) {
    p.state == DbHealth ==> Health(r).Healthy? || Health(r).Waiting?
  }

  /** The reply passes every check and then raises, after it was counted as a probe. */
  predicate LosesProbe(d: Descriptor, p: Policy, r: Reply) {
    && p.state == DbHealth && r.code in ExpectedStatuses(DbHealth) && ReplyCheck(d, p, r).Passes?
    && Health(r).NotHashable?
  }

  function Accepted(d: Descriptor, p: Policy, decision: Decision, r: Reply): (Policy, Result<()>) {
    if decision.name != p.state || r.code !in decision.statuses then
      (FailedPolicy(p), Violation("POLICY_STATUS_REJECTED"))
    else
      var q := p.(responseBytes := p.responseBytes + r.bodyBytes);
      var check := ReplyCheck(d, q, r);
      if !check.Passes? then (AfterCheck(q, check), RaisedBy(check))
      else if q.state == DbHealth && Health(r).NoObject? then (q, Escaped)
      else if q.state == DbHealth && Health(r).NotHashable? then (q.(healthProbes := q.healthProbes + 1), Escaped)
      else if !HealthKnown(q, r) then (Advance(q, r), Violation("POLICY_RESPONSE_REJECTED"))
      else (Advance(q, r).(stepIndex := q.stepIndex + 1), Granted(()))
  }

  /** A request is granted exactly when it fits. */
  lemma {:induction false} GrantedMeans(d: Descriptor, p: Policy, r: Request)
    ensures
      var (q, v) := Authorized(d, p, r);
      && (v.Granted? <==> Fits(d, p, r))
      && (v.Granted? ==> v.value == DecisionFor(p.state))
      && (v.Granted? || v.Escaped? ==> !p.failed && !p.complete && q == p.(requestBytes := p.requestBytes + r.bodyLength))
  {
    SameTarget(d, p, p.(requestBytes := p.requestBytes + r.bodyLength), p.state);
    if p.state != DbCreate && !IsLogStep(p.state) && p.state != GotrueRemove {
      PlainQuery(d, p.state);
    }
    hide ExpectedTarget, ExpectedVerb, ExpectedQuery, DecisionFor;
  }

  lemma {:induction false} SameTarget(d: Descriptor, p: Policy, q: Policy, s: Step)
    requires q == p.(requestBytes := q.requestBytes)
    ensures ExpectedTarget(d, p, s) == ExpectedTarget(d, q, s)
  {
  }

  lemma {:induction false} PlainQuery(d: Descriptor, s: Step)
    requires s != DbCreate && !IsLogStep(s) && s != GotrueRemove
    ensures ExpectedQuery(d, s) == map[]
  {
  }

  /** A reply to the expected request is accepted exactly when its status and its
      contents pass; one that escapes leaves the state as it was, but may have been
      counted as a probe. */
  lemma {:induction false} AcceptedMeans(d: Descriptor, p: Policy, r: Reply)
    ensures
      var (t, v) := Accepted(d, p, DecisionFor(p.state), r);
      var q := p.(responseBytes := p.responseBytes + r.bodyBytes);
      && (v.Granted? <==> r.code in ExpectedStatuses(p.state) && ReplyCheck(d, p, r).Passes? && HealthKnown(p, r))
      && (v.Granted? ==> t == Advance(q, r).(stepIndex := p.stepIndex + 1))
      && (v.Escaped? ==> t == if LosesProbe(d, p, r) then q.(healthProbes := q.healthProbes + 1) else q)
      && (LosesProbe(d, p, r) ==> v.Escaped?)
  {
    hide Advance, ExpectedVerb, ExpectedStatuses, PhaseOf, Health, ReplyCheck, IsLogStep;
    SameCheck(d, p, p.(responseBytes := p.responseBytes + r.bodyBytes), r);
    assert DecisionFor(p.state).statuses == ExpectedStatuses(p.state) && DecisionFor(p.state).name == p.state;
    hide DecisionFor;
  }

  lemma {:induction false} SameCheck(d: Descriptor, p: Policy, q: Policy, r: Reply)
    requires q == p.(responseBytes := q.responseBytes, requestBytes := q.requestBytes)
    ensures ReplyCheck(d, q, r) == ReplyCheck(d, p, r) && HealthKnown(p, r) == HealthKnown(q, r)
    ensures LosesProbe(d, p, r) == LosesProbe(d, q, r)
  {
  }

  lemma {:induction false} UnknownHealth(p: Policy, r: Reply)
    requires !HealthKnown(p, r)
    ensures Advance(p, r) == FailedPolicy(p.(healthProbes := p.healthProbes + 1))
  {
  }

  /** Nothing is expected any more only when the flags say so. */
  predicate Coherent(p: Policy) {
    (p.state == Complete ==> p.complete) && (p.state == Failed ==> p.failed)
  }

  /** The policy object; its methods take the same decisions one check at a time. */
  class DBStartPolicy {
    const d: Descriptor
    var state: Step
    var stepIndex: nat
    var healthProbeCount: nat
    var requestBodyBytes: nat
    var responseBodyBytes: nat
    var dbId: string
    var gotrueId: string
    var complete: bool
    var failed: bool

    constructor (d: Descriptor)
      ensures this.d == d && Contents() == INITIAL
    {
      this.d := d;
      state, stepIndex, healthProbeCount, requestBodyBytes, responseBodyBytes := NegotiateHead, 0, 0, 0, 0;
      dbId, gotrueId, complete, failed := "", "", false, false;
    }

    function Contents(): Policy
      reads this
    {
      Policy(state, stepIndex, healthProbeCount, requestBodyBytes, responseBodyBytes, dbId, gotrueId, complete, failed)
    }

    /** `fail`: mark the policy failed, and raise. */
    method Fail(code: string) returns (v: Result<Decision>)
      modifies this
      ensures Contents() == FailedPolicy(old(Contents())) && v == Violation(code)
    {
      failed, state := true, Failed;
      v := Violation(code);
    }

    /** Fail or raise as a check on a body says. */
    method Raise(why: Check) returns (v: Result<Decision>)
      requires !why.Passes?
      modifies this
      ensures Contents() == AfterCheck(old(Contents()), why) && v == RaisedBy(why)
    {
      if why.Fails? {
        v := Fail(why.code);
      } else {
        v := RaisedBy(why);
      }
    }

    method Simple(r: Request, target: Target, query: Query) returns (v: Result<Decision>)
      requires target.Target? && state != Complete && state != Failed
      modifies this
      ensures
        if r.verb == ExpectedVerb(old(state)) && target.path == ExpectedTarget(d, old(Contents()), old(state))
           && query == map[] && r.bodyLength == 0 then
          Contents() == old(Contents()) && v == Granted(DecisionFor(old(state)))
        else Contents() == FailedPolicy(old(Contents())) && v == Violation("POLICY_ORDER_REJECTED")
    {
      if r.verb != ExpectedVerb(state) || target.path != ExpectedTarget(d, Contents(), state)
         || query != map[] || r.bodyLength > 0 {
        v := Fail("POLICY_ORDER_REJECTED");
      } else {
        v := Granted(DecisionFor(state));
      }
    }

    method Authorize(r: Request) returns (v: Result<Decision>)
      requires Coherent(Contents())
      modifies this
      ensures (Contents(), v) == Authorized(d, old(Contents()), r)
    {
      hide Dispatched;
      if failed || complete {
        v := Fail("POLICY_ORDER_REJECTED");
        return;
      }
      requestBodyBytes := requestBodyBytes + r.bodyLength;
      var target := if IsPing(state) then r.ping else r.versioned;
      if target.Refused? {
        v := Fail(target.code);
        return;
      }
      if target.Unsplit? {
        return Escaped;
      }
      v := Dispatch(r, target);
    }

    method Dispatch(r: Request, target: Target) returns (v: Result<Decision>)
      requires Coherent(Contents()) && !failed && !complete && target.Target? && target == TargetOf(Contents(), r)
      modifies this
      ensures (Contents(), v) == Dispatched(d, old(Contents()), r)
    {
      hide ExpectedVerb, ExpectedQuery, DecisionFor;
      if state == PgImageInspect {
        v := ImageInspect(r, target, d.postgresImage);
      } else if state == GotrueImageInspect {
        v := ImageInspect(r, target, d.gotrueImage);
      } else if state == NetworkDb || state == NetworkGotrue {
        v := Create(r, target, "/networks/create", "POLICY_ORDER_REJECTED");
      } else if state == Step.VolumeCreate {
        v := Create(r, target, "/volumes/create", "POLICY_ORDER_REJECTED");
      } else if IsCreateStep(state) {
        v := Create(r, target, "/containers/create", "POLICY_QUERY_REJECTED");
      } else if IsLogStep(state) {
        v := Logs(r, target);
      } else if state == GotrueRemove {
        v := Remove(r, target);
      } else {
        v := Simple(r, target, target.query);
      }
    }

    method Remove(r: Request, target: Target) returns (v: Result<Decision>)
      requires state == GotrueRemove && target.Target?
      modifies this
      ensures
        if target.query != ExpectedQuery(d, old(state)) then
          Contents() == FailedPolicy(old(Contents())) && v == Violation("POLICY_QUERY_REJECTED")
        else if r.verb == ExpectedVerb(old(state)) && target.path == ExpectedTarget(d, old(Contents()), old(state))
           && r.bodyLength == 0 then
          Contents() == old(Contents()) && v == Granted(DecisionFor(old(state)))
        else Contents() == FailedPolicy(old(Contents())) && v == Violation("POLICY_ORDER_REJECTED")
    {
      if target.query != ExpectedQuery(d, state) {
        v := Fail("POLICY_QUERY_REJECTED");
      } else {
        v := Simple(r, target, map[]);
      }
    }

    method ImageInspect(r: Request, target: Target, image: string) returns (v: Result<Decision>)
      requires IsImageStep(state) && target.Target?
      requires image == if state == PgImageInspect then d.postgresImage else d.gotrueImage
      modifies this
      ensures
        if r.verb == ExpectedVerb(old(state)) && r.unquoted == ExpectedTarget(d, old(Contents()), old(state)) && target.query == map[] && r.bodyLength == 0 then
          Contents() == old(Contents()) && v == Granted(DecisionFor(old(state)))
        else Contents() == FailedPolicy(old(Contents())) && v == Violation("POLICY_IDENTITY_REJECTED")
    {
      if r.verb != "GET" || r.unquoted != "/images/" + image + "/json" || target.query != map[] || r.bodyLength > 0 {
        v := Fail("POLICY_IDENTITY_REJECTED");
      } else {
        v := Granted(DecisionFor(state));
      }
    }

    method Create(r: Request, target: Target, path: string, queryCode: string) returns (v: Result<Decision>)
      requires TakesBody(state) && target.Target? && path == ExpectedTarget(d, Contents(), state)
      modifies this
      ensures
        if r.verb != ExpectedVerb(old(state)) || target.path != path then
          Contents() == FailedPolicy(old(Contents())) && v == Violation("POLICY_ORDER_REJECTED")
        else if target.query != ExpectedQuery(d, old(state)) then
          Contents() == FailedPolicy(old(Contents())) && v == Violation(queryCode)
        else if !r.bodyCheck.Passes? then
          Contents() == AfterCheck(old(Contents()), r.bodyCheck) && v == RaisedBy(r.bodyCheck)
        else Contents() == old(Contents()) && v == Granted(DecisionFor(old(state)))
    {
      if r.verb != "POST" || target.path != path {
        v := Fail("POLICY_ORDER_REJECTED");
      } else if target.query != ExpectedQuery(d, state) {
        v := Fail(queryCode);
      } else if !r.bodyCheck.Passes? {
        v := Raise(r.bodyCheck);
      } else {
        v := Granted(DecisionFor(state));
      }
    }

    method Logs(r: Request, target: Target) returns (v: Result<Decision>)
      requires IsLogStep(state) && target.Target?
      modifies this
      ensures
        if r.verb != ExpectedVerb(old(state)) || target.path != ExpectedTarget(d, old(Contents()), old(state))
           || r.bodyLength > 0 then
          Contents() == FailedPolicy(old(Contents())) && v == Violation("POLICY_ORDER_REJECTED")
        else if target.query != ExpectedQuery(d, old(state)) then
          Contents() == FailedPolicy(old(Contents())) && v == Violation("POLICY_QUERY_REJECTED")
        else Contents() == old(Contents()) && v == Granted(DecisionFor(old(state)))
    {
      v := Simple(r, target, map[]);
      if v.Granted? && target.query != ExpectedQuery(d, state) {
        v := Fail("POLICY_QUERY_REJECTED");
      }
    }

    method Accept(decision: Decision, r: Reply) returns (v: Result<()>)
      modifies this
      ensures (Contents(), v) == Accepted(d, old(Contents()), decision, r)
    {
      hide ReplyCheck, HealthKnown, Advance, NextStep;
      if decision.name != state || r.code !in decision.statuses {
        failed, state := true, Failed;
        return Violation("POLICY_STATUS_REJECTED");
      }
      responseBodyBytes := responseBodyBytes + r.bodyBytes;
      var check := ReplyCheck(d, Contents(), r);
      if !check.Passes? {
        if check.Fails? {
          failed, state := true, Failed;
        }
        return RaisedBy(check);
      }
      if state == DbHealth && Health(r).NoObject? {
        return Escaped;
      }
      if state == DbHealth && Health(r).NotHashable? {
        healthProbeCount := healthProbeCount + 1;
        return Escaped;
      }
      if !HealthKnown(Contents(), r) {
        UnknownHealth(Contents(), r);
        healthProbeCount := healthProbeCount + 1;
        failed, state := true, Failed;
        return Violation("POLICY_RESPONSE_REJECTED");
      }
      Move(r);
      stepIndex := stepIndex + 1;
      return Granted(());
    }

    method Move(r: Reply)
      requires HealthKnown(Contents(), r)
      modifies this
      ensures Contents() == Advance(old(Contents()), r) && stepIndex == old(stepIndex)
    {
      match state {
        case NegotiateHead => state := if r.code == 405 then NegotiateGet else DbInspect;
        case NegotiateGet => state := DbInspect;
        case DbInspect => state := Step.VolumeInspect;
        case VolumeInspect => state := PgImageInspect;
        case PgImageInspect => state := NetworkDb;
        case NetworkDb => state := Step.VolumeCreate;
        case VolumeCreate => state := DbCreate;
        case DbCreate => dbId, state := ReplyId(r), DbStart;
        case DbStart => state := DbHealth;
        case DbHealth =>
          healthProbeCount := healthProbeCount + 1;
          if Health(r) == Healthy {
            state := GotrueImageInspect;
          } else if healthProbeCount >= MAX_PROBES {
            state := DbLogs;
          }
        case DbLogs => failed, state := true, Failed;
        case GotrueImageInspect => state := NetworkGotrue;
        case NetworkGotrue => state := GotrueCreate;
        case GotrueCreate => gotrueId, state := ReplyId(r), GotrueStart;
        case GotrueStart => state := GotrueLogs;
        case GotrueLogs => state := GotrueInspect;
        case GotrueInspect => state := GotrueRemove;
        case GotrueRemove => state, complete := Complete, true;
        case _ =>
      }
    }
  }
}
