/**
 Several connections share one policy under one lock.  Between two awaits a
 connection runs undisturbed; an event is one such stretch.  A handler that ends by an
 exception counts a violation, or a forwarding error, or nothing at all.
 */
module PolicyServer {
  import opened Wrappers
  import opened DbStartPolicy
  import opened PolicyLanguage
  import ByteText
  import ChunkedBody

  /** Where a connection is inside its handler. */
  datatype Handler =
    | Closed
    | Idle
    | Awaiting(request: Request, decision: Decision)
    | Relaying(request: Request, decision: Decision, code: nat)
    // accepted and written to the client, which may be lost before it has taken it
    | Delivering

  /** A forwarded request waits for its response. */
  predicate InExchange(h: Handler) {
    h.Awaiting? || h.Relaying?
  }

  predicate HoldsLock(h: Handler) {
    InExchange(h) || h.Delivering?
  }

  /** A response written to a client: a stream is passed on as it comes. */
  datatype Delivery = Delivery(connection: nat, step: Step, stream: bool)

  datatype Server = Server(
    policy: Policy, handlers: map<nat, Handler>, lock: Option<nat>,
    forwarded: seq<Request>, delivered: seq<Delivery>,
    violations: nat, forwardingErrors: nat, receiptComplete: bool,
    // the accepted requests, the steps they were accepted in, and the probes that were
    // counted although their replies were not accepted
    acceptedRequests: seq<Request>, acceptedSteps: seq<Step>, lostProbes: nat)

  const FRESH := Server(INITIAL, map[], None, [], [], 0, 0, false, [], [], 0)

  /** How the body of a response ends: read, rejected, cut short by the end of input, or
      given up on because a trailer line is too long. */
  datatype BodyEnd = BodyRead | BodyRejected | BodyUnended | BodyOverlong

  datatype Event =
    | Connect(c: nat)
    | EndOfRequests(c: nat)
    // a request that could not be read
    | Malformed(c: nat)
    | Submit(c: nat, request: Request)
    // a response head: whether it could be read, its status, whether a stream has its media type
    | Head(c: nat, readable: bool, code: nat, mediaOk: bool)
    // the rest of the response; its status is the one already seen
    | Finish(c: nat, end: BodyEnd, reply: Reply)
    // the client has taken the response
    | Drained(c: nat)
    // a lost connection or an end of input that is not a policy violation
    | Break(c: nat)
    // any other exception: nothing catches it
    | Escape(c: nat)

  function HandlerOf(s: Server, c: nat): Handler {
    if c in s.handlers then s.handlers[c] else Closed
  }

  function Release(s: Server, c: nat): Server {
    s.(handlers := s.handlers[c := Closed], lock := if s.lock == Some(c) then None else s.lock)
  }

  /** The `except PolicyViolation` clause and what follows it. */
  function Violate(s: Server, c: nat): Server {
    var t := Release(s, c);
    t.(policy := FailedPolicy(s.policy), violations := s.violations + 1, receiptComplete := s.policy.complete)
  }

  /** The `except (OSError, IncompleteReadError)` clause and what follows it. */
  function Broken(s: Server, c: nat): Server {
    Release(s, c).(forwardingErrors := s.forwardingErrors + 1)
  }

  function OnSubmit(d: Descriptor, s: Server, c: nat, r: Request): Server {
    if s.lock != None then Violate(s, c)
    else
      var (q, v) := Authorized(d, s.policy, r);
      var t := s.(policy := q);
      match v
      case Violation(_) => Violate(t, c)
      case Escaped => Release(t, c)
      case Granted(decision) =>
        t.(lock := Some(c), forwarded := s.forwarded + [r], handlers := s.handlers[c := Awaiting(r, decision)])
  }

  function OnHead(s: Server, c: nat, readable: bool, code: nat, mediaOk: bool): Server
    requires HandlerOf(s, c).Awaiting?
  {
    var h := s.handlers[c];
    if !readable || code !in h.decision.statuses || (h.decision.stream && !mediaOk) then Violate(s, c)
    else
      var t := s.(handlers := s.handlers[c := Relaying(h.request, h.decision, code)]);
      if h.decision.stream then t.(delivered := s.delivered + [Delivery(c, h.decision.name, true)]) else t
  }

  function OnFinish(d: Descriptor, s: Server, c: nat, end: BodyEnd, reply: Reply): Server
    requires HandlerOf(s, c).Relaying?
  {
    match end
    case BodyRejected => Violate(s, c)
    case BodyUnended => Broken(s, c)
    case BodyOverlong => Release(s, c)
    case BodyRead => OnReply(d, s, c, reply.(code := s.handlers[c].code))
  }

  /** The policy judges a reply that was read to its end. */
  function OnReply(d: Descriptor, s: Server, c: nat, reply: Reply): Server
    requires HandlerOf(s, c).Relaying?
  {
    var h := s.handlers[c];
    var (q, v) := Accepted(d, s.policy, h.decision, reply);
    var t := s.(policy := q);
    match v
    case Violation(_) => Violate(t, c)
    case Escaped => Release(t, c).(lostProbes := s.lostProbes + if LosesProbe(d, s.policy, reply) then 1 else 0)
    case Granted(_) =>
      var u := t.(
        acceptedRequests := s.acceptedRequests + [h.request], acceptedSteps := s.acceptedSteps + [h.decision.name]);
      if h.decision.stream then Drain(u, c)
      else u.(handlers := s.handlers[c := Delivering], delivered := s.delivered + [Delivery(c, h.decision.name, false)])
  }

  /** The receipt learns what the policy has come to, and the lock is free again. */
  function Drain(s: Server, c: nat): Server {
    s.(lock := None, handlers := s.handlers[c := Idle], receiptComplete := s.policy.complete)
  }

  /** One event; an event that does not fit its connection changes nothing. */
  function Do(d: Descriptor, s: Server, e: Event): Server {
    match e
    case Connect(c) => if c in s.handlers then s else s.(handlers := s.handlers[c := Idle])
    case EndOfRequests(c) => if HandlerOf(s, c) == Idle then Release(s, c) else s
    case Malformed(c) => if HandlerOf(s, c) == Idle then Violate(s, c) else s
    case Submit(c, r) => if HandlerOf(s, c) == Idle then OnSubmit(d, s, c, r) else s
    case Head(c, readable, code, mediaOk) =>
      if HandlerOf(s, c).Awaiting? then OnHead(s, c, readable, code, mediaOk) else s
    case Finish(c, end, reply) => if HandlerOf(s, c).Relaying? then OnFinish(d, s, c, end, reply) else s
    case Drained(c) => if HandlerOf(s, c).Delivering? then Drain(s, c) else s
    case Break(c) => if HandlerOf(s, c) == Closed then s else Broken(s, c)
    case Escape(c) => if HandlerOf(s, c) == Closed then s else Release(s, c)
  }

  function Serve(d: Descriptor, events: seq<Event>): Server {
    if events == [] then FRESH else Do(d, Serve(d, events[..|events| - 1]), events[|events| - 1])
  }

  datatype Class = PolicyViolated | ForwardingFailed | PolicyComplete | PolicyIncomplete

  /** `classification` in policy mode. */
  function Classification(s: Server): Class {
    if s.violations > 0 then PolicyViolated
    else if s.forwardingErrors > 0 then ForwardingFailed
    else if s.receiptComplete then PolicyComplete
    else PolicyIncomplete
  }

  // ----- the invariant -----

  /** The exchange under way, if any. */
  function Outstanding(s: Server): seq<Request> {
    match s.lock
    case None => []
    case Some(c) => if InExchange(HandlerOf(s, c)) then [HandlerOf(s, c).request] else []
  }

  /** The lock is held by exactly the connection that has an exchange under way, and the
      policy still stands where that exchange was granted, unless it has failed. */
  ghost predicate LockHolds(s: Server) {
    forall c: nat :: HoldsLock(HandlerOf(s, c)) <==> s.lock == Some(c)
  }

  ghost predicate GrantHolds(d: Descriptor, s: Server) {
    forall c: nat :: s.lock == Some(c) && InExchange(HandlerOf(s, c)) ==>
      var h := HandlerOf(s, c);
      && h.decision.name != Failed && h.decision == DecisionFor(h.decision.name)
      && (s.policy.failed || (h.decision.name == s.policy.state && !s.policy.complete))
  }

  ghost predicate ServerInv(d: Descriptor, s: Server) {
    && LockHolds(s) && GrantHolds(d, s)
    && Tracked(s.policy, s.acceptedSteps, s.lostProbes) && |s.acceptedRequests| == |s.acceptedSteps|
    && (s.policy.failed == (s.policy.state == Failed))
    && (s.receiptComplete ==> s.policy.complete)
    && (s.violations == 0 && s.policy.complete ==> !s.policy.failed)
  }

  lemma {:induction false} ViolateKeeps(d: Descriptor, s: Server, t: Server, c: nat)
    requires ServerInv(d, s) && HandlerOf(s, c) != Closed
    requires t == s.(policy := t.policy)
    requires Tracked(t.policy, s.acceptedSteps, s.lostProbes) && (t.policy.failed == (t.policy.state == Failed))
    ensures ServerInv(d, Violate(t, c))
  {
    hide Tracked;
    var v := Violate(t, c);
    FailureKeepsTrack(t.policy, v.policy, s.acceptedSteps, s.lostProbes);
    forall k: nat ensures HoldsLock(HandlerOf(v, k)) <==> v.lock == Some(k) {
      assert HoldsLock(HandlerOf(s, k)) <==> s.lock == Some(k);
    }
  }

  /** A handler may end at any point; the policy stays as it is. */
  lemma {:induction false} ReleaseKeeps(d: Descriptor, s: Server, t: Server, c: nat)
    requires ServerInv(d, s) && HandlerOf(s, c) != Closed
    requires t == s.(policy := t.policy, lostProbes := t.lostProbes, forwardingErrors := t.forwardingErrors)
    requires Tracked(t.policy, s.acceptedSteps, t.lostProbes)
    requires t.policy == s.policy || (SameStand(s.policy, t.policy) && HoldsLockOrFree(s, c))
    ensures ServerInv(d, Release(t, c))
  {
    hide Tracked;
    var v := Release(t, c);
    forall k: nat ensures HoldsLock(HandlerOf(v, k)) <==> v.lock == Some(k) {
      assert HoldsLock(HandlerOf(s, k)) <==> s.lock == Some(k);
    }
  }

  predicate SameStand(p: Policy, q: Policy) {
    q.state == p.state && q.complete == p.complete && q.failed == p.failed
  }

  predicate HoldsLockOrFree(s: Server, c: nat) {
    s.lock == None || s.lock == Some(c)
  }

  lemma {:induction false} SubmitKeeps(d: Descriptor, s: Server, c: nat, r: Request)
    requires ServerInv(d, s) && HandlerOf(s, c) == Idle
    ensures ServerInv(d, OnSubmit(d, s, c, r))
  {
    hide Tracked, Authorized, Fits, Violate, Release, DecisionFor;
    if s.lock != None {
      ViolateKeeps(d, s, s, c);
    } else {
      var (q, v) := Authorized(d, s.policy, r);
      GrantedMeans(d, s.policy, r);
      match v
      case Violation(_) =>
        RefusalKeepsTrack(d, s.policy, r, s.acceptedSteps, s.lostProbes);
        ViolateKeeps(d, s, s.(policy := q), c);
      case Escaped =>
        UnmovedKeepsTrack(s.policy, q, s.acceptedSteps, s.lostProbes, 0);
        ReleaseKeeps(d, s, s.(policy := q), c);
      case Granted(_) =>
        UnmovedKeepsTrack(s.policy, q, s.acceptedSteps, s.lostProbes, 0);
        DecisionNames(s.policy.state);
        var t := OnSubmit(d, s, c, r);
        forall k: nat ensures HoldsLock(HandlerOf(t, k)) <==> t.lock == Some(k) {
          assert HoldsLock(HandlerOf(s, k)) <==> s.lock == Some(k);
        }
    }
  }

  lemma {:induction false} DecisionNames(s: Step)
    ensures DecisionFor(s).name == s
  {
  }

  /** A refusal leaves a policy that is still on its track. */
  lemma {:induction false} RefusalKeepsTrack(d: Descriptor, p: Policy, r: Request, word: seq<Step>, lost: nat)
    requires Tracked(p, word, lost) && Authorized(d, p, r).1.Violation? && (p.failed == (p.state == Failed))
    ensures
      var q := Authorized(d, p, r).0;
      Tracked(q, word, lost) && (q.failed == (q.state == Failed))
  {
    hide Tracked, ExpectedTarget, ExpectedVerb, ExpectedQuery, DecisionFor;
    var q := Authorized(d, p, r).0;
    if q.failed {
      FailureKeepsTrack(p, q, word, lost);
    } else {
      UnmovedKeepsTrack(p, q, word, lost, 0);
    }
  }

  lemma {:induction false} HeadKeeps(d: Descriptor, s: Server, c: nat, readable: bool, code: nat, mediaOk: bool)
    requires ServerInv(d, s) && HandlerOf(s, c).Awaiting?
    ensures ServerInv(d, OnHead(s, c, readable, code, mediaOk))
  {
    hide Tracked, Violate;
    var h := s.handlers[c];
    if !readable || code !in h.decision.statuses || (h.decision.stream && !mediaOk) {
      ViolateKeeps(d, s, s, c);
    } else {
      var t := OnHead(s, c, readable, code, mediaOk);
      assert HoldsLock(HandlerOf(s, c));
      forall k: nat ensures HoldsLock(HandlerOf(t, k)) <==> t.lock == Some(k) {
        assert HoldsLock(HandlerOf(s, k)) <==> s.lock == Some(k);
      }
    }
  }

  lemma {:induction false} FinishKeeps(d: Descriptor, s: Server, c: nat, end: BodyEnd, reply: Reply)
    requires ServerInv(d, s) && HandlerOf(s, c).Relaying?
    ensures ServerInv(d, OnFinish(d, s, c, end, reply))
  {
    hide ServerInv, OnReply, Violate, Release;
    assert Tracked(s.policy, s.acceptedSteps, s.lostProbes) && (s.policy.failed == (s.policy.state == Failed)) by {
      InvTracks(d, s);
    }
    hide Tracked;
    match end
    case BodyRejected => ViolateKeeps(d, s, s, c);
    case BodyUnended => ReleaseCounts(d, s, c);
    case BodyOverlong => ReleaseKeeps(d, s, s, c);
    case BodyRead => ReplyKeeps(d, s, c, reply.(code := s.handlers[c].code));
  }

  lemma {:induction false} InvTracks(d: Descriptor, s: Server)
    requires ServerInv(d, s)
    ensures Tracked(s.policy, s.acceptedSteps, s.lostProbes) && (s.policy.failed == (s.policy.state == Failed))
  {
    hide Tracked;
  }

  lemma {:induction false} ReleaseCounts(d: Descriptor, s: Server, c: nat)
    requires ServerInv(d, s) && HandlerOf(s, c) != Closed
    ensures ServerInv(d, Broken(s, c))
  {
    hide Tracked;
    var t := s.(forwardingErrors := s.forwardingErrors + 1);
    ReleaseKeeps(d, s, t, c);
    assert Broken(s, c) == Release(t, c);
  }

  lemma {:induction false} ReplyKeeps(d: Descriptor, s: Server, c: nat, r: Reply)
    requires ServerInv(d, s) && HandlerOf(s, c).Relaying?
    ensures ServerInv(d, OnReply(d, s, c, r))
  {
    hide Tracked, Accepted, Violate, DecisionFor, LosesProbe;
    var h := s.handlers[c];
    assert HoldsLock(HandlerOf(s, c)) && InExchange(HandlerOf(s, c));
    var (q, v) := Accepted(d, s.policy, h.decision, r);
    AcceptanceKeepsTrack(d, s.policy, h.decision, r, s.acceptedSteps, s.lostProbes);
    match v
    case Violation(_) => ViolateKeeps(d, s, s.(policy := q), c);
    case Escaped =>
      var lost := s.lostProbes + if LosesProbe(d, s.policy, r) then 1 else 0;
      ReleaseKeeps(d, s, s.(policy := q, lostProbes := lost), c);
      assert OnReply(d, s, c, r) == Release(s.(policy := q, lostProbes := lost), c);
    case Granted(_) =>
      var t := OnReply(d, s, c, r);
      forall k: nat ensures HoldsLock(HandlerOf(t, k)) <==> t.lock == Some(k) {
        assert HoldsLock(HandlerOf(s, k)) <==> s.lock == Some(k);
      }
  }

  /** A reply to a granted exchange: accepted on the track, refused, or lost. */
  lemma {:induction false} AcceptanceKeepsTrack(
    d: Descriptor, p: Policy, decision: Decision, r: Reply, word: seq<Step>, lost: nat)
    requires Tracked(p, word, lost) && (p.failed == (p.state == Failed))
    requires decision.name != Failed && decision == DecisionFor(decision.name)
    requires p.failed || (decision.name == p.state && !p.complete)
    ensures
      var (q, v) := Accepted(d, p, decision, r);
      && (q.failed == (q.state == Failed))
      && (p.failed ==> v.Violation?) && (v.Granted? && q.complete ==> !q.failed)
      && (v.Escaped? ==>
            && SameStand(p, q) && Tracked(q, word, lost + if LosesProbe(d, p, r) then 1 else 0))
      && (!v.Escaped? ==> Tracked(q, if v.Granted? then word + [decision.name] else word, lost))
  {
    hide Tracked, ReplyCheck, DecisionFor, ExpectedStatuses, Health, LosesProbe;
    var (q, v) := Accepted(d, p, decision, r);
    if p.failed {
      FailureKeepsTrack(p, q, word, lost);
    } else {
      AcceptedMeans(d, p, r);
      match v
      case Granted(_) =>
        AcceptKeepsTrack(d, p, r, word, lost);
        CompleteIsNotFailed(d, p, r);
      case Violation(_) => RefusedReplyKeepsTrack(d, p, decision, r, word, lost);
      case Escaped =>
        OnlyProbesAreLost(d, p, r);
        UnmovedKeepsTrack(p, q, word, lost, if LosesProbe(d, p, r) then 1 else 0);
    }
  }

  lemma {:induction false} OnlyProbesAreLost(d: Descriptor, p: Policy, r: Reply)
    ensures LosesProbe(d, p, r) ==> p.state == DbHealth
  {
    hide ReplyCheck, Health, ExpectedStatuses;
  }

  lemma {:induction false} RefusedReplyKeepsTrack(
    d: Descriptor, p: Policy, decision: Decision, r: Reply, word: seq<Step>, lost: nat)
    requires Tracked(p, word, lost) && !p.failed && !p.complete && p.state != Failed
    requires Accepted(d, p, decision, r).1.Violation?
    ensures
      var q := Accepted(d, p, decision, r).0;
      Tracked(q, word, lost) && (q.failed == (q.state == Failed))
  {
    hide Tracked, ReplyCheck, Health;
    var q := Accepted(d, p, decision, r).0;
    if q.failed {
      FailureKeepsTrack(p, q, word, lost);
    } else {
      UnmovedKeepsTrack(p, q, word, lost, 0);
    }
  }

  lemma {:induction false} CompleteIsNotFailed(d: Descriptor, p: Policy, r: Reply)
    requires !p.failed && !p.complete && Accepted(d, p, DecisionFor(p.state), r).1.Granted?
    ensures
      var q := Accepted(d, p, DecisionFor(p.state), r).0;
      q.complete ==> !q.failed
  {
    hide Accepted, ReplyCheck, HealthKnown, ExpectedStatuses, LosesProbe;
    AcceptedMeans(d, p, r);
  }

  lemma {:induction false} OtherEventsKeep(d: Descriptor, s: Server, e: Event)
    requires ServerInv(d, s) && (e.Connect? || e.EndOfRequests? || e.Drained? || e.Break? || e.Escape?)
    ensures ServerInv(d, Do(d, s, e))
  {
    hide Tracked;
    var t := Do(d, s, e);
    forall k: nat ensures HoldsLock(HandlerOf(t, k)) <==> t.lock == Some(k) {
      assert HoldsLock(HandlerOf(s, k)) <==> s.lock == Some(k);
    }
  }

  lemma {:induction false} DoKeeps(d: Descriptor, s: Server, e: Event)
    requires ServerInv(d, s)
    ensures ServerInv(d, Do(d, s, e))
  {
    hide ServerInv, OnSubmit, OnHead, OnFinish;
    match e
    case Malformed(c) =>
      if HandlerOf(s, c) == Idle {
        MalformedKeeps(d, s, c);
      }
    case Submit(c, r) =>
      if HandlerOf(s, c) == Idle {
        SubmitKeeps(d, s, c, r);
      }
    case Head(c, readable, code, mediaOk) =>
      if HandlerOf(s, c).Awaiting? {
        HeadKeeps(d, s, c, readable, code, mediaOk);
      }
    case Finish(c, end, reply) =>
      if HandlerOf(s, c).Relaying? {
        FinishKeeps(d, s, c, end, reply);
      }
    case _ => OtherEventsKeep(d, s, e);
  }

  lemma {:induction false} MalformedKeeps(d: Descriptor, s: Server, c: nat)
    requires ServerInv(d, s) && HandlerOf(s, c) == Idle
    ensures ServerInv(d, Violate(s, c))
  {
    InvTracks(d, s);
    hide Tracked;
    ViolateKeeps(d, s, s, c);
  }

  lemma {:induction false} ServeKeeps(d: Descriptor, events: seq<Event>)
    ensures ServerInv(d, Serve(d, events))
    decreases |events|
  {
    hide ServerInv, Do;
    if events == [] {
      FreshIsFine(d);
    } else {
      ServeKeeps(d, events[..|events| - 1]);
      DoKeeps(d, Serve(d, events[..|events| - 1]), events[|events| - 1]);
    }
  }

  lemma {:induction false} FreshIsFine(d: Descriptor)
    ensures ServerInv(d, FRESH)
  {
    Start();
    hide Tracked;
  }

  // ----- what holds whatever the connections do -----

  /** At most one connection has a forwarded request without its response. */
  lemma {:induction false} OneExchangeAtATime(d: Descriptor, events: seq<Event>, a: nat, b: nat)
    requires InExchange(HandlerOf(Serve(d, events), a)) && InExchange(HandlerOf(Serve(d, events), b))
    ensures a == b
  {
    hide Serve, Tracked;
    ServeKeeps(d, events);
    var s := Serve(d, events);
    assert HoldsLock(HandlerOf(s, a)) <==> s.lock == Some(a);
    assert HoldsLock(HandlerOf(s, b)) <==> s.lock == Some(b);
  }

  /** The deliveries that are not streams. */
  function Whole(ds: seq<Delivery>): seq<Delivery> {
    if ds == [] then []
    else Whole(ds[..|ds| - 1]) + (if ds[|ds| - 1].stream then [] else [ds[|ds| - 1]])
  }

  lemma {:induction false} WholeAppend(ds: seq<Delivery>, x: Delivery)
    ensures Whole(ds + [x]) == Whole(ds) + (if x.stream then [] else [x])
  {
    assert (ds + [x])[..|ds|] == ds;
  }

  /** One event after a failure forwards nothing and delivers no whole response. */
  lemma {:induction false} FailedServerStops(d: Descriptor, s: Server, e: Event)
    requires ServerInv(d, s) && s.policy.failed
    ensures
      var t := Do(d, s, e);
      t.policy.failed && t.forwarded == s.forwarded && Whole(t.delivered) == Whole(s.delivered)
      && t.acceptedRequests == s.acceptedRequests
  {
    hide Tracked, Whole, ReplyCheck, Dispatched;
    match e
    case Head(c, readable, code, mediaOk) =>
      if HandlerOf(s, c).Awaiting? {
        var step := s.handlers[c].decision.name;
        WholeAppend(s.delivered, Delivery(c, step, true));
        assert Whole(s.delivered) + [] == Whole(s.delivered);
      }
    case Finish(c, end, reply) =>
      if HandlerOf(s, c).Relaying? {
        assert HoldsLock(HandlerOf(s, c)) && InExchange(HandlerOf(s, c));
        AcceptanceKeepsTrack(
          d, s.policy, s.handlers[c].decision, reply.(code := s.handlers[c].code), s.acceptedSteps, s.lostProbes);
      }
    case _ =>
  }

  /** Once the policy has failed, nothing is forwarded and no whole response delivered,
      whatever happens later. */
  lemma {:induction false} NothingAfterFailure(d: Descriptor, events: seq<Event>, later: seq<Event>)
    requires Serve(d, events).policy.failed
    ensures
      var s, t := Serve(d, events), Serve(d, events + later);
      t.policy.failed && t.forwarded == s.forwarded && Whole(t.delivered) == Whole(s.delivered)
      && t.acceptedRequests == s.acceptedRequests
    decreases |later|
  {
    hide Do, ServerInv, Whole;
    if later == [] {
      assert events + later == events;
    } else {
      var before, e := later[..|later| - 1], later[|later| - 1];
      NothingAfterFailure(d, events, before);
      assert (events + later)[..|events + later| - 1] == events + before;
      ServeKeeps(d, events + before);
      FailedServerStops(d, Serve(d, events + before), e);
    }
  }

  // ----- what was forwarded -----

  /** The event ends an exchange that was under way, without accepting it. */
  predicate CutsOff(d: Descriptor, s: Server, e: Event) {
    InExchange(HandlerOf(s, e.c)) && HandlerOf(Do(d, s, e), e.c).Closed?
  }

  /** It does so by an exception that nothing counts. */
  predicate Leaks(d: Descriptor, s: Server, e: Event) {
    match e
    case Escape(c) => InExchange(HandlerOf(s, c))
    case Finish(c, end, reply) =>
      && HandlerOf(s, c).Relaying?
      && (end.BodyOverlong?
          || (end.BodyRead?
              && Accepted(d, s.policy, s.handlers[c].decision, reply.(code := s.handlers[c].code)).1.Escaped?))
    case _ => false
  }

  ghost predicate NeverCutsOff(d: Descriptor, events: seq<Event>) {
    forall i :: 0 <= i < |events| ==> !CutsOff(d, Serve(d, events[..i]), events[i])
  }

  ghost predicate NeverLeaks(d: Descriptor, events: seq<Event>) {
    forall i :: 0 <= i < |events| ==> !Leaks(d, Serve(d, events[..i]), events[i])
  }

  /** The requests that are accounted for. */
  function Known(s: Server): seq<Request> {
    s.acceptedRequests + Outstanding(s)
  }

  /** An event touches no other connection's handler. */
  lemma {:induction false} OtherHandlers(d: Descriptor, s: Server, e: Event, k: nat)
    requires k != e.c
    ensures HandlerOf(Do(d, s, e), k) == HandlerOf(s, k)
  {
    hide Authorized, Accepted, LosesProbe, FailedPolicy;
  }

  /** An event outside an exchange leaves the one under way where it is. */
  lemma {:induction false} Elsewhere(d: Descriptor, s: Server, e: Event)
    requires LockHolds(s) && LockHolds(Do(d, s, e))
    requires !InExchange(HandlerOf(s, e.c)) && !InExchange(HandlerOf(Do(d, s, e), e.c))
    ensures Outstanding(Do(d, s, e)) == Outstanding(s)
  {
    hide Do;
    var t := Do(d, s, e);
    if s.lock.Some? {
      var k := s.lock.value;
      assert HoldsLock(HandlerOf(s, k)) <==> s.lock == Some(k);
      assert HoldsLock(HandlerOf(t, k)) <==> t.lock == Some(k);
      if k != e.c {
        OtherHandlers(d, s, e, k);
      }
    }
    if t.lock.Some? {
      var k := t.lock.value;
      assert HoldsLock(HandlerOf(s, k)) <==> s.lock == Some(k);
      assert HoldsLock(HandlerOf(t, k)) <==> t.lock == Some(k);
      if k != e.c {
        OtherHandlers(d, s, e, k);
      }
    }
  }

  lemma {:induction false} UnderWay(s: Server, c: nat)
    requires LockHolds(s) && InExchange(HandlerOf(s, c))
    ensures Outstanding(s) == [HandlerOf(s, c).request] && s.lock == Some(c)
  {
    assert HoldsLock(HandlerOf(s, c)) <==> s.lock == Some(c);
  }

  /** What an event does to the lists, seen from its own connection. */
  lemma {:induction false} OwnExchange(d: Descriptor, s: Server, e: Event)
    ensures
      var t, h := Do(d, s, e), HandlerOf(s, e.c);
      var g := HandlerOf(t, e.c);
      if InExchange(h) then
        && t.forwarded == s.forwarded
        && (InExchange(g) ==> t.acceptedRequests == s.acceptedRequests && g.request == h.request)
        && (g.Closed? ==> t.acceptedRequests == s.acceptedRequests)
        && (!InExchange(g) && !g.Closed? ==> t.acceptedRequests == s.acceptedRequests + [h.request])
      else
        && t.acceptedRequests == s.acceptedRequests
        && (InExchange(g) ==> s.lock == None && t.forwarded == s.forwarded + [g.request])
        && (!InExchange(g) ==> t.forwarded == s.forwarded)
  {
    hide Authorized, Accepted, LosesProbe, FailedPolicy;
  }

  /** What is forwarded is accepted or under way, unless it was cut off. */
  lemma {:induction false} ForwardStep(d: Descriptor, s: Server, e: Event)
    requires ServerInv(d, s)
    ensures
      var t := Do(d, s, e);
      if CutsOff(d, s, e) then t.forwarded == s.forwarded && |Known(t)| + 1 == |Known(s)|
      else exists more :: t.forwarded == s.forwarded + more && Known(t) == Known(s) + more
  {
    DoKeeps(d, s, e);
    hide Do, Tracked, GrantHolds, Outstanding;
    var t, c := Do(d, s, e), e.c;
    OwnExchange(d, s, e);
    if InExchange(HandlerOf(s, c)) {
      UnderWay(s, c);
      if InExchange(HandlerOf(t, c)) {
        UnderWay(t, c);
      } else {
        NoneUnderWay(d, s, e);
      }
      assert s.forwarded == s.forwarded + [];
      assert !CutsOff(d, s, e) ==> Known(t) == Known(s) + [];
    } else if InExchange(HandlerOf(t, c)) {
      UnderWay(t, c);
      assert Outstanding(s) == [] by {
        FreeLock(s);
      }
      assert Known(t) == Known(s) + [HandlerOf(t, c).request];
    } else {
      Elsewhere(d, s, e);
      assert t.forwarded == s.forwarded + [] && Known(t) == Known(s) + [];
    }
  }

  lemma {:induction false} FreeLock(s: Server)
    requires s.lock == None
    ensures Outstanding(s) == []
  {
  }

  /** An exchange that is over leaves the lock free. */
  lemma {:induction false} NoneUnderWay(d: Descriptor, s: Server, e: Event)
    requires LockHolds(s) && LockHolds(Do(d, s, e))
    requires InExchange(HandlerOf(s, e.c)) && !InExchange(HandlerOf(Do(d, s, e), e.c))
    ensures Outstanding(Do(d, s, e)) == []
  {
    hide Do;
    var t := Do(d, s, e);
    UnderWay(s, e.c);
    if t.lock.Some? && t.lock.value != e.c {
      var k := t.lock.value;
      OtherHandlers(d, s, e, k);
    }
  }

  /** At every point of every run: what was forwarded is exactly what was accepted, in
      order, and then what is under way, if and only if no exchange was ever cut off. */
  lemma {:induction false} ForwardedIsKnown(d: Descriptor, events: seq<Event>)
    ensures
      var s := Serve(d, events);
      && |s.forwarded| >= |Known(s)|
      && (s.forwarded == Known(s) <==> NeverCutsOff(d, events))
      && (|s.forwarded| == |Known(s)| <==> NeverCutsOff(d, events))
    decreases |events|
  {
    hide Do, CutsOff, Known, ServerInv;
    if events == [] {
      assert Known(FRESH) == [] by {
        FreshKnown();
      }
    } else {
      var n := |events| - 1;
      var before, e := events[..n], events[n];
      var s := Serve(d, before);
      ForwardedIsKnown(d, before);
      ServeKeeps(d, before);
      ForwardStep(d, s, e);
      forall i | 0 <= i < n ensures CutsOff(d, Serve(d, events[..i]), events[i]) == CutsOff(d, Serve(d, before[..i]), before[i]) {
        assert events[..i] == before[..i];
      }
      if CutsOff(d, s, e) {
        assert !NeverCutsOff(d, events);
      } else {
        assert NeverCutsOff(d, events) <==> NeverCutsOff(d, before);
      }
    }
  }

  lemma {:induction false} FreshKnown()
    ensures Known(FRESH) == []
  {
  }

  /** How a chunked body ends for the server. */
  function EndOfBody(v: ChunkedBody.Verdict): BodyEnd {
    match v
    case Accepted(_, _, _) => BodyRead
    case Refused(_) => BodyRejected
    case Escaped(overlong) => if overlong then BodyOverlong else BodyUnended
  }

  /** A response with a trailer line that is too long leaks, whatever it answers. */
  lemma {:induction false} OverlongTrailerLeaks(
    d: Descriptor, s: Server, c: nat, lastLine: ByteText.Bytes, trailer: ByteText.Bytes, tail: ByteText.Bytes,
    maximum: nat, reply: Reply)
    requires HandlerOf(s, c).Relaying?
    requires ByteText.NoCrlf(lastLine) && ChunkedBody.SizeLine(lastLine) && ChunkedBody.SizeOf(lastLine) == 0
    requires ByteText.NoCrlf(trailer) && |trailer| > ChunkedBody.STREAM_LIMIT
    ensures
      var body := lastLine + ByteText.CRLF + (trailer + ByteText.CRLF + tail);
      Leaks(d, s, Finish(c, EndOfBody(ChunkedBody.Take(body, maximum)), reply))
  {
    ChunkedBody.OverlongTrailerEscapes(lastLine, trailer, tail, maximum);
    hide ChunkedBody.Take, ChunkedBody.SizeLine, ChunkedBody.SizeOf, ByteText.NoCrlf, Accepted;
  }

  // ----- what a final class of completion means -----

  /** The counters never go down. */
  lemma {:induction false} CountersGrow(d: Descriptor, s: Server, e: Event)
    ensures
      var t := Do(d, s, e);
      && s.violations <= t.violations && s.forwardingErrors <= t.forwardingErrors
      && (Leaks(d, s, e) <==>
            CutsOff(d, s, e) && t.violations == s.violations && t.forwardingErrors == s.forwardingErrors)
  {
    hide Authorized, Accepted, LosesProbe, FailedPolicy;
  }

  /** When nothing was counted in a whole run, it cut exchanges off only by leaks. */
  lemma {:induction false} OnlyLeaks(d: Descriptor, events: seq<Event>)
    requires Serve(d, events).violations == 0 && Serve(d, events).forwardingErrors == 0
    ensures NeverCutsOff(d, events) <==> NeverLeaks(d, events)
    decreases |events|
  {
    hide Do, CutsOff, Leaks;
    if events != [] {
      var n := |events| - 1;
      var before, e := events[..n], events[n];
      CountersGrow(d, Serve(d, before), e);
      OnlyLeaks(d, before);
      forall i | 0 <= i < n ensures events[..i] == before[..i] {
      }
      assert NeverCutsOff(d, events) <==> NeverCutsOff(d, before) && !CutsOff(d, Serve(d, before), e) by {
        CutsOffOneByOne(d, events);
      }
      assert NeverLeaks(d, events) <==> NeverLeaks(d, before) && !Leaks(d, Serve(d, before), e) by {
        LeaksOneByOne(d, events);
      }
    }
  }

  lemma {:induction false} CutsOffOneByOne(d: Descriptor, events: seq<Event>)
    requires events != []
    ensures
      var n := |events| - 1;
      NeverCutsOff(d, events) <==>
        NeverCutsOff(d, events[..n]) && !CutsOff(d, Serve(d, events[..n]), events[n])
  {
    hide Serve, CutsOff;
    var n := |events| - 1;
    var before := events[..n];
    forall i | 0 <= i < n ensures CutsOff(d, Serve(d, events[..i]), events[i]) == CutsOff(d, Serve(d, before[..i]), before[i]) {
      assert events[..i] == before[..i];
    }
  }

  lemma {:induction false} LeaksOneByOne(d: Descriptor, events: seq<Event>)
    requires events != []
    ensures
      var n := |events| - 1;
      NeverLeaks(d, events) <==> NeverLeaks(d, events[..n]) && !Leaks(d, Serve(d, events[..n]), events[n])
  {
    hide Serve, Leaks;
    var n := |events| - 1;
    var before := events[..n];
    forall i | 0 <= i < n ensures Leaks(d, Serve(d, events[..i]), events[i]) == Leaks(d, Serve(d, before[..i]), before[i]) {
      assert events[..i] == before[..i];
    }
  }

  /** A policy reported complete: the accepted steps are a whole script, and what was
      forwarded is exactly the accepted requests, in order and once each, if and only if no
      exchange ended by an exception that nothing counts. */
  lemma {:induction false} CompleteMeansExactlyTheScript(d: Descriptor, events: seq<Event>)
    requires Classification(Serve(d, events)) == PolicyComplete
    ensures
      var s := Serve(d, events);
      && (exists get :: WholeScript(s.policy, s.acceptedSteps, s.lostProbes, get))
      && |s.acceptedRequests| == |s.acceptedSteps| == s.policy.stepIndex && Outstanding(s) == []
      && (s.forwarded == s.acceptedRequests <==> NeverLeaks(d, events))
      && (|s.forwarded| == |s.acceptedRequests| <==> NeverLeaks(d, events))
  {
    hide Serve, Script, Tracked, WholeScript, NeverLeaks, NeverCutsOff;
    ServeKeeps(d, events);
    var s := Serve(d, events);
    TrackedMeans(s.policy, s.acceptedSteps, s.lostProbes);
    CompleteHasNothingOutstanding(d, s);
    ForwardedIsKnown(d, events);
    OnlyLeaks(d, events);
    assert s.acceptedRequests + [] == s.acceptedRequests;
  }

  lemma {:induction false} CompleteHasNothingOutstanding(d: Descriptor, s: Server)
    requires ServerInv(d, s) && s.policy.complete && s.violations == 0
    ensures Outstanding(s) == []
  {
  }

  // ----- a request that is forwarded twice -----

  /** One accepted exchange through an idle connection. */
  function Serving(c: nat, x: Exchange): seq<Event> {
    [Submit(c, x.request), Head(c, true, x.reply.code, true), Finish(c, BodyRead, x.reply), Drained(c)]
  }

  function DoAll(d: Descriptor, s: Server, events: seq<Event>): Server
    decreases |events|
  {
    if events == [] then s else DoAll(d, Do(d, s, events[0]), events[1..])
  }

  lemma {:induction false} ServeMore(d: Descriptor, before: seq<Event>, events: seq<Event>)
    ensures Serve(d, before + events) == DoAll(d, Serve(d, before), events)
    decreases |events|
  {
    hide Do;
    if events == [] {
      assert before + events == before;
    } else {
      var first := before + [events[0]];
      assert first[..|before|] == before;
      assert before + events == first + events[1..];
      ServeMore(d, first, events[1..]);
    }
  }

  /** A server between two exchanges of connection `c`. */
  predicate Ready(s: Server, c: nat, p: Policy) {
    s.lock == None && HandlerOf(s, c) == Idle && s.policy == p
  }

  lemma {:induction false} ServesExchange(d: Descriptor, s: Server, c: nat, x: Exchange)
    requires Ready(s, c, s.policy) && Turn(d, s.policy, x).1
    ensures
      var t := DoAll(d, s, Serving(c, x));
      && Ready(t, c, Turn(d, s.policy, x).0) && t.receiptComplete == t.policy.complete
      && t.forwarded == s.forwarded + [x.request] && t.acceptedRequests == s.acceptedRequests + [x.request]
      && t.violations == s.violations && t.forwardingErrors == s.forwardingErrors
  {
    hide Authorized, Accepted, LosesProbe, FailedPolicy, DecisionFor, Do;
    GrantedMeans(d, s.policy, x.request);
    AcceptedTurn(d, s.policy, x);
    var (q, v) := Authorized(d, s.policy, x.request);
    var s1 := Do(d, s, Submit(c, x.request));
    SubmitServes(d, s, c, x.request);
    StatusesOfDecision(s.policy.state);
    var s2 := Do(d, s1, Head(c, true, x.reply.code, true));
    HeadServes(d, s1, c, x.request, v.value, x.reply.code);
    FinishServes(d, s2, c, x.request, v.value, x.reply);
    FourEvents(d, s, Serving(c, x));
  }

  lemma {:induction false} SubmitServes(d: Descriptor, s: Server, c: nat, r: Request)
    requires Ready(s, c, s.policy) && Authorized(d, s.policy, r).1.Granted?
    ensures
      var (q, v) := Authorized(d, s.policy, r);
      Do(d, s, Submit(c, r)) == s.(
        policy := q, lock := Some(c), forwarded := s.forwarded + [r], handlers := s.handlers[c := Awaiting(r, v.value)])
  {
    hide Authorized;
  }

  lemma {:induction false} HeadServes(d: Descriptor, s: Server, c: nat, r: Request, decision: Decision, code: nat)
    requires HandlerOf(s, c) == Awaiting(r, decision) && code in decision.statuses
    ensures
      var t := Do(d, s, Head(c, true, code, true));
      t == s.(handlers := s.handlers[c := Relaying(r, decision, code)], delivered := t.delivered)
  {
  }

  /** The reply is accepted, and the client takes it. */
  lemma {:induction false} FinishServes(d: Descriptor, s: Server, c: nat, r: Request, decision: Decision, reply: Reply)
    requires HandlerOf(s, c) == Relaying(r, decision, reply.code)
    requires Accepted(d, s.policy, decision, reply).1.Granted?
    ensures
      var q := Accepted(d, s.policy, decision, reply).0;
      var t := Do(d, Do(d, s, Finish(c, BodyRead, reply)), Drained(c));
      && Ready(t, c, q) && t.receiptComplete == q.complete && t.forwarded == s.forwarded
      && t.acceptedRequests == s.acceptedRequests + [r]
      && t.violations == s.violations && t.forwardingErrors == s.forwardingErrors
  {
    hide Accepted;
    assert reply.(code := reply.code) == reply;
  }

  lemma {:induction false} StatusesOfDecision(s: Step)
    ensures DecisionFor(s).statuses == ExpectedStatuses(s)
  {
  }

  lemma {:induction false} FourEvents(d: Descriptor, s: Server, es: seq<Event>)
    requires |es| == 4
    ensures DoAll(d, s, es) == Do(d, Do(d, Do(d, Do(d, s, es[0]), es[1]), es[2]), es[3])
  {
    hide Do;
    var s1 := Do(d, s, es[0]);
    var s2 := Do(d, s1, es[1]);
    var s3 := Do(d, s2, es[2]);
    assert es[1..][1..] == es[2..] && es[2..][1..] == es[3..] && es[3..][1..] == [];
    assert DoAll(d, s1, es[1..]) == DoAll(d, s2, es[2..]);
    assert DoAll(d, s2, es[2..]) == DoAll(d, s3, es[3..]);
    assert DoAll(d, s3, es[3..]) == DoAll(d, Do(d, s3, es[3]), []);
  }

  /** All accepted exchanges of a run, through one connection. */
  lemma {:induction false} ServesRun(d: Descriptor, before: seq<Event>, c: nat, xs: seq<Exchange>)
    returns (events: seq<Event>)
    requires Ready(Serve(d, before), c, INITIAL) && |Play(d, INITIAL, xs).1| == |xs|
    ensures before <= events
    ensures
      var s, t := Serve(d, before), Serve(d, events);
      && Ready(t, c, Play(d, INITIAL, xs).0) && (xs != [] ==> t.receiptComplete == t.policy.complete)
      && t.violations == s.violations && t.forwardingErrors == s.forwardingErrors
      && |t.forwarded| == |s.forwarded| + |xs|
      && (forall i :: 0 <= i < |xs| ==> t.forwarded[|s.forwarded| + i] == xs[i].request)
      && t.forwarded[..|s.forwarded|] == s.forwarded
      && |t.acceptedRequests| == |s.acceptedRequests| + |xs|
      && t.acceptedRequests == s.acceptedRequests + t.forwarded[|s.forwarded|..]
    decreases |xs|
  {
    hide Do, Turn, Serving, DoAll;
    if xs == [] {
      events := before;
    } else {
      var n := |xs| - 1;
      WordIsShort(d, xs[..n]);
      var fewer := ServesRun(d, before, c, xs[..n]);
      ServesExchange(d, Serve(d, fewer), c, xs[n]);
      ServeMore(d, fewer, Serving(c, xs[n]));
      events := fewer + Serving(c, xs[n]);
    }
  }

  lemma {:induction false} WordIsShort(d: Descriptor, xs: seq<Exchange>)
    ensures |Play(d, INITIAL, xs).1| <= |xs|
    decreases |xs|
  {
    hide Turn;
    if xs != [] {
      WordIsShort(d, xs[..|xs| - 1]);
    }
  }

  /** For every descriptor there is a run that forwards its first request twice: cut off by
      a counted error it is not reported complete, cut off by an uncounted one it is. */
  lemma {:induction false} CutExchangeRepeats(d: Descriptor, counted: bool) returns (events: seq<Event>)
    ensures
      var s := Serve(d, events);
      && Classification(s) == (if counted then ForwardingFailed else PolicyComplete)
      && s.policy.complete && s.acceptedRequests != [] && s.forwarded == [s.acceptedRequests[0]] + s.acceptedRequests
  {
    hide *;
    var xs := ShortestRun(d);
    var r := xs[0].request;
    FirstAccepted(d, xs);
    AcceptedTurn(d, INITIAL, xs[0]);
    var before := [Connect(0), Submit(0, r), if counted then Break(0) else Escape(0), Connect(1)];
    CutStart(d, r, counted);
    ServeMore(d, [], before);
    assert Serve(d, before) == DoAll(d, FRESH, before) by {
      ServeNothing(d);
      assert [] + before == before;
    }
    events := ServesRun(d, before, 1, xs);
    var s := Serve(d, events);
    assert s.forwarded == [r] + s.forwarded[1..];
    assert s.acceptedRequests == [] + s.forwarded[1..] == s.forwarded[1..];
    ReadyHas(s, 1, Play(d, INITIAL, xs).0);
    assert xs != [];
    ReportedComplete(s, counted);
  }

  lemma {:induction false} ReadyHas(s: Server, c: nat, p: Policy)
    requires Ready(s, c, p)
    ensures s.policy == p
  {
  }

  lemma {:induction false} ServeNothing(d: Descriptor)
    ensures Serve(d, []) == FRESH
  {
  }

  lemma {:induction false} ReportedComplete(s: Server, counted: bool)
    requires s.receiptComplete && s.violations == 0 && s.forwardingErrors == if counted then 1 else 0
    ensures Classification(s) == if counted then ForwardingFailed else PolicyComplete
  {
  }

  lemma {:induction false} ShortestRun(d: Descriptor) returns (xs: seq<Exchange>)
    ensures |Play(d, INITIAL, xs).1| == |xs| == 16 && Play(d, INITIAL, xs).0.complete
  {
    hide Script, Waits, Play, LostProbes;
    ScriptShape(false, 1, true);
    xs := EveryScriptIsAccepted(d, false, 1, true, 0, 16);
  }

  lemma {:induction false} FirstAccepted(d: Descriptor, xs: seq<Exchange>)
    requires xs != [] && |Play(d, INITIAL, xs).1| == |xs|
    ensures Turn(d, INITIAL, xs[0]).1
    decreases |xs|
  {
    hide Turn;
    var n := |xs| - 1;
    if n > 0 {
      WordIsShort(d, xs[..n]);
      FirstAccepted(d, xs[..n]);
    } else {
      assert xs[..0] == [];
    }
  }

  lemma {:induction false} CutStart(d: Descriptor, r: Request, counted: bool)
    requires Fits(d, INITIAL, r)
    ensures
      var before := [Connect(0), Submit(0, r), if counted then Break(0) else Escape(0), Connect(1)];
      var s := DoAll(d, FRESH, before);
      && Ready(s, 1, INITIAL) && s.forwarded == [r] && s.acceptedRequests == []
      && s.violations == 0 && s.forwardingErrors == if counted then 1 else 0
  {
    hide Authorized;
    GrantedMeans(d, INITIAL, r);
    var before := [Connect(0), Submit(0, r), if counted then Break(0) else Escape(0), Connect(1)];
    FourEvents(d, FRESH, before);
  }
}
