/** The words of accepted requests: what the policy can be led through, and only that. */
module PolicyLanguage {
  import opened Wrappers
  import opened DbStartPolicy

  datatype Exchange = Exchange(request: Request, reply: Reply)

  /** One exchange through the server: any violation marks the policy failed; anything
      else that is raised leaves it as it stands, and ready for another connection. */
  function Turn(d: Descriptor, p: Policy, x: Exchange): (r: (Policy, bool)) {
    var (q, granted) := Authorized(d, p, x.request);
    match granted
    case Violation(_) => (FailedPolicy(q), false)
    case Escaped => (q, false)
    case Granted(decision) =>
      var (t, done) := Accepted(d, q, decision, x.reply);
      match done
      case Violation(_) => (FailedPolicy(t), false)
      case Escaped => (t, false)
      case Granted(_) => (t, true)
  }

  /** The policy after the exchanges and the steps it accepted. */
  function Play(d: Descriptor, p: Policy, xs: seq<Exchange>): (Policy, seq<Step>) {
    if xs == [] then (p, [])
    else
      var n := |xs| - 1;
      var (q, word) := Play(d, p, xs[..n]);
      var (t, accepted) := Turn(d, q, xs[n]);
      (t, if accepted then word + [q.state] else word)
  }

  /** The exchange is counted as a probe although its reply is not accepted. */
  predicate Loses(d: Descriptor, p: Policy, x: Exchange) {
    Fits(d, p, x.request) && LosesProbe(d, p, x.reply)
  }

  /** How many probes were lost in a run. */
  function LostProbes(d: Descriptor, xs: seq<Exchange>): nat {
    if xs == [] then 0
    else
      var n := |xs| - 1;
      LostProbes(d, xs[..n]) + if Loses(d, Play(d, INITIAL, xs[..n]).0, xs[n]) then 1 else 0
  }

  // ----- the script -----

  function Head(get: bool): seq<Step> {
    if get then [NegotiateHead, NegotiateGet] else [NegotiateHead]
  }

  const SETUP := [DbInspect, VolumeInspect, PgImageInspect, NetworkDb, VolumeCreate, DbCreate, DbStart]

  const GOTRUE :=
    [GotrueImageInspect, NetworkGotrue, GotrueCreate, GotrueStart, GotrueLogs, GotrueInspect, GotrueRemove]

  function Probes(n: nat): (word: seq<Step>)
    ensures |word| == n && forall i :: 0 <= i < n ==> word[i] == DbHealth
  {
    seq(n, _ => DbHealth)
  }

  /** A whole word: `healthy` after `n` probes, or the log after all of them. */
  function Script(get: bool, n: nat, healthy: bool): seq<Step> {
    Head(get) + SETUP + Probes(n) + (if healthy then GOTRUE else [DbLogs])
  }

  /** The log comes only after the last of all probes, lost ones included. */
  predicate ProperScript(n: nat, healthy: bool, lost: nat) {
    1 <= n <= MAX_PROBES && (!healthy ==> n + lost >= MAX_PROBES)
  }

  /** How many steps of a word come before the given one. */
  function Index(get: bool, n: nat, s: Step): nat {
    var base := |Head(get)|;
    match s
    case NegotiateHead => 0
    case NegotiateGet => 1
    case DbInspect => base
    case VolumeInspect => base + 1
    case PgImageInspect => base + 2
    case NetworkDb => base + 3
    case VolumeCreate => base + 4
    case DbCreate => base + 5
    case DbStart => base + 6
    case DbHealth => base + 7 + n
    case DbLogs => base + 7 + n
    case GotrueImageInspect => base + 7 + n
    case NetworkGotrue => base + 8 + n
    case GotrueCreate => base + 9 + n
    case GotrueStart => base + 10 + n
    case GotrueLogs => base + 11 + n
    case GotrueInspect => base + 12 + n
    case GotrueRemove => base + 13 + n
    case Complete => base + 14 + n
    case Failed => base + 8 + n
  }

  /** The steps after a healthy probe. */
  predicate IsGotrue(s: Step) {
    || s.GotrueImageInspect? || s.NetworkGotrue? || s.GotrueCreate? || s.GotrueStart? || s.GotrueLogs?
    || s.GotrueInspect? || s.GotrueRemove? || s.Complete?
  }

  /** The number of accepted probes, and of all that were counted, fits the state. */
  predicate ProbesFit(n: nat, probes: nat, s: Step) {
    if s == DbHealth then n < MAX_PROBES
    else if s == DbLogs then 1 <= n <= MAX_PROBES <= probes
    else if IsGotrue(s) then 1 <= n <= MAX_PROBES
    else probes == 0
  }

  /** The word so far leads to the state the policy is in. */
  ghost predicate OnTrack(p: Policy, word: seq<Step>, lost: nat, get: bool) {
    && !p.failed && p.state != Failed && p.complete == (p.state == Complete)
    && lost <= p.healthProbes && p.stepIndex == |word| && (p.state == NegotiateGet ==> get)
    && var n := p.healthProbes - lost;
      ProbesFit(n, p.healthProbes, p.state) && |word| == Index(get, n, p.state) && word <= Script(get, n, true)
  }

  /** The word is a beginning of a script in whose run that many probes may be lost. */
  ghost predicate LegalAfter(word: seq<Step>, lost: nat) {
    exists get, n, healthy :: ProperScript(n, healthy, lost) && word <= Script(get, n, healthy)
  }

  /** The word is a beginning of some proper script. */
  ghost predicate Legal(word: seq<Step>) {
    LegalAfter(word, 0)
  }

  // ----- only legal words -----

  lemma {:induction false} ScriptShape(get: bool, n: nat, healthy: bool)
    ensures
      var word, base := Script(get, n, healthy), |Head(get)|;
      && |word| == base + 7 + n + (if healthy then 7 else 1)
      && word[0] == NegotiateHead && (get ==> word[1] == NegotiateGet)
      && (forall j | base + 7 <= j < base + 7 + n :: word[j] == DbHealth)
      && (!healthy ==> word[base + 7 + n] == DbLogs)
  {
  }

  lemma {:induction false} SetupAt(get: bool, n: nat, healthy: bool, i: nat)
    requires i < 7
    ensures |Head(get)| + i < |Script(get, n, healthy)| && Script(get, n, healthy)[|Head(get)| + i] == SETUP[i]
  {
  }

  lemma {:induction false} GotrueAt(get: bool, n: nat, i: nat)
    requires i < 7
    ensures |Head(get)| + 7 + n + i < |Script(get, n, true)|
    ensures Script(get, n, true)[|Head(get)| + 7 + n + i] == GOTRUE[i]
  {
  }

  lemma {:induction false} ScriptAt(get: bool, n: nat, s: Step)
    requires s !in {DbHealth, DbLogs, Complete, Failed} && (s == NegotiateGet ==> get)
    ensures Index(get, n, s) < |Script(get, n, true)| && Script(get, n, true)[Index(get, n, s)] == s
  {
    hide Script;
    ScriptShape(get, n, true);
    match s
    case DbInspect => SetupAt(get, n, true, 0);
    case VolumeInspect => SetupAt(get, n, true, 1);
    case PgImageInspect => SetupAt(get, n, true, 2);
    case NetworkDb => SetupAt(get, n, true, 3);
    case VolumeCreate => SetupAt(get, n, true, 4);
    case DbCreate => SetupAt(get, n, true, 5);
    case DbStart => SetupAt(get, n, true, 6);
    case GotrueImageInspect => GotrueAt(get, n, 0);
    case NetworkGotrue => GotrueAt(get, n, 1);
    case GotrueCreate => GotrueAt(get, n, 2);
    case GotrueStart => GotrueAt(get, n, 3);
    case GotrueLogs => GotrueAt(get, n, 4);
    case GotrueInspect => GotrueAt(get, n, 5);
    case GotrueRemove => GotrueAt(get, n, 6);
    case _ =>
  }

  /** Up to and including the probes, scripts agree. */
  lemma {:induction false} ScriptsAgree(get: bool, n: nat, m: nat, healthy: bool, word: seq<Step>)
    requires n <= m && |word| <= |Head(get)| + 7 + n && word <= Script(get, n, true)
    ensures word <= Script(get, m, healthy)
  {
    hide Head;
    ScriptShape(get, n, true);
    ScriptShape(get, m, healthy);
    var base := |Head(get)|;
    var common := Head(get) + SETUP + Probes(n);
    assert Script(get, n, true) == common + GOTRUE;
    assert Probes(m) == Probes(n) + Probes(m - n);
    assert Script(get, m, healthy) == common + (Probes(m - n) + (if healthy then GOTRUE else [DbLogs]));
    assert word == common[..|word|];
  }

  lemma {:induction false} LegalBy(word: seq<Step>, lost: nat, get: bool, n: nat, healthy: bool)
    requires ProperScript(n, healthy, lost) && word <= Script(get, n, healthy)
    ensures LegalAfter(word, lost)
  {
    hide Script;
  }

  lemma {:induction false} TrackIsLegal(p: Policy, word: seq<Step>, lost: nat, get: bool)
    requires OnTrack(p, word, lost, get)
    ensures LegalAfter(word, lost)
  {
    hide Script;
    var n := p.healthProbes - lost;
    if n == 0 || p.state == DbHealth {
      ScriptsAgree(get, n, n + 1, true, word);
      LegalBy(word, lost, get, n + 1, true);
    } else {
      LegalBy(word, lost, get, n, true);
    }
  }

  predicate IdsFit(p: Policy) {
    match p.state
    case DbStart => IsId(p.dbId) && p.gotrueId == ""
    case DbHealth => IsId(p.dbId) && p.gotrueId == ""
    case DbLogs => IsId(p.dbId) && p.gotrueId == ""
    case GotrueImageInspect => IsId(p.dbId) && p.gotrueId == ""
    case NetworkGotrue => IsId(p.dbId) && p.gotrueId == ""
    case GotrueCreate => IsId(p.dbId) && p.gotrueId == ""
    case Failed => true
    case s => if IsGotrue(s) then IsId(p.dbId) && IsId(p.gotrueId) && p.dbId != p.gotrueId
              else p.dbId == "" && p.gotrueId == ""
  }

  /** The whole word of a complete policy. */
  ghost predicate WholeScript(p: Policy, word: seq<Step>, lost: nat, get: bool) {
    && lost < p.healthProbes <= lost + MAX_PROBES
    && word == Script(get, p.healthProbes - lost, true)
  }

  /** What the policy holds after any exchanges that accepted `word` and lost that many
      probes. */
  ghost predicate Tracked(p: Policy, word: seq<Step>, lost: nat) {
    && p.stepIndex == |word| && IdsFit(p)
    && ((exists get :: OnTrack(p, word, lost, get))
        || (p.failed && p.state == Failed && LegalAfter(word, lost)
            && (p.complete ==> exists get :: WholeScript(p, word, lost, get))))
  }

  /** What an accepted exchange does to the policy. */
  lemma {:induction false} AcceptedTurn(d: Descriptor, p: Policy, x: Exchange)
    requires Turn(d, p, x).1
    ensures
      var q := p.(requestBytes := p.requestBytes + x.request.bodyLength, responseBytes := p.responseBytes + x.reply.bodyBytes);
      && Fits(d, p, x.request) && x.reply.code in ExpectedStatuses(p.state)
      && ReplyCheck(d, p, x.reply) == Passes && HealthKnown(p, x.reply)
      && Turn(d, p, x).0 == Advance(q, x.reply).(stepIndex := p.stepIndex + 1)
  {
    hide Authorized, Accepted, Fits, ExpectedStatuses, ReplyCheck, HealthKnown, Advance;
    GrantedMeans(d, p, x.request);
    var a := Authorized(d, p, x.request);
    var q := a.0;
    assert a.1.Granted? && a.1.value == DecisionFor(q.state);
    assert Accepted(d, q, DecisionFor(q.state), x.reply).1.Granted?;
    AcceptedMeans(d, q, x.reply);
    SameCheck(d, p, q, x.reply);
    SameAdvance(p, q, x.reply);
  }

  lemma {:induction false} SameAdvance(p: Policy, q: Policy, r: Reply)
    requires q == p.(requestBytes := q.requestBytes, responseBytes := q.responseBytes)
    ensures Advance(q, r) == Advance(p, r).(requestBytes := q.requestBytes, responseBytes := q.responseBytes)
  {
  }

  lemma {:induction false} CreatedId(d: Descriptor, p: Policy, r: Reply)
    requires ReplyCheck(d, p, r).Passes? && IsCreateStep(p.state)
    ensures IsId(ReplyId(r)) && ReplyId(r) != p.dbId && ReplyId(r) != p.gotrueId
  {
    hide IsId;
  }

  /** An exchange that is not accepted marks the policy failed, or leaves it as it was
      except for one lost probe. */
  lemma {:induction false} RefusedTurn(d: Descriptor, p: Policy, x: Exchange)
    requires !Turn(d, p, x).1
    ensures
      var t := Turn(d, p, x).0;
      && t.stepIndex == p.stepIndex && t.complete == p.complete && t.dbId == p.dbId && t.gotrueId == p.gotrueId
      && (Loses(d, p, x) ==> Unmoved(p, t, 1) && p.state == DbHealth)
      && (!Loses(d, p, x) ==>
            || Unmoved(p, t, 0)
            || (t.failed && t.state == Failed && (p.failed || p.complete ==> t.healthProbes == p.healthProbes)))
  {
    hide Authorized, Accepted, Fits, ReplyCheck, Health, HealthKnown, ExpectedStatuses, IdsFit;
    GrantedMeans(d, p, x.request);
    var (q, granted) := Authorized(d, p, x.request);
    if granted.Granted? {
      AcceptedMeans(d, q, x.reply);
      SameCheck(d, p, q, x.reply);
      if Accepted(d, q, granted.value, x.reply).1.Violation? {
        RefusedReply(d, q, granted.value, x.reply);
      }
    } else if granted.Violation? {
      RefusedRequest(d, p, x.request);
    }
  }

  /** Nothing but the byte counts differs, and so many more probes were counted. */
  predicate Unmoved(p: Policy, t: Policy, probes: nat) {
    && !p.failed && !p.complete
    && t == p.(requestBytes := t.requestBytes, responseBytes := t.responseBytes, healthProbes := p.healthProbes + probes)
  }

  lemma {:induction false} RefusedReply(d: Descriptor, p: Policy, decision: Decision, r: Reply)
    requires Accepted(d, p, decision, r).1.Violation?
    ensures
      var t := Accepted(d, p, decision, r).0;
      t.stepIndex == p.stepIndex && t.complete == p.complete && t.dbId == p.dbId && t.gotrueId == p.gotrueId
  {
    hide ReplyCheck;
  }

  lemma {:induction false} RefusedRequest(d: Descriptor, p: Policy, r: Request)
    requires Authorized(d, p, r).1.Violation?
    ensures
      var t := Authorized(d, p, r).0;
      && t.stepIndex == p.stepIndex && t.complete == p.complete && t.dbId == p.dbId && t.gotrueId == p.gotrueId
      && t.healthProbes == p.healthProbes
  {
    hide ExpectedTarget, ExpectedVerb, ExpectedQuery, DecisionFor;
  }

  /** The script goes on with the step that was just accepted. */
  lemma {:induction false} Extends(get: bool, n: nat, s: Step, word: seq<Step>)
    requires s !in {DbHealth, DbLogs, Complete, Failed} && (s == NegotiateGet ==> get)
    requires word <= Script(get, n, true) && |word| == Index(get, n, s)
    ensures word + [s] <= Script(get, n, true)
  {
    hide Script, Index;
    ScriptAt(get, n, s);
  }

  lemma {:induction false} OneMoreProbe(get: bool, n: nat, word: seq<Step>)
    requires word <= Script(get, n, true) && |word| == |Head(get)| + 7 + n
    ensures word + [DbHealth] <= Script(get, n + 1, true)
    ensures word + [DbLogs] == Script(get, n, false)
  {
    hide Head;
    ScriptShape(get, n, true);
    ScriptsAgree(get, n, n + 1, true, word);
    ScriptsAgree(get, n, n, false, word);
    ScriptShape(get, n + 1, true);
    ScriptShape(get, n, false);
    assert Script(get, n + 1, true)[|Head(get)| + 7 + n] == DbHealth;
  }

  lemma {:induction false} AdvanceKeepsIds(d: Descriptor, p: Policy, r: Reply)
    requires IdsFit(p) && p.state != Failed && ReplyCheck(d, p, r).Passes?
    ensures IdsFit(Advance(p, r))
  {
    hide ReplyCheck, IsId, Health, ReplyId;
    if IsCreateStep(p.state) {
      CreatedId(d, p, r);
    }
  }

  /** Accepting a reply keeps to the script. */
  lemma {:induction false} AcceptKeepsTrack(d: Descriptor, p: Policy, r: Reply, word: seq<Step>, lost: nat)
    requires Tracked(p, word, lost) && !p.failed && !p.complete
    requires Accepted(d, p, DecisionFor(p.state), r).1.Granted?
    ensures Tracked(Accepted(d, p, DecisionFor(p.state), r).0, word + [p.state], lost)
  {
    hide Script, Accepted, ReplyCheck, Advance, HealthKnown, LosesProbe, ExpectedStatuses, IdsFit, Index, LegalAfter, WholeScript;
    AcceptedMeans(d, p, r);
    AdvanceKeepsIds(d, p, r);
    var q := p.(responseBytes := p.responseBytes + r.bodyBytes);
    var t := Accepted(d, p, DecisionFor(p.state), r).0;
    SameAdvance(p, q, r);
    SameIds(Advance(p, r), t);
    var get :| OnTrack(p, word, lost, get);
    if p.state == DbHealth || p.state == DbLogs {
      ProbeKeepsTrack(p, t, r, word, lost, get);
    } else {
      PlainStepKeepsTrack(p, t, r, word, lost, get);
    }
  }

  lemma {:induction false} SameIds(p: Policy, t: Policy)
    requires t.state == p.state && t.dbId == p.dbId && t.gotrueId == p.gotrueId
    ensures IdsFit(t) == IdsFit(p)
  {
    hide IsId;
  }

  /** More bytes, or a lost probe, keep to the script. */
  lemma {:induction false} UnmovedKeepsTrack(p: Policy, t: Policy, word: seq<Step>, lost: nat, more: nat)
    requires Tracked(p, word, lost) && Unmoved(p, t, more) && (more > 0 ==> p.state == DbHealth)
    ensures Tracked(t, word, lost + more)
  {
    hide Script, IdsFit, Index, LegalAfter, WholeScript;
    SameIds(p, t);
    var get :| OnTrack(p, word, lost, get);
    assert OnTrack(t, word, lost + more, get);
  }

  /** Failing keeps the accepted word. */
  lemma {:induction false} FailureKeepsTrack(p: Policy, t: Policy, word: seq<Step>, lost: nat)
    requires Tracked(p, word, lost)
    requires t.failed && t.state == Failed && t.stepIndex == p.stepIndex && t.complete == p.complete
    requires p.failed || p.complete ==> t.healthProbes == p.healthProbes
    ensures Tracked(t, word, lost)
  {
    hide Script, IdsFit, Index, LegalAfter;
    FailedIdsFit(t);
    if p.failed {
      if p.complete {
        var get :| WholeScript(p, word, lost, get);
        assert WholeScript(t, word, lost, get);
      }
    } else {
      var get :| OnTrack(p, word, lost, get);
      TrackIsLegal(p, word, lost, get);
      if p.complete {
        CompleteWord(p, word, lost, get);
        assert WholeScript(t, word, lost, get);
      }
    }
  }

  /** The parts of the policy that the track depends on. */
  predicate SameTrack(p: Policy, q: Policy) {
    && p.state == q.state && p.stepIndex == q.stepIndex && p.healthProbes == q.healthProbes
    && p.complete == q.complete && p.failed == q.failed
  }

  lemma {:induction false} ProbeKeepsTrack(p: Policy, t: Policy, r: Reply, word: seq<Step>, lost: nat, get: bool)
    requires OnTrack(p, word, lost, get) && (p.state == DbHealth || p.state == DbLogs) && HealthKnown(p, r)
    requires IdsFit(t) && SameTrack(t, Advance(p, r).(stepIndex := p.stepIndex + 1))
    ensures Tracked(t, word + [p.state], lost)
  {
    hide Script, IdsFit, Health;
    var n := p.healthProbes - lost;
    OneMoreProbe(get, n, word);
    if p.state == DbHealth {
      assert OnTrack(t, word + [DbHealth], lost, get);
    } else {
      LegalBy(word + [DbLogs], lost, get, n, false);
    }
  }

  lemma {:induction false} PlainStepKeepsTrack(p: Policy, t: Policy, r: Reply, word: seq<Step>, lost: nat, get: bool)
    requires OnTrack(p, word, lost, get) && p.state != DbHealth && p.state != DbLogs && !p.complete
    requires IdsFit(t) && SameTrack(t, Advance(p, r).(stepIndex := p.stepIndex + 1))
    ensures Tracked(t, word + [p.state], lost)
  {
    hide Script, IdsFit;
    var n := p.healthProbes - lost;
    var g := if p.state == NegotiateHead then t.state == NegotiateGet else get;
    Extends(g, n, p.state, word);
    PlainAdvance(p, r, n, g);
    hide Advance, Index, ProbesFit;
    assert OnTrack(t, word + [p.state], lost, g);
  }

  /** A step other than a probe or the log leads one place further in the script. */
  lemma {:induction false} PlainAdvance(p: Policy, r: Reply, n: nat, get: bool)
    requires p.state !in {DbHealth, DbLogs, Complete, Failed} && !p.failed && !p.complete
    requires n <= p.healthProbes && ProbesFit(n, p.healthProbes, p.state)
    requires p.state == NegotiateGet || (p.state == NegotiateHead && NextStep(p.state, 0, r) == NegotiateGet) ==> get
    requires p.state == NegotiateHead && NextStep(p.state, 0, r) != NegotiateGet ==> !get
    ensures
      var t := Advance(p, r);
      && !t.failed && t.state != Failed && t.complete == (t.state == Complete) && t.healthProbes == p.healthProbes
      && (t.state == NegotiateGet ==> p.state == NegotiateHead) && ProbesFit(n, t.healthProbes, t.state)
      && Index(get, n, t.state) == Index(get, n, p.state) + 1
  {
    hide Health, ReplyId;
  }

  lemma {:induction false} TurnKeepsTrack(d: Descriptor, p: Policy, x: Exchange, word: seq<Step>, lost: nat)
    requires Tracked(p, word, lost)
    ensures
      var (t, accepted) := Turn(d, p, x);
      Tracked(t, if accepted then word + [p.state] else word, lost + if Loses(d, p, x) then 1 else 0)
  {
    hide Turn, Tracked, Loses;
    if Turn(d, p, x).1 {
      AcceptedKeepsTrack(d, p, x, word, lost);
    } else {
      var t := Turn(d, p, x).0;
      RefusedTurn(d, p, x);
      if Loses(d, p, x) {
        UnmovedKeepsTrack(p, t, word, lost, 1);
      } else if Unmoved(p, t, 0) {
        UnmovedKeepsTrack(p, t, word, lost, 0);
      } else {
        FailureKeepsTrack(p, t, word, lost);
      }
    }
  }

  lemma {:induction false} AcceptedKeepsTrack(d: Descriptor, p: Policy, x: Exchange, word: seq<Step>, lost: nat)
    requires Tracked(p, word, lost) && Turn(d, p, x).1
    ensures !Loses(d, p, x) && Tracked(Turn(d, p, x).0, word + [p.state], lost)
  {
    hide Tracked, Authorized, Accepted, Fits, LosesProbe, ReplyCheck, ExpectedStatuses, DecisionFor, HealthKnown;
    GrantedMeans(d, p, x.request);
    var q := Authorized(d, p, x.request).0;
    UnmovedKeepsTrack(p, q, word, lost, 0);
    AcceptKeepsTrack(d, q, x.reply, word, lost);
    AcceptedMeans(d, q, x.reply);
    SameCheck(d, p, q, x.reply);
  }

  lemma {:induction false} FailedIdsFit(p: Policy)
    requires p.state == Failed
    ensures IdsFit(p)
  {
  }

  lemma {:induction false} CompleteWord(p: Policy, word: seq<Step>, lost: nat, get: bool)
    requires OnTrack(p, word, lost, get) && p.complete
    ensures WholeScript(p, word, lost, get)
  {
    ScriptShape(get, p.healthProbes - lost, true);
  }

  /** Whatever is sent and answered, the accepted steps follow a script; as long as no
      probe is lost, the log comes only after all the probes. */
  lemma {:induction false} OnlyScriptsAreAccepted(d: Descriptor, xs: seq<Exchange>)
    ensures
      var (p, word) := Play(d, INITIAL, xs);
      var lost := LostProbes(d, xs);
      && Tracked(p, word, lost) && LegalAfter(word, lost) && p.stepIndex == |word|
      && (p.complete ==> exists get :: WholeScript(p, word, lost, get))
    decreases |xs|
  {
    hide Turn, Script, Tracked, IdsFit, Loses, LegalAfter, WholeScript;
    if xs == [] {
      Start();
    } else {
      var n := |xs| - 1;
      OnlyScriptsAreAccepted(d, xs[..n]);
      var (q, word) := Play(d, INITIAL, xs[..n]);
      TurnKeepsTrack(d, q, xs[n], word, LostProbes(d, xs[..n]));
    }
    var (p, word) := Play(d, INITIAL, xs);
    TrackedMeans(p, word, LostProbes(d, xs));
  }

  lemma {:induction false} Start()
    ensures Tracked(INITIAL, [], 0)
  {
    assert OnTrack(INITIAL, [], 0, false);
  }

  lemma {:induction false} TrackedMeans(p: Policy, word: seq<Step>, lost: nat)
    requires Tracked(p, word, lost)
    ensures LegalAfter(word, lost) && p.stepIndex == |word|
    ensures p.complete ==> exists get :: WholeScript(p, word, lost, get)
  {
    hide Script, IdsFit, WholeScript, LegalAfter;
    if exists get :: OnTrack(p, word, lost, get) {
      var get :| OnTrack(p, word, lost, get);
      TrackIsLegal(p, word, lost, get);
      if p.complete {
        CompleteWord(p, word, lost, get);
      }
    }
  }

  /** What a completed run accepted is always a whole script.  The probes it reports are
      those of the script, and its steps besides the probes are 15 or 16, exactly when no
      probe was lost; one lost probe goes unseen when the negotiation took two steps. */
  lemma {:induction false} CompletionCounts(d: Descriptor, xs: seq<Exchange>)
    requires Play(d, INITIAL, xs).0.complete
    ensures
      var (p, word) := Play(d, INITIAL, xs);
      var lost := LostProbes(d, xs);
      && Legal(word)
      && ((exists get :: word == Script(get, p.healthProbes, true)) <==> lost == 0)
      && p.stepIndex - p.healthProbes == (if NegotiateGet in word then 16 else 15) - lost
      && (p.stepIndex - p.healthProbes in {15, 16} <==> lost == 0 || (lost == 1 && NegotiateGet in word))
  {
    hide Play, LostProbes, Tracked, LegalAfter, Script;
    OnlyScriptsAreAccepted(d, xs);
    var (p, word) := Play(d, INITIAL, xs);
    var lost := LostProbes(d, xs);
    var get :| WholeScript(p, word, lost, get);
    var n := p.healthProbes - lost;
    LegalBy(word, 0, get, n, true);
    ScriptShape(get, n, true);
    GetInScript(get, n);
    forall g | word == Script(g, p.healthProbes, true) ensures lost == 0 {
      ScriptShape(g, p.healthProbes, true);
      GetInScript(g, p.healthProbes);
    }
  }

  lemma {:induction false} GetInScript(get: bool, n: nat)
    ensures NegotiateGet in Script(get, n, true) <==> get
  {
    var word, base := Script(get, n, true), |Head(get)|;
    if get {
      assert word[1] == NegotiateGet;
    } else {
      forall i | 0 <= i < |word| ensures word[i] != NegotiateGet {
        if base <= i < base + 7 {
          assert word[i] == SETUP[i - base];
        } else if base + 7 + n <= i {
          assert word[i] == GOTRUE[i - (base + 7 + n)];
        }
      }
    }
  }

  /** A failed or complete policy accepts nothing more. */
  lemma {:induction false} FailureAbsorbs(d: Descriptor, p: Policy, x: Exchange)
    requires p.failed || p.complete
    ensures !Turn(d, p, x).1 && Turn(d, p, x).0 == FailedPolicy(p) && !Loses(d, p, x)
  {
  }

  // ----- progress -----

  /** How many more replies can be accepted at most. */
  function Rank(p: Policy): nat {
    match p.state
    case NegotiateHead => 137
    case NegotiateGet => 136
    case DbInspect => 135
    case VolumeInspect => 134
    case PgImageInspect => 133
    case NetworkDb => 132
    case VolumeCreate => 131
    case DbCreate => 130
    case DbStart => 129
    case DbHealth => if p.healthProbes < MAX_PROBES then 7 + (MAX_PROBES - p.healthProbes) else 8
    case DbLogs => 1
    case GotrueImageInspect => 7
    case NetworkGotrue => 6
    case GotrueCreate => 5
    case GotrueStart => 4
    case GotrueLogs => 3
    case GotrueInspect => 2
    case GotrueRemove => 1
    case _ => 0
  }

  /** Every accepted exchange lowers the rank, and no other one raises it. */
  lemma {:induction false} RankDecreases(d: Descriptor, p: Policy, x: Exchange, word: seq<Step>, lost: nat)
    requires Tracked(p, word, lost)
    ensures Rank(Turn(d, p, x).0) <= Rank(p)
    ensures Turn(d, p, x).1 ==> Rank(Turn(d, p, x).0) < Rank(p)
  {
    hide Script, Turn, ReplyCheck, ExpectedStatuses, IsId, Fits, IdsFit, Index, LegalAfter, WholeScript, Loses, Health;
    if Turn(d, p, x).1 {
      if p.failed || p.complete {
        FailureAbsorbs(d, p, x);
      }
      var get :| OnTrack(p, word, lost, get);
      AcceptedTurn(d, p, x);
    } else {
      RefusedTurn(d, p, x);
    }
  }

  // ----- the ids -----

  /** Exchange `i` was accepted as the given create step, and its reply named the id. */
  ghost predicate Creates(d: Descriptor, xs: seq<Exchange>, i: nat, s: Step, id: string) {
    && i < |xs|
    && var p := Play(d, INITIAL, xs[..i]).0;
      p.state == s && Turn(d, p, xs[i]).1 && ReplyId(xs[i].reply) == id
  }

  ghost predicate Created(d: Descriptor, xs: seq<Exchange>, s: Step, id: string) {
    exists i: nat :: Creates(d, xs, i, s, id)
  }

  /** An id the policy holds is the one that the reply to its create step named. */
  lemma {:induction false} IdsComeFromReplies(d: Descriptor, xs: seq<Exchange>)
    ensures
      var p := Play(d, INITIAL, xs).0;
      && (p.dbId != "" ==> Created(d, xs, DbCreate, p.dbId))
      && (p.gotrueId != "" ==> Created(d, xs, GotrueCreate, p.gotrueId))
    decreases |xs|
  {
    hide Turn, Created, Creates;
    if xs != [] {
      var n := |xs| - 1;
      IdsComeFromReplies(d, xs[..n]);
      var q, p := Play(d, INITIAL, xs[..n]).0, Play(d, INITIAL, xs).0;
      CreatedStays(d, xs, DbCreate, q.dbId);
      CreatedStays(d, xs, GotrueCreate, q.gotrueId);
      NewIds(d, xs);
    }
  }

  lemma {:induction false} CreatedStays(d: Descriptor, xs: seq<Exchange>, s: Step, id: string)
    requires xs != []
    ensures Created(d, xs[..|xs| - 1], s, id) ==> Created(d, xs, s, id)
  {
    hide Turn, Play;
    var before := xs[..|xs| - 1];
    if Created(d, before, s, id) {
      var i: nat :| Creates(d, before, i, s, id);
      assert before[..i] == xs[..i];
      assert Creates(d, xs, i, s, id);
    }
  }

  /** The last exchange of a run leaves an id as it was, or creates it. */
  lemma {:induction false} NewIds(d: Descriptor, xs: seq<Exchange>)
    requires xs != []
    ensures
      var q, p := Play(d, INITIAL, xs[..|xs| - 1]).0, Play(d, INITIAL, xs).0;
      && (p.dbId == q.dbId || Created(d, xs, DbCreate, p.dbId))
      && (p.gotrueId == q.gotrueId || Created(d, xs, GotrueCreate, p.gotrueId))
  {
    hide Turn, Fits, ExpectedStatuses, ReplyCheck, HealthKnown, Loses;
    var n := |xs| - 1;
    var q, p := Play(d, INITIAL, xs[..n]).0, Play(d, INITIAL, xs).0;
    assert p == Turn(d, q, xs[n]).0;
    hide Play;
    if Turn(d, q, xs[n]).1 {
      AcceptedTurn(d, q, xs[n]);
      assert q.state == DbCreate ==> Creates(d, xs, n, DbCreate, p.dbId);
      assert q.state == GotrueCreate ==> Creates(d, xs, n, GotrueCreate, p.gotrueId);
    } else {
      RefusedTurn(d, q, xs[n]);
    }
  }

  /** After every run, a granted start, log, inspect or remove names the id that the reply
      to its create step named, and the two containers are different ones. */
  lemma {:induction false} OnlyCreatedContainers(d: Descriptor, xs: seq<Exchange>, r: Request)
    requires Fits(d, Play(d, INITIAL, xs).0, r)
    ensures
      var p := Play(d, INITIAL, xs).0;
      && (p.state == DbStart ==>
            Created(d, xs, DbCreate, p.dbId) && r.versioned.path == "/containers/" + p.dbId + "/start")
      && (p.state in {GotrueStart, GotrueLogs, GotrueInspect, GotrueRemove} ==>
            && Created(d, xs, DbCreate, p.dbId) && Created(d, xs, GotrueCreate, p.gotrueId) && p.gotrueId != p.dbId
            && r.versioned.path == "/containers/" + p.gotrueId + (match p.state
                 case GotrueStart => "/start"
                 case GotrueLogs => "/logs"
                 case GotrueInspect => "/json"
                 case _ => ""))
  {
    hide IsId, Script, Play, Created, LostProbes, LegalAfter;
    OnlyScriptsAreAccepted(d, xs);
    IdsComeFromReplies(d, xs);
    var p := Play(d, INITIAL, xs).0;
    NoIdIsEmpty();
    assert p.state == GotrueRemove ==> "/containers/" + p.gotrueId + "" == "/containers/" + p.gotrueId;
  }

  lemma {:induction false} NoIdIsEmpty()
    ensures !IsId("")
  {
  }

  /** Each create step is accepted at most once in a run, so the id is its only one. */
  lemma {:induction false} CreatedOnce(d: Descriptor, xs: seq<Exchange>, i: nat, j: nat, s: Step, a: string, b: string)
    requires Creates(d, xs, i, s, a) && Creates(d, xs, j, s, b) && IsCreateStep(s)
    ensures i == j && a == b
  {
    hide Turn, Play, Tracked, LegalAfter;
    var x, y := if i < j then i else j, if i < j then j else i;
    if x < y {
      var p := Play(d, INITIAL, xs[..x]).0;
      OnlyScriptsAreAccepted(d, xs[..x]);
      RankDecreases(d, p, xs[x], Play(d, INITIAL, xs[..x]).1, LostProbes(d, xs[..x]));
      PlayOne(d, xs, x);
      RankNeverGrows(d, xs, x + 1, y);
    }
  }

  lemma {:induction false} PlayOne(d: Descriptor, xs: seq<Exchange>, i: nat)
    requires i < |xs|
    ensures
      var (p, word) := Play(d, INITIAL, xs[..i]);
      var (t, accepted) := Turn(d, p, xs[i]);
      Play(d, INITIAL, xs[..i + 1]) == (t, if accepted then word + [p.state] else word)
  {
    hide Turn;
    assert xs[..i + 1][..i] == xs[..i];
  }

  lemma {:induction false} RankNeverGrows(d: Descriptor, xs: seq<Exchange>, i: nat, j: nat)
    requires i <= j <= |xs|
    ensures Rank(Play(d, INITIAL, xs[..j]).0) <= Rank(Play(d, INITIAL, xs[..i]).0)
    decreases j
  {
    hide Turn, Play, Tracked, Rank, LegalAfter;
    if i < j {
      RankNeverGrows(d, xs, i, j - 1);
      OnlyScriptsAreAccepted(d, xs[..j - 1]);
      PlayOne(d, xs, j - 1);
      var (p, word) := Play(d, INITIAL, xs[..j - 1]);
      RankDecreases(d, p, xs[j - 1], word, LostProbes(d, xs[..j - 1]));
    }
  }

  // ----- every legal word -----

  function Repeat(c: char, n: nat): (s: string)
    ensures |s| == n && forall i :: 0 <= i < n ==> s[i] == c
  {
    if n == 0 then "" else [c] + Repeat(c, n - 1)
  }

  const DB_ID := Repeat('a', 64)
  const GOTRUE_ID := Repeat('b', 64)

  function FittingRequest(d: Descriptor, p: Policy): Request {
    var target := Target.Target(ExpectedTarget(d, p, p.state), ExpectedQuery(d, p.state));
    Request(ExpectedVerb(p.state), target, target, ExpectedTarget(d, p, p.state), 0, Passes)
  }

  function FittingCode(s: Step, next: Step): nat {
    match s
    case NegotiateHead => if next == NegotiateGet then 405 else 200
    case DbInspect => 404
    case VolumeInspect => 404
    case NetworkDb => 409
    case NetworkGotrue => 409
    case VolumeCreate => 201
    case DbCreate => 201
    case GotrueCreate => 201
    case DbStart => 204
    case GotrueStart => 204
    case GotrueRemove => 204
    case _ => 200
  }

  function FittingId(d: Descriptor, p: Policy): string {
    match p.state
    case PgImageInspect => d.postgresImageId
    case GotrueImageInspect => d.gotrueImageId
    case DbCreate => DB_ID
    case GotrueCreate => if p.dbId == GOTRUE_ID then DB_ID else GOTRUE_ID
    case DbHealth => p.dbId
    case _ => p.gotrueId
  }

  /** A reply that passes, and leads to `next` where there is a choice. */
  function FittingReply(d: Descriptor, p: Policy, next: Step): Reply {
    var name := if p.state == Step.VolumeCreate then d.dbVolume else "/" + d.dbName;
    var image := if p.state == DbHealth then d.postgresImageId else d.gotrueImageId;
    var health := if next == GotrueImageInspect then "healthy" else "starting";
    var value := Value(Some(FittingId(d, p)), Some(name), Some(image), Passes, HealthObject(StatusText(health)), Some(0));
    Reply(FittingCode(p.state, next), Some(d.apiVersion), Json(value), 0)
  }

  function FittingExchange(d: Descriptor, p: Policy, next: Step): Exchange {
    Exchange(FittingRequest(d, p), FittingReply(d, p, next))
  }

  lemma {:induction false} TheIds()
    ensures IsId(DB_ID) && IsId(GOTRUE_ID) && DB_ID != GOTRUE_ID && DB_ID != "" && GOTRUE_ID != ""
  {
    assert DB_ID[0] == 'a' && GOTRUE_ID[0] == 'b';
  }

  lemma {:induction false} FittingPasses(d: Descriptor, p: Policy, next: Step)
    requires !p.failed && !p.complete && p.state != Complete && p.state != Failed && IdsFit(p)
    ensures
      var x := FittingExchange(d, p, next);
      && Fits(d, p, x.request) && x.reply.code in ExpectedStatuses(p.state)
      && ReplyCheck(d, p, x.reply) == Passes && HealthKnown(p, x.reply)
  {
    TheIds();
    hide IsId, ExpectedTarget, ExpectedQuery, ExpectedVerb;
  }

  lemma {:induction false} FittingIsAccepted(d: Descriptor, p: Policy, next: Step)
    requires !p.failed && !p.complete && p.state != Complete && p.state != Failed && IdsFit(p)
    ensures
      var x := FittingExchange(d, p, next);
      && Turn(d, p, x).1 && IdsFit(Turn(d, p, x).0)
      && SameTrack(Turn(d, p, x).0, Advance(p, x.reply).(stepIndex := p.stepIndex + 1))
  {
    var x := FittingExchange(d, p, next);
    FittingPasses(d, p, next);
    hide FittingExchange, Fits, ExpectedStatuses, ReplyCheck, HealthKnown, Advance, IdsFit;
    GrantedMeans(d, p, x.request);
    var q := Authorized(d, p, x.request).0;
    AcceptedMeans(d, q, x.reply);
    SameCheck(d, p, q, x.reply);
    assert Turn(d, p, x).1 by {
      hide Authorized, Accepted;
    }
    hide Turn;
    AcceptedTurn(d, p, x);
    AdvanceKeepsIds(d, p, x.reply);
    SameIds(Advance(p, x.reply), Turn(d, p, x).0);
    SameAdvance(
      p, p.(requestBytes := p.requestBytes + x.request.bodyLength, responseBytes := p.responseBytes + x.reply.bodyBytes),
      x.reply);
  }

  /** The policy waits for step `i` of the script, after losing that many probes. */
  predicate Waits(p: Policy, get: bool, n: nat, healthy: bool, lost: nat, i: nat) {
    && i < |Script(get, n, healthy)| && p.state == Script(get, n, healthy)[i]
    && !p.failed && !p.complete && IdsFit(p) && (p.state == NegotiateGet ==> get)
    && p.state != Complete && p.state != Failed && lost <= p.healthProbes <= n + lost
    && var m := p.healthProbes - lost;
      ProbesFit(m, p.healthProbes, p.state) && (IsGotrue(p.state) ==> m == n) && i == Index(get, m, p.state)
  }

  lemma {:induction false} PlainNext(get: bool, n: nat, healthy: bool, lost: nat, i: nat, p: Policy)
    requires Waits(p, get, n, healthy, lost, i) && 1 <= n <= MAX_PROBES && p.state != DbHealth
    requires i + 1 < |Script(get, n, healthy)|
    ensures p.state != DbLogs && p.state != GotrueRemove
    ensures p.state != NegotiateHead ==> forall r ::
      Script(get, n, healthy)[i + 1] == NextStep(p.state, p.healthProbes, r)
    ensures p.state == NegotiateHead ==> Script(get, n, healthy)[i + 1] == if get then NegotiateGet else DbInspect
  {
    hide Script, IdsFit;
    ScriptShape(get, n, healthy);
    if p.state == DbLogs {
      LogsAreLast(get, n, healthy);
    }
    if IsGotrue(p.state) {
      NotHealthy(get, n, healthy, i);
      GotrueAt(get, n, i + 1 - (|Head(get)| + 7 + n));
    } else if p.state != DbLogs && p.state != DbStart {
      SetupAt(get, n, healthy, if IsPing(p.state) then 0 else i + 1 - |Head(get)|);
    }
  }

  /** GoTrue steps occur only in healthy scripts. */
  lemma {:induction false} NotHealthy(get: bool, n: nat, healthy: bool, i: nat)
    requires i < |Script(get, n, healthy)| && IsGotrue(Script(get, n, healthy)[i])
    ensures healthy
  {
    if !healthy {
      var word := Script(get, n, false);
      forall j | 0 <= j < |word| ensures !IsGotrue(word[j]) {
        var base := |Head(get)|;
        if base <= j < base + 7 {
          assert word[j] == SETUP[j - base];
        }
      }
    }
  }

  lemma {:induction false} LogsAreLast(get: bool, n: nat, healthy: bool)
    ensures
      var word := Script(get, n, healthy);
      forall i :: 0 <= i < |word| && i + 1 != |word| ==> word[i] != DbLogs
  {
    var word, base := Script(get, n, healthy), |Head(get)|;
    ScriptShape(get, n, healthy);
    forall i | 0 <= i < |word| && i + 1 != |word| ensures word[i] != DbLogs {
      if base <= i < base + 7 {
        assert word[i] == SETUP[i - base];
      } else if base + 7 + n <= i {
        assert healthy ==> word[i] == GOTRUE[i - (base + 7 + n)];
      }
    }
  }

  lemma {:induction false} ProbeNext(get: bool, n: nat, healthy: bool, lost: nat, i: nat, p: Policy)
    requires Waits(p, get, n, healthy, lost, i) && p.state == DbHealth
    ensures i + 1 < |Script(get, n, healthy)|
    ensures Script(get, n, healthy)[i + 1] ==
      if p.healthProbes - lost + 1 < n then DbHealth else if healthy then GotrueImageInspect else DbLogs
    ensures p.healthProbes - lost < n
  {
    hide Script, IdsFit;
    ScriptShape(get, n, healthy);
    if healthy {
      GotrueAt(get, n, 0);
    }
  }

  /** Probes are lost just before the last one, and the log comes only after all of them. */
  predicate MayStep(p: Policy, n: nat, healthy: bool, lost: nat) {
    && 1 <= n <= MAX_PROBES
    && (p.state == DbHealth ==>
          || (lost == 0 && p.healthProbes + 1 < n)
          || (p.healthProbes + 1 == n + lost && ProperScript(n, healthy, lost)))
  }

  lemma {:induction false} StepForward(d: Descriptor, p: Policy, get: bool, n: nat, healthy: bool, lost: nat, i: nat)
    requires Waits(p, get, n, healthy, lost, i) && MayStep(p, n, healthy, lost)
    ensures
      var next := if i + 1 < |Script(get, n, healthy)| then Script(get, n, healthy)[i + 1] else Complete;
      var (t, accepted) := Turn(d, p, FittingExchange(d, p, next));
      && accepted && !Loses(d, p, FittingExchange(d, p, next))
      && (i + 1 < |Script(get, n, healthy)| ==> Waits(t, get, n, healthy, lost, i + 1))
      && (i + 1 == |Script(get, n, healthy)| && healthy ==> t.complete && !t.failed)
  {
    var next := if i + 1 < |Script(get, n, healthy)| then Script(get, n, healthy)[i + 1] else Complete;
    FittingIsAccepted(d, p, next);
    var x := FittingExchange(d, p, next);
    var t := Turn(d, p, x).0;
    FittingSays(d, p, next);
    hide Turn, FittingExchange, FittingReply, Advance, IdsFit, Fits, ReplyCheck, Health;
    if i + 1 < |Script(get, n, healthy)| {
      hide SameTrack;
      if p.state == DbHealth {
        ProbeForward(p, t, x.reply, get, n, healthy, lost, i);
      } else {
        PlainForward(p, t, x.reply, get, n, healthy, lost, i);
      }
    } else if healthy {
      hide Script;
      ScriptShape(get, n, true);
      GotrueAt(get, n, 6);
      RemovalCompletes(p, x.reply);
    }
  }

  lemma {:induction false} RemovalCompletes(p: Policy, r: Reply)
    requires p.state == GotrueRemove && !p.failed
    ensures Advance(p, r).complete && !Advance(p, r).failed
  {
  }

  lemma {:induction false} FittingSays(d: Descriptor, p: Policy, next: Step)
    ensures
      var r := FittingExchange(d, p, next).reply;
      && (p.state == NegotiateHead ==> (r.code == 405 <==> next == NegotiateGet))
      && Health(r) == if next == GotrueImageInspect then Healthy else Waiting
  {
  }

  lemma {:induction false} PlainForward(
    p: Policy, t: Policy, r: Reply, get: bool, n: nat, healthy: bool, lost: nat, i: nat)
    requires Waits(p, get, n, healthy, lost, i) && 1 <= n <= MAX_PROBES && i + 1 < |Script(get, n, healthy)|
    requires p.state != DbHealth && IdsFit(t) && SameTrack(t, Advance(p, r).(stepIndex := p.stepIndex + 1))
    requires p.state == NegotiateHead ==> (r.code == 405 <==> Script(get, n, healthy)[i + 1] == NegotiateGet)
    ensures Waits(t, get, n, healthy, lost, i + 1)
  {
    hide Script, IdsFit, Health;
    PlainNext(get, n, healthy, lost, i, p);
  }

  lemma {:induction false} ProbeForward(
    p: Policy, t: Policy, r: Reply, get: bool, n: nat, healthy: bool, lost: nat, i: nat)
    requires Waits(p, get, n, healthy, lost, i) && MayStep(p, n, healthy, lost) && i + 1 < |Script(get, n, healthy)|
    requires p.state == DbHealth && IdsFit(t) && SameTrack(t, Advance(p, r).(stepIndex := p.stepIndex + 1))
    requires Health(r) == if Script(get, n, healthy)[i + 1] == GotrueImageInspect then Healthy else Waiting
    ensures Waits(t, get, n, healthy, lost, i + 1)
  {
    hide Script, IdsFit, Health;
    ProbeNext(get, n, healthy, lost, i, p);
  }

  // ----- lost probes -----

  /** A reply that passes every check and then raises, after it was counted. */
  function LosingExchange(d: Descriptor, p: Policy): Exchange {
    var x := FittingExchange(d, p, DbHealth);
    x.(reply := x.reply.(body := Json(x.reply.body.value.(health := HealthObject(StatusNested)))))
  }

  lemma {:induction false} LosingPasses(d: Descriptor, p: Policy)
    requires !p.failed && !p.complete && p.state == DbHealth && IdsFit(p)
    ensures
      var x := LosingExchange(d, p);
      Fits(d, p, x.request) && LosesProbe(d, p, x.reply) && x.request.bodyLength == 0 && x.reply.bodyBytes == 0
  {
    hide IsId, ExpectedTarget, ExpectedQuery, ExpectedVerb;
  }

  lemma {:induction false} OneLost(d: Descriptor, p: Policy)
    requires !p.failed && !p.complete && p.state == DbHealth && IdsFit(p)
    ensures
      var x := LosingExchange(d, p);
      Loses(d, p, x) && Turn(d, p, x) == (p.(healthProbes := p.healthProbes + 1), false)
  {
    LosingPasses(d, p);
    var x := LosingExchange(d, p);
    hide LosingExchange, Fits, LosesProbe, Authorized, Accepted, DecisionFor;
    GrantedMeans(d, p, x.request);
    var q := Authorized(d, p, x.request).0;
    assert q == p && Authorized(d, p, x.request).1.Granted?;
    AcceptedMeans(d, p, x.reply);
  }

  /** Any number of probes can be lost while the policy waits for one. */
  lemma {:induction false} LoseProbes(d: Descriptor, xs: seq<Exchange>, lost: nat) returns (ys: seq<Exchange>)
    requires
      var p := Play(d, INITIAL, xs).0;
      !p.failed && !p.complete && p.state == DbHealth && IdsFit(p)
    ensures
      var (p, word) := Play(d, INITIAL, xs);
      Play(d, INITIAL, ys) == (p.(healthProbes := p.healthProbes + lost), word)
    ensures LostProbes(d, ys) == LostProbes(d, xs) + lost && |ys| == |xs| + lost
    decreases lost
  {
    hide Turn, LosingExchange, Loses, IdsFit;
    if lost == 0 {
      ys := xs;
    } else {
      var zs := LoseProbes(d, xs, lost - 1);
      var q := Play(d, INITIAL, zs).0;
      SameIds(Play(d, INITIAL, xs).0, q);
      OneLost(d, q);
      ys := zs + [LosingExchange(d, q)];
      assert ys[..|zs|] == zs;
    }
  }

  /** How many steps a script has up to its last probe. */
  function LastProbe(get: bool, n: nat): nat
    requires n > 0
  {
    |Head(get)| + 7 + n - 1
  }

  /** Every beginning of every script is accepted for suitable requests and replies, with
      any probes lost that the script allows for. */
  lemma {:induction false} EveryScriptIsAccepted(d: Descriptor, get: bool, n: nat, healthy: bool, lost: nat, i: nat)
    returns (xs: seq<Exchange>)
    requires ProperScript(n, healthy, lost) && i <= |Script(get, n, healthy)|
    ensures Play(d, INITIAL, xs).1 == Script(get, n, healthy)[..i] && (lost == 0 ==> |xs| == i)
    ensures
      var so := if i > LastProbe(get, n) then lost else 0;
      && LostProbes(d, xs) == so
      && (i < |Script(get, n, healthy)| ==> Waits(Play(d, INITIAL, xs).0, get, n, healthy, so, i))
    ensures i == |Script(get, n, healthy)| && healthy ==>
      Play(d, INITIAL, xs).0.complete && !Play(d, INITIAL, xs).0.failed
    decreases i
  {
    hide Turn, FittingExchange, Waits, Script, Loses, MayStep, Play, LostProbes;
    if i == 0 {
      xs := [];
      PlayNothing(d);
      WaitsAtStart(get, n, healthy);
    } else {
      var before := EveryScriptIsAccepted(d, get, n, healthy, lost, i - 1);
      var so := if i > LastProbe(get, n) then lost else 0;
      if i == LastProbe(get, n) + 1 {
        LastProbeWaits(Play(d, INITIAL, before).0, get, n, healthy, lost);
        before := LoseProbes(d, before, lost);
      }
      var p := Play(d, INITIAL, before).0;
      ItMayStep(p, get, n, healthy, so, i - 1);
      StepForward(d, p, get, n, healthy, so, i - 1);
      var next := if i < |Script(get, n, healthy)| then Script(get, n, healthy)[i] else Complete;
      xs := before + [FittingExchange(d, p, next)];
      PlayMore(d, before, FittingExchange(d, p, next));
      WaitsFor(p, get, n, healthy, so, i - 1);
    }
  }

  lemma {:induction false} PlayNothing(d: Descriptor)
    ensures Play(d, INITIAL, []) == (INITIAL, []) && LostProbes(d, []) == 0
  {
  }

  lemma {:induction false} PlayMore(d: Descriptor, xs: seq<Exchange>, x: Exchange)
    ensures
      var (p, word) := Play(d, INITIAL, xs);
      var (t, accepted) := Turn(d, p, x);
      && Play(d, INITIAL, xs + [x]) == (t, if accepted then word + [p.state] else word)
      && LostProbes(d, xs + [x]) == LostProbes(d, xs) + if Loses(d, p, x) then 1 else 0
  {
    hide Turn, Loses;
    assert (xs + [x])[..|xs|] == xs;
  }

  /** Losing probes before the last one, the policy goes on waiting for it. */
  lemma {:induction false} LastProbeWaits(p: Policy, get: bool, n: nat, healthy: bool, lost: nat)
    requires n > 0 && Waits(p, get, n, healthy, 0, LastProbe(get, n))
    ensures !p.failed && !p.complete && p.state == DbHealth && IdsFit(p)
    ensures Waits(p.(healthProbes := p.healthProbes + lost), get, n, healthy, lost, LastProbe(get, n))
  {
    hide Script, IsId;
    ScriptShape(get, n, healthy);
  }

  lemma {:induction false} ItMayStep(p: Policy, get: bool, n: nat, healthy: bool, lost: nat, i: nat)
    requires 1 <= n <= MAX_PROBES && Waits(p, get, n, healthy, lost, i)
    requires if i < LastProbe(get, n) then lost == 0 else ProperScript(n, healthy, lost)
    ensures MayStep(p, n, healthy, lost)
  {
    hide Script, IdsFit;
    if p.state == DbHealth {
      ProbeNext(get, n, healthy, lost, i, p);
    }
  }

  lemma {:induction false} WaitsFor(p: Policy, get: bool, n: nat, healthy: bool, lost: nat, i: nat)
    requires Waits(p, get, n, healthy, lost, i)
    ensures i < |Script(get, n, healthy)| && p.state == Script(get, n, healthy)[i]
  {
  }

  lemma {:induction false} WaitsAtStart(get: bool, n: nat, healthy: bool)
    ensures |Script(get, n, healthy)| > 0 && Waits(INITIAL, get, n, healthy, 0, 0)
  {
  }

  /** The words accepted without losing a probe are exactly the beginnings of proper
      scripts. */
  lemma {:induction false} AcceptedLanguage(d: Descriptor, word: seq<Step>)
    ensures Legal(word) <==> exists xs :: LostProbes(d, xs) == 0 && Play(d, INITIAL, xs).1 == word
  {
    hide Script, Play, LostProbes, Tracked;
    if Legal(word) {
      var get, n, healthy :| ProperScript(n, healthy, 0) && word <= Script(get, n, healthy);
      var xs := EveryScriptIsAccepted(d, get, n, healthy, 0, |word|);
      assert LostProbes(d, xs) == 0 && Play(d, INITIAL, xs).1 == word;
    }
    forall xs | LostProbes(d, xs) == 0 && Play(d, INITIAL, xs).1 == word ensures Legal(word) {
      OnlyScriptsAreAccepted(d, xs);
    }
  }

  /** With any probes lost, the log may come after any accepted probe, and nothing else
      changes. */
  lemma {:induction false} AcceptedWithLoss(d: Descriptor, word: seq<Step>)
    ensures
      (exists get, n, healthy :: 1 <= n <= MAX_PROBES && word <= Script(get, n, healthy))
      <==> exists xs :: Play(d, INITIAL, xs).1 == word
  {
    hide Script, Play, LostProbes, Tracked;
    if exists get, n, healthy :: 1 <= n <= MAX_PROBES && word <= Script(get, n, healthy) {
      var get, n, healthy :| 1 <= n <= MAX_PROBES && word <= Script(get, n, healthy);
      var xs := EveryScriptIsAccepted(d, get, n, healthy, MAX_PROBES, |word|);
      assert Play(d, INITIAL, xs).1 == word;
    }
    forall xs | Play(d, INITIAL, xs).1 == word
      ensures exists get, n, healthy :: 1 <= n <= MAX_PROBES && word <= Script(get, n, healthy)
    {
      OnlyScriptsAreAccepted(d, xs);
      var get, n, healthy :| ProperScript(n, healthy, LostProbes(d, xs)) && word <= Script(get, n, healthy);
    }
  }

  /** A run in which the log comes after a single accepted probe, and a completed one whose
      counts do not fit: for every descriptor, so nothing in it can rule them out. */
  lemma {:induction false} LostProbesShow(d: Descriptor)
    returns (logged: seq<Exchange>, completed: seq<Exchange>)
    ensures
      var word := Play(d, INITIAL, logged).1;
      DbLogs in word && |word| == 10 && !Legal(word) && LostProbes(d, logged) == 120
    ensures
      var p := Play(d, INITIAL, completed).0;
      p.complete && !p.failed && LostProbes(d, completed) == 1 && p.stepIndex - p.healthProbes == 14
  {
    hide Script, Play, LostProbes, Waits, LegalAfter;
    ScriptShape(false, 1, false);
    logged := EveryScriptIsAccepted(d, false, 1, false, 120, 10);
    var word := Play(d, INITIAL, logged).1;
    assert word == Script(false, 1, false);
    EarlyLogIsNotLegal(word);
    ScriptShape(false, 1, true);
    completed := EveryScriptIsAccepted(d, false, 1, true, 1, 16);
    CompletionCounts(d, completed);
    assert Play(d, INITIAL, completed).1 == Script(false, 1, true);
    GetInScript(false, 1);
  }

  lemma {:induction false} EarlyLogIsNotLegal(word: seq<Step>)
    requires word == Script(false, 1, false)
    ensures !Legal(word)
  {
    hide Script;
    ScriptShape(false, 1, false);
    forall get, n, healthy | ProperScript(n, healthy, 0) && word <= Script(get, n, healthy) ensures false {
      ScriptShape(get, n, healthy);
      LogsAreLast(get, n, healthy);
    }
  }
}
