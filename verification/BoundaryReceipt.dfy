/** The counters the boundary keeps, and what they add up to. */
module BoundaryReceipt {
  import opened Wrappers
  import opened ByteText
  import opened HttpFraming

  datatype StatusClass = OneXX | TwoXX | ThreeXX | FourXX | FiveXX | OtherStatus

  function StatusClassOf(code: nat): StatusClass {
    if 100 <= code < 200 then OneXX
    else if 200 <= code < 300 then TwoXX
    else if 300 <= code < 400 then ThreeXX
    else if 400 <= code < 500 then FourXX
    else if 500 <= code < 600 then FiveXX
    else OtherStatus
  }

  predicate IsErrorCode(code: nat) {
    code >= 400 || code < 100
  }

  function PhaseOfAnswer(a: Answer): Phase {
    match a.asked
    case None => UnknownApiPhase
    case Some(asked) => asked.phase
  }

  ghost function PhasesOf(requests: seq<Asked>): multiset<Phase> {
    if requests == [] then multiset{}
    else PhasesOf(requests[..|requests| - 1]) + multiset{requests[|requests| - 1].phase}
  }

  ghost function MethodsOf(requests: seq<Asked>): multiset<MethodClass> {
    if requests == [] then multiset{}
    else MethodsOf(requests[..|requests| - 1]) + multiset{MethodClassOf(requests[|requests| - 1].verb)}
  }

  ghost function StatusesOf(responses: seq<Answer>): multiset<StatusClass> {
    if responses == [] then multiset{}
    else StatusesOf(responses[..|responses| - 1]) + multiset{StatusClassOf(responses[|responses| - 1].code)}
  }

  ghost function ErrorsIn(responses: seq<Answer>): nat {
    if responses == [] then 0
    else ErrorsIn(responses[..|responses| - 1]) + if IsErrorCode(responses[|responses| - 1].code) then 1 else 0
  }

  ghost function FirstError(responses: seq<Answer>): Option<Answer> {
    if responses == [] then None
    else
      var earlier := FirstError(responses[..|responses| - 1]);
      if earlier.Some? then earlier
      else if IsErrorCode(responses[|responses| - 1].code) then Some(responses[|responses| - 1])
      else None
  }

  lemma {:induction false} OneMoreRequest(requests: seq<Asked>, asked: Asked)
    ensures PhasesOf(requests + [asked]) == PhasesOf(requests) + multiset{asked.phase}
    ensures MethodsOf(requests + [asked]) == MethodsOf(requests) + multiset{MethodClassOf(asked.verb)}
  {
    assert (requests + [asked])[..|requests|] == requests;
  }

  lemma {:induction false} OneMoreResponse(responses: seq<Answer>, answer: Answer)
    ensures StatusesOf(responses + [answer]) == StatusesOf(responses) + multiset{StatusClassOf(answer.code)}
    ensures ErrorsIn(responses + [answer]) == ErrorsIn(responses) + if IsErrorCode(answer.code) then 1 else 0
    ensures FirstError(responses + [answer]) ==
      if FirstError(responses).Some? then FirstError(responses)
      else if IsErrorCode(answer.code) then Some(answer) else None
  {
    assert (responses + [answer])[..|responses|] == responses;
  }

  class Receipt {
    var connectionCount: nat
    var requestCount: nat
    var responseCount: nat
    var errorResponseCount: nat
    var writeAttemptCount: nat
    var forwardingErrorCount: nat
    var parserErrorCount: nat
    var phaseCounts: multiset<Phase>
    var methodCounts: multiset<MethodClass>
    var statusClassCounts: multiset<StatusClass>
    var firstPhase: Option<Phase>
    var lastPhase: Option<Phase>
    var firstErrorPhase: Option<Phase>
    // Everything that was reported to the receipt, in order.
    ghost var log: Log

    ghost predicate Valid()
      reads this
    {
      && requestCount == |log.requests| && responseCount == |log.responses|
      && writeAttemptCount == log.writeAttempts
      && phaseCounts == PhasesOf(log.requests)
      && methodCounts == MethodsOf(log.requests)
      && statusClassCounts == StatusesOf(log.responses)
      && errorResponseCount == ErrorsIn(log.responses)
      && firstPhase == (if log.requests == [] then None else Some(log.requests[0].phase))
      && lastPhase == (if log.requests == [] then None else Some(log.requests[|log.requests| - 1].phase))
      && firstErrorPhase == (match FirstError(log.responses)
                             case None => None
                             case Some(a) => Some(PhaseOfAnswer(a)))
    }

    constructor ()
      ensures Valid() && log == Log([], [], 0)
      ensures connectionCount == forwardingErrorCount == parserErrorCount == 0
    {
      connectionCount, requestCount, responseCount, errorResponseCount := 0, 0, 0, 0;
      writeAttemptCount, forwardingErrorCount, parserErrorCount := 0, 0, 0;
      phaseCounts, methodCounts, statusClassCounts := multiset{}, multiset{}, multiset{};
      firstPhase, lastPhase, firstErrorPhase := None, None, None;
      log := Log([], [], 0);
    }

    method Request(asked: Asked)
      requires Valid()
      modifies `requestCount, `phaseCounts, `methodCounts, `firstPhase, `lastPhase, `log
      ensures Valid() && log == old(log).(requests := old(log).requests + [asked])
    {
      hide MethodClassOf, PhasesOf, MethodsOf, StatusesOf, ErrorsIn, FirstError;
      OneMoreRequest(log.requests, asked);
      requestCount := requestCount + 1;
      phaseCounts := phaseCounts + multiset{asked.phase};
      methodCounts := methodCounts + multiset{MethodClassOf(asked.verb)};
      if firstPhase == None {
        firstPhase := Some(asked.phase);
      }
      lastPhase := Some(asked.phase);
      log := log.(requests := log.requests + [asked]);
    }

    method Response(answer: Answer)
      requires Valid()
      modifies `responseCount, `statusClassCounts, `errorResponseCount, `firstErrorPhase, `log
      ensures Valid() && log == old(log).(responses := old(log).responses + [answer])
    {
      hide StatusClassOf, PhasesOf, MethodsOf, StatusesOf, ErrorsIn, FirstError, PhaseOfAnswer;
      OneMoreResponse(log.responses, answer);
      responseCount := responseCount + 1;
      statusClassCounts := statusClassCounts + multiset{StatusClassOf(answer.code)};
      if answer.code >= 400 || answer.code < 100 {
        errorResponseCount := errorResponseCount + 1;
        if firstErrorPhase == None {
          firstErrorPhase := Some(PhaseOfAnswer(answer));
        }
      }
      log := log.(responses := log.responses + [answer]);
    }

    method WriteAttempt()
      requires Valid()
      modifies `writeAttemptCount, `log
      ensures Valid() && log == old(log).(writeAttempts := old(log).writeAttempts + 1)
    {
      hide PhasesOf, MethodsOf, StatusesOf, ErrorsIn, FirstError, PhaseOfAnswer;
      writeAttemptCount := writeAttemptCount + 1;
      log := log.(writeAttempts := log.writeAttempts + 1);
    }

    method ParserError()
      modifies `parserErrorCount
      ensures parserErrorCount == old(parserErrorCount) + 1
    {
      parserErrorCount := parserErrorCount + 1;
    }
  }

  ghost function SumOfPhases(m: multiset<Phase>): nat {
    m[ApiNegotiation] + m[ImageInspect] + m[ImagePull] + m[NetworkInspectReuse] + m[VolumeInspect]
    + m[VolumeCreate] + m[ContainerInspect] + m[ContainerList] + m[ContainerCreate] + m[ContainerStart]
    + m[ContainerLogs] + m[ContainerRemove] + m[CleanupApiPhase] + m[UnknownApiPhase]
  }

  lemma {:induction false} SumGrows(m: multiset<Phase>, p: Phase)
    ensures SumOfPhases(m + multiset{p}) == SumOfPhases(m) + 1
  {
    match p
    case ApiNegotiation => case ImageInspect => case ImagePull => case NetworkInspectReuse =>
    case VolumeInspect => case VolumeCreate => case ContainerInspect => case ContainerList =>
    case ContainerCreate => case ContainerStart => case ContainerLogs => case ContainerRemove =>
    case CleanupApiPhase => case UnknownApiPhase =>
  }

  /** The phase counts of a receipt add up to its requests. */
  lemma {:induction false} PhaseCountsAddUp(requests: seq<Asked>)
    ensures SumOfPhases(PhasesOf(requests)) == |requests|
    decreases |requests|
  {
    if requests != [] {
      var n := |requests| - 1;
      PhaseCountsAddUp(requests[..n]);
      SumGrows(PhasesOf(requests[..n]), requests[n].phase);
    }
  }

  lemma {:induction false} MethodCountsAddUp(requests: seq<Asked>)
    ensures var m := MethodsOf(requests); |requests| == m[Read] + m[Write] + m[Delete] + m[Other]
    decreases |requests|
  {
    if requests != [] {
      MethodCountsAddUp(requests[..|requests| - 1]);
    }
  }

  /** Status classes add up to the responses, and errors are 4XX, 5XX and OTHER. */
  lemma {:induction false} StatusCountsAddUp(responses: seq<Answer>)
    ensures var m := StatusesOf(responses);
      && |responses| == m[OneXX] + m[TwoXX] + m[ThreeXX] + m[FourXX] + m[FiveXX] + m[OtherStatus]
      && ErrorsIn(responses) == m[FourXX] + m[FiveXX] + m[OtherStatus]
      && (FirstError(responses).None? <==> ErrorsIn(responses) == 0)
    decreases |responses|
  {
    if responses != [] {
      StatusCountsAddUp(responses[..|responses| - 1]);
    }
  }
}
