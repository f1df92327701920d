/**
 The probe's cleanup ledger: which operations were required, attempted and successful,
 along every path the outcomes of the operations can take.
 */
module CleanupEvidence {
  import opened Wrappers
  import opened ProbeReceipt

  datatype Op =
    | StopProxy | RemoveClient | RemoveService | RemoveNetwork | RemoveImage
    | QueryContainers | QueryVolumes | QueryNetworks | QueryImages
    | StopDockerd | StopContainerd | DeleteNetns | QueryNetns | RemoveCgroup | RemoveRuntimeRoot
    | QueryListener | QueryHostFirewall | QueryHostLinks | UnexpectedCleanup

  const DOCKER_ACTIONS := [RemoveClient, RemoveService, RemoveNetwork, RemoveImage]
  const DOCKER_QUERIES := [QueryContainers, QueryVolumes, QueryNetworks, QueryImages]

  /** The order in which cleanup gets to its operations. */
  function Rank(op: Op): nat {
    match op
    case StopProxy => 0
    case RemoveClient => 1
    case RemoveService => 2
    case RemoveNetwork => 3
    case RemoveImage => 4
    case QueryContainers => 5
    case QueryVolumes => 6
    case QueryNetworks => 7
    case QueryImages => 8
    case StopDockerd => 9
    case StopContainerd => 10
    case DeleteNetns => 11
    case QueryNetns => 12
    case RemoveCgroup => 13
    case RemoveRuntimeRoot => 14
    case QueryListener => 15
    case QueryHostFirewall => 16
    case QueryHostLinks => 17
    case UnexpectedCleanup => 18
  }

  datatype Category = Query | Action

  datatype Evidence = Evidence(required: seq<Op>, attempted: seq<Op>, succeeded: seq<Op>)

  const NOTHING := Evidence([], [], [])

  /** How far an operation got: named only, started, or done. */
  datatype Status = Unavailable | Started | Succeeded

  datatype Entry = Entry(category: Category, op: Op, status: Status)

  /** The three lists of one category that a log of operations amounts to. */
  function Of(log: seq<Entry>, c: Category): Evidence {
    if log == [] then NOTHING
    else
      var n := |log| - 1;
      var e, x := Of(log[..n], c), log[n];
      if x.category != c then e
      else Evidence(
        e.required + [x.op],
        if x.status == Unavailable then e.attempted else e.attempted + [x.op],
        if x.status == Succeeded then e.succeeded + [x.op] else e.succeeded)
  }

  ghost predicate Subsequence(a: seq<Op>, b: seq<Op>) {
    if a == [] then true
    else if b == [] then false
    else (a[|a| - 1] == b[|b| - 1] && Subsequence(a[..|a| - 1], b[..|b| - 1])) || Subsequence(a, b[..|b| - 1])
  }

  /** The operations of a log come in rank order, below `stage`. */
  ghost predicate Ordered(log: seq<Entry>, stage: nat) {
    && (forall i :: 0 <= i < |log| ==> Rank(log[i].op) < stage)
    && (forall i, j :: 0 <= i < j < |log| ==> Rank(log[i].op) < Rank(log[j].op))
  }

  /** The operations that did not succeed. */
  function Unfinished(log: seq<Entry>): nat {
    if log == [] then 0
    else Unfinished(log[..|log| - 1]) + (if log[|log| - 1].status == Succeeded then 0 else 1)
  }

  // ----- laws of the lists -----

  lemma {:induction false} OfAppend(log: seq<Entry>, x: Entry, c: Category)
    ensures
      var e, t := Of(log, c), Of(log + [x], c);
      if x.category != c then t == e
      else
        && t.required == e.required + [x.op]
        && t.attempted == (if x.status == Unavailable then e.attempted else e.attempted + [x.op])
        && t.succeeded == (if x.status == Succeeded then e.succeeded + [x.op] else e.succeeded)
    ensures Unfinished(log + [x]) == Unfinished(log) + (if x.status == Succeeded then 0 else 1)
  {
    assert (log + [x])[..|log|] == log;
  }

  lemma {:induction false} SubsequenceAppend(a: seq<Op>, b: seq<Op>, x: Op)
    requires Subsequence(a, b)
    ensures Subsequence(a, b + [x]) && Subsequence(a + [x], b + [x])
  {
    assert (b + [x])[..|b|] == b && (a + [x])[..|a|] == a;
  }

  lemma {:induction false} ShorterSubsequence(a: seq<Op>, b: seq<Op>)
    requires Subsequence(a, b)
    ensures |a| <= |b| && (|a| == |b| ==> a == b)
    decreases |b|
  {
    if a != [] {
      if a[|a| - 1] == b[|b| - 1] && Subsequence(a[..|a| - 1], b[..|b| - 1]) {
        ShorterSubsequence(a[..|a| - 1], b[..|b| - 1]);
        assert a == a[..|a| - 1] + [a[|a| - 1]] && b == b[..|b| - 1] + [b[|b| - 1]];
      } else {
        ShorterSubsequence(a, b[..|b| - 1]);
      }
    }
  }

  /** Succeeded within attempted within required, whatever the outcomes were. */
  lemma {:induction false} EvidenceIsNested(log: seq<Entry>, c: Category)
    ensures
      var e := Of(log, c);
      Subsequence(e.succeeded, e.attempted) && Subsequence(e.attempted, e.required)
    decreases |log|
  {
    assert Subsequence([], []);
    hide Subsequence;
    if log != [] {
      var n := |log| - 1;
      EvidenceIsNested(log[..n], c);
      var e, x := Of(log[..n], c), log[n];
      if x.category == c {
        SubsequenceAppend(e.attempted, e.required, x.op);
        SubsequenceAppend(e.succeeded, e.attempted, x.op);
      }
    }
  }

  /** So equal counts mean equal lists, which is all the validator can see. */
  lemma {:induction false} CountsDecideLists(log: seq<Entry>, c: Category)
    ensures
      var e := Of(log, c);
      && |e.succeeded| <= |e.attempted| <= |e.required|
      && (|e.required| == |e.attempted| == |e.succeeded| <==> e.required == e.attempted == e.succeeded)
  {
    var e := Of(log, c);
    EvidenceIsNested(log, c);
    ShorterSubsequence(e.succeeded, e.attempted);
    ShorterSubsequence(e.attempted, e.required);
  }

  lemma {:induction false} RequiredIsBelow(log: seq<Entry>, c: Category, stage: nat)
    requires Ordered(log, stage)
    ensures
      var e := Of(log, c);
      && Distinct(e.required) && Distinct(e.attempted) && Distinct(e.succeeded)
      && (forall op | op in e.required || op in e.attempted || op in e.succeeded :: Rank(op) < stage)
    decreases |log|
  {
    if log != [] {
      var n := |log| - 1;
      assert Ordered(log[..n], Rank(log[n].op));
      RequiredIsBelow(log[..n], c, Rank(log[n].op));
    }
  }

  /** The failures seen in the counts are among the operations that did not succeed. */
  lemma {:induction false} FailuresAreUnfinished(log: seq<Entry>)
    ensures
      var q, a := Of(log, Query), Of(log, Action);
      (|q.attempted| - |q.succeeded|) + (|a.attempted| - |a.succeeded|) <= Unfinished(log)
    ensures
      var q, a := Of(log, Query), Of(log, Action);
      Unfinished(log) == 0 ==> q.required == q.attempted == q.succeeded && a.required == a.attempted == a.succeeded
    decreases |log|
  {
    if log != [] {
      FailuresAreUnfinished(log[..|log| - 1]);
    }
  }
}
