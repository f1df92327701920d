/** The probe: its run, its cleanup, and the receipt that comes out of both. */
module CleanupProbe {
  import opened Wrappers
  import opened ProbeReceipt
  import opened CleanupEvidence

  datatype Process = NotStarted | Running | Exited

  /** The end of a step: it did what it should, failed in a way the caller handles, or
      raised something nobody handles. */
  datatype Ended = Did | Failed | Raised

  function CountsOf(e: Evidence): Counts
    requires |e.succeeded| <= |e.attempted|
  {
    Counts(|e.required|, |e.attempted|, |e.succeeded|, |e.attempted| - |e.succeeded|,
      e.required == e.attempted && |e.required| == |e.succeeded|)
  }

  /** Something is left that the first `k` parts of the host's cleanup have noticed. */
  predicate Dirty(r: Residue, k: nat) {
    || r.processes > 0 || (k >= 1 && r.namespaces > 0) || (k >= 2 && r.cgroups > 0)
    || (k >= 3 && (r.roots > 0 || r.listeners > 0))
  }

  predicate IsDockerAction(op: Op) {
    op == RemoveClient || op == RemoveService || op == RemoveNetwork || op == RemoveImage
  }

  /** The two evidence lists are those of the log. */
  ghost predicate ListsMatch(query: Evidence, action: Evidence, log: seq<Entry>) {
    query == Of(log, Query) && action == Of(log, Action)
  }

  /** An evidence list with one more operation. */
  function Recorded(e: Evidence, op: Op, status: Status): Evidence {
    e.(required := e.required + [op],
       attempted := if status == Unavailable then e.attempted else e.attempted + [op],
       succeeded := if status == Succeeded then e.succeeded + [op] else e.succeeded)
  }

  lemma {:induction false} ListsGrow(query: Evidence, action: Evidence, log: seq<Entry>, x: Entry)
    requires ListsMatch(query, action, log)
    ensures ListsMatch(
      if x.category == Query then Recorded(query, x.op, x.status) else query,
      if x.category == Action then Recorded(action, x.op, x.status) else action, log + [x])
  {
    OfAppend(log, x, Query);
    OfAppend(log, x, Action);
    hide Of;
  }

  class Probe {
    var startup: Startup
    var cleanup: Cleanup

    // `cleanup_query_*`, `cleanup_action_*` and `cleanup_failures`
    var query: Evidence
    var action: Evidence
    var failures: seq<Op>

    // the cleanup latches
    var latched: bool
    var obligations: set<Op>

    var imageId: bool
    var serviceId: bool
    var clientId: bool
    var networkCount: nat
    var dockerdSocket: bool
    var dockerd: Process
    var containerd: Process
    var proxy: bool
    // whether the creation was attempted, whether it was reported to have worked, and
    // whether the thing is there, which only the host knows
    var netnsAttempted: bool
    var netnsCreated: bool
    var netnsPresent: bool
    var cgroupAttempted: bool
    var cgroupCreated: bool
    var cgroupPresent: bool

    ghost var log: seq<Entry>
    // the removals owed to the docker objects whose creation was attempted
    ghost var owed: set<Op>

    ghost predicate Valid()
      reads `query, `action, `log, `latched, `obligations, `owed, `netnsCreated, `cgroupCreated
    {
      && ListsMatch(query, action, log)
      && owed <= obligations && (forall op | op in obligations :: IsDockerAction(op))
      && (obligations != {} ==> latched)
      && (Named(log, Action, DeleteNetns) ==> netnsCreated) && (Named(log, Action, RemoveCgroup) ==> cgroupCreated)
    }

    /** Only what was reported to be created is ever removed from the host. */
    predicate MayRequire(op: Op)
      reads `netnsCreated, `cgroupCreated
    {
      (op == DeleteNetns ==> netnsCreated) && (op == RemoveCgroup ==> cgroupCreated)
    }

    /** Nothing was cleaned up yet. */
    ghost predicate BeforeCleanup()
      reads this
    {
      Valid() && log == [] && failures == [] && cleanup == NOT_CLEANED
    }

    constructor ()
      ensures BeforeCleanup() && startup == NOT_STARTED && owed == {}
      ensures !netnsCreated && !cgroupCreated
    {
      startup, cleanup, query, action, failures := NOT_STARTED, NOT_CLEANED, NOTHING, NOTHING, [];
      latched, obligations, imageId, serviceId, clientId := false, {}, false, false, false;
      networkCount, dockerdSocket, dockerd, containerd := 0, false, NotStarted, NotStarted;
      netnsAttempted, netnsCreated, netnsPresent := false, false, false;
      cgroupAttempted, cgroupCreated, cgroupPresent, proxy := false, false, false, false;
      log, owed := [], {};
    }

    // ----- startup -----

    method SetStartupSubstage(substage: Substage)
      requires substage != UnknownSanitized
      modifies `startup
      ensures startup == old(startup).(substage := substage, proofComplete := true)
    {
      startup := startup.(substage := substage, proofComplete := true);
    }

    method WaitForContainerdSocket() returns (code: Code)
      requires startup == NOT_STARTED.(processStarted := true)
      modifies `startup
      ensures ValidStartup(startup)
      ensures code == Pass ==> startup == NOT_STARTED.(processStarted := true, socketObserved := true)
      ensures code != Pass ==>
        || (code == ContainerdStartFailed && startup.substage !in {Ready, UnknownSanitized})
        || (code == InternalError && startup == old(startup))
    {
      var exited, unknown, seen := *, *, *;
      if exited {
        startup := startup.(exitObserved := true);
        SetStartupSubstage(ProcessExitBeforeSocket);
        return ContainerdStartFailed;
      }
      if unknown {
        // looking at the path raised, and nothing handles that
        return InternalError;
      }
      if seen {
        startup := startup.(socketObserved := true);
        return Pass;
      }
      startup := startup.(socketTimeout := true);
      SetStartupSubstage(SocketReadinessTimeout);
      return ContainerdStartFailed;
    }

    method CreateContainerdNamespaces() returns (code: Code)
      requires startup == NOT_STARTED.(processStarted := true, socketObserved := true)
      modifies `startup
      ensures ValidStartup(startup)
      ensures code == Pass ==>
        startup == NOT_STARTED.(
          processStarted := true, socketObserved := true, createAttempted := 2, createSucceeded := 2)
      ensures code != Pass ==> code == ContainerdStartFailed && startup.substage !in {Ready, UnknownSanitized}
    {
      for index := 0 to 2
        invariant startup == NOT_STARTED.(
          processStarted := true, socketObserved := true, createAttempted := index, createSucceeded := index)
      {
        startup := startup.(createAttempted := index + 1);
        var created := *;
        if !created {
          SetStartupSubstage(if index == 0 then NamespaceCreateInitialFailed else NamespaceCreateRetryFailed);
          return ContainerdStartFailed;
        }
        startup := startup.(createSucceeded := index + 1);
      }
      return Pass;
    }

    method VerifyContainerdNamespaces() returns (code: Code)
      requires startup == NOT_STARTED.(
        processStarted := true, socketObserved := true, createAttempted := 2, createSucceeded := 2)
      modifies `startup
      ensures ValidStartup(startup)
      ensures code == Pass ==> startup.substage == Ready
      ensures code != Pass ==> code == ContainerdStartFailed && startup.substage !in {Ready, UnknownSanitized}
    {
      startup := startup.(readbackAttempted := true);
      var listed := *;
      if !listed {
        SetStartupSubstage(NamespaceReadbackFailed);
        return ContainerdStartFailed;
      }
      // how many of the two expected names were listed, and whether the listing succeeded
      var observed: nat, succeeded: bool := *, *;
      observed := if succeeded && observed <= 2 then observed else 0;
      startup := startup.(observed := observed);
      if !succeeded || observed != 2 {
        SetStartupSubstage(NamespaceReadbackFailed);
        return ContainerdStartFailed;
      }
      startup := startup.(readbackSucceeded := true);
      SetStartupSubstage(Ready);
      return Pass;
    }

    /** Some failure that has nothing to do with the start of containerd. */
    method SomeFailure() returns (code: Code)
      ensures code.OtherFailure? || code == InternalError
    {
      var internal: bool := *;
      code := if internal then InternalError else OtherFailure("");
    }

    method StartContainerd() returns (code: Code)
      requires startup == NOT_STARTED
      modifies `startup, `containerd
      ensures ValidStartup(startup)
      ensures code == Pass ==> startup.substage == Ready
      ensures code == ContainerdStartFailed ==> startup.substage !in {Ready, UnknownSanitized}
      ensures code !in {CleanupFailed, ResidueLeft}
    {
      var ok, moved := *, *;
      if !ok {
        code := SomeFailure();
        return;
      }
      containerd := Running;
      startup := startup.(processStarted := true);
      if !moved {
        code := SomeFailure();
        return;
      }
      hide ValidStartup;
      code := WaitForContainerdSocket();
      if code != Pass {
        return;
      }
      code := CreateContainerdNamespaces();
      if code != Pass {
        return;
      }
      code := VerifyContainerdNamespaces();
    }

    method StartDockerd() returns (code: Code)
      requires Valid()
      modifies `dockerd, `latched, `dockerdSocket
      ensures Valid()
      ensures code !in {CleanupFailed, ResidueLeft, ContainerdStartFailed}
    {
      var started, ready := *, *;
      if started {
        dockerd, latched := Running, true;
        dockerdSocket := *;
      }
      code := Pass;
      if !started || !ready {
        code := SomeFailure();
      }
    }

    // ----- what is created afterwards -----

    /** Latch the removal, then attempt the creation. */
    method CreateDockerObject(removal: Op) returns (code: Code)
      requires BeforeCleanup() && IsDockerAction(removal)
      modifies this
      ensures BeforeCleanup() && startup == old(startup) && owed == old(owed) + {removal}
      ensures code !in {CleanupFailed, ResidueLeft, ContainerdStartFailed}
    {
      latched, obligations := true, obligations + {removal};
      owed := owed + {removal};
      var created, usable := *, *;
      if created {
        if removal == RemoveImage {
          imageId := true;
        } else if removal == RemoveNetwork {
          networkCount := 1;
        } else if removal == RemoveService {
          serviceId := true;
        } else {
          clientId := true;
        }
      }
      code := Pass;
      if !created || !usable {
        code := SomeFailure();
      }
    }

    method CreateDockerObjects() returns (code: Code)
      requires BeforeCleanup() && owed == {}
      modifies this
      ensures BeforeCleanup() && startup == old(startup)
      ensures code == Pass ==> owed == {RemoveImage, RemoveNetwork, RemoveService, RemoveClient}
      ensures code !in {CleanupFailed, ResidueLeft, ContainerdStartFailed}
    {
      hide Of, IsDockerAction, BeforeCleanup;
      DockerActionsAre();
      code := CreateDockerObject(RemoveImage);
      if code != Pass {
        return;
      }
      code := CreateDockerObject(RemoveNetwork);
      if code != Pass {
        return;
      }
      code := CreateDockerObject(RemoveService);
      if code != Pass {
        return;
      }
      code := CreateDockerObject(RemoveClient);
    }

    /** `create_cgroup`: a directory that is already there makes the creation fail. */
    method CreateGroup(made: bool, taken: bool)
      requires BeforeCleanup()
      modifies `cgroupAttempted, `cgroupCreated, `cgroupPresent
      ensures BeforeCleanup() && cgroupAttempted && cgroupCreated == made && cgroupPresent == (made || taken)
    {
      cgroupAttempted, cgroupCreated, cgroupPresent := true, made, made || taken;
    }

    /** `create_netns`: the command may leave the namespace behind although it reports a
        failure or does not end in time. */
    method CreateNetns(reported: bool, left: bool)
      requires BeforeCleanup()
      modifies `netnsAttempted, `netnsCreated, `netnsPresent
      ensures BeforeCleanup() && netnsAttempted && netnsCreated == reported && netnsPresent == (reported || left)
    {
      netnsAttempted, netnsCreated, netnsPresent := true, reported, reported || left;
    }

    method PrepareHost() returns (code: Code)
      requires BeforeCleanup() && !netnsCreated && !cgroupCreated
      modifies `cgroupAttempted, `cgroupCreated, `cgroupPresent, `netnsAttempted, `netnsCreated, `netnsPresent
      ensures BeforeCleanup()
      ensures code == Pass ==> netnsCreated && cgroupCreated
      ensures code !in {CleanupFailed, ResidueLeft, ContainerdStartFailed}
    {
      var image, nameFree, route := *, *, *;
      code := Pass;
      if image {
        var made, taken := *, *;
        CreateGroup(made, taken);
        if made && nameFree {
          var reported, left := *, *;
          CreateNetns(reported, left);
        }
      }
      if !cgroupCreated || !netnsCreated || !route {
        code := SomeFailure();
      }
    }

    method CheckNetwork() returns (code: Code)
      requires BeforeCleanup()
      modifies `proxy
      ensures BeforeCleanup()
      ensures code !in {CleanupFailed, ResidueLeft, ContainerdStartFailed}
    {
      var ok: bool := *;
      proxy := *;
      code := Pass;
      if !ok {
        code := SomeFailure();
      }
    }

    method Execute() returns (code: Code)
      requires BeforeCleanup() && startup == NOT_STARTED && owed == {} && !netnsCreated && !cgroupCreated
      modifies this
      ensures BeforeCleanup()
      ensures ValidStartup(startup)
      ensures code == Pass ==> startup.substage == Ready && owed == {RemoveImage, RemoveNetwork, RemoveService, RemoveClient}
      ensures code == ContainerdStartFailed ==> startup.substage !in {Ready, UnknownSanitized}
      ensures code !in {CleanupFailed, ResidueLeft}
    {
      assert ValidStartup(startup);
      hide ValidStartup, Of, IsDockerAction;
      code := PrepareHost();
      if code == Pass {
        code := StartContainerd();
      }
      if code == Pass {
        code := StartDockerd();
      }
      if code == Pass {
        code := CreateDockerObjects();
      }
      if code == Pass {
        code := CheckNetwork();
      }
    }

    // ----- recording -----

    /** `record_cleanup_evidence`: raises when the operation is already recorded. */
    method RecordRequired(c: Category, op: Op) returns (raised: bool)
      modifies `query, `action
      ensures raised == (op in old((if c == Query then query else action).required))
      ensures !raised ==>
        var e := old(if c == Query then query else action);
        && (if c == Query then query else action) == e.(required := e.required + [op])
        && (if c == Query then action else query) == old(if c == Query then action else query)
    {
      var e := if c == Query then query else action;
      raised := op in e.required;
      if !raised {
        if c == Query {
          query := e.(required := e.required + [op]);
        } else {
          action := e.(required := e.required + [op]);
        }
      }
    }

    method RecordAttempted(c: Category, op: Op) returns (raised: bool)
      modifies `query, `action
      ensures raised == (op in old((if c == Query then query else action).attempted))
      ensures !raised ==>
        var e := old(if c == Query then query else action);
        && (if c == Query then query else action) == e.(attempted := e.attempted + [op])
        && (if c == Query then action else query) == old(if c == Query then action else query)
    {
      var e := if c == Query then query else action;
      raised := op in e.attempted;
      if !raised {
        if c == Query {
          query := e.(attempted := e.attempted + [op]);
        } else {
          action := e.(attempted := e.attempted + [op]);
        }
      }
    }

    method RecordSucceeded(c: Category, op: Op) returns (raised: bool)
      modifies `query, `action
      ensures raised == (op in old((if c == Query then query else action).succeeded))
      ensures !raised ==>
        var e := old(if c == Query then query else action);
        && (if c == Query then query else action) == e.(succeeded := e.succeeded + [op])
        && (if c == Query then action else query) == old(if c == Query then action else query)
    {
      var e := if c == Query then query else action;
      raised := op in e.succeeded;
      if !raised {
        if c == Query {
          query := e.(succeeded := e.succeeded + [op]);
        } else {
          action := e.(succeeded := e.succeeded + [op]);
        }
      }
    }

    /** What one recorded operation changes. */
    twostate predicate Logged(c: Category, op: Op, status: Status)
      reads this
    {
      && Valid() && log == old(log) + [Entry(c, op, status)]
      && latched == old(latched) && obligations == old(obligations) && owed == old(owed)
    }

    /** Required and attempted, and then, if it works, succeeded. */
    method Record(c: Category, op: Op, status: Status)
      requires
        var e := if c == Query then query else action;
        op !in e.required && op !in e.attempted && op !in e.succeeded
      modifies `query, `action
      ensures query == if c == Query then Recorded(old(query), op, status) else old(query)
      ensures action == if c == Action then Recorded(old(action), op, status) else old(action)
    {
      var raised := RecordRequired(c, op);
      if status != Unavailable {
        raised := RecordAttempted(c, op);
      }
      if status == Succeeded {
        raised := RecordSucceeded(c, op);
      }
    }

    /** A required and attempted operation: `cleanup_command`, and the operations that
        record themselves around a `try`; some of them succeed whatever they find. */
    method Attempt(c: Category, op: Op, certain: bool) returns (r: Ended)
      requires Valid() && Ordered(log, Rank(op)) && MayRequire(op)
      modifies `query, `action, `failures, `log
      ensures Logged(c, op, if r == Did then Succeeded else Started)
      ensures failures == if r == Failed then old(failures) + [op] else old(failures)
      ensures certain ==> r == Did
    {
      hide Named, Of, Rank, Ordered, IsDockerAction;
      NotYetRecorded(c, op);
      hide ListsMatch, Recorded;
      r := *;
      if certain {
        r := Did;
      }
      ghost var x := Entry(c, op, if r == Did then Succeeded else Started);
      ListsGrow(query, action, log, x);
      OneMoreNamed(log, x);
      Record(c, op, if r == Did then Succeeded else Started);
      if r == Failed {
        failures := failures + [op];
      }
      log := log + [x];
    }

    /** In the order of the cleanup no operation comes twice. */
    lemma {:induction false} NotYetRecorded(c: Category, op: Op)
      requires Valid() && Ordered(log, Rank(op))
      ensures
        var e := if c == Query then query else action;
        op !in e.required && op !in e.attempted && op !in e.succeeded
    {
      RequiredIsBelow(log, c, Rank(op));
      hide Of, Ordered, Named;
    }

    /** `record_unavailable_cleanup_obligation` */
    method RecordUnavailable(c: Category, op: Op)
      requires Valid() && Ordered(log, Rank(op)) && MayRequire(op)
      modifies `query, `action, `failures, `log
      ensures Logged(c, op, Unavailable) && failures == old(failures) + [op]
    {
      hide Named, Of, Rank, Ordered, IsDockerAction;
      NotYetRecorded(c, op);
      hide ListsMatch;
      ghost var x := Entry(c, op, Unavailable);
      ListsGrow(query, action, log, x);
      OneMoreNamed(log, x);
      Record(c, op, Unavailable);
      failures := failures + [op];
      log := log + [x];
    }

    /** So far no operation raised, and each one that did not succeed left one failure. */
    ghost predicate At(stage: nat)
      reads `query, `action, `log, `latched, `obligations, `owed, `netnsCreated, `cgroupCreated, `failures
    {
      Valid() && Ordered(log, stage) && |failures| == Unfinished(log)
    }

    /** An attempt in its turn. */
    method Step(c: Category, op: Op, certain: bool) returns (r: Ended)
      requires At(Rank(op)) && MayRequire(op)
      modifies `query, `action, `failures, `log
      ensures r != Raised ==> At(Rank(op) + 1)
      ensures Valid() && old(log) <= log && Named(log, c, op)
      ensures old(failures) <= failures && (r == Failed ==> failures != []) && (certain ==> r == Did)
    {
      hide Rank, Of, Ordered, Unfinished, Named;
      r := Attempt(c, op, certain);
      LogGrows(old(log), Entry(c, op, if r == Did then Succeeded else Started));
    }

    /** `synchronize_private_docker_cleanup_obligations` */
    method Synchronize()
      requires At(0)
      modifies `latched, `obligations
      ensures At(0) && old(obligations) <= obligations
    {
      if dockerd != NotStarted || dockerdSocket || imageId || serviceId || clientId || networkCount > 0 {
        latched := true;
      }
      if imageId {
        latched, obligations := true, obligations + {RemoveImage};
      }
      if networkCount > 0 || serviceId || clientId {
        latched, obligations := true, obligations + {RemoveNetwork};
      }
      if serviceId {
        latched, obligations := true, obligations + {RemoveService};
      }
      if clientId {
        latched, obligations := true, obligations + {RemoveClient};
      }
    }

    /** One docker operation, or the record that it could not even be tried. */
    method DockerStep(c: Category, op: Op, socket: bool) returns (r: Ended)
      requires At(Rank(op)) && MayRequire(op)
      modifies `query, `action, `failures, `log
      ensures Valid() && old(log) <= log && Named(log, c, op)
      ensures r != Raised ==> At(Rank(op) + 1) && old(failures) <= failures && (r == Failed ==> failures != [])
      ensures old(failures) <= failures
    {
      hide Rank, Of, Ordered, Unfinished, Named, Valid;
      if socket {
        r := Attempt(c, op, false);
        LogGrows(old(log), Entry(c, op, if r == Did then Succeeded else Started));
      } else {
        RecordUnavailable(c, op);
        LogGrows(old(log), Entry(c, op, Unavailable));
        r := Failed;
      }
    }

    /** Every removal that is owed is at least required. */
    method RemoveDockerObjects(socket: bool) returns (ok: bool, raised: bool)
      requires At(1)
      modifies `query, `action, `failures, `log
      ensures Valid() && old(log) <= log && old(failures) <= failures
      ensures !raised ==> At(5) && AllNamed(log, 4, obligations)
      ensures !raised && !ok ==> failures != []
    {
      hide Rank, Of, Ordered, Unfinished, Valid;
      ok, raised := true, false;
      for i := 0 to |DOCKER_ACTIONS|
        invariant At(1 + i) && old(log) <= log && old(failures) <= failures && (!ok ==> failures != [])
        invariant AllNamed(log, i, obligations)
      {
        var op := DOCKER_ACTIONS[i];
        DockerRank(i);
        if op in obligations {
          ghost var before := log;
          var r := DockerStep(Action, op, socket);
          if r == Raised {
            return false, true;
          }
          ok := ok && r == Did;
          StaysNamed(before, log, i, obligations);
        } else {
          StageMayRise(log, 1 + i, 2 + i);
        }
      }
    }

    /** Count what is left of the docker objects; an object that cannot be counted is
        taken to be there. */
    method CountDockerObjects(socket: bool) returns (ok: bool, raised: bool)
      requires At(5)
      modifies `query, `action, `failures, `log, `cleanup
      ensures Valid() && old(log) <= log && old(failures) <= failures
      ensures cleanup == old(cleanup).(residue := cleanup.residue)
      ensures !raised ==> At(9)
      ensures !raised && !ok ==> failures != []
    {
      hide Rank, Of, Ordered, Unfinished, Valid;
      ok, raised := true, false;
      for i := 0 to |DOCKER_QUERIES|
        invariant At(5 + i) && old(log) <= log && old(failures) <= failures && (!ok ==> failures != [])
        invariant cleanup == old(cleanup).(residue := cleanup.residue)
      {
        var op := DOCKER_QUERIES[i];
        DockerRank(i);
        var r := DockerStep(Query, op, socket);
        if r == Raised {
          return false, true;
        }
        ok := ok && r == Did;
        if socket {
          var listed: int := *;
          cleanup := cleanup.(residue := Left(cleanup.residue, op, if r == Did && listed >= 0 then listed else 1));
        }
      }
    }

    /** `stop_process`: nothing to do for a process that is not running. */
    method StopProcess(op: Op, running: bool) returns (ok: bool, raised: bool)
      requires At(Rank(op)) && MayRequire(op)
      modifies `query, `action, `failures, `log
      ensures Valid() && old(log) <= log
      ensures old(failures) <= failures
      ensures !raised ==> At(Rank(op) + 1) && (!ok ==> failures != [])
      ensures !raised && running ==> Named(log, Action, op)
    {
      ok, raised := true, false;
      if running {
        var r := Step(Action, op, false);
        ok, raised := r == Did, r == Raised;
      } else {
        StageMayRise(log, Rank(op), Rank(op) + 1);
      }
    }

    method SetResidue(residue: Residue)
      modifies `cleanup
      ensures cleanup == old(cleanup).(residue := residue)
    {
      cleanup := cleanup.(residue := residue);
    }

    /** The docker objects, if anything of docker was ever latched. */
    method CleanupDockerObjects(socket: bool) returns (ok: bool, raised: bool)
      requires At(1)
      modifies `query, `action, `failures, `log, `cleanup
      ensures Valid() && old(failures) <= failures
      ensures cleanup == old(cleanup).(residue := cleanup.residue)
      ensures !raised ==> At(9) && (!ok ==> failures != []) && AllNamed(log, 4, owed)
    {
      hide Rank, Of, Ordered, Unfinished, Named, AllNamed, Valid;
      ok, raised := true, false;
      StageMayRise(log, 1, 9);
      ValidMeans(this);
      FewerNamed(log, owed, obligations);
      if latched {
        ok, raised := RemoveDockerObjects(socket);
        if raised {
          return;
        }
        ghost var before := log;
        var fine;
        fine, raised := CountDockerObjects(socket);
        if raised {
          return;
        }
        ok := ok && fine;
        StaysNamed(before, log, 4, obligations);
        FewerNamed(log, owed, obligations);
      }
    }

    /** The two daemons, and what is left running. */
    method StopDaemons() returns (ok: bool, raised: bool)
      requires At(9)
      modifies `query, `action, `failures, `log, `cleanup
      ensures Valid() && old(failures) <= failures && old(log) <= log
      ensures cleanup == old(cleanup).(residue := cleanup.residue)
      ensures !raised ==> At(11) && (!ok ==> failures != [] || Dirty(cleanup.residue, 0))
    {
      hide Rank, Of, Ordered, Unfinished, Named, Valid;
      Ranks();
      var running := *;
      ok, raised := StopProcess(StopDockerd, dockerd == Running && running);
      if raised {
        return;
      }
      running := *;
      var fine;
      fine, raised := StopProcess(StopContainerd, containerd == Running && running);
      if raised {
        return;
      }
      var left: int := *;
      SetResidue(cleanup.residue.(processes := if left > 0 then left else 0));
      ok := fine && ok && cleanup.residue.processes == 0;
    }

    /** The docker part of `cleanup`: proxy, docker objects, daemons. */
    method CleanupDocker() returns (ok: bool, raised: bool)
      requires At(0)
      modifies `latched, `obligations, `query, `action, `failures, `log, `cleanup
      ensures Valid() && old(failures) <= failures
      ensures cleanup == old(cleanup).(residue := cleanup.residue)
      ensures !raised ==> At(11) && (!ok ==> failures != [] || Dirty(cleanup.residue, 0))
      ensures !raised ==> AllNamed(log, 4, owed)
    {
      hide Rank, Of, Ordered, Unfinished, Named, AllNamed, Valid;
      Ranks();
      Synchronize();
      ok, raised := true, false;
      StageMayRise(log, 0, 1);
      if proxy {
        var r := Step(Action, StopProxy, false);
        if r == Raised {
          return false, true;
        }
        ok := r == Did;
      }
      var socket, fine := *, true;
      fine, raised := CleanupDockerObjects(socket);
      if raised {
        return;
      }
      ok := ok && fine;
      ghost var before := log;
      fine, raised := StopDaemons();
      if raised {
        return;
      }
      ok := fine && ok;
      StaysNamed(before, log, 4, owed);
    }

    /** The removal of the network namespace, if its creation was reported. */
    method DeleteNamespace() returns (ok: bool, raised: bool)
      requires At(11)
      modifies `query, `action, `failures, `log, `netnsPresent
      ensures Valid() && old(failures) <= failures && old(log) <= log
      ensures !raised ==> At(12) && (!ok ==> failures != [])
      ensures !raised && netnsCreated ==> Named(log, Action, DeleteNetns)
      ensures !netnsCreated ==> netnsPresent == old(netnsPresent)
    {
      hide Rank, Of, Ordered, Unfinished, Named, Valid;
      Ranks();
      ok, raised := true, false;
      StageMayRise(log, 11, 12);
      if netnsCreated {
        var r := Step(Action, DeleteNetns, false);
        ok, raised := r == Did, r == Raised;
        var gone := *;
        netnsPresent := netnsPresent && r != Did && !gone;
      }
    }

    /** The network namespace: removed only if its creation was reported, but looked for
        in any case. */
    method CleanupNamespace() returns (ok: bool, raised: bool)
      requires At(11)
      modifies `query, `action, `failures, `log, `cleanup, `netnsPresent
      ensures Valid() && old(failures) <= failures && old(log) <= log
      ensures cleanup == old(cleanup).(residue := cleanup.residue)
      ensures Dirty(old(cleanup.residue), 0) ==> Dirty(cleanup.residue, 1)
      ensures !raised ==> At(13) && (!ok ==> failures != [] || Dirty(cleanup.residue, 1))
      ensures !raised && netnsCreated ==> Named(log, Action, DeleteNetns)
      ensures !netnsCreated ==> netnsPresent == old(netnsPresent)
      ensures !raised && netnsPresent ==> cleanup.residue.namespaces > 0
    {
      hide Rank, Of, Ordered, Unfinished, Named, Valid;
      Ranks();
      ok, raised := DeleteNamespace();
      if raised {
        return;
      }
      ghost var named := log;
      var r := Step(Query, QueryNetns, false);
      if r == Raised {
        return false, true;
      }
      var namespaces := if r == Did && !netnsPresent then 0 else 1;
      SetResidue(cleanup.residue.(namespaces := namespaces));
      ok := ok && namespaces == 0;
      if netnsCreated {
        NamedStays(named, log, Action, DeleteNetns);
      }
    }

    /** The control group. */
    method CleanupGroup() returns (ok: bool, raised: bool)
      requires At(13)
      modifies `query, `action, `failures, `log, `cleanup, `cgroupPresent
      ensures Valid() && old(failures) <= failures && old(log) <= log
      ensures cleanup == old(cleanup).(residue := old(cleanup.residue).(cgroups := cleanup.residue.cgroups))
      ensures Dirty(old(cleanup.residue), 1) ==> Dirty(cleanup.residue, 2)
      ensures !raised ==> At(14) && (!ok ==> failures != [] || Dirty(cleanup.residue, 2))
      ensures !raised && cgroupCreated ==> Named(log, Action, RemoveCgroup)
      ensures !raised && cgroupPresent ==> cleanup.residue.cgroups > 0
    {
      hide Rank, Of, Ordered, Unfinished, Named, Valid;
      Ranks();
      ok, raised := true, false;
      StageMayRise(log, 13, 14);
      if cgroupCreated {
        var r := Step(Action, RemoveCgroup, false);
        var gone := *;
        cgroupPresent := cgroupPresent && r != Did && !gone;
        if r == Raised {
          return false, true;
        }
        ok := r == Did;
      }
      SetResidue(cleanup.residue.(cgroups := if cgroupPresent then 1 else 0));
      ok := ok && !cgroupPresent;
    }

    /** The runtime directory. */
    method CleanupRuntime() returns (ok: bool, raised: bool)
      requires At(14)
      modifies `query, `action, `failures, `log, `cleanup
      ensures Valid() && old(failures) <= failures && old(log) <= log
      ensures cleanup == old(cleanup).(residue := cleanup.residue)
      ensures Dirty(old(cleanup.residue), 2) ==> Dirty(cleanup.residue, 2)
      ensures SameHost(old(cleanup.residue), cleanup.residue)
      ensures !raised ==> At(15) && (!ok ==> failures != [] || cleanup.residue.roots > 0)
    {
      hide Rank, Of, Ordered, Unfinished, Named, Valid;
      Ranks();
      ok, raised := true, false;
      StageMayRise(log, 14, 15);
      var present := *;
      if present {
        var r := Step(Action, RemoveRuntimeRoot, false);
        if r == Raised {
          return false, true;
        }
        ok := r == Did;
      }
      var rooted, sockets: int, pidfiles: int := *, *, *;
      SetResidue(WithRoots(cleanup.residue, sockets, pidfiles, if rooted then 1 else 0));
      ok := ok && !rooted;
    }

    /** The listener: a query that always answers. */
    method CheckListener() returns (ok: bool)
      requires At(15)
      modifies `query, `action, `failures, `log, `cleanup
      ensures At(16) && old(failures) <= failures && old(log) <= log
      ensures cleanup == old(cleanup).(residue := old(cleanup.residue).(listeners := if ok then 0 else 1))
    {
      hide Rank, Of, Ordered, Unfinished, Named, Valid;
      Ranks();
      var bound := *;
      var r := Step(Query, QueryListener, true);
      SetResidue(cleanup.residue.(listeners := if bound then 1 else 0));
      ok := !bound;
    }

    /** The comparison with the host before the run. */
    method CompareHost() returns (ok: bool, raised: bool)
      requires At(16)
      modifies `query, `action, `failures, `log, `cleanup
      ensures Valid() && old(failures) <= failures && old(log) <= log
      ensures cleanup == old(cleanup).(residue := cleanup.residue, restored := cleanup.restored)
      ensures Dirty(old(cleanup.residue), 3) ==> Dirty(cleanup.residue, 3)
      ensures cleanup.residue == old(cleanup.residue).(veths := cleanup.residue.veths)
      ensures !raised ==> At(18) && (!ok ==> failures != [])
      ensures !raised && cleanup.residue.veths == 0 ==> cleanup.restored.links && cleanup.residue.namespaces == 0
    {
      hide Rank, Of, Ordered, Unfinished, Named, Valid;
      Ranks();
      ok, raised := true, false;
      var r := Step(Query, QueryHostFirewall, false);
      if r == Raised {
        return false, true;
      }
      ok := r == Did;
      r := Step(Query, QueryHostLinks, false);
      if r == Raised {
        return false, true;
      }
      ok := ok && r == Did;
      var canonical, semantic, links := *, *, *;
      cleanup := cleanup.(restored := Restored(canonical, semantic, links));
      SetResidue(cleanup.residue.(veths := if links && cleanup.residue.namespaces == 0 then 0 else 1));
    }

    /** `finalize_cleanup_failures` and `finalize_cleanup_completeness`; the lists never
        hold an operation twice, so that check never raises. */
    method Finalize() returns (raised: bool)
      requires At(18)
      modifies `cleanup
      ensures !raised
      ensures |query.succeeded| <= |query.attempted| && |action.succeeded| <= |action.attempted|
      ensures cleanup == old(cleanup).(
        commandFailures := |failures|, query := CountsOf(query), action := CountsOf(action), finalized := true)
      ensures ValidCounts(cleanup.query, true) && ValidCounts(cleanup.action, true)
      ensures cleanup.query.failures + cleanup.action.failures <= |failures|
      ensures failures == [] ==> cleanup.query.complete && cleanup.action.complete
    {
      CountsDecideLists(log, Query);
      CountsDecideLists(log, Action);
      FailuresAreUnfinished(log);
      RequiredIsBelow(log, Query, 18);
      RequiredIsBelow(log, Action, 18);
      hide Of, Ordered, Unfinished;
      raised := !(Distinct(query.required) && Distinct(query.attempted) && Distinct(query.succeeded)
                  && Distinct(action.required) && Distinct(action.attempted) && Distinct(action.succeeded));
      if raised {
        return;
      }
      cleanup := cleanup.(
        commandFailures := |failures|, query := CountsOf(query), action := CountsOf(action), finalized := true);
    }

    /** The host part of `cleanup`. */
    method CleanupHost() returns (ok: bool, raised: bool)
      requires At(11)
      modifies `query, `action, `failures, `log, `cleanup, `netnsPresent, `cgroupPresent
      ensures Valid() && old(log) <= log && old(failures) <= failures
      ensures cleanup == old(cleanup).(residue := cleanup.residue, restored := cleanup.restored)
      ensures Dirty(old(cleanup.residue), 0) ==> Dirty(cleanup.residue, 3)
      ensures !raised ==> At(18) && (!ok ==> failures != [] || Dirty(cleanup.residue, 3))
      ensures !raised && netnsCreated ==> Named(log, Action, DeleteNetns)
      ensures !raised && cgroupCreated ==> Named(log, Action, RemoveCgroup)
      ensures !netnsCreated ==> netnsPresent == old(netnsPresent)
      ensures !raised ==>
        (netnsPresent ==> cleanup.residue.namespaces > 0) && (cgroupPresent ==> cleanup.residue.cgroups > 0)
    {
      hide Rank, Of, Ordered, Unfinished, Named, Valid;
      ok, raised := CleanupNamespace();
      if raised {
        return;
      }
      ghost var first := log;
      var group, rest;
      group, raised := CleanupGroup();
      if raised {
        return;
      }
      ghost var second := log;
      rest, raised := CleanupRest();
      if raised {
        return;
      }
      ok := ok && group && rest;
      if netnsCreated {
        NamedStays(first, log, Action, DeleteNetns);
      }
      if cgroupCreated {
        NamedStays(second, log, Action, RemoveCgroup);
      }
    }

    method CleanupRest() returns (ok: bool, raised: bool)
      requires At(14)
      modifies `query, `action, `failures, `log, `cleanup
      ensures Valid() && old(log) <= log && old(failures) <= failures
      ensures cleanup == old(cleanup).(residue := cleanup.residue, restored := cleanup.restored)
      ensures Dirty(old(cleanup.residue), 2) ==> Dirty(cleanup.residue, 3)
      ensures SameHost(old(cleanup.residue), cleanup.residue)
      ensures !raised ==> At(18) && (!ok ==> failures != [] || Dirty(cleanup.residue, 3))
    {
      hide Rank, Of, Ordered, Unfinished, Named, Valid;
      ok, raised := CleanupRuntime();
      if raised {
        return;
      }
      var unbound := CheckListener();
      var same;
      same, raised := CompareHost();
      ok := ok && unbound && same;
    }

    /** `cleanup`: unless something nobody handles is raised, the ledger is finalized and
        valid, everything owed was required, and success means that nothing failed,
        nothing is left and the host is as before. */
    method Cleanup() returns (ok: bool, raised: bool)
      requires BeforeCleanup()
      modifies `latched, `obligations, `query, `action, `failures, `log, `cleanup, `netnsPresent, `cgroupPresent
      ensures raised ==>
        && cleanup.query == NO_COUNTS && cleanup.action == NO_COUNTS && !cleanup.finalized
        && !cleanup.proofComplete && !cleanup.succeeded
      ensures !raised ==>
        && ValidCleanup(cleanup) && cleanup.finalized && cleanup.proofComplete == ok
        && (ok <==> failures == [] && cleanup.residue == NO_RESIDUE && cleanup.restored == Restored(true, true, true))
      ensures !raised ==>
        && Valid() && AllNamed(log, 4, owed)
        && (netnsCreated <==> Named(log, Action, DeleteNetns))
        && (cgroupCreated <==> Named(log, Action, RemoveCgroup))
      ensures !raised && netnsPresent ==> cleanup.residue.namespaces > 0
      ensures !raised && ok ==> !netnsPresent && !cgroupPresent
      ensures !netnsCreated ==> netnsPresent == old(netnsPresent)
    {
      EmptyLog();
      hide Rank, Of, Ordered, Unfinished, Named, AllNamed;
      cleanup := cleanup.(attempted := true);
      hide Valid, ValidCounts;
      ok, raised := CleanupParts();
      if raised {
        return;
      }
      raised := Finalize();
      ok := ok && cleanup.restored == Restored(true, true, true) && cleanup.residue == NO_RESIDUE
        && failures == [] && cleanup.query.complete && cleanup.action.complete;
      cleanup := cleanup.(proofComplete := ok, succeeded := ok);
    }

    /** The docker part and then the host part. */
    method CleanupParts() returns (ok: bool, raised: bool)
      requires At(0)
      modifies `latched, `obligations, `query, `action, `failures, `log, `cleanup, `netnsPresent, `cgroupPresent
      ensures cleanup == old(cleanup).(residue := cleanup.residue, restored := cleanup.restored)
      ensures !raised ==>
        && At(18) && (!ok ==> failures != [] || Dirty(cleanup.residue, 3)) && AllNamed(log, 4, owed)
        && (netnsCreated <==> Named(log, Action, DeleteNetns))
        && (cgroupCreated <==> Named(log, Action, RemoveCgroup))
      ensures !raised ==>
        (netnsPresent ==> cleanup.residue.namespaces > 0) && (cgroupPresent ==> cleanup.residue.cgroups > 0)
      ensures !netnsCreated ==> netnsPresent == old(netnsPresent)
    {
      hide Rank, Of, Ordered, Unfinished, Named, AllNamed, Valid;
      ok, raised := CleanupDocker();
      if raised {
        return;
      }
      ghost var before := log;
      var fine;
      fine, raised := CleanupHost();
      if raised {
        return;
      }
      StaysNamed(before, log, 4, owed);
      ValidMeans(this);
      ok := ok && fine;
    }
  }

  lemma {:induction false} DockerActionsAre()
    ensures IsDockerAction(RemoveImage) && IsDockerAction(RemoveNetwork)
      && IsDockerAction(RemoveService) && IsDockerAction(RemoveClient)
  {
  }

  ghost predicate Named(log: seq<Entry>, c: Category, op: Op) {
    exists status :: Entry(c, op, status) in log
  }

  lemma {:induction false} ValidMeans(probe: Probe)
    requires probe.Valid()
    ensures probe.owed <= probe.obligations && (probe.obligations != {} ==> probe.latched)
    ensures Named(probe.log, Action, DeleteNetns) ==> probe.netnsCreated
    ensures Named(probe.log, Action, RemoveCgroup) ==> probe.cgroupCreated
  {
    hide Named, Of;
  }

  lemma {:induction false} OneMoreNamed(log: seq<Entry>, x: Entry)
    ensures forall c, op :: Named(log + [x], c, op) <==> Named(log, c, op) || (x.category == c && x.op == op)
  {
    forall c, op ensures Named(log + [x], c, op) <==> Named(log, c, op) || (x.category == c && x.op == op) {
      if Named(log + [x], c, op) {
        var status :| Entry(c, op, status) in log + [x];
      }
      if Named(log, c, op) {
        NamedStays(log, log + [x], c, op);
      }
      if x.category == c && x.op == op {
        assert Entry(c, op, x.status) == x && x in log + [x];
      }
    }
  }

  /** What is left of namespace and group is as it was. */
  predicate SameHost(r: Residue, s: Residue) {
    s.namespaces == r.namespaces && s.cgroups == r.cgroups
  }

  lemma {:induction false} LogGrows(log: seq<Entry>, x: Entry)
    requires Ordered(log, Rank(x.op))
    ensures Ordered(log + [x], Rank(x.op) + 1) && Named(log + [x], x.category, x.op)
    ensures Unfinished(log + [x]) == Unfinished(log) + (if x.status == Succeeded then 0 else 1)
  {
    OfAppend(log, x, Query);
    assert x in log + [x] && Entry(x.category, x.op, x.status) == x;
  }

  lemma {:induction false} StageMayRise(log: seq<Entry>, a: nat, b: nat)
    requires a <= b
    ensures Ordered(log, a) ==> Ordered(log, b)
  {
  }

  ghost predicate AllNamed(log: seq<Entry>, i: nat, obligations: set<Op>)
    requires i <= |DOCKER_ACTIONS|
  {
    forall j | 0 <= j < i && DOCKER_ACTIONS[j] in obligations :: Named(log, Action, DOCKER_ACTIONS[j])
  }

  lemma {:induction false} EmptyLog()
    ensures Ordered([], 0) && Unfinished([]) == 0
  {
  }

  lemma {:induction false} Ranks()
    ensures Rank(StopProxy) == 0 && Rank(StopDockerd) == 9 && Rank(StopContainerd) == 10 && Rank(DeleteNetns) == 11
      && Rank(QueryNetns) == 12 && Rank(RemoveCgroup) == 13 && Rank(RemoveRuntimeRoot) == 14
      && Rank(QueryListener) == 15 && Rank(QueryHostFirewall) == 16 && Rank(QueryHostLinks) == 17
  {
  }

  lemma {:induction false} FewerNamed(log: seq<Entry>, a: set<Op>, b: set<Op>)
    requires a <= b
    ensures AllNamed(log, 4, b) ==> AllNamed(log, 4, a)
    ensures a == {} ==> AllNamed(log, 4, a)
  {
    hide Named;
  }

  lemma {:induction false} DockerRank(i: nat)
    requires i < 4
    ensures Rank(DOCKER_ACTIONS[i]) == 1 + i && Rank(DOCKER_QUERIES[i]) == 5 + i
  {
  }

  function WithRoots(r: Residue, sockets: int, pidfiles: int, roots: nat): Residue {
    r.(sockets := if sockets > 0 then sockets else 0, pidfiles := if pidfiles > 0 then pidfiles else 0,
       roots := roots, scratch := roots)
  }

  /** The field of the residue that a docker query fills. */
  function Left(r: Residue, query: Op, left: nat): Residue {
    match query
    case QueryContainers => r.(containers := left)
    case QueryVolumes => r.(volumes := left)
    case QueryNetworks => r.(networks := left)
    case _ => r.(images := left)
  }

  lemma {:induction false} StaysNamed(a: seq<Entry>, b: seq<Entry>, i: nat, obligations: set<Op>)
    requires a <= b && i <= |DOCKER_ACTIONS|
    requires AllNamed(a, i, obligations)
    ensures AllNamed(b, i, obligations)
  {
    forall j | 0 <= j < i && DOCKER_ACTIONS[j] in obligations ensures Named(b, Action, DOCKER_ACTIONS[j]) {
      NamedStays(a, b, Action, DOCKER_ACTIONS[j]);
    }
  }

  lemma {:induction false} NamedStays(a: seq<Entry>, b: seq<Entry>, c: Category, op: Op)
    requires a <= b && Named(a, c, op)
    ensures Named(b, c, op)
  {
    var status :| Entry(c, op, status) in a;
    assert Entry(c, op, status) in b;
  }

  lemma {:induction false} NamedIsRequired(log: seq<Entry>, c: Category, op: Op)
    requires Named(log, c, op)
    ensures op in Of(log, c).required
    decreases |log|
  {
    var status :| Entry(c, op, status) in log;
    var n := |log| - 1;
    if log[n] != Entry(c, op, status) {
      assert Entry(c, op, status) in log[..n];
      NamedIsRequired(log[..n], c, op);
    }
  }

  lemma {:induction false} RequiredIsNamed(log: seq<Entry>, c: Category, op: Op)
    requires op in Of(log, c).required
    ensures Named(log, c, op)
    decreases |log|
  {
    var n := |log| - 1;
    if log[n].category == c && log[n].op == op {
      assert Entry(c, op, log[n].status) == log[n];
    } else {
      RequiredIsNamed(log[..n], c, op);
      NamedStays(log[..n], log, c, op);
    }
  }

  /** `run_probe`: whatever happens during the run and the cleanup, the receipt passes its
      validator.  A finalized ledger requires the removal of every docker object whose
      creation was attempted, and of namespace and control group exactly if their creation
      was reported; a proved cleanup has left neither of these two. */
  method RunProbe() returns (receipt: Receipt, probe: Probe)
    ensures fresh(probe) && ValidReceipt(receipt)
    ensures receipt.code == Pass ==> receipt.cleanup.proofComplete
    ensures receipt.cleanup.finalized ==>
      && (forall op | op in probe.owed :: op in probe.action.required)
      && (DeleteNetns in probe.action.required <==> probe.netnsCreated)
      && (RemoveCgroup in probe.action.required <==> probe.cgroupCreated)
    ensures receipt.cleanup.proofComplete ==> !probe.netnsPresent && !probe.cgroupPresent
  {
    hide Of, Named, ValidStartup, ValidCleanup;
    probe := new Probe();
    var code := probe.Execute();
    var ok, raised := probe.Cleanup();
    if raised {
      probe.failures := probe.failures + [UnexpectedCleanup];
      probe.cleanup := probe.cleanup.(
        commandFailures := |probe.failures|, attempted := true, succeeded := false);
      UnfinishedIsValid(probe.cleanup);
    } else {
      OwedIsRequired(probe);
    }
    receipt := Conclude(code, probe.startup, probe.cleanup, ok && !raised);
  }

  lemma {:induction false} UnfinishedIsValid(c: Cleanup)
    requires c.query == NO_COUNTS && c.action == NO_COUNTS && !c.finalized && !c.proofComplete && !c.succeeded
    ensures ValidCleanup(c)
  {
  }

  /** What `run_probe` makes of a run and its cleanup. */
  method Conclude(code: Code, startup: Startup, cleanup: Cleanup, clean: bool) returns (receipt: Receipt)
    requires ValidStartup(startup) && ValidCleanup(cleanup) && (clean ==> cleanup.proofComplete)
    requires code == Pass ==> startup.substage == Ready
    requires code == ContainerdStartFailed ==> startup.substage !in {Ready, UnknownSanitized}
    ensures ValidReceipt(receipt) && receipt.cleanup.finalized == cleanup.finalized
    ensures receipt.cleanup.proofComplete ==> cleanup.proofComplete
    ensures receipt.code == Pass ==> receipt.cleanup.proofComplete
  {
    var complete := cleanup.finalized && cleanup.query.complete && cleanup.action.complete && cleanup.proofComplete;
    var written := if clean && !complete then cleanup.(succeeded := false, proofComplete := false) else cleanup;
    var last := code;
    if !(clean && complete) && last == Pass {
      last := CleanupFailed;
    }
    // whether every flag of the run that a pass requires was set
    var proved := *;
    if last == Pass && !proved {
      last := ResidueLeft;
    }
    receipt := Receipt(last == Pass, last, startup, written);
  }

  /** A run in which the creation of the namespace is reported to have failed and has left
      it behind: its removal is not required and it stays, but the cleanup finds it. */
  method FailedCreationStays() returns (probe: Probe, ok: bool, raised: bool)
    ensures probe.netnsAttempted && !probe.netnsCreated && probe.netnsPresent
    ensures !raised ==>
      && DeleteNetns !in probe.action.required && !ok && probe.cleanup.finalized && !probe.cleanup.proofComplete
      && probe.cleanup.residue.namespaces > 0
  {
    hide Of, Named, ValidCleanup;
    probe := new Probe();
    probe.CreateGroup(true, false);
    probe.CreateNetns(false, true);
    ok, raised := probe.Cleanup();
    if !raised {
      OwedIsRequired(probe);
    }
  }

  lemma {:induction false} OwedIsRequired(probe: Probe)
    requires probe.Valid() && AllNamed(probe.log, 4, probe.owed)
    ensures forall op | op in probe.owed :: op in probe.action.required
    ensures Named(probe.log, Action, DeleteNetns) <==> DeleteNetns in probe.action.required
    ensures Named(probe.log, Action, RemoveCgroup) <==> RemoveCgroup in probe.action.required
  {
    forall op | op in probe.owed ensures op in probe.action.required {
      assert IsDockerAction(op);
      assert DOCKER_ACTIONS[0] == RemoveClient && DOCKER_ACTIONS[1] == RemoveService
        && DOCKER_ACTIONS[2] == RemoveNetwork && DOCKER_ACTIONS[3] == RemoveImage;
      NamedIsRequired(probe.log, Action, op);
    }
    forall op | op == DeleteNetns || op == RemoveCgroup
      ensures Named(probe.log, Action, op) <==> op in probe.action.required
    {
      if Named(probe.log, Action, op) {
        NamedIsRequired(probe.log, Action, op);
      }
      if op in probe.action.required {
        RequiredIsNamed(probe.log, Action, op);
      }
    }
  }
}
