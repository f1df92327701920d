/** The parts of the probe's receipt that are checked against each other, and the checks. */
module ProbeReceipt {
  datatype Substage =
    | ProcessExitBeforeSocket | SocketReadinessTimeout | NamespaceCreateInitialFailed
    | NamespaceCreateRetryFailed | NamespaceReadbackFailed | Ready | UnknownSanitized

  datatype Startup = Startup(
    substage: Substage, proofComplete: bool, processStarted: bool, exitObserved: bool,
    socketObserved: bool, socketTimeout: bool, createAttempted: nat, createSucceeded: nat,
    readbackAttempted: bool, readbackSucceeded: bool, expected: nat, observed: nat)

  const NOT_STARTED := Startup(UnknownSanitized, false, false, false, false, false, 0, 0, false, false, 2, 0)

  /** The shape each terminal substage prescribes; the observed count is free after a
      failed readback. */
  predicate ExpectedShape(s: Startup) {
    var shape := (s.processStarted, s.exitObserved, s.socketObserved, s.socketTimeout);
    var counts := (s.createAttempted, s.createSucceeded, s.readbackAttempted, s.readbackSucceeded);
    match s.substage
    case ProcessExitBeforeSocket =>
      shape == (true, true, false, false) && counts == (0, 0, false, false) && s.observed == 0
    case SocketReadinessTimeout =>
      shape == (true, false, false, true) && counts == (0, 0, false, false) && s.observed == 0
    case NamespaceCreateInitialFailed =>
      shape == (true, false, true, false) && counts == (1, 0, false, false) && s.observed == 0
    case NamespaceCreateRetryFailed =>
      shape == (true, false, true, false) && counts == (2, 1, false, false) && s.observed == 0
    case NamespaceReadbackFailed =>
      shape == (true, false, true, false) && counts == (2, 2, true, false)
    case Ready =>
      shape == (true, false, true, false) && counts == (2, 2, true, true) && s.observed == 2
    case UnknownSanitized => false
  }

  /** `validate_startup_diagnostic` */
  predicate ValidStartup(s: Startup) {
    && s.expected == 2 && s.createSucceeded <= s.createAttempted <= s.expected && s.observed <= s.expected
    && (if s.proofComplete then ExpectedShape(s) else s.substage == UnknownSanitized)
  }

  datatype Counts = Counts(required: nat, attempted: nat, succeeded: nat, failures: nat, complete: bool)

  const NO_COUNTS := Counts(0, 0, 0, 0, false)

  datatype Residue = Residue(
    containers: nat, images: nat, volumes: nat, networks: nat, listeners: nat, processes: nat,
    namespaces: nat, veths: nat, sockets: nat, pidfiles: nat, cgroups: nat, roots: nat, scratch: nat)

  const NO_RESIDUE := Residue(0, 0, 0, 0, 0, 0, 0, 0, 0, 0, 0, 0, 0)

  datatype Restored = Restored(canonical: bool, semantic: bool, links: bool)

  datatype Cleanup = Cleanup(
    attempted: bool, succeeded: bool, commandFailures: nat, query: Counts, action: Counts,
    finalized: bool, proofComplete: bool, residue: Residue, restored: Restored)

  const NOT_CLEANED :=
    Cleanup(false, false, 0, NO_COUNTS, NO_COUNTS, false, false, NO_RESIDUE, Restored(false, false, false))

  predicate ValidCounts(c: Counts, attempted: bool) {
    && c.succeeded <= c.attempted <= c.required && c.failures == c.attempted - c.succeeded
    && (c.complete <==> attempted && c.required == c.attempted == c.succeeded && c.failures == 0)
  }

  /** `validate_cleanup_completeness` */
  predicate ValidCleanup(c: Cleanup) {
    if !c.finalized then c.query == NO_COUNTS && c.action == NO_COUNTS && !c.proofComplete && !c.succeeded
    else
      && ValidCounts(c.query, c.attempted) && ValidCounts(c.action, c.attempted)
      && c.query.failures + c.action.failures <= c.commandFailures
      && c.succeeded == c.proofComplete
      && (c.proofComplete ==>
            && c.attempted && c.query.complete && c.action.complete && c.commandFailures == 0
            && c.residue == NO_RESIDUE && c.restored == Restored(true, true, true))
  }

  datatype Code =
    | Pass | ContainerdStartFailed | CleanupFailed | ResidueLeft | InternalError | OtherFailure(name: string)

  datatype Receipt = Receipt(passed: bool, code: Code, startup: Startup, cleanup: Cleanup)

  /** What `validate_receipt` checks across fields. */
  predicate ValidReceipt(r: Receipt) {
    && (r.passed <==> r.code == Pass)
    && ValidStartup(r.startup) && ValidCleanup(r.cleanup)
    && (r.code == ContainerdStartFailed ==> r.startup.substage !in {Ready, UnknownSanitized})
    && (r.code == Pass ==> r.startup.substage == Ready)
  }
}
