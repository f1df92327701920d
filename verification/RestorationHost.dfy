/**
 The host the protocol works on.  Every step is atomic; between any two steps the
 foreign rules may change, the step may fail, and the process may die.  A calm run
 is one in which nothing of the kind happens.
 */
module RestorationHost {
  import opened Wrappers
  import opened RestorationState

  datatype Outcome = Done | Error(code: string) | Crashed {
    predicate IsFailure() {
      !Done?
    }

    function PropagateFailure(): Outcome
      requires IsFailure()
    {
      this
    }
  }

  /** A step from `s` to `t` that every caller has to justify. */
  predicate Allowed(s: State, t: State) {
    Inv(t) && StepOk(s, t)
  }

  function WithForeign(s: State, f: Identity): State {
    s.(foreign := f)
  }

  /** The invariant and the step relation do not look at the foreign rules. */
  lemma {:induction false} ForeignIsIrrelevant(s: State, t: State, f: Identity)
    ensures Inv(WithForeign(s, f)) == Inv(s)
    ensures Allowed(WithForeign(s, f), WithForeign(t, f)) == Allowed(s, t)
    ensures Inv(s) ==> Allowed(s, WithForeign(s, f))
  {
  }

  function Removed(s: State, p: Path): State {
    s.(disk := s.disk - {p})
  }

  function Created(s: State, stage: Path): State {
    s.(disk := s.disk[stage := File(s.nextInode, Unwritten)], nextInode := s.nextInode + 1)
  }

  function Filled(s: State, stage: Path, content: Content): State
    requires stage in s.disk
  {
    s.(disk := s.disk[stage := s.disk[stage].(content := content)])
  }

  function Linked(s: State, stage: Path, p: Path): State
    requires stage in s.disk
  {
    s.(disk := s.disk[p := s.disk[stage]])
  }

  function Recorded(s: State, l: Ledger, captured: Identity): State {
    s.(disk := s.disk[LedgerPath := File(s.nextInode, LedgerText(l))], nextInode := s.nextInode + 1, captured := captured)
  }

  function Listed(s: State): State {
    s.(readings := s.readings + [Reading(s.owned, s.foreign)])
  }

  class Host {
    var disk: Disk
    var nextInode: nat
    var owned: Owned
    var foreign: Identity
    ghost var captured: Identity
    ghost var readings: seq<Reading>
    ghost var history: seq<State>

    ghost function View(): State
      reads this
    {
      State(disk, nextInode, owned, foreign, captured, readings)
    }

    /** So far every state was safe, every step was allowed, and this is the last. */
    ghost predicate Ok()
      reads this
    {
      history != [] && SafeRun(history) && history[|history| - 1] == View()
    }

    /** No evidence, no owned table, some foreign rules. */
    constructor (foreign: Identity)
      ensures Ok() && View() == State(map[], 0, Absent, foreign, foreign, []) && history == [View()]
    {
      disk, nextInode, owned, this.foreign := map[], 0, Absent, foreign;
      captured, readings := foreign, [];
      history := [State(map[], 0, Absent, foreign, foreign, [])];
    }

    /** Add the present state to the history. */
    ghost method Record()
      requires history != [] && SafeRun(history) && Allowed(history[|history| - 1], View())
      modifies `history
      ensures Ok() && history == old(history) + [View()]
    {
      SafeRunExtends(history, View());
      history := history + [View()];
    }

    /** Before a step: others change the foreign rules, and the step may not come. */
    method Tick(calm: bool) returns (fate: Outcome)
      requires Ok()
      modifies `foreign, `history
      ensures Ok() && old(history) <= history
      ensures View() == WithForeign(old(View()), foreign)
      ensures calm ==> fate == Done && foreign == old(foreign)
    {
      hide Inv, StepOk, Allowed;
      fate := Done;
      if !calm {
        foreign := *;
        assert Inv(old(View()));
        ForeignIsIrrelevant(old(View()), old(View()), foreign);
        Record();
        fate := *;
      }
    }

    /** List the ruleset. */
    method Read(calm: bool) returns (o: Outcome, reading: Reading)
      requires Ok()
      modifies `foreign, `history, `readings
      ensures Ok() && old(history) <= history
      ensures if o.Done? then View() == Listed(WithForeign(old(View()), foreign)) && reading == Reading(owned, foreign)
              else View() == WithForeign(old(View()), foreign)
      ensures calm ==> o.Done? && foreign == old(foreign)
    {
      hide Inv, StepOk, Allowed;
      reading := Reading(owned, foreign);
      o := Tick(calm);
      if o == Done {
        reading := Reading(owned, foreign);
        ghost var before := View();
        readings := readings + [reading];
        ReadingIsAllowed(before);
        Record();
      }
    }

    method Unlink(calm: bool, p: Path) returns (o: Outcome)
      requires Ok() && Allowed(View(), Removed(View(), p))
      modifies `foreign, `history, `disk
      ensures Ok() && old(history) <= history
      ensures View() == if o.Done? then Removed(WithForeign(old(View()), foreign), p) else WithForeign(old(View()), foreign)
      ensures calm ==> o.Done? && foreign == old(foreign)
    {
      hide Inv, StepOk, Allowed;
      o := Tick(calm);
      if o == Done {
        ForeignIsIrrelevant(old(View()), Removed(old(View()), p), foreign);
        disk := disk - {p};
        Record();
      }
    }

    /** Create an empty stage file. */
    method Create(calm: bool, stage: Path) returns (o: Outcome)
      requires Ok() && Allowed(View(), Created(View(), stage))
      modifies `foreign, `history, `disk, `nextInode
      ensures Ok() && old(history) <= history
      ensures View() ==
        if o.Done? then Created(WithForeign(old(View()), foreign), stage) else WithForeign(old(View()), foreign)
      ensures calm ==> o.Done? && foreign == old(foreign)
    {
      hide Inv, StepOk, Allowed;
      o := Tick(calm);
      if o == Done {
        ForeignIsIrrelevant(old(View()), Created(old(View()), stage), foreign);
        disk, nextInode := disk[stage := File(nextInode, Unwritten)], nextInode + 1;
        Record();
      }
    }

    method Fill(calm: bool, stage: Path, content: Content) returns (o: Outcome)
      requires Ok() && stage in disk && Allowed(View(), Filled(View(), stage, content))
      modifies `foreign, `history, `disk
      ensures Ok() && old(history) <= history
      ensures View() ==
        if o.Done? then Filled(WithForeign(old(View()), foreign), stage, content) else WithForeign(old(View()), foreign)
      ensures calm ==> o.Done? && foreign == old(foreign)
    {
      hide Inv, StepOk, Allowed;
      o := Tick(calm);
      if o == Done {
        ForeignIsIrrelevant(old(View()), Filled(old(View()), stage, content), foreign);
        disk := disk[stage := disk[stage].(content := content)];
        Record();
      }
    }

    /** `os.link`: the final name becomes another name of the stage file. */
    method Link(calm: bool, stage: Path, p: Path) returns (o: Outcome)
      requires Ok() && stage in disk && Allowed(View(), Linked(View(), stage, p))
      modifies `foreign, `history, `disk
      ensures Ok() && old(history) <= history
      ensures View() ==
        if o.Done? then Linked(WithForeign(old(View()), foreign), stage, p) else WithForeign(old(View()), foreign)
      ensures calm ==> o.Done? && foreign == old(foreign)
    {
      hide Inv, StepOk, Allowed;
      o := Tick(calm);
      if o == Done {
        ForeignIsIrrelevant(old(View()), Linked(old(View()), stage, p), foreign);
        disk := disk[p := disk[stage]];
        Record();
      }
    }

    /** `write_ledger`, taken to be atomic. */
    method WriteLedger(calm: bool, l: Ledger, ghost preimage: Identity) returns (o: Outcome)
      requires Ok() && Allowed(View(), Recorded(View(), l, preimage))
      modifies `foreign, `history, `disk, `nextInode, `captured
      ensures Ok() && old(history) <= history
      ensures View() ==
        if o.Done? then Recorded(WithForeign(old(View()), foreign), l, preimage) else WithForeign(old(View()), foreign)
      ensures calm ==> o.Done? && foreign == old(foreign)
    {
      hide Inv, StepOk, Allowed;
      o := Tick(calm);
      if o == Done {
        ForeignIsIrrelevant(old(View()), Recorded(old(View()), l, preimage), foreign);
        disk, nextInode := disk[LedgerPath := File(nextInode, LedgerText(l))], nextInode + 1;
        captured := preimage;
        Record();
      }
    }

    /** Apply a batch atomically: the owned table becomes `table`. A step that does
        not return normally may have applied it or not. */
    method Apply(calm: bool, table: Owned) returns (o: Outcome)
      requires Ok() && Allowed(View(), View().(owned := table))
      modifies `foreign, `history, `owned
      ensures Ok() && old(history) <= history
      ensures View() == WithForeign(old(View()), foreign).(owned := owned)
      ensures owned == table || (!o.Done? && owned == old(owned))
      ensures calm ==> o.Done? && foreign == old(foreign)
    {
      hide Inv, StepOk, Allowed;
      o := Tick(calm);
      var applied := true;
      if o != Done {
        applied := *;
      }
      if applied {
        ForeignIsIrrelevant(old(View()), old(View()).(owned := table), foreign);
        owned := table;
        Record();
      }
    }
  }

  lemma {:induction false} ReadingIsAllowed(s: State)
    ensures Inv(s) ==> Allowed(s, Listed(s))
  {
  }
}
