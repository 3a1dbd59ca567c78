/** One-time initialisation by double-checked locking, under every interleaving of its callers. */
module Once {
  import opened Options

  type Tid = nat

  datatype Pc =
    | FirstTest     // about to test `done` without the mutex
    | Locking       // saw it clear, about to take the mutex
    | SecondTest    // holding the mutex, about to test `done` again
    | Initialising  // inside the init routine
    | Setting       // init routine finished, about to set `done`
    | Unlocking     // about to give the mutex back
    | Returned

  /** `starts` counts entries into the init routine, `finished` says that one entry has returned. */
  datatype State = State(pc: map<Tid, Pc>, done: bool, owner: Option<Tid>, starts: nat, finished: bool)

  function Init(callers: set<Tid>): State {
    State(map t | t in callers :: FirstTest, false, None, 0, false)
  }

  /** One atomic step of a caller, or none if it waits for the mutex or has returned. */
  function Do(s: State, t: Tid): Option<State>
    requires t in s.pc
  {
    match s.pc[t]
    case FirstTest => Some(s.(pc := s.pc[t := if s.done then Returned else Locking]))
    case Locking => if s.owner.None? then Some(s.(pc := s.pc[t := SecondTest], owner := Some(t))) else None
    case SecondTest =>
      if s.done then Some(s.(pc := s.pc[t := Unlocking]))
      else Some(s.(pc := s.pc[t := Initialising], starts := s.starts + 1))
    case Initialising => Some(s.(pc := s.pc[t := Setting], finished := true))
    case Setting => Some(s.(pc := s.pc[t := Unlocking], done := true))
    case Unlocking => Some(s.(pc := s.pc[t := Returned], owner := None))
    case Returned => None
  }

  predicate Holding(p: Pc) {
    p.SecondTest? || p.Initialising? || p.Setting? || p.Unlocking?
  }

  predicate Inv(s: State) {
    && (forall t :: t in s.pc && Holding(s.pc[t]) ==> s.owner == Some(t))
    && (s.owner.Some? ==> s.owner.value in s.pc && Holding(s.pc[s.owner.value]))
    && s.starts <= 1
    && (s.done ==> s.finished && s.starts == 1)
    && (s.finished ==> s.starts == 1)
    && (s.starts == 1 && !s.done <==> s.owner.Some? && (s.pc[s.owner.value].Initialising? || s.pc[s.owner.value].Setting?))
    && (s.owner.Some? && s.pc[s.owner.value].Setting? ==> s.finished)
    && (forall t :: t in s.pc && (s.pc[t].Unlocking? || s.pc[t].Returned?) ==> s.done)
  }

  lemma StepKeepsInv(s: State, t: Tid)
    requires Inv(s) && t in s.pc && Do(s, t).Some?
    ensures Inv(Do(s, t).value)
  {
  }

  /** The callers take turns as scheduled; a turn of one that cannot move is skipped. */
  function Run(s: State, schedule: seq<Tid>): State {
    if schedule == [] then s
    else
      var r := Run(s, schedule[..|schedule| - 1]);
      var t := schedule[|schedule| - 1];
      if t in r.pc && Do(r, t).Some? then Do(r, t).value else r
  }

  lemma {:induction false} RunKeepsInv(s: State, schedule: seq<Tid>)
    requires Inv(s)
    ensures Inv(Run(s, schedule))
  {
    if schedule == [] {
    } else {
      RunKeepsInv(s, schedule[..|schedule| - 1]);
      var r := Run(s, schedule[..|schedule| - 1]);
      var t := schedule[|schedule| - 1];
      if t in r.pc && Do(r, t).Some? {
        StepKeepsInv(r, t);
      }
    }
  }

  /** The init routine is entered at most once, and no call returns before it has finished. */
  lemma RunsOnceBeforeAnyReturn(callers: set<Tid>, schedule: seq<Tid>)
    ensures var s := Run(Init(callers), schedule);
            && s.starts <= 1
            && (forall t :: t in s.pc && s.pc[t].Returned? ==> s.finished && s.starts == 1)
  {
    RunKeepsInv(Init(callers), schedule);
  }

  // ----- every call returns -----

  function StepsLeft(p: Pc): nat {
    match p
    case FirstTest => 6
    case Locking => 5
    case SecondTest => 4
    case Initialising => 3
    case Setting => 2
    case Unlocking => 1
    case Returned => 0
  }

  ghost function Remaining(pc: map<Tid, Pc>): nat {
    if pc == map[] then 0
    else
      var t :| t in pc;
      StepsLeft(pc[t]) + Remaining(pc - {t})
  }

  lemma {:induction false} RemainingAt(pc: map<Tid, Pc>, t: Tid)
    requires t in pc
    ensures Remaining(pc) == StepsLeft(pc[t]) + Remaining(pc - {t})
    decreases |pc|
  {
    var u :| u in pc && Remaining(pc) == StepsLeft(pc[u]) + Remaining(pc - {u});
    if u == t {
    } else {
      RemainingAt(pc - {u}, t);
      RemainingAt(pc - {t}, u);
      assert pc - {u} - {t} == pc - {t} - {u};
    }
  }

  /** Each step brings its caller nearer to its return, and none is undone. */
  lemma StepDecreases(s: State, t: Tid)
    requires t in s.pc && Do(s, t).Some?
    ensures Remaining(Do(s, t).value.pc) < Remaining(s.pc)
  {
    var q := Do(s, t).value.pc;
    RemainingAt(s.pc, t);
    RemainingAt(q, t);
    assert q - {t} == s.pc - {t};
  }

  /** As long as a call has not returned, some caller can move: the callers never block each other for good. */
  lemma NeverStuck(s: State)
    requires Inv(s)
    ensures (exists t :: t in s.pc && Do(s, t).Some?) <==> (exists t :: t in s.pc && !s.pc[t].Returned?)
  {
    if t :| t in s.pc && !s.pc[t].Returned? {
      var u := if s.owner.Some? then s.owner.value else t;
      assert Do(s, u).Some?;
    }
  }

  /** A schedule of real steps that leaves nobody able to move has returned every call, with the
      init routine run exactly once (if anybody called), within six steps a caller. */
  lemma AllReturn(callers: set<Tid>, schedule: seq<Tid>)
    requires RealSteps(Init(callers), schedule)
    requires var s := Run(Init(callers), schedule); forall t :: t in s.pc ==> Do(s, t).None?
    ensures var s := Run(Init(callers), schedule);
            && s.pc.Keys == callers
            && (forall t :: t in callers ==> s.pc[t].Returned?)
            && (callers != {} ==> s.starts == 1 && s.finished)
    ensures |schedule| <= 6 * |callers|
  {
    var s := Run(Init(callers), schedule);
    RunKeepsInv(Init(callers), schedule);
    NeverStuck(s);
    SameCallers(Init(callers), schedule);
    StepsAreBounded(Init(callers), schedule);
    InitialRemaining(Init(callers).pc);
    assert Init(callers).pc.Keys == callers;
    if callers != {} {
      var t :| t in callers;
      assert t in s.pc && s.pc[t].Returned?;
    }
  }

  predicate RealSteps(s: State, schedule: seq<Tid>) {
    schedule == [] ||
    var r := Run(s, schedule[..|schedule| - 1]);
    var t := schedule[|schedule| - 1];
    RealSteps(s, schedule[..|schedule| - 1]) && t in r.pc && Do(r, t).Some?
  }

  lemma {:induction false} SameCallers(s: State, schedule: seq<Tid>)
    ensures Run(s, schedule).pc.Keys == s.pc.Keys
  {
    if schedule == [] {
    } else {
      SameCallers(s, schedule[..|schedule| - 1]);
    }
  }

  lemma {:induction false} StepsAreBounded(s: State, schedule: seq<Tid>)
    requires RealSteps(s, schedule)
    ensures |schedule| + Remaining(Run(s, schedule).pc) <= Remaining(s.pc)
  {
    if schedule == [] {
    } else {
      StepsAreBounded(s, schedule[..|schedule| - 1]);
      StepDecreases(Run(s, schedule[..|schedule| - 1]), schedule[|schedule| - 1]);
    }
  }

  lemma {:induction false} InitialRemaining(pc: map<Tid, Pc>)
    requires forall t :: t in pc ==> pc[t].FirstTest?
    ensures Remaining(pc) == 6 * |pc.Keys|
    decreases |pc|
  {
    if pc == map[] {
    } else {
      var t :| t in pc;
      RemainingAt(pc, t);
      InitialRemaining(pc - {t});
      assert (pc - {t}).Keys == pc.Keys - {t};
    }
  }

  /** Once the routine has been run, a call returns with its first step, and leaves the mutex alone. */
  lemma FastPath(s: State, t: Tid)
    requires t in s.pc && s.pc[t].FirstTest? && s.done
    ensures var r := Do(s, t); r.Some? && r.value == s.(pc := s.pc[t := Returned])
  {
  }
}
