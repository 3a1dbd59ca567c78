/**
 Signals made without the mutex, which may overlap: exactly when a signaller is left behind, and two
 runs in which one is, one of them a deadlock of the whole condition variable.
 */
module CondVarUnlocked {
  import opened Options
  import opened CondVar

  // ----- when a signaller can return -----

  /** No signal or broadcast is on its way to post; only acknowledgements are awaited. */
  predicate Posted(s: State) {
    forall u :: u in s.pc ==> !s.pc[u].SignalTest? && !s.pc[u].SignalPost? && !s.pc[u].BroadcastTest?
  }

  /** The mutex belongs to a thread that is where its holder can be. */
  predicate OwnerIsHolder(s: State) {
    && (forall u :: u in s.pc && (s.pc[u].Locked? || s.pc[u].WaitCounted?) ==> s.owner == Some(u))
    && (s.owner.Some? ==> s.owner.value in s.pc && Holding(s.pc[s.owner.value]))
  }

  /** The mutex is held by a thread that waits for an acknowledgement. */
  predicate OwnerAwaits(s: State) {
    OwnerPc(s.pc, s.owner).SignalAck?
  }

  /** Some thread waits for the event, or can come to. */
  predicate CanWait(s: State) {
    || (exists u :: u in s.pc && (s.pc[u].WaitBlocked? || s.pc[u].WaitCounted?))
    || (!OwnerAwaits(s) && exists u :: u in s.pc && (s.pc[u].Idle? || s.pc[u].Locked? || s.pc[u].WaitAcked?))
  }

  /** An acknowledgement is there, on its way, or will come from a thread the event wakes. */
  predicate HelpIsNear(s: State) {
    s.ack || InFlight(s.pc) != {} || (s.event && CanWait(s))
  }

  /** No signal and no broadcast is begun. */
  predicate Silent(schedule: seq<Turn>) {
    forall turn :: turn in schedule ==> turn.choice.Unlock? || turn.choice.Wait?
  }

  /** Signaller `t` waits for an acknowledgement, and none can come. */
  predicate Stranded(s: State, t: Tid) {
    && t in s.pc && s.pc[t].SignalAck? && Posted(s)
    && !HelpIsNear(s) && (s.event ==> OwnerIsHolder(s))
  }

  lemma StrandedTurn(s: State, t: Tid, turn: Turn)
    requires Stranded(s, t) && (turn.choice.Unlock? || turn.choice.Wait?)
    ensures Stranded(Take(s, turn), t)
  {
    var u := turn.thread;
    if u in s.pc && Do(s, u, turn.choice).Some? {
      assert u !in InFlight(s.pc);
      if s.event {
        EventIsLost(s, u, turn.choice);
      } else {
        NobodyOnTheWay(s, u, turn.choice);
      }
    }
  }

  /** With the event set, but nobody who can wait for it, nobody can move. */
  lemma EventIsLost(s: State, u: Tid, choice: Choice)
    requires Posted(s) && !HelpIsNear(s) && s.event && OwnerIsHolder(s)
    requires u in s.pc && (choice.Unlock? || choice.Wait?)
    ensures Do(s, u, choice).None?
  {
    assert u !in InFlight(s.pc);
  }

  lemma NobodyOnTheWay(s: State, u: Tid, choice: Choice)
    requires Posted(s) && !HelpIsNear(s) && !s.event
    requires u in s.pc && (choice.Unlock? || choice.Wait?) && Do(s, u, choice).Some?
    ensures var s' := Do(s, u, choice).value;
            Posted(s') && !HelpIsNear(s') && !s'.event && !s.pc[u].SignalAck?
  {
    var s' := Do(s, u, choice).value;
    assert u !in InFlight(s.pc);
    forall v | v in s'.pc
      ensures v !in InFlight(s'.pc)
    {
      assert v !in InFlight(s.pc);
    }
    assert InFlight(s'.pc) == {};
  }

  /** It waits for ever, unless somebody signals or broadcasts again: nobody else will release it. */
  lemma {:induction false} StrandedForGood(s: State, t: Tid, schedule: seq<Turn>)
    requires Stranded(s, t) && Silent(schedule)
    ensures Stranded(Run(s, schedule), t)
  {
    if schedule == [] {
    } else {
      StrandedForGood(s, t, schedule[..|schedule| - 1]);
      StrandedTurn(Run(s, schedule[..|schedule| - 1]), t, schedule[|schedule| - 1]);
    }
  }

  // ----- the way back -----

  lemma {:induction false} RunConcat(s: State, a: seq<Turn>, b: seq<Turn>)
    ensures Run(s, a + b) == Run(Run(s, a), b)
  {
    if b == [] {
      assert a + b == a;
    } else {
      var n := |b| - 1;
      RunConcat(s, a, b[..n]);
      assert (a + b)[..|a| + n] == a + b[..n];
    }
  }

  /** The schedule brings signaller `t` back from its signal, which may be one of a broadcast, without
      another one being begun. */
  predicate Returns(s: State, t: Tid, schedule: seq<Turn>) {
    var r := Run(s, schedule);
    Silent(schedule) && t in r.pc && !r.pc[t].SignalAck?
  }

  lemma Sooner(s: State, t: Tid, turn: Turn, later: seq<Turn>) returns (schedule: seq<Turn>)
    requires (turn.choice.Unlock? || turn.choice.Wait?) && Returns(Take(s, turn), t, later)
    ensures Returns(s, t, schedule)
  {
    schedule := [turn] + later;
    RunConcat(s, [turn], later);
    assert [turn][..0] == [];
    assert Run(s, [turn]) == Take(Run(s, []), turn);
  }

  lemma TakesAck(s: State, t: Tid) returns (schedule: seq<Turn>)
    requires t in s.pc && s.pc[t].SignalAck? && s.ack
    ensures Returns(s, t, schedule)
  {
    assert Returns(Take(s, Turn(t, Unlock)), t, []);
    schedule := Sooner(s, t, Turn(t, Unlock), []);
  }

  lemma FlyingAcks(s: State, t: Tid, u: Tid) returns (schedule: seq<Turn>)
    requires t in s.pc && s.pc[t].SignalAck?
    requires u in s.pc && (s.pc[u].WaitWoken? || s.pc[u].WaitUncounted?)
    ensures Returns(s, t, schedule)
    decreases if s.pc[u].WaitWoken? then 1 else 0
  {
    var next := Take(s, Turn(u, Unlock));
    if s.pc[u].WaitWoken? {
      schedule := FlyingAcks(next, t, u);
    } else {
      schedule := TakesAck(next, t);
    }
    schedule := Sooner(s, t, Turn(u, Unlock), schedule);
  }

  lemma WaiterWakes(s: State, t: Tid, u: Tid) returns (schedule: seq<Turn>)
    requires t in s.pc && s.pc[t].SignalAck? && s.event
    requires u in s.pc && (s.pc[u].WaitBlocked? || s.pc[u].WaitCounted?)
    ensures Returns(s, t, schedule)
    decreases if s.pc[u].WaitCounted? then 1 else 0
  {
    var next := Take(s, Turn(u, Unlock));
    if s.pc[u].WaitCounted? {
      schedule := WaiterWakes(next, t, u);
    } else {
      schedule := FlyingAcks(next, t, u);
    }
    schedule := Sooner(s, t, Turn(u, Unlock), schedule);
  }

  lemma LockedWaits(s: State, t: Tid, u: Tid) returns (schedule: seq<Turn>)
    requires t in s.pc && s.pc[t].SignalAck? && s.event
    requires u in s.pc && s.pc[u].Locked?
    ensures Returns(s, t, schedule)
  {
    schedule := WaiterWakes(Take(s, Turn(u, Wait)), t, u);
    schedule := Sooner(s, t, Turn(u, Wait), schedule);
  }

  /** With the mutex free or held by a thread outside the calls, any thread outside can come to wait. */
  lemma OutsiderWaits(s: State, t: Tid, u: Tid) returns (schedule: seq<Turn>)
    requires t in s.pc && s.pc[t].SignalAck? && s.event && Posted(s) && OwnerIsHolder(s) && !OwnerAwaits(s)
    requires u in s.pc && (s.pc[u].Idle? || s.pc[u].Locked? || s.pc[u].WaitAcked?)
    ensures Returns(s, t, schedule)
  {
    if s.owner.None? {
      schedule := LockedWaits(Take(s, Turn(u, Unlock)), t, u);
      schedule := Sooner(s, t, Turn(u, Unlock), schedule);
    } else if s.pc[s.owner.value].Locked? {
      schedule := LockedWaits(s, t, s.owner.value);
    } else {
      schedule := WaiterWakes(s, t, s.owner.value);
    }
  }

  lemma HelpComes(s: State, t: Tid) returns (schedule: seq<Turn>)
    requires t in s.pc && s.pc[t].SignalAck? && Posted(s) && OwnerIsHolder(s) && HelpIsNear(s)
    ensures Returns(s, t, schedule)
  {
    if s.ack {
      schedule := TakesAck(s, t);
    } else if InFlight(s.pc) != {} {
      var u :| u in InFlight(s.pc);
      schedule := FlyingAcks(s, t, u);
    } else if u :| u in s.pc && (s.pc[u].WaitBlocked? || s.pc[u].WaitCounted?) {
      schedule := WaiterWakes(s, t, u);
    } else {
      var u :| u in s.pc && (s.pc[u].Idle? || s.pc[u].Locked? || s.pc[u].WaitAcked?);
      schedule := OutsiderWaits(s, t, u);
    }
  }

  /** Once all signals under way have posted: a signaller can still return without another signal if
      and only if an acknowledgement is there or on its way, or the event is set and some thread
      waits for it or can come to. */
  lemma CanReturnIff(s: State, t: Tid)
    requires t in s.pc && s.pc[t].SignalAck? && Posted(s) && OwnerIsHolder(s)
    ensures (exists schedule :: Returns(s, t, schedule)) <==> HelpIsNear(s)
  {
    if HelpIsNear(s) {
      var schedule := HelpComes(s, t);
    } else {
      forall schedule | Silent(schedule)
        ensures !Returns(s, t, schedule)
      {
        StrandedForGood(s, t, schedule);
      }
    }
  }

  // ----- a deadlock -----

  /** Signaller `t` holds the mutex and waits for an acknowledgement; nobody is counted, and nobody
      can be without the mutex. */
  predicate Deadlocked(s: State, t: Tid) {
    && t in s.pc && s.pc[t] == SignalAck(false) && s.owner == Some(t) && s.waitCount == 0 && !s.ack
    && forall u :: u in s.pc && u != t ==> s.pc[u].Idle? || s.pc[u].WaitAcked? || s.pc[u] == SignalTest(false)
  }

  lemma DeadlockedTurn(s: State, t: Tid, turn: Turn)
    requires Deadlocked(s, t)
    ensures Deadlocked(Take(s, turn), t)
  {
  }

  /** Nothing ends it: whatever the threads do, with more signals or without, the mutex is never given
      back. */
  lemma {:induction false} DeadlockedForGood(s: State, t: Tid, schedule: seq<Turn>)
    requires Deadlocked(s, t)
    ensures Deadlocked(Run(s, schedule), t)
  {
    if schedule == [] {
    } else {
      DeadlockedForGood(s, t, schedule[..|schedule| - 1]);
      DeadlockedTurn(Run(s, schedule[..|schedule| - 1]), t, schedule[|schedule| - 1]);
    }
  }

  // ----- two runs -----

  /** Two turns, one after the other. */
  lemma TwoTurns(s: State, s1: State, s2: State, turn1: Turn, turn2: Turn)
    requires Take(s, turn1) == s1 && Take(s1, turn2) == s2
    ensures Run(s, [turn1, turn2]) == s2
  {
    assert [turn1, turn2][..1] == [turn1] && [turn1][..0] == [];
    assert Run(s, [turn1]) == Take(Run(s, []), turn1);
  }

  lemma ThreeTurns(s: State, s1: State, s2: State, s3: State, turn1: Turn, turn2: Turn, turn3: Turn)
    requires Take(s, turn1) == s1 && Take(s1, turn2) == s2 && Take(s2, turn3) == s3
    ensures Run(s, [turn1, turn2, turn3]) == s3
  {
    TwoTurns(s, s1, s2, turn1, turn2);
    assert [turn1, turn2, turn3][..2] == [turn1, turn2];
  }

  /** Threads 0, 1 and 2; `count` waiters, and `snapshot` as of the latest test. */
  function Three(p0: Pc, p1: Pc, p2: Pc, owner: Option<Tid>, event: bool, ack: bool, count: int, snapshot: set<Tid>): State {
    State(map[0 := p0, 1 := p1, 2 := p2], owner, event, ack, count, snapshot, {})
  }

  lemma Moves(p0: Pc, p1: Pc, p2: Pc, p: Pc)
    ensures map[0 := p0, 1 := p1, 2 := p2][0 := p] == map[0 := p, 1 := p1, 2 := p2]
    ensures map[0 := p0, 1 := p1, 2 := p2][1 := p] == map[0 := p0, 1 := p, 2 := p2]
    ensures map[0 := p0, 1 := p1, 2 := p2][2 := p] == map[0 := p0, 1 := p1, 2 := p]
  {
  }

  /** From the start: thread 2 waits. */
  lemma OneWaits() returns (schedule: seq<Turn>)
    ensures Run(Init({0, 1, 2}), schedule) == Three(Idle, Idle, WaitBlocked, None, false, false, 1, {})
  {
    var s := Three(Idle, Idle, Idle, None, false, false, 0, {});
    var s1 := Three(Idle, Idle, Locked, Some(2), false, false, 0, {});
    var s2 := Three(Idle, Idle, WaitCounted, Some(2), false, false, 1, {});
    var s3 := Three(Idle, Idle, WaitBlocked, None, false, false, 1, {});
    assert Init({0, 1, 2}).pc == s.pc;
    Moves(Idle, Idle, Idle, Locked);
    Moves(Idle, Idle, Locked, WaitCounted);
    Moves(Idle, Idle, WaitCounted, WaitBlocked);
    ThreeTurns(s, s1, s2, s3, Turn(2, Wait), Turn(2, Wait), Turn(2, Wait));
    schedule := [Turn(2, Wait), Turn(2, Wait), Turn(2, Wait)];
  }

  /** Thread 0 signals, without the mutex or holding it. */
  lemma FirstSignals(locking: bool) returns (schedule: seq<Turn>)
    ensures Run(Three(Idle, Idle, WaitBlocked, None, false, false, 1, {}), schedule) ==
      Three(SignalTest(false), Idle, WaitBlocked, if locking then Some(0) else None, false, false, 1, {})
  {
    var s := Three(Idle, Idle, WaitBlocked, None, false, false, 1, {});
    Moves(Idle, Idle, WaitBlocked, SignalTest(false));
    if locking {
      var s1 := Three(Locked, Idle, WaitBlocked, Some(0), false, false, 1, {});
      Moves(Idle, Idle, WaitBlocked, Locked);
      Moves(Locked, Idle, WaitBlocked, SignalTest(false));
      schedule := [Turn(0, Unlock), Turn(0, Signal)];
      TwoTurns(s, s1, Three(SignalTest(false), Idle, WaitBlocked, Some(0), false, false, 1, {}), Turn(0, Unlock), Turn(0, Signal));
    } else {
      schedule := [Turn(0, BareSignal)];
      assert schedule[..0] == [];
      assert Run(s, schedule) == Take(Run(s, []), Turn(0, BareSignal));
    }
  }

  /** It sees the waiter; thread 1 makes a bare signal, and sees the same one. */
  lemma BothTest(owner: Option<Tid>)
    requires owner == None || owner == Some(0)
    ensures Run(Three(SignalTest(false), Idle, WaitBlocked, owner, false, false, 1, {}), [Turn(0, Unlock), Turn(1, BareSignal), Turn(1, Unlock)]) ==
      Three(SignalPost(false), SignalPost(false), WaitBlocked, owner, false, false, 1, {2})
  {
    var s := Three(SignalTest(false), Idle, WaitBlocked, owner, false, false, 1, {});
    var s1 := Three(SignalPost(false), Idle, WaitBlocked, owner, false, false, 1, {2});
    var s2 := Three(SignalPost(false), SignalTest(false), WaitBlocked, owner, false, false, 1, {2});
    var s3 := Three(SignalPost(false), SignalPost(false), WaitBlocked, owner, false, false, 1, {2});
    assert Waiters(s.pc) == {2} && Waiters(s2.pc) == {2};
    Moves(SignalTest(false), Idle, WaitBlocked, SignalPost(false));
    Moves(SignalPost(false), Idle, WaitBlocked, SignalTest(false));
    Moves(SignalPost(false), SignalTest(false), WaitBlocked, SignalPost(false));
    ThreeTurns(s, s1, s2, s3, Turn(0, Unlock), Turn(1, BareSignal), Turn(1, Unlock));
  }

  /** Both post, but the event holds one posting only; the waiter consumes it. */
  lemma BothPost(owner: Option<Tid>)
    requires owner == None || owner == Some(0)
    ensures Run(Three(SignalPost(false), SignalPost(false), WaitBlocked, owner, false, false, 1, {2}), [Turn(0, Unlock), Turn(1, Unlock), Turn(2, Unlock)]) ==
      Three(SignalAck(false), SignalAck(false), WaitWoken, owner, false, false, 1, {2})
  {
    var s := Three(SignalPost(false), SignalPost(false), WaitBlocked, owner, false, false, 1, {2});
    var s1 := Three(SignalAck(false), SignalPost(false), WaitBlocked, owner, true, false, 1, {2});
    var s2 := Three(SignalAck(false), SignalAck(false), WaitBlocked, owner, true, false, 1, {2});
    var s3 := Three(SignalAck(false), SignalAck(false), WaitWoken, owner, false, false, 1, {2});
    Moves(SignalPost(false), SignalPost(false), WaitBlocked, SignalAck(false));
    Moves(SignalAck(false), SignalPost(false), WaitBlocked, SignalAck(false));
    Moves(SignalAck(false), SignalAck(false), WaitBlocked, WaitWoken);
    ThreeTurns(s, s1, s2, s3, Turn(0, Unlock), Turn(1, Unlock), Turn(2, Unlock));
  }

  /** It acknowledges once, and thread 1 takes the acknowledgement. */
  lemma OneReturns(owner: Option<Tid>)
    requires owner == None || owner == Some(0)
    ensures Run(Three(SignalAck(false), SignalAck(false), WaitWoken, owner, false, false, 1, {2}), [Turn(2, Unlock), Turn(2, Unlock), Turn(1, Unlock)]) ==
      Three(SignalAck(false), Idle, WaitAcked, owner, false, false, 0, {2})
  {
    var s := Three(SignalAck(false), SignalAck(false), WaitWoken, owner, false, false, 1, {2});
    var s1 := Three(SignalAck(false), SignalAck(false), WaitUncounted, owner, false, false, 0, {2});
    var s2 := Three(SignalAck(false), SignalAck(false), WaitAcked, owner, false, true, 0, {2});
    var s3 := Three(SignalAck(false), Idle, WaitAcked, owner, false, false, 0, {2});
    Moves(SignalAck(false), SignalAck(false), WaitWoken, WaitUncounted);
    Moves(SignalAck(false), SignalAck(false), WaitUncounted, WaitAcked);
    Moves(SignalAck(false), SignalAck(false), WaitAcked, Idle);
    ThreeTurns(s, s1, s2, s3, Turn(2, Unlock), Turn(2, Unlock), Turn(1, Unlock));
  }

  /** Two signals overlap while one thread waits, and one acknowledgement comes back. */
  lemma SignalsOverlap(locking: bool) returns (schedule: seq<Turn>)
    ensures Run(Init({0, 1, 2}), schedule) ==
      Three(SignalAck(false), Idle, WaitAcked, if locking then Some(0) else None, false, false, 0, {2})
  {
    var s := Init({0, 1, 2});
    var owner := if locking then Some(0) else None;
    var a := OneWaits();
    var b := FirstSignals(locking);
    var c := [Turn(0, Unlock), Turn(1, BareSignal), Turn(1, Unlock)];
    var d := [Turn(0, Unlock), Turn(1, Unlock), Turn(2, Unlock)];
    var e := [Turn(2, Unlock), Turn(2, Unlock), Turn(1, Unlock)];
    RunConcat(s, a, b);
    BothTest(owner);
    RunConcat(s, a + b, c);
    BothPost(owner);
    RunConcat(s, a + b + c, d);
    OneReturns(owner);
    RunConcat(s, a + b + c + d, e);
    schedule := a + b + c + d + e;
  }

  /** Two signals made without the mutex while one thread waits: the second posting is absorbed by
      the first, one acknowledgement comes back, and the other signaller is left waiting for it, in
      every continuation in which nobody signals again. */
  lemma UnlockedSignalsCanHang() returns (schedule: seq<Turn>)
    ensures var s := Init({0, 1, 2});
            && Run(s, schedule) == Three(SignalAck(false), Idle, WaitAcked, None, false, false, 0, {2})
            && forall more :: Silent(more) ==> Stranded(Run(s, schedule + more), 0)
  {
    var s := Init({0, 1, 2});
    schedule := SignalsOverlap(false);
    forall more | Silent(more)
      ensures Stranded(Run(s, schedule + more), 0)
    {
      RunConcat(s, schedule, more);
      StrandedForGood(Run(s, schedule), 0, more);
    }
  }

  /** If the signaller left behind holds the mutex, one bare signal is enough to end everything: in
      every continuation, whoever signals, it is never released and nobody else gets the mutex. */
  lemma UnlockedSignalCanDeadlock() returns (schedule: seq<Turn>)
    ensures var s := Init({0, 1, 2});
            && Run(s, schedule) == Three(SignalAck(false), Idle, WaitAcked, Some(0), false, false, 0, {2})
            && forall more :: Deadlocked(Run(s, schedule + more), 0)
  {
    var s := Init({0, 1, 2});
    schedule := SignalsOverlap(true);
    forall more: seq<Turn>
      ensures Deadlocked(Run(s, schedule + more), 0)
    {
      RunConcat(s, schedule, more);
      DeadlockedForGood(Run(s, schedule), 0, more);
    }
  }
}
