/**
 What signals need is not the mutex but each other's absence: as long as no signal or broadcast begins
 while another is under way, the count is exact, each signal wakes one waiter, and none is stranded.
 */
module CondVarOneAtATime {
  import opened Options
  import opened CondVar
  import opened CondVarUnlocked

  // ----- the discipline -----

  predicate Begins(s: State, turn: Turn) {
    && turn.thread in s.pc
    && ((s.pc[turn.thread].Idle? && turn.choice.BareSignal?)
        || (s.pc[turn.thread].Locked? && (turn.choice.Signal? || turn.choice.Broadcast?)))
  }

  predicate NobodySignals(s: State) {
    forall u :: u in s.pc ==> !Signalling(s.pc[u])
  }

  /** No signal or broadcast begins while another is under way. */
  predicate OneAtATime(s: State, schedule: seq<Turn>) {
    schedule == [] ||
    var n := |schedule| - 1;
    var r := Run(s, schedule[..n]);
    OneAtATime(s, schedule[..n]) && (Begins(r, schedule[n]) ==> NobodySignals(r))
  }

  // ----- the invariant -----

  predicate Alone(pc: map<Tid, Pc>) {
    forall t, u :: t in pc && u in pc && Signalling(pc[t]) && Signalling(pc[u]) ==> t == u
  }

  predicate NeedsMutex(p: Pc) {
    p.Locked? || p.WaitCounted? || Broadcasting(p)
  }

  predicate OwnerFits(pc: map<Tid, Pc>, owner: Option<Tid>) {
    && (forall t :: t in pc && NeedsMutex(pc[t]) ==> owner == Some(t))
    && (owner.Some? ==> owner.value in pc && Holding(pc[owner.value]))
  }

  predicate AnyAck(pc: map<Tid, Pc>) {
    exists t :: t in pc && pc[t].SignalAck?
  }

  predicate AnyPost(pc: map<Tid, Pc>) {
    exists t :: t in pc && pc[t].SignalPost?
  }

  /** What the semaphores and the threads on the wait path look like: while a signal awaits its
      acknowledgement (`awaiting`), the event is posted, a waiter is on its way, or it has acknowledged;
      at other times nothing is posted; and a signal about to post (`posting`) has a waiter. */
  predicate Exchange(awaiting: bool, posting: bool, waiting: set<Tid>, flying: set<Tid>, event: bool, ack: bool) {
    && (if awaiting then
          || (event && !ack && flying == {} && waiting != {})
          || (!event && !ack && |flying| == 1)
          || (!event && ack && flying == {})
        else !event && !ack && flying == {})
    && (posting ==> waiting != {})
  }

  predicate Single(s: State) {
    && OwnerFits(s.pc, s.owner) && Alone(s.pc)
    && s.waitCount == |Counted(s.pc)|
    && Exchange(AnyAck(s.pc), AnyPost(s.pc), Waiters(s.pc), InFlight(s.pc), s.event, s.ack)
  }

  // ----- what a move changes -----

  predicate OnWaitPath(p: Pc) {
    p.WaitCounted? || p.WaitBlocked? || p.WaitWoken? || p.WaitUncounted?
  }

  /** A move off the wait path. */
  lemma SetsStay(pc: map<Tid, Pc>, t: Tid, p: Pc)
    requires t in pc && !OnWaitPath(pc[t]) && !OnWaitPath(p)
    ensures var q := pc[t := p]; Waiters(q) == Waiters(pc) && InFlight(q) == InFlight(pc) && Counted(q) == Counted(pc)
  {
    SetsMove(pc, t, p);
    assert t !in Waiters(pc) && t !in InFlight(pc) && t !in Counted(pc);
  }

  lemma OwnerMoves(pc: map<Tid, Pc>, owner: Option<Tid>, t: Tid, p: Pc, owner': Option<Tid>)
    requires t in pc && OwnerFits(pc, owner)
    requires || (owner' == owner && (NeedsMutex(p) ==> owner == Some(t)) && (owner == Some(t) ==> Holding(p)))
             || (owner.None? && owner' == Some(t) && Holding(p))
             || (owner == Some(t) && owner'.None? && !NeedsMutex(p))
    ensures OwnerFits(pc[t := p], owner')
  {
  }

  lemma AloneMoves(pc: map<Tid, Pc>, t: Tid, p: Pc)
    requires t in pc && Alone(pc)
    requires Signalling(p) ==> Signalling(pc[t]) || forall u :: u in pc ==> !Signalling(pc[u])
    ensures Alone(pc[t := p])
  {
  }

  predicate PostsOrAwaits(p: Pc) {
    p.SignalPost? || p.SignalAck?
  }

  /** Neither before nor after the move is `t` about to post or waiting for an acknowledgement. */
  lemma SignalsStay(pc: map<Tid, Pc>, t: Tid, p: Pc)
    requires t in pc && !PostsOrAwaits(pc[t]) && !PostsOrAwaits(p)
    ensures AnyAck(pc[t := p]) <==> AnyAck(pc)
    ensures AnyPost(pc[t := p]) <==> AnyPost(pc)
  {
    if u :| u in pc && pc[u].SignalAck? {
      assert pc[t := p][u].SignalAck?;
    }
    if u :| u in pc && pc[u].SignalPost? {
      assert pc[t := p][u].SignalPost?;
    }
  }

  /** The one signaller moves. */
  lemma SoleMoves(pc: map<Tid, Pc>, t: Tid, p: Pc)
    requires t in pc && Alone(pc) && Signalling(pc[t])
    ensures AnyAck(pc[t := p]) <==> p.SignalAck?
    ensures AnyPost(pc[t := p]) <==> p.SignalPost?
    ensures AnyAck(pc) <==> pc[t].SignalAck?
    ensures AnyPost(pc) <==> pc[t].SignalPost?
  {
    assert pc[t := p][t] == p;
  }

  /** A signal that awaits its acknowledgement is the only one. */
  lemma NobodyPosts(pc: map<Tid, Pc>)
    requires Alone(pc) && AnyAck(pc)
    ensures !AnyPost(pc)
    ensures forall u :: u in pc ==> !pc[u].SignalPost? && !pc[u].SignalTest? && !pc[u].BroadcastTest?
  {
    var t :| t in pc && pc[t].SignalAck?;
  }

  // ----- every step keeps it -----

  predicate Aside(p: Pc) {
    p.Idle? || p.Locked? || p.WaitAcked? || p.BroadcastTest? || p.SignalTest?
  }

  /** Steps between places that neither wait, post nor await: only the mutex may change hands. */
  lemma AsideStep(s: State, t: Tid, p: Pc, s': State)
    requires Single(s) && t in s.pc && Aside(s.pc[t]) && Aside(p)
    requires s'.pc == s.pc[t := p] && s'.event == s.event && s'.ack == s.ack && s'.waitCount == s.waitCount
    requires OwnerFits(s'.pc, s'.owner) && Alone(s'.pc)
    ensures Single(s')
  {
    SetsStay(s.pc, t, p);
    SignalsStay(s.pc, t, p);
  }

  lemma CountStep(s: State, t: Tid)
    requires Single(s) && t in s.pc && s.pc[t].Locked?
    ensures Single(s.(pc := s.pc[t := WaitCounted], waitCount := s.waitCount + 1))
  {
    CountMoves(s.pc, t);
    SignalsStay(s.pc, t, WaitCounted);
    OwnerMoves(s.pc, s.owner, t, WaitCounted, s.owner);
    AloneMoves(s.pc, t, WaitCounted);
  }

  lemma BlockStep(s: State, t: Tid)
    requires Single(s) && t in s.pc && s.pc[t].WaitCounted?
    ensures Single(s.(pc := s.pc[t := WaitBlocked], owner := None))
  {
    BlockMoves(s.pc, t);
    SignalsStay(s.pc, t, WaitBlocked);
    OwnerMoves(s.pc, s.owner, t, WaitBlocked, None);
    AloneMoves(s.pc, t, WaitBlocked);
  }

  /** A thread on its way is the only one, and a signal waits for it. */
  lemma OneOnTheWay(s: State, t: Tid)
    requires Single(s) && t in InFlight(s.pc)
    ensures AnyAck(s.pc) && !s.event && !s.ack && InFlight(s.pc) == {t}
  {
    assert |InFlight(s.pc) - {t}| == 0;
  }

  /** The event is posted for a signal that awaits its acknowledgement. */
  lemma WakesOne(s: State, t: Tid)
    requires Single(s) && s.event
    ensures AnyAck(s.pc) && !AnyPost(s.pc) && !s.ack && InFlight(s.pc) + {t} == {t}
  {
    NobodyPosts(s.pc);
  }

  lemma WakeStep(s: State, t: Tid)
    requires Single(s) && t in s.pc && s.pc[t].WaitBlocked? && s.event
    ensures Single(s.(pc := s.pc[t := WaitWoken], event := false))
  {
    SetsMove(s.pc, t, WaitWoken);
    SignalsStay(s.pc, t, WaitWoken);
    OwnerMoves(s.pc, s.owner, t, WaitWoken, s.owner);
    AloneMoves(s.pc, t, WaitWoken);
    assert t in Counted(s.pc);
    assert Counted(s.pc) + {t} == Counted(s.pc);
    WakesOne(s, t);
  }

  lemma UncountStep(s: State, t: Tid)
    requires Single(s) && t in s.pc && s.pc[t].WaitWoken?
    ensures Single(s.(pc := s.pc[t := WaitUncounted], waitCount := s.waitCount - 1))
  {
    SetsMove(s.pc, t, WaitUncounted);
    SignalsStay(s.pc, t, WaitUncounted);
    OwnerMoves(s.pc, s.owner, t, WaitUncounted, s.owner);
    AloneMoves(s.pc, t, WaitUncounted);
    assert t in Counted(s.pc) && t in InFlight(s.pc);
    OneOnTheWay(s, t);
  }

  lemma AcknowledgeStep(s: State, t: Tid)
    requires Single(s) && t in s.pc && s.pc[t].WaitUncounted?
    ensures Single(s.(pc := s.pc[t := WaitAcked], ack := true))
  {
    SetsMove(s.pc, t, WaitAcked);
    SignalsStay(s.pc, t, WaitAcked);
    OwnerMoves(s.pc, s.owner, t, WaitAcked, s.owner);
    AloneMoves(s.pc, t, WaitAcked);
    assert t in InFlight(s.pc) && t !in Counted(s.pc);
    assert Counted(s.pc) - {t} == Counted(s.pc);
    OneOnTheWay(s, t);
    NobodyPosts(s.pc);
  }

  /** A signal's own steps move no waiter. */
  lemma SignallerMoves(s: State, t: Tid, p: Pc)
    requires Single(s) && t in s.pc && Signalling(s.pc[t])
    requires Signalling(p) || p.Locked? || p.Idle?
    requires (Broadcasting(p) <==> Broadcasting(s.pc[t])) || p.Locked?
    requires p.Locked? ==> s.owner == Some(t)
    requires p.Idle? ==> s.owner != Some(t)
    ensures var q := s.pc[t := p];
            && OwnerFits(q, s.owner) && Alone(q)
            && Waiters(q) == Waiters(s.pc) && InFlight(q) == InFlight(s.pc) && Counted(q) == Counted(s.pc)
            && (AnyAck(q) <==> p.SignalAck?) && (AnyPost(q) <==> p.SignalPost?)
  {
    SetsStay(s.pc, t, p);
    OwnerMoves(s.pc, s.owner, t, p, s.owner);
    AloneMoves(s.pc, t, p);
    SoleMoves(s.pc, t, p);
  }

  lemma SignalStep(s: State, t: Tid, choice: Choice)
    requires Single(s) && t in s.pc && Signalling(s.pc[t]) && Do(s, t, choice).Some?
    ensures Single(Do(s, t, choice).value)
  {
    var s' := Do(s, t, choice).value;
    SoleMoves(s.pc, t, s'.pc[t]);
    if s.pc[t].SignalAck? {
    } else {
      CountedWhenQuiet(s.pc);
    }
    SignallerMoves(s, t, s'.pc[t]);
  }

  /** If the one signaller is not waiting for an acknowledgement, nothing is posted. */
  lemma SoleSignaller(s: State, t: Tid)
    requires Single(s) && t in s.pc && Signalling(s.pc[t]) && !s.pc[t].SignalAck?
    ensures !s.event && !s.ack && InFlight(s.pc) == {}
  {
    SoleMoves(s.pc, t, s.pc[t]);
  }

  lemma StepKeepsSingle(s: State, turn: Turn)
    requires Single(s) && (Begins(s, turn) ==> NobodySignals(s))
    ensures Single(Take(s, turn))
  {
    var t := turn.thread;
    if t in s.pc && Do(s, t, turn.choice).Some? {
      var s' := Take(s, turn);
      match s.pc[t]
      case Idle => OutsideStep(s, turn);
      case Locked => OutsideStep(s, turn);
      case WaitAcked => OutsideStep(s, turn);
      case WaitCounted => BlockStep(s, t);
      case WaitBlocked => WakeStep(s, t);
      case WaitWoken => UncountStep(s, t);
      case WaitUncounted => AcknowledgeStep(s, t);
      case _ => SignalStep(s, t, turn.choice);
    }
  }

  lemma OutsideStep(s: State, turn: Turn)
    requires Single(s) && (Begins(s, turn) ==> NobodySignals(s))
    requires turn.thread in s.pc && Do(s, turn.thread, turn.choice).Some?
    requires s.pc[turn.thread].Idle? || s.pc[turn.thread].Locked? || s.pc[turn.thread].WaitAcked?
    ensures Single(Take(s, turn))
  {
    var t := turn.thread;
    var s' := Take(s, turn);
    var p := s'.pc[t];
    if p.WaitCounted? {
      CountStep(s, t);
    } else {
      OwnerMoves(s.pc, s.owner, t, p, s'.owner);
      AloneMoves(s.pc, t, p);
      AsideStep(s, t, p, s');
    }
  }

  lemma {:induction false} RunKeepsSingle(s: State, schedule: seq<Turn>)
    requires Single(s) && OneAtATime(s, schedule)
    ensures Single(Run(s, schedule))
  {
    if schedule == [] {
    } else {
      RunKeepsSingle(s, schedule[..|schedule| - 1]);
      StepKeepsSingle(Run(s, schedule[..|schedule| - 1]), schedule[|schedule| - 1]);
    }
  }

  lemma InitSingle(threads: set<Tid>)
    ensures Single(Init(threads))
  {
    var pc := Init(threads).pc;
    assert Counted(pc) == {} && InFlight(pc) == {};
  }

  // ----- what it is worth -----

  /** The count is exact, mutex or not. */
  lemma CountIsExactUnlocked(threads: set<Tid>, schedule: seq<Turn>)
    requires OneAtATime(Init(threads), schedule)
    ensures var s := Run(Init(threads), schedule); s.waitCount == |Counted(s.pc)|
  {
    InitSingle(threads);
    RunKeepsSingle(Init(threads), schedule);
  }

  lemma SingleIsPosted(s: State, t: Tid)
    requires Single(s) && t in s.pc && s.pc[t].SignalAck?
    ensures Posted(s) && OwnerIsHolder(s) && HelpIsNear(s)
  {
    assert AnyAck(s.pc);
    NobodyPosts(s.pc);
    if s.event {
      var u :| u in Waiters(s.pc);
      assert s.pc[u].WaitBlocked? || s.pc[u].WaitCounted?;
    }
  }

  /** No signaller is ever stranded: wherever a signal, made by itself or by a broadcast, awaits its
      acknowledgement, it can return without anybody else signalling. */
  lemma NeverStranded(threads: set<Tid>, schedule: seq<Turn>, t: Tid)
    requires OneAtATime(Init(threads), schedule)
    requires var s := Run(Init(threads), schedule); t in s.pc && s.pc[t].SignalAck?
    ensures exists more :: Returns(Run(Init(threads), schedule), t, more)
  {
    var s := Run(Init(threads), schedule);
    InitSingle(threads);
    RunKeepsSingle(Init(threads), schedule);
    SingleIsPosted(s, t);
    CanReturnIff(s, t);
  }

  // ----- one signal wakes one waiter -----

  /** The turn wakes a waiter. */
  predicate Wakes(s: State, turn: Turn) {
    turn.thread in s.pc && s.pc[turn.thread].WaitBlocked? && s.event
  }

  function Woken(s: State, schedule: seq<Turn>): nat {
    if schedule == [] then 0
    else
      var n := |schedule| - 1;
      Woken(s, schedule[..n]) + if Wakes(Run(s, schedule[..n]), schedule[n]) then 1 else 0
  }

  /** `t` is about to post or awaits the acknowledgement throughout. */
  predicate StaysInSignal(s: State, t: Tid, schedule: seq<Turn>) {
    var r := Run(s, schedule);
    && t in r.pc && (r.pc[t] == SignalPost(false) || r.pc[t] == SignalAck(false))
    && (schedule == [] || StaysInSignal(s, t, schedule[..|schedule| - 1]))
  }

  /** So far the signal has woken nobody, or has one waiter to show for the event. */
  lemma {:induction false} WokenSoFar(s: State, t: Tid, schedule: seq<Turn>)
    requires Single(s) && t in s.pc && s.pc[t] == SignalPost(false)
    requires OneAtATime(s, schedule) && StaysInSignal(s, t, schedule)
    ensures var r := Run(s, schedule);
            Woken(s, schedule) == if r.pc[t].SignalAck? && !r.event then 1 else 0
  {
    if schedule == [] {
    } else {
      var n := |schedule| - 1;
      WokenSoFar(s, t, schedule[..n]);
      RunKeepsSingle(s, schedule[..n]);
      WokenTurn(Run(s, schedule[..n]), t, schedule[n]);
    }
  }

  lemma WokenTurn(r: State, t: Tid, turn: Turn)
    requires Single(r) && t in r.pc && (r.pc[t] == SignalPost(false) || r.pc[t] == SignalAck(false))
    requires var r' := Take(r, turn); t in r'.pc && (r'.pc[t] == SignalPost(false) || r'.pc[t] == SignalAck(false))
    ensures var r' := Take(r, turn);
            (if r'.pc[t].SignalAck? && !r'.event then 1 else 0) ==
            (if r.pc[t].SignalAck? && !r.event then 1 else 0) + (if Wakes(r, turn) then 1 else 0)
  {
    if r.pc[t].SignalPost? {
      SoleSignaller(r, t);
    }
    if turn.thread in r.pc && turn.thread != t {
      assert !Signalling(r.pc[turn.thread]);
    }
  }

  /** From the test that sees a waiter to the return exactly one waiter is woken, whoever else comes to
      wait meanwhile and whether or not the signaller holds the mutex; then both semaphores are clear. */
  lemma SignalWakesOne(s: State, t: Tid, schedule: seq<Turn>)
    requires Single(s) && t in s.pc && s.pc[t] == SignalTest(false) && s.waitCount != 0
    requires var s1 := Take(s, Turn(t, Unlock)); OneAtATime(s1, schedule) && StaysInSignal(s1, t, schedule)
    requires var r := Run(Take(s, Turn(t, Unlock)), schedule); Do(r, t, Unlock).Some? && r.pc[t].SignalAck?
    ensures var s1 := Take(s, Turn(t, Unlock));
            var r' := Take(Run(s1, schedule), Turn(t, Unlock));
            && Woken(s1, schedule) == 1
            && !r'.event && !r'.ack && !Signalling(r'.pc[t]) && InFlight(r'.pc) == {}
  {
    var s1 := Take(s, Turn(t, Unlock));
    assert !Begins(s, Turn(t, Unlock));
    StepKeepsSingle(s, Turn(t, Unlock));
    RunKeepsSingle(s1, schedule);
    WokenSoFar(s1, t, schedule);
    SignalEnds(Run(s1, schedule), t);
  }

  lemma SignalEnds(r: State, t: Tid)
    requires Single(r) && t in r.pc && r.pc[t] == SignalAck(false) && r.ack
    ensures var r' := Take(r, Turn(t, Unlock));
            !r.event && !r'.event && !r'.ack && !Signalling(r'.pc[t]) && InFlight(r'.pc) == {}
  {
    assert AnyAck(r.pc);
    SignallerMoves(r, t, AfterSignal(r, t, false));
  }

  // ----- the mutex is one way to it -----

  /** Signals and broadcasts made holding the mutex never overlap. */
  lemma {:induction false} LockingIsOneAtATime(threads: set<Tid>, schedule: seq<Turn>)
    requires Locking(schedule)
    ensures OneAtATime(Init(threads), schedule)
  {
    if schedule == [] {
    } else {
      var n := |schedule| - 1;
      LockingIsOneAtATime(threads, schedule[..n]);
      InitInv(threads);
      RunKeepsInv(Init(threads), schedule[..n]);
      assert schedule[n] in schedule;
    }
  }
}
