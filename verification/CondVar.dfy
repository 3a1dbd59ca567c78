/**
 Condition variables built from two auto-reset event semaphores and a waiter count.
 Threads take atomic steps in any order; waiting is untimed.
 */
module CondVar {
  import opened Options

  type Tid = nat

  /** Where a thread is. `broadcast` tells a signal made by the broadcast loop from a plain one. */
  datatype Pc =
    | Idle                       // outside, without the mutex
    | Locked                     // outside, holding the mutex
    | WaitCounted                // wait: counted, about to unlock
    | WaitBlocked                // wait: waiting for the event
    | WaitWoken                  // wait: event consumed, about to uncount
    | WaitUncounted              // wait: about to post the acknowledgement
    | WaitAcked                  // wait: about to lock the mutex again
    | SignalTest(broadcast: bool)   // signal: about to test the count
    | SignalPost(broadcast: bool)   // signal: saw a waiter, about to post the event
    | SignalAck(broadcast: bool)    // signal: waiting for the acknowledgement
    | BroadcastTest              // broadcast: about to test the count

  /** `snapshot` and `start` record who was waiting when the latest signal tested the count and
      when the latest broadcast began; the code has no such variables. */
  datatype State = State(
    pc: map<Tid, Pc>,
    owner: Option<Tid>,
    event: bool,
    ack: bool,
    waitCount: int,
    snapshot: set<Tid>,
    start: set<Tid>)

  /** What a thread outside the calls does next. Without the mutex it takes it, unless it makes a
      bare signal: one without the mutex. */
  datatype Choice = Unlock | Wait | Signal | Broadcast | BareSignal

  function Waiters(pc: map<Tid, Pc>): set<Tid> {
    set t | t in pc && (pc[t].WaitCounted? || pc[t].WaitBlocked?)
  }

  function InFlight(pc: map<Tid, Pc>): set<Tid> {
    set t | t in pc && (pc[t].WaitWoken? || pc[t].WaitUncounted?)
  }

  /** The threads between the increment and the decrement of the count. */
  function Counted(pc: map<Tid, Pc>): set<Tid> {
    set t | t in pc && (pc[t].WaitCounted? || pc[t].WaitBlocked? || pc[t].WaitWoken?)
  }

  function Init(threads: set<Tid>): State {
    State(map t | t in threads :: Idle, None, false, false, 0, {}, {})
  }

  /** Where a signal returns to. */
  function AfterSignal(s: State, t: Tid, broadcast: bool): Pc {
    if broadcast then BroadcastTest
    else if s.owner == Some(t) then Locked
    else Idle
  }

  /** One atomic step of thread `t`, or none if the thread is blocked. */
  function Do(s: State, t: Tid, choice: Choice): Option<State>
    requires t in s.pc
  {
    match s.pc[t]
    case Idle =>
      if choice.BareSignal? then Some(s.(pc := s.pc[t := SignalTest(false)]))
      else if s.owner.None? then Some(s.(pc := s.pc[t := Locked], owner := Some(t)))
      else None
    case Locked =>
      (match choice
       case BareSignal => None
       case Unlock => Some(s.(pc := s.pc[t := Idle], owner := None))
       case Wait => Some(s.(pc := s.pc[t := WaitCounted], waitCount := s.waitCount + 1))
       case Signal => Some(s.(pc := s.pc[t := SignalTest(false)]))
       case Broadcast => Some(s.(pc := s.pc[t := BroadcastTest], start := Waiters(s.pc))))
    case WaitCounted => Some(s.(pc := s.pc[t := WaitBlocked], owner := None))
    case WaitBlocked =>
      if s.event then Some(s.(pc := s.pc[t := WaitWoken], event := false)) else None
    case WaitWoken => Some(s.(pc := s.pc[t := WaitUncounted], waitCount := s.waitCount - 1))
    case WaitUncounted => Some(s.(pc := s.pc[t := WaitAcked], ack := true))
    case WaitAcked =>
      if s.owner.None? then Some(s.(pc := s.pc[t := Locked], owner := Some(t))) else None
    case SignalTest(broadcast) =>
      var s' := s.(snapshot := Waiters(s.pc));
      if s.waitCount == 0 then Some(s'.(pc := s.pc[t := AfterSignal(s, t, broadcast)]))
      else Some(s'.(pc := s.pc[t := SignalPost(broadcast)]))
    case SignalPost(broadcast) => Some(s.(pc := s.pc[t := SignalAck(broadcast)], event := true))
    case SignalAck(broadcast) =>
      if s.ack then Some(s.(pc := s.pc[t := AfterSignal(s, t, broadcast)], ack := false)) else None
    case BroadcastTest =>
      if s.waitCount == 0 then Some(s.(pc := s.pc[t := Locked]))
      else Some(s.(pc := s.pc[t := SignalTest(true)]))
  }

  // ----- the invariant -----

  predicate Holding(p: Pc) {
    p.Locked? || p.WaitCounted? || p.SignalTest? || p.SignalPost? || p.SignalAck? || p.BroadcastTest?
  }

  predicate MutexExclusive(pc: map<Tid, Pc>, owner: Option<Tid>) {
    && (forall t :: t in pc && Holding(pc[t]) ==> owner == Some(t))
    && (owner.Some? ==> owner.value in pc && Holding(pc[owner.value]))
  }

  /** What the thread that holds the mutex has in progress. */
  function OwnerPc(pc: map<Tid, Pc>, owner: Option<Tid>): Pc {
    if owner.Some? && owner.value in pc then pc[owner.value] else Idle
  }

  predicate Broadcasting(p: Pc) {
    p.BroadcastTest? || ((p.SignalTest? || p.SignalPost? || p.SignalAck?) && p.broadcast)
  }

  /** While a signal waits for its acknowledgement: event posted, waiter on its way, or acknowledged. */
  predicate Handshake(waiting: set<Tid>, flying: set<Tid>, event: bool, ack: bool, snapshot: set<Tid>) {
    || (event && !ack && flying == {} && waiting == snapshot && waiting != {})
    || (!event && !ack && |flying| == 1 && flying !! waiting && snapshot == waiting + flying)
    || (!event && ack && flying == {} && waiting < snapshot && |waiting| + 1 == |snapshot|)
  }

  /** The protocol's state as far as the signalling side can tell it. */
  predicate Consistent(p: Pc, waiting: set<Tid>, flying: set<Tid>, event: bool, ack: bool, snapshot: set<Tid>, start: set<Tid>) {
    && (if p.SignalAck? then Handshake(waiting, flying, event, ack, snapshot)
        else !event && !ack && flying == {})
    && (p.SignalPost? ==> snapshot == waiting && waiting != {})
    && (p == SignalTest(true) ==> waiting != {})
    && (Broadcasting(p) ==> waiting + flying <= start)
  }

  predicate Inv(s: State) {
    && MutexExclusive(s.pc, s.owner)
    && s.waitCount == |Counted(s.pc)|
    && Consistent(OwnerPc(s.pc, s.owner), Waiters(s.pc), InFlight(s.pc), s.event, s.ack, s.snapshot, s.start)
  }

  /** What a move of thread `t` to `p` does to the sets. */
  lemma SetsMove(pc: map<Tid, Pc>, t: Tid, p: Pc)
    requires t in pc
    ensures var q := pc[t := p];
            && Waiters(q) == (if p.WaitCounted? || p.WaitBlocked? then Waiters(pc) + {t} else Waiters(pc) - {t})
            && InFlight(q) == (if p.WaitWoken? || p.WaitUncounted? then InFlight(pc) + {t} else InFlight(pc) - {t})
            && Counted(q) == (if p.WaitCounted? || p.WaitBlocked? || p.WaitWoken? then Counted(pc) + {t} else Counted(pc) - {t})
  {
  }

  lemma CountMoves(pc: map<Tid, Pc>, t: Tid)
    requires t in pc && pc[t].Locked?
    ensures var q := pc[t := WaitCounted];
            && Waiters(q) == Waiters(pc) + {t} && InFlight(q) == InFlight(pc) && |Counted(q)| == |Counted(pc)| + 1
  {
    SetsMove(pc, t, WaitCounted);
    assert t !in InFlight(pc) && t !in Counted(pc);
  }

  lemma BlockMoves(pc: map<Tid, Pc>, t: Tid)
    requires t in pc && pc[t].WaitCounted?
    ensures var q := pc[t := WaitBlocked]; Waiters(q) == Waiters(pc) && InFlight(q) == InFlight(pc) && Counted(q) == Counted(pc)
  {
    SetsMove(pc, t, WaitBlocked);
    assert t in Counted(pc) && t in Waiters(pc) && t !in InFlight(pc);
  }

  /** Thread `t` moves to `p`, possibly taking or giving up the mutex. */
  lemma OwnerMoved(pc: map<Tid, Pc>, owner: Option<Tid>, t: Tid, p: Pc, owner': Option<Tid>)
    requires t in pc && MutexExclusive(pc, owner)
    requires || (owner' == owner && (Holding(p) <==> Holding(pc[t])))
             || (owner.None? && owner' == Some(t) && Holding(p))
             || (owner == Some(t) && owner'.None? && !Holding(p))
    ensures var q := pc[t := p];
            && MutexExclusive(q, owner')
            && OwnerPc(q, owner') == (if owner' == Some(t) then p else OwnerPc(pc, owner'))
  {
  }

  lemma Moved(pc: map<Tid, Pc>, owner: Option<Tid>, t: Tid, p: Pc, owner': Option<Tid>)
    requires t in pc && MutexExclusive(pc, owner)
    requires || (owner' == owner && (Holding(p) <==> Holding(pc[t])))
             || (owner.None? && owner' == Some(t) && Holding(p))
             || (owner == Some(t) && owner'.None? && !Holding(p))
    ensures var q := pc[t := p];
            && MutexExclusive(q, owner')
            && OwnerPc(q, owner') == (if owner' == Some(t) then p else OwnerPc(pc, owner'))
            && Waiters(q) == (if p.WaitCounted? || p.WaitBlocked? then Waiters(pc) + {t} else Waiters(pc) - {t})
            && InFlight(q) == (if p.WaitWoken? || p.WaitUncounted? then InFlight(pc) + {t} else InFlight(pc) - {t})
            && Counted(q) == (if p.WaitCounted? || p.WaitBlocked? || p.WaitWoken? then Counted(pc) + {t} else Counted(pc) - {t})
  {
    OwnerMoved(pc, owner, t, p, owner');
    SetsMove(pc, t, p);
  }

  lemma InitInv(threads: set<Tid>)
    ensures Inv(Init(threads))
  {
    var pc := Init(threads).pc;
    assert Counted(pc) == {} && InFlight(pc) == {};
  }

  /** Without a thread on its way, exactly the waiters are counted. */
  lemma CountedWhenQuiet(pc: map<Tid, Pc>)
    requires InFlight(pc) == {}
    ensures Counted(pc) == Waiters(pc)
  {
    forall t | t in Counted(pc)
      ensures t in Waiters(pc)
    {
      assert t !in InFlight(pc);
    }
  }

  // ----- every step keeps it -----

  /** A thread outside the wait path moves outside it: the sets stay as they are. */
  lemma MovedOutside(s: State, t: Tid, p: Pc, owner': Option<Tid>)
    requires t in s.pc && MutexExclusive(s.pc, s.owner)
    requires s.pc[t].Idle? || s.pc[t].Locked? || s.pc[t].WaitAcked?
    requires (p.Locked? && s.owner.None? && owner' == Some(t)) || (p.Idle? && s.owner == Some(t) && owner'.None?)
    ensures var q := s.pc[t := p];
            && MutexExclusive(q, owner') && OwnerPc(q, owner') == (if p.Locked? then Locked else Idle)
            && Waiters(q) == Waiters(s.pc) && InFlight(q) == InFlight(s.pc) && Counted(q) == Counted(s.pc)
  {
    Moved(s.pc, s.owner, t, p, owner');
  }

  lemma LockStep(s: State, t: Tid)
    requires Inv(s) && t in s.pc && s.owner.None?
    requires s.pc[t].Idle? || s.pc[t].WaitAcked?
    ensures Inv(s.(pc := s.pc[t := Locked], owner := Some(t)))
  {
    MovedOutside(s, t, Locked, Some(t));
  }

  lemma UnlockStep(s: State, t: Tid)
    requires Inv(s) && t in s.pc && s.pc[t].Locked?
    ensures Inv(s.(pc := s.pc[t := Idle], owner := None))
  {
    MovedOutside(s, t, Idle, None);
  }

  lemma CountStep(s: State, t: Tid)
    requires Inv(s) && t in s.pc && s.pc[t].Locked?
    ensures Inv(s.(pc := s.pc[t := WaitCounted], waitCount := s.waitCount + 1))
  {
    OwnerMoved(s.pc, s.owner, t, WaitCounted, s.owner);
    CountMoves(s.pc, t);
  }

  lemma BlockStep(s: State, t: Tid)
    requires Inv(s) && t in s.pc && s.pc[t].WaitCounted?
    ensures Inv(s.(pc := s.pc[t := WaitBlocked], owner := None))
  {
    OwnerMoved(s.pc, s.owner, t, WaitBlocked, None);
    BlockMoves(s.pc, t);
  }

  lemma WakeStep(s: State, t: Tid)
    requires Inv(s) && t in s.pc && s.pc[t].WaitBlocked? && s.event
    ensures Inv(s.(pc := s.pc[t := WaitWoken], event := false))
  {
    Moved(s.pc, s.owner, t, WaitWoken, s.owner);
    assert t in Counted(s.pc) && t in Waiters(s.pc);
    assert Counted(s.pc) + {t} == Counted(s.pc);
  }

  /** A thread on its way is the only one, and the signal is waiting for it. */
  lemma OneInFlight(s: State, t: Tid)
    requires Inv(s) && t in InFlight(s.pc)
    ensures OwnerPc(s.pc, s.owner).SignalAck? && !s.event && !s.ack && InFlight(s.pc) == {t}
    ensures t !in Waiters(s.pc) && s.snapshot == Waiters(s.pc) + {t}
  {
    assert |InFlight(s.pc) - {t}| == 0;
  }

  lemma UncountMoves(pc: map<Tid, Pc>, t: Tid)
    requires t in pc && pc[t].WaitWoken?
    ensures var q := pc[t := WaitUncounted];
            && Waiters(q) == Waiters(pc) && InFlight(q) == InFlight(pc) && |Counted(q)| == |Counted(pc)| - 1
  {
    SetsMove(pc, t, WaitUncounted);
    assert t in Counted(pc) && t in InFlight(pc) && t !in Waiters(pc);
  }

  lemma UncountStep(s: State, t: Tid)
    requires Inv(s) && t in s.pc && s.pc[t].WaitWoken?
    ensures Inv(s.(pc := s.pc[t := WaitUncounted], waitCount := s.waitCount - 1))
  {
    OwnerMoved(s.pc, s.owner, t, WaitUncounted, s.owner);
    UncountMoves(s.pc, t);
  }

  lemma AcknowledgeStep(s: State, t: Tid)
    requires Inv(s) && t in s.pc && s.pc[t].WaitUncounted?
    ensures Inv(s.(pc := s.pc[t := WaitAcked], ack := true))
  {
    Moved(s.pc, s.owner, t, WaitAcked, s.owner);
    assert t !in Counted(s.pc) && t in InFlight(s.pc);
    OneInFlight(s, t);
  }

  /** The holder of the mutex goes on without waiting: nobody else is affected. */
  lemma MovedHolding(s: State, t: Tid, p: Pc)
    requires t in s.pc && MutexExclusive(s.pc, s.owner) && Holding(s.pc[t]) && Holding(p)
    requires !s.pc[t].WaitCounted? && !p.WaitCounted?
    ensures var q := s.pc[t := p];
            && MutexExclusive(q, s.owner) && OwnerPc(q, s.owner) == p
            && Waiters(q) == Waiters(s.pc) && InFlight(q) == InFlight(s.pc) && Counted(q) == Counted(s.pc)
  {
    Moved(s.pc, s.owner, t, p, s.owner);
    assert t !in Counted(s.pc) && t !in Waiters(s.pc) && t !in InFlight(s.pc);
  }

  /** Steps that start, post or leave a signal or a broadcast; they move no waiter. */
  lemma SignalStep(s: State, t: Tid, p: Pc, s': State)
    requires Inv(s) && t in s.pc && Holding(s.pc[t]) && Holding(p)
    requires !s.pc[t].WaitCounted? && !p.WaitCounted?
    requires s'.pc == s.pc[t := p] && s'.owner == s.owner && s'.waitCount == s.waitCount
    requires Consistent(p, Waiters(s.pc), InFlight(s.pc), s'.event, s'.ack, s'.snapshot, s'.start)
    ensures Inv(s')
  {
    MovedHolding(s, t, p);
  }

  lemma SignalStepKeepsInv(s: State, t: Tid, choice: Choice)
    requires Inv(s) && t in s.pc && Do(s, t, choice).Some?
    requires s.pc[t].SignalTest? || s.pc[t].SignalPost? || s.pc[t].SignalAck? || s.pc[t].BroadcastTest?
    ensures Inv(Do(s, t, choice).value)
  {
    var s' := Do(s, t, choice).value;
    if !s.pc[t].SignalAck? {
      CountedWhenQuiet(s.pc);
    }
    SignalStep(s, t, s'.pc[t], s');
  }

  lemma StepKeepsInv(s: State, t: Tid, choice: Choice)
    requires Inv(s) && t in s.pc && Do(s, t, choice).Some? && !choice.BareSignal?
    ensures Inv(Do(s, t, choice).value)
  {
    var s' := Do(s, t, choice).value;
    match s.pc[t]
    case Idle => LockStep(s, t);
    case Locked =>
      match choice {
        case Unlock => UnlockStep(s, t);
        case Wait => CountStep(s, t);
        case Signal => SignalStep(s, t, SignalTest(false), s');
        case Broadcast => SignalStep(s, t, BroadcastTest, s');
        case BareSignal =>
      }
    case WaitCounted => BlockStep(s, t);
    case WaitAcked => LockStep(s, t);
    case WaitBlocked => WakeStep(s, t);
    case WaitWoken => UncountStep(s, t);
    case WaitUncounted => AcknowledgeStep(s, t);
    case SignalTest(_) => SignalStepKeepsInv(s, t, choice);
    case SignalPost(_) => SignalStepKeepsInv(s, t, choice);
    case SignalAck(_) => SignalStepKeepsInv(s, t, choice);
    case BroadcastTest => SignalStepKeepsInv(s, t, choice);
  }

  // ----- all interleavings -----

  datatype Turn = Turn(thread: Tid, choice: Choice)

  /** One turn; a turn of a blocked thread is skipped. */
  function Take(s: State, turn: Turn): State {
    if turn.thread in s.pc && Do(s, turn.thread, turn.choice).Some? then Do(s, turn.thread, turn.choice).value else s
  }

  /** The threads take turns as scheduled. */
  function Run(s: State, schedule: seq<Turn>): State {
    if schedule == [] then s
    else Take(Run(s, schedule[..|schedule| - 1]), schedule[|schedule| - 1])
  }

  /** Signals and broadcasts are made holding the mutex. */
  predicate Locking(schedule: seq<Turn>) {
    forall turn :: turn in schedule ==> !turn.choice.BareSignal?
  }

  lemma TakeKeepsInv(s: State, turn: Turn)
    requires Inv(s) && !turn.choice.BareSignal?
    ensures Inv(Take(s, turn))
  {
    if turn.thread in s.pc && Do(s, turn.thread, turn.choice).Some? {
      StepKeepsInv(s, turn.thread, turn.choice);
    }
  }

  lemma {:induction false} RunKeepsInv(s: State, schedule: seq<Turn>)
    requires Inv(s) && Locking(schedule)
    ensures Inv(Run(s, schedule))
  {
    if schedule == [] {
    } else {
      RunKeepsInv(s, schedule[..|schedule| - 1]);
      TakeKeepsInv(Run(s, schedule[..|schedule| - 1]), schedule[|schedule| - 1]);
    }
  }

  /** In every interleaving of any threads, the count is the number of threads between the
      increment and the decrement. */
  lemma CountIsExact(threads: set<Tid>, schedule: seq<Turn>)
    requires Locking(schedule)
    ensures var s := Run(Init(threads), schedule);
            s.waitCount == |Counted(s.pc)|
  {
    InitInv(threads);
    RunKeepsInv(Init(threads), schedule);
  }

  // ----- one signal, one broadcast -----

  predicate Signalling(p: Pc) {
    p.SignalTest? || p.SignalPost? || p.SignalAck? || p.BroadcastTest?
  }

  /** Since state `s`, only threads then waiting have moved, and only through the wake-up path. */
  predicate OnlyWakes(s: State, r: State, t: Tid) {
    && r.pc.Keys == s.pc.Keys
    && forall u :: u in s.pc && u != t ==>
         r.pc[u] == s.pc[u] || (s.pc[u].WaitBlocked? && (r.pc[u].WaitWoken? || r.pc[u].WaitUncounted? || r.pc[u].WaitAcked?))
  }

  /** While another thread holds the mutex, only the wake-up path is open. */
  lemma OnlyWakeUpsMove(r: State, t: Tid, u: Tid, choice: Choice)
    requires MutexExclusive(r.pc, r.owner) && r.owner == Some(t) && u != t && u in r.pc
    requires !choice.BareSignal? && Do(r, u, choice).Some?
    ensures var r' := Do(r, u, choice).value;
            && (r.pc[u].WaitBlocked? || r.pc[u].WaitWoken? || r.pc[u].WaitUncounted?)
            && r'.pc.Keys == r.pc.Keys && (forall v :: v in r.pc && v != u ==> r'.pc[v] == r.pc[v])
            && (r'.pc[u].WaitWoken? || r'.pc[u].WaitUncounted? || r'.pc[u].WaitAcked?)
            && r'.owner == r.owner && r'.snapshot == r.snapshot && r'.start == r.start
  {
    assert !Holding(r.pc[u]);
  }

  /** While `t` signals or broadcasts, nothing else happens but wake-ups. */
  lemma OthersOnlyWake(s: State, r: State, t: Tid, turn: Turn)
    requires Inv(s) && Inv(r) && OnlyWakes(s, r, t)
    requires t in s.pc && s.owner == Some(t) && r.owner == Some(t) && InFlight(s.pc) == {}
    requires turn.thread != t && !turn.choice.BareSignal?
    ensures var r' := Take(r, turn);
            && OnlyWakes(s, r', t)
            && r'.owner == Some(t) && r'.snapshot == r.snapshot && r'.start == r.start
  {
    var u := turn.thread;
    if u in r.pc && Do(r, u, turn.choice).Some? {
      OnlyWakeUpsMove(r, t, u, turn.choice);
      assert u !in InFlight(s.pc);
    }
  }

  lemma OwnTurnWakesNobody(s: State, r: State, t: Tid, turn: Turn)
    requires OnlyWakes(s, r, t) && t in s.pc && r.owner == Some(t) && Signalling(r.pc[t]) && turn.thread == t
    ensures var r' := Take(r, turn);
            && OnlyWakes(s, r', t)
            && r'.owner == Some(t) && r'.start == r.start
            && (r.pc[t].SignalPost? || r.pc[t].SignalAck? ==> r'.snapshot == r.snapshot)
  {
  }

  predicate InCall(s: State, t: Tid, broadcast: bool) {
    && t in s.pc && s.owner == Some(t)
    && if broadcast then Broadcasting(s.pc[t]) else s.pc[t] == SignalPost(false) || s.pc[t] == SignalAck(false)
  }

  /** `t` stays in the given call throughout: it neither returns nor starts another one. */
  predicate StaysIn(s: State, t: Tid, schedule: seq<Turn>, broadcast: bool) {
    && InCall(Run(s, schedule), t, broadcast)
    && (schedule == [] || StaysIn(s, t, schedule[..|schedule| - 1], broadcast))
  }

  lemma {:induction false} OnlyWakesRun(s0: State, s: State, t: Tid, schedule: seq<Turn>, broadcast: bool)
    requires Inv(s0) && Inv(s) && OnlyWakes(s0, s, t) && InFlight(s0.pc) == {}
    requires t in s0.pc && s0.owner == Some(t) && StaysIn(s, t, schedule, broadcast) && Locking(schedule)
    ensures var r := Run(s, schedule);
            && Inv(r) && OnlyWakes(s0, r, t) && r.owner == Some(t) && r.start == s.start
            && (!broadcast ==> r.snapshot == s.snapshot)
  {
    if schedule == [] {
    } else {
      var n := |schedule| - 1;
      OnlyWakesRun(s0, s, t, schedule[..n], broadcast);
      OnlyWakesTurn(s0, Run(s, schedule[..n]), t, schedule[n], broadcast);
    }
  }

  lemma OnlyWakesTurn(s0: State, r: State, t: Tid, turn: Turn, broadcast: bool)
    requires Inv(s0) && Inv(r) && OnlyWakes(s0, r, t) && InFlight(s0.pc) == {}
    requires t in s0.pc && s0.owner == Some(t) && InCall(r, t, broadcast) && !turn.choice.BareSignal?
    ensures var r' := Take(r, turn);
            && Inv(r') && OnlyWakes(s0, r', t) && r'.owner == Some(t) && r'.start == r.start
            && (!broadcast ==> r'.snapshot == r.snapshot)
  {
    TakeKeepsInv(r, turn);
    if turn.thread == t {
      OwnTurnWakesNobody(s0, r, t, turn);
    } else {
      OthersOnlyWake(s0, r, t, turn);
    }
  }

  /** A plain signal that sees a waiter. From the test to the return, whatever the other threads do,
      exactly one waiter is released; every other thread is where it was, and both semaphores are clear. */
  lemma SignalReleasesOne(s: State, t: Tid, schedule: seq<Turn>, choice: Choice)
    requires Inv(s) && t in s.pc && s.pc[t] == SignalTest(false) && s.waitCount != 0 && s.owner == Some(t)
    requires StaysIn(Do(s, t, choice).value, t, schedule, false) && Locking(schedule) && !choice.BareSignal?
    requires Run(Do(s, t, choice).value, schedule).pc[t] == SignalAck(false)
    requires Do(Run(Do(s, t, choice).value, schedule), t, choice).Some?
    ensures var r := Do(Run(Do(s, t, choice).value, schedule), t, choice).value;
            && !r.event && !r.ack && r.waitCount == s.waitCount - 1
            && exists w :: w in s.pc && s.pc[w].WaitBlocked? && r.pc == s.pc[t := Locked][w := WaitAcked]
  {
    var s1 := Do(s, t, choice).value;
    assert OnlyWakes(s, s1, t) && s1.snapshot == Waiters(s.pc);
    StepKeepsInv(s, t, choice);
    assert OwnerPc(s.pc, s.owner) == s.pc[t];
    OnlyWakesRun(s, s1, t, schedule, false);
    SignalReturns(s, Run(s1, schedule), t);
  }

  lemma SignalReturns(s: State, q: State, t: Tid)
    requires Inv(s) && Inv(q) && OnlyWakes(s, q, t) && q.snapshot == Waiters(s.pc)
    requires t in s.pc && s.owner == Some(t) && q.owner == Some(t)
    requires s.pc[t] == SignalTest(false) && q.pc[t] == SignalAck(false) && q.ack
    ensures !q.event && q.waitCount == s.waitCount - 1
    ensures exists w :: w in s.pc && s.pc[w].WaitBlocked? && q.pc[t := Locked] == s.pc[t := Locked][w := WaitAcked]
  {
    ReleasedIsUnique(s, q, t);
    var w := Missing(Waiters(q.pc), Waiters(s.pc));
    assert w in Waiters(s.pc);
    assert w in s.pc && s.pc[w].WaitBlocked?;
    assert q.pc[t := Locked] == s.pc[t := Locked][w := WaitAcked];
    CountedWhenQuiet(s.pc);
    CountedWhenQuiet(q.pc);
  }

  /** The one element of `b` that `a` lacks. */
  lemma Missing(a: set<Tid>, b: set<Tid>) returns (w: Tid)
    requires a < b && |a| + 1 == |b|
    ensures w in b && a == b - {w}
  {
    w :| w in b && w !in a;
    assert a <= b - {w};
    SubsetSize(a, b - {w});
  }

  lemma {:induction false} SubsetSize(a: set<Tid>, b: set<Tid>)
    requires a <= b && |a| == |b|
    ensures a == b
    decreases |a|
  {
    if a == {} {
    } else {
      var x :| x in a;
      SubsetSize(a - {x}, b - {x});
      assert b == b - {x} + {x};
    }
  }

  /** At the acknowledgement, the waiters of the test are the present ones and those acknowledged. */
  lemma ReleasedIsUnique(s: State, q: State, t: Tid)
    requires Inv(s) && Inv(q) && OnlyWakes(s, q, t) && q.snapshot == Waiters(s.pc)
    requires t in s.pc && s.owner == Some(t) && q.owner == Some(t) && s.pc[t] == SignalTest(false) && q.pc[t].SignalAck? && q.ack
    ensures Waiters(q.pc) < Waiters(s.pc) && |Waiters(q.pc)| + 1 == |Waiters(s.pc)|
    ensures forall u :: u in s.pc && u != t && u !in Waiters(q.pc) && u in Waiters(s.pc) ==> q.pc[u].WaitAcked?
    ensures forall u :: u in s.pc && u != t && (u in Waiters(q.pc) || u !in Waiters(s.pc)) ==> q.pc[u] == s.pc[u]
  {
    assert OwnerPc(q.pc, q.owner) == q.pc[t];
    forall u | u in s.pc && u != t && u !in Waiters(q.pc) && u in Waiters(s.pc)
      ensures q.pc[u].WaitAcked?
    {
      assert u !in InFlight(q.pc);
    }
  }

  /** A broadcast, from its start to its return: exactly the threads waiting at the start are
      released, every other thread is where it was. */
  lemma BroadcastReleasesAll(s: State, t: Tid, schedule: seq<Turn>, choice: Choice)
    requires Inv(s) && t in s.pc && s.pc[t] == Locked && s.owner == Some(t)
    requires StaysIn(Do(s, t, Broadcast).value, t, schedule, true) && Locking(schedule)
    requires Run(Do(s, t, Broadcast).value, schedule).pc[t] == BroadcastTest
    requires Run(Do(s, t, Broadcast).value, schedule).waitCount == 0
    ensures var r := Do(Run(Do(s, t, Broadcast).value, schedule), t, choice).value;
            && r.pc == (map u | u in s.pc :: if s.pc[u].WaitBlocked? then WaitAcked else s.pc[u])
            && !r.event && !r.ack && Waiters(r.pc) == {}
  {
    var s1 := Do(s, t, Broadcast).value;
    StepKeepsInv(s, t, Broadcast);
    OnlyWakesRun(s, s1, t, schedule, true);
    var q := Run(s1, schedule);
    BroadcastReturns(s, q, t);
  }

  lemma BroadcastReturns(s: State, q: State, t: Tid)
    requires Inv(q) && OnlyWakes(s, q, t) && InFlight(s.pc) == {}
    requires t in s.pc && s.pc[t] == Locked && q.owner == Some(t) && q.pc[t] == BroadcastTest && q.waitCount == 0
    ensures q.pc[t := Locked] == (map u | u in s.pc :: if s.pc[u].WaitBlocked? then WaitAcked else s.pc[u])
    ensures !q.event && !q.ack && Waiters(q.pc[t := Locked]) == {}
  {
    assert OwnerPc(q.pc, q.owner) == BroadcastTest;
    CountedWhenQuiet(q.pc);
    assert Waiters(q.pc) == {};
    Moved(q.pc, q.owner, t, Locked, q.owner);
    forall u | u in s.pc && u != t
      ensures q.pc[u] == if s.pc[u].WaitBlocked? then WaitAcked else s.pc[u]
    {
      assert u !in Waiters(q.pc) && u !in InFlight(q.pc);
    }
  }

  // ----- no signal or broadcast hangs -----

  predicate Active(s: State) {
    s.owner.Some? && s.owner.value in s.pc && Signalling(s.pc[s.owner.value])
  }

  /** What is left to do before the signal or broadcast returns. */
  function Rank(s: State): int {
    var w := 8 * |Waiters(s.pc)|;
    match OwnerPc(s.pc, s.owner)
    case BroadcastTest => w + 1
    case SignalTest(_) => w
    case SignalPost(_) => w - 1
    case SignalAck(_) =>
      if s.event then w - 2
      else if s.ack then w + 3
      else if exists t :: t in s.pc && s.pc[t].WaitWoken? then w + 5
      else w + 4
    case _ => 0
  }

  lemma RankIsNatural(s: State)
    requires Inv(s)
    ensures Rank(s) >= 0
  {
  }

  lemma ActiveStepDecreases(s: State, t: Tid, choice: Choice)
    requires Inv(s) && Active(s) && t in s.pc && Do(s, t, choice).Some? && !choice.BareSignal?
    ensures var s' := Do(s, t, choice).value; Active(s') ==> Rank(s') < Rank(s)
  {
    var s' := Do(s, t, choice).value;
    if t == s.owner.value {
      OwnerStepDecreases(s, t, choice);
    } else {
      WakeStepDecreases(s, t, choice);
    }
  }

  lemma OwnerStepDecreases(s: State, t: Tid, choice: Choice)
    requires Inv(s) && Active(s) && t in s.pc && s.owner == Some(t) && Do(s, t, choice).Some? && !choice.BareSignal?
    ensures var s' := Do(s, t, choice).value; Active(s') ==> Rank(s') < Rank(s)
  {
    var s' := Do(s, t, choice).value;
    assert t !in Waiters(s.pc) && t !in InFlight(s.pc);
    if Active(s') {
      assert Waiters(s'.pc) == Waiters(s.pc);
      if !s.pc[t].SignalAck? {
        CountedWhenQuiet(s.pc);
      }
    }
  }

  lemma WakeStepDecreases(s: State, t: Tid, choice: Choice)
    requires Inv(s) && Active(s) && t in s.pc && s.owner.Some? && s.owner.value != t && Do(s, t, choice).Some? && !choice.BareSignal?
    ensures var s' := Do(s, t, choice).value; Rank(s') < Rank(s)
  {
    match s.pc[t]
    case WaitBlocked => WokenDecreases(s, t);
    case WaitWoken => UncountedDecreases(s, t);
    case WaitUncounted => AckedDecreases(s, t);
    case _ =>
  }

  lemma WokenDecreases(s: State, t: Tid)
    requires Inv(s) && t in s.pc && s.pc[t].WaitBlocked? && s.event
    ensures Rank(s.(pc := s.pc[t := WaitWoken], event := false)) < Rank(s)
  {
    Moved(s.pc, s.owner, t, WaitWoken, s.owner);
    assert t in Waiters(s.pc);
    assert s.pc[t := WaitWoken][t].WaitWoken?;
  }

  lemma UncountedDecreases(s: State, t: Tid)
    requires Inv(s) && t in s.pc && s.pc[t].WaitWoken?
    ensures Rank(s.(pc := s.pc[t := WaitUncounted], waitCount := s.waitCount - 1)) < Rank(s)
  {
    Moved(s.pc, s.owner, t, WaitUncounted, s.owner);
    assert t in InFlight(s.pc);
    OneInFlight(s, t);
    forall u | u in s.pc && u != t
      ensures !s.pc[u].WaitWoken?
    {
      assert u !in InFlight(s.pc);
    }
    assert Waiters(s.pc) - {t} == Waiters(s.pc);
  }

  lemma AckedDecreases(s: State, t: Tid)
    requires Inv(s) && t in s.pc && s.pc[t].WaitUncounted?
    ensures Rank(s.(pc := s.pc[t := WaitAcked], ack := true)) < Rank(s)
  {
    Moved(s.pc, s.owner, t, WaitAcked, s.owner);
    assert t in InFlight(s.pc);
    OneInFlight(s, t);
    assert Waiters(s.pc) - {t} == Waiters(s.pc);
  }

  /** The thread a running signal waits for, or the signaller itself. */
  lemma SomeoneToMove(s: State) returns (t: Tid)
    requires Inv(s) && Active(s)
    ensures t in s.pc
    ensures || (Signalling(s.pc[t]) && (s.pc[t].SignalAck? ==> s.ack))
            || (s.pc[t].WaitBlocked? && s.event)
            || s.pc[t].WaitWoken? || s.pc[t].WaitUncounted?
  {
    t := s.owner.value;
    assert OwnerPc(s.pc, s.owner) == s.pc[t];
    if s.pc[t].SignalAck? && !s.ack {
      if s.event {
        t :| t in Waiters(s.pc);
        assert t != s.owner.value;
      } else {
        t :| t in InFlight(s.pc);
      }
    }
  }

  /** Some thread can always move. */
  lemma ActiveNeverStuck(s: State)
    requires Inv(s) && Active(s)
    ensures exists t :: t in s.pc && Do(s, t, Unlock).Some?
  {
    var t := SomeoneToMove(s);
    assert Do(s, t, Unlock).Some?;
  }

  /** Every turn of the schedule is a real step, taken while the signal or broadcast is running. */
  predicate AllActive(s: State, schedule: seq<Turn>) {
    schedule == [] ||
    var last := schedule[|schedule| - 1];
    var r := Run(s, schedule[..|schedule| - 1]);
    && AllActive(s, schedule[..|schedule| - 1])
    && Active(r) && last.thread in r.pc && Do(r, last.thread, last.choice).Some?
  }

  /** However the threads interleave, a running signal or broadcast is over after at most
      `Rank(s)` further steps, that is about eight for each waiter. */
  lemma {:induction false} BroadcastTerminates(s: State, schedule: seq<Turn>)
    requires Inv(s) && Active(s) && AllActive(s, schedule) && Active(Run(s, schedule)) && Locking(schedule)
    ensures |schedule| + Rank(Run(s, schedule)) <= Rank(s)
    ensures |schedule| <= Rank(s) <= 8 * |Waiters(s.pc)| + 5
  {
    RunKeepsInv(s, schedule);
    RankIsNatural(Run(s, schedule));
    if schedule == [] {
    } else {
      var n := |schedule| - 1;
      RunKeepsInv(s, schedule[..n]);
      BroadcastTerminates(s, schedule[..n]);
      ActiveStepDecreases(Run(s, schedule[..n]), schedule[n].thread, schedule[n].choice);
    }
  }

  // ----- one wait -----

  /** How far a thread is through a wait. */
  function WaitStage(p: Pc): nat {
    match p
    case WaitCounted => 1
    case WaitBlocked => 2
    case WaitWoken => 3
    case WaitUncounted => 4
    case WaitAcked => 5
    case _ => 0
  }

  /** A turn of another thread leaves a waiter where it is; its own takes it one stage further, past
      the second one only with the event, which it consumes, and past the last one only by taking the
      free mutex. */
  lemma WaitAdvances(s: State, t: Tid, turn: Turn)
    requires t in s.pc && WaitStage(s.pc[t]) > 0
    ensures var s' := Take(s, turn);
            var stage := WaitStage(s.pc[t]);
            && t in s'.pc
            && (turn.thread != t ==> s'.pc[t] == s.pc[t])
            && (turn.thread == t ==>
                  match stage
                  case 2 => (if s.event then WaitStage(s'.pc[t]) == 3 && !s'.event else s' == s)
                  case 5 => (if s.owner.None? then s'.pc[t] == Locked && s'.owner == Some(t) else s' == s)
                  case _ => WaitStage(s'.pc[t]) == stage + 1)
  {
  }

  /** The last turn of a schedule takes `t` out of its wait. */
  lemma LastTurnReturns(s: State, t: Tid, schedule: seq<Turn>)
    requires schedule != []
    requires var r := Run(s, schedule[..|schedule| - 1]); t in r.pc && WaitStage(r.pc[t]) > 0
    ensures t in Run(s, schedule).pc
    ensures WaitStage(Run(s, schedule).pc[t]) == 0 ==> ReturnsLocked(s, t, schedule, |schedule|)
  {
    var m := |schedule| - 1;
    WaitAdvances(Run(s, schedule[..m]), t, schedule[m]);
    assert schedule[..m + 1] == schedule;
  }

  lemma ReturnedBefore(s: State, t: Tid, schedule: seq<Turn>, m: nat, n: nat)
    requires 0 < n <= m <= |schedule| && ReturnsLocked(s, t, schedule[..m], n)
    ensures ReturnsLocked(s, t, schedule, n)
  {
    assert schedule[..m][..n] == schedule[..n] && schedule[..m][..n - 1] == schedule[..n - 1];
  }

  lemma {:induction false} ThreadsStay(s: State, t: Tid, schedule: seq<Turn>)
    requires t in s.pc
    ensures t in Run(s, schedule).pc
  {
    if schedule == [] {
    } else {
      ThreadsStay(s, t, schedule[..|schedule| - 1]);
    }
  }

  /** In every schedule, with or without bare signals: a thread that has left a wait had the mutex at
      that moment. */
  lemma {:induction false} WaitReturnsLocked(s: State, t: Tid, schedule: seq<Turn>)
    requires t in s.pc && WaitStage(s.pc[t]) > 0
    ensures t in Run(s, schedule).pc
    ensures WaitStage(Run(s, schedule).pc[t]) == 0 ==> exists n :: 0 < n <= |schedule| && ReturnsLocked(s, t, schedule, n)
  {
    ThreadsStay(s, t, schedule);
    if schedule == [] {
    } else {
      var m := |schedule| - 1;
      WaitReturnsLocked(s, t, schedule[..m]);
      if WaitStage(Run(s, schedule[..m]).pc[t]) == 0 {
        var n :| 0 < n <= m && ReturnsLocked(s, t, schedule[..m], n);
        ReturnedBefore(s, t, schedule, m, n);
      } else {
        LastTurnReturns(s, t, schedule);
      }
    }
  }

  /** The `n`-th turn takes `t` out of its wait, to where it holds the mutex. */
  predicate ReturnsLocked(s: State, t: Tid, schedule: seq<Turn>, n: nat)
    requires 0 < n <= |schedule|
  {
    var before, after := Run(s, schedule[..n - 1]), Run(s, schedule[..n]);
    && t in before.pc && WaitStage(before.pc[t]) == 5
    && t in after.pc && after.pc[t] == Locked && after.owner == Some(t)
  }

  // ----- one signal, one broadcast, step by step -----

  predicate AtSignal(p: Pc) {
    p == SignalTest(false) || p == SignalPost(false) || p == SignalAck(false)
  }

  /** A call made at a moment: with the mutex, or a bare signal without it; nothing else happens. */
  lemma CallsBegin(s: State, t: Tid)
    requires t in s.pc
    ensures s.pc[t] == Locked ==>
      && Take(s, Turn(t, Signal)) == s.(pc := s.pc[t := SignalTest(false)])
      && Take(s, Turn(t, Broadcast)) == s.(pc := s.pc[t := BroadcastTest], start := Waiters(s.pc))
      && Take(s, Turn(t, Wait)) == s.(pc := s.pc[t := WaitCounted], waitCount := s.waitCount + 1)
    ensures s.pc[t] == Idle ==> Take(s, Turn(t, BareSignal)) == s.(pc := s.pc[t := SignalTest(false)])
  {
  }

  /** When `t` is through with its call: a signal that saw nobody, one that took its acknowledgement, or a
      broadcast that sees nobody counted any more. */
  predicate Through(s: State, t: Tid)
    requires t in s.pc
  {
    || (s.pc[t] == SignalTest(false) && s.waitCount == 0)
    || (s.pc[t] == SignalAck(false) && s.ack)
    || (s.pc[t] == BroadcastTest && s.waitCount == 0)
  }

  /** A thread leaves a signal or a broadcast only then, and keeps the mutex if it has it. */
  lemma CallsEnd(s: State, t: Tid, turn: Turn)
    requires t in s.pc && (AtSignal(s.pc[t]) || Broadcasting(s.pc[t]))
    ensures var s' := Take(s, turn);
            && t in s'.pc
            && (AtSignal(s.pc[t]) && !AtSignal(s'.pc[t]) ==>
                  Through(s, t) && s'.pc[t] == if s.owner == Some(t) then Locked else Idle)
            && (Broadcasting(s.pc[t]) && !Broadcasting(s'.pc[t]) ==> Through(s, t) && s'.pc[t] == Locked)
  {
  }

  /** Before the `n`-th turn `t` was through with its call. */
  predicate ThroughAt(s: State, t: Tid, schedule: seq<Turn>, n: nat)
    requires n <= |schedule|
  {
    var r := Run(s, schedule[..n]);
    t in r.pc && Through(r, t)
  }

  /** In every schedule a broadcast that has returned has found nobody counted. */
  lemma {:induction false} BroadcastReturnsEmpty(s: State, t: Tid, schedule: seq<Turn>)
    requires t in s.pc && Broadcasting(s.pc[t])
    ensures t in Run(s, schedule).pc
    ensures !Broadcasting(Run(s, schedule).pc[t]) ==> exists n :: 0 <= n < |schedule| && ThroughAt(s, t, schedule, n)
  {
    ThreadsStay(s, t, schedule);
    if schedule == [] {
    } else {
      var m := |schedule| - 1;
      var r := Run(s, schedule[..m]);
      BroadcastReturnsEmpty(s, t, schedule[..m]);
      if Broadcasting(r.pc[t]) {
        CallsEnd(r, t, schedule[m]);
        assert !Broadcasting(Run(s, schedule).pc[t]) ==> ThroughAt(s, t, schedule, m);
      } else {
        var n :| 0 <= n < m && ThroughAt(s, t, schedule[..m], n);
        ThroughBefore(s, t, schedule, m, n);
      }
    }
  }

  /** And a signal has found nobody, or taken its acknowledgement. */
  lemma {:induction false} SignalReturnsAnswered(s: State, t: Tid, schedule: seq<Turn>)
    requires t in s.pc && AtSignal(s.pc[t])
    ensures t in Run(s, schedule).pc
    ensures !AtSignal(Run(s, schedule).pc[t]) ==> exists n :: 0 <= n < |schedule| && ThroughAt(s, t, schedule, n)
  {
    ThreadsStay(s, t, schedule);
    if schedule == [] {
    } else {
      var m := |schedule| - 1;
      var r := Run(s, schedule[..m]);
      SignalReturnsAnswered(s, t, schedule[..m]);
      if AtSignal(r.pc[t]) {
        CallsEnd(r, t, schedule[m]);
        assert !AtSignal(Run(s, schedule).pc[t]) ==> ThroughAt(s, t, schedule, m);
      } else {
        var n :| 0 <= n < m && ThroughAt(s, t, schedule[..m], n);
        ThroughBefore(s, t, schedule, m, n);
      }
    }
  }

  lemma ThroughBefore(s: State, t: Tid, schedule: seq<Turn>, m: nat, n: nat)
    requires n <= m <= |schedule| && ThroughAt(s, t, schedule[..m], n)
    ensures ThroughAt(s, t, schedule, n)
  {
    assert schedule[..m][..n] == schedule[..n];
  }
}
