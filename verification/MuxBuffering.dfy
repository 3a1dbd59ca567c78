/** Buffering before the muxer starts does not show in what each stream sends. */
module MuxBuffering {
  import opened Numbers
  import opened Options
  import opened Muxer

  /** The packets of a submission sequence up to its first end-of-stream mark. */
  function BeforeEof(items: seq<Option<Packet>>): seq<Packet> {
    if items == [] then []
    else
      var init := items[..|items| - 1];
      var x := items[|items| - 1];
      if None in init || x.None? then BeforeEof(init) else BeforeEof(init) + [x.value]
  }

  function TotalSize(items: seq<Option<Packet>>): nat {
    if items == [] then 0 else TotalSize(items[..|items| - 1]) + SizeOf(items[|items| - 1])
  }

  lemma BeforeEofGrows(items: seq<Option<Packet>>, x: Option<Packet>)
    ensures BeforeEof(items + [x]) == if None in items || x.None? then BeforeEof(items) else BeforeEof(items) + [x.value]
    ensures TotalSize(items + [x]) == TotalSize(items) + SizeOf(x)
  {
    assert (items + [x])[..|items|] == items;
  }

  /** What the data threshold counts: the bytes of the packets, and nothing for an end of stream. */
  lemma TotalSizeCounts(items: seq<Option<Packet>>, p: Packet)
    ensures TotalSize([]) == 0
    ensures TotalSize(items + [Some(p)]) == TotalSize(items) + p.size && TotalSize(items + [None]) == TotalSize(items)
  {
    BeforeEofGrows(items, Some(p));
    BeforeEofGrows(items, None);
  }

  // ----- sending -----

  /** After `done` was offered to the thread queue, with any answers. */
  predicate Tracks(b: Buffer, done: seq<Option<Packet>>) {
    && b.sent <= BeforeEof(done)
    && (!b.finished ==> b.sent == BeforeEof(done) && None !in done)
  }

  /** The same if every packet was taken. */
  predicate Exact(b: Buffer, done: seq<Option<Packet>>) {
    b.sent == BeforeEof(done) && (b.finished <==> None in done)
  }

  lemma SendTracks(b: Buffer, done: seq<Option<Packet>>, item: Option<Packet>, answer: Answer)
    requires Tracks(b, done)
    ensures Tracks(Send(b, item, answer), done + [item])
    ensures Exact(b, done) && answer.Taken? ==> Exact(Send(b, item, answer), done + [item])
  {
    BeforeEofGrows(done, item);
  }

  predicate AllTaken(answers: seq<Answer>) {
    forall a :: a in answers ==> a.Taken?
  }

  lemma {:induction false} DrainTracks(b: Buffer, done: seq<Option<Packet>>, answers: seq<Answer>, i: nat)
    requires Tracks(b, done)
    ensures var (r, ok) := Drain(b, answers, i);
            && r.sent <= BeforeEof(done + b.queue)
            && (ok ==> r.queue == [] && Tracks(r, done + b.queue))
            && (Exact(b, done) && AllTaken(answers) ==> ok && Exact(r, done + b.queue))
    decreases |b.queue|
  {
    if b.queue == [] {
      assert done + b.queue == done;
    } else {
      var item := b.queue[0];
      var rest := b.queue[1..];
      SendTracks(b.(queue := rest), done, item, AnswerAt(answers, i));
      assert done + [item] + rest == done + b.queue;
      BeforeEofExtends(done + [item], rest);
      DrainTracks(Send(b.(queue := rest), item, AnswerAt(answers, i)), done + [item], answers, i + 1);
    }
  }

  lemma {:induction false} BeforeEofExtends(items: seq<Option<Packet>>, more: seq<Option<Packet>>)
    ensures BeforeEof(items) <= BeforeEof(items + more)
  {
    if more == [] {
      assert items + more == items;
    } else {
      var n := |more| - 1;
      BeforeEofExtends(items, more[..n]);
      assert items + more == items + more[..n] + [more[n]];
      BeforeEofGrows(items + more[..n], more[n]);
    }
  }

  // ----- the life of one stream -----

  datatype Event = Submit(item: Option<Packet>, answer: Answer) | Start(answers: seq<Answer>)

  /** `submitted` holds everything that was not refused for lack of room; after a failed start the
      program gives up. */
  datatype Life = Life(buf: Buffer, started: bool, failed: bool, submitted: seq<Option<Packet>>)

  const NEWBORN := Life(FRESH_BUFFER, false, false, [])

  function Live(lim: Limits, l: Life, e: Event): Life {
    if l.failed then l
    else match e
      case Submit(item, answer) =>
        if l.started then l.(buf := Send(l.buf, item, answer), submitted := l.submitted + [item])
        else if Refuses(lim, l.buf, item) then l
        else l.(buf := Enqueue(lim, l.buf, item), submitted := l.submitted + [item])
      case Start(answers) =>
        if l.started then l
        else
          var (b, ok) := Drain(l.buf, answers, 0);
          l.(buf := b, started := true, failed := !ok)
  }

  function LiveAll(lim: Limits, l: Life, events: seq<Event>): Life {
    if events == [] then l else Live(lim, LiveAll(lim, l, events[..|events| - 1]), events[|events| - 1])
  }

  predicate Healthy(l: Life) {
    && 8 <= l.buf.capacity
    && |l.buf.queue| <= l.buf.capacity
    && (!l.started ==>
          && !l.failed && l.buf.queue == l.submitted && l.buf.sent == [] && !l.buf.finished
          && l.buf.bytes == TotalSize(l.submitted))
    && (l.started && !l.failed ==> l.buf.queue == [] && Tracks(l.buf, l.submitted))
    && l.buf.sent <= BeforeEof(l.submitted)
  }

  lemma LiveKeepsHealth(lim: Limits, l: Life, e: Event)
    requires Healthy(l)
    ensures Healthy(Live(lim, l, e))
  {
    if !l.failed {
      match e
      case Submit(item, answer) =>
        BeforeEofGrows(l.submitted, item);
        if l.started {
          SendTracks(l.buf, l.submitted, item, answer);
        }
      case Start(answers) =>
        if !l.started {
          DrainTracks(l.buf, [], answers, 0);
          assert [] + l.buf.queue == l.submitted;
          DrainCapacity(l.buf, answers, 0);
        }
    }
  }

  lemma {:induction false} DrainCapacity(b: Buffer, answers: seq<Answer>, i: nat)
    ensures var r := Drain(b, answers, i).0; r.capacity == b.capacity && |r.queue| <= |b.queue|
    decreases |b.queue|
  {
    if b.queue == [] {
    } else {
      DrainCapacity(Send(b.(queue := b.queue[1..]), b.queue[0], AnswerAt(answers, i)), answers, i + 1);
    }
  }

  lemma {:induction false} LifeIsHealthy(lim: Limits, events: seq<Event>)
    ensures Healthy(LiveAll(lim, NEWBORN, events))
  {
    if events == [] {
    } else {
      LifeIsHealthy(lim, events[..|events| - 1]);
      LiveKeepsHealth(lim, LiveAll(lim, NEWBORN, events[..|events| - 1]), events[|events| - 1]);
    }
  }

  /** Whenever the muxer starts and whatever it refuses: nothing is reordered, duplicated, or sent
      after the end of the stream. */
  lemma SentInOrder(lim: Limits, events: seq<Event>)
    ensures var l := LiveAll(lim, NEWBORN, events); l.buf.sent <= BeforeEof(l.submitted)
  {
    LifeIsHealthy(lim, events);
  }

  // ----- nothing refused by the thread queue -----

  predicate Welcoming(events: seq<Event>) {
    forall e :: e in events ==> (e.Submit? ==> e.answer.Taken?) && (e.Start? ==> AllTaken(e.answers))
  }

  lemma {:induction false} WelcomedExactly(lim: Limits, events: seq<Event>)
    requires Welcoming(events)
    ensures var l := LiveAll(lim, NEWBORN, events);
            && !l.failed
            && (l.started ==> Exact(l.buf, l.submitted))
  {
    if events == [] {
    } else {
      var before := LiveAll(lim, NEWBORN, events[..|events| - 1]);
      var e := events[|events| - 1];
      WelcomedExactly(lim, events[..|events| - 1]);
      LifeIsHealthy(lim, events[..|events| - 1]);
      match e
      case Submit(item, answer) =>
        if before.started {
          SendTracks(before.buf, before.submitted, item, answer);
        }
      case Start(answers) =>
        if !before.started {
          DrainTracks(before.buf, [], answers, 0);
          assert [] + before.buf.queue == before.submitted;
        }
    }
  }

  /** Two lives of a stream that submit the same, starting the muxer at any two moments, with
      buffer limits of any kind: the thread queue gets the same packets in the same order, namely
      everything up to the first end-of-stream mark. */
  lemma BufferingIsInvisible(lim1: Limits, events1: seq<Event>, lim2: Limits, events2: seq<Event>)
    requires Welcoming(events1) && Welcoming(events2)
    requires LiveAll(lim1, NEWBORN, events1).started && LiveAll(lim2, NEWBORN, events2).started
    requires LiveAll(lim1, NEWBORN, events1).submitted == LiveAll(lim2, NEWBORN, events2).submitted
    ensures var l1, l2 := LiveAll(lim1, NEWBORN, events1), LiveAll(lim2, NEWBORN, events2);
            && l1.buf.sent == l2.buf.sent == BeforeEof(l1.submitted)
            && l1.buf.finished == l2.buf.finished
  {
    WelcomedExactly(lim1, events1);
    WelcomedExactly(lim2, events2);
  }

  // ----- when a packet is refused -----

  /** What the caller handed in, refused or not. */
  function Handed(events: seq<Event>): seq<Option<Packet>> {
    if events == [] then []
    else
      var e := events[|events| - 1];
      Handed(events[..|events| - 1]) + if e.Submit? then [e.item] else []
  }

  /** Before the start a packet is refused only over the data threshold, with at least the allowed
      number of packets queued, and with the queue full; so the first eight always get in. */
  lemma RefusedOnlyOverLimits(lim: Limits, events: seq<Event>, item: Option<Packet>)
    requires !LiveAll(lim, NEWBORN, events).started
    ensures var l := LiveAll(lim, NEWBORN, events);
            Refuses(lim, l.buf, item) <==>
              && TotalSize(l.submitted + [item]) > lim.dataThreshold
              && |l.submitted| >= AsSize(lim.maxQueueSize)
              && |l.submitted| == l.buf.capacity
    ensures Refuses(lim, LiveAll(lim, NEWBORN, events).buf, item) ==> |LiveAll(lim, NEWBORN, events).submitted| >= 8
  {
    LifeIsHealthy(lim, events);
    BeforeEofGrows(LiveAll(lim, NEWBORN, events).submitted, item);
  }

  /** A stream whose packets together stay within the data threshold loses none to buffering. */
  lemma {:induction false} NothingRefused(lim: Limits, events: seq<Event>)
    requires TotalSize(Handed(events)) <= lim.dataThreshold
    ensures var l := LiveAll(lim, NEWBORN, events); !l.failed ==> l.submitted == Handed(events)
  {
    if events == [] {
    } else {
      var e := events[|events| - 1];
      var before := events[..|events| - 1];
      if e.Submit? {
        BeforeEofGrows(Handed(before), e.item);
      } else {
        assert Handed(events) == Handed(before);
      }
      NothingRefused(lim, before);
      if e.Submit? && !LiveAll(lim, NEWBORN, before).started {
        RefusedOnlyOverLimits(lim, before, e.item);
      }
    }
  }

  /** Room beyond eight places and the allowed number was made while the first half of it, and one
      packet more, were within the data threshold. */
  predicate RoomIsEarned(lim: Limits, l: Life) {
    !l.started && l.buf.capacity > 8 && l.buf.capacity > AsSize(lim.maxQueueSize) ==>
      var half := l.buf.capacity / 2;
      half < |l.submitted| && TotalSize(l.submitted[..half + 1]) <= lim.dataThreshold
  }

  lemma {:induction false} LifeEarnsRoom(lim: Limits, events: seq<Event>)
    ensures RoomIsEarned(lim, LiveAll(lim, NEWBORN, events))
  {
    if events == [] {
    } else {
      var n := |events| - 1;
      var l := LiveAll(lim, NEWBORN, events[..n]);
      LifeIsHealthy(lim, events[..n]);
      LifeEarnsRoom(lim, events[..n]);
      if events[n].Submit? {
        SubmitEarnsRoom(lim, l, events[n]);
      }
    }
  }

  /** There is room: the earned half stays as it was. */
  lemma RoomStays(lim: Limits, l: Life, item: Option<Packet>)
    requires Healthy(l) && RoomIsEarned(lim, l) && !l.started && |l.buf.queue| < l.buf.capacity
    ensures RoomIsEarned(lim, Live(lim, l, Submit(item, Taken)))
  {
    var half := l.buf.capacity / 2;
    if half < |l.submitted| {
      assert (l.submitted + [item])[..half + 1] == l.submitted[..half + 1];
    }
  }

  /** Room is made: what was submitted is the half that has to be earned. */
  lemma RoomIsMade(lim: Limits, l: Life, item: Option<Packet>)
    requires Healthy(l) && !l.started && |l.buf.queue| >= l.buf.capacity && !Refuses(lim, l.buf, item)
    ensures RoomIsEarned(lim, Live(lim, l, Submit(item, Taken)))
  {
    BeforeEofGrows(l.submitted, item);
    var more := l.submitted + [item];
    assert more[..|l.submitted| + 1] == more;
  }

  lemma SubmitEarnsRoom(lim: Limits, l: Life, e: Event)
    requires Healthy(l) && RoomIsEarned(lim, l) && e.Submit?
    ensures RoomIsEarned(lim, Live(lim, l, e))
  {
    if l.started || Refuses(lim, l.buf, e.item) {
    } else if |l.buf.queue| < l.buf.capacity {
      RoomStays(lim, l, e.item);
    } else {
      RoomIsMade(lim, l, e.item);
    }
  }

  lemma {:induction false} TotalSizeGrows(items: seq<Option<Packet>>, m: nat, n: nat)
    requires m <= n <= |items|
    ensures TotalSize(items[..m]) <= TotalSize(items[..n])
    decreases n
  {
    if m == n {
    } else {
      TotalSizeGrows(items, m, n - 1);
      assert items[..n][..n - 1] == items[..n - 1];
    }
  }

  /** What the limits are worth: a queue longer than eight and than the allowed number has its first
      half within the data threshold, so it is at most twice as long as the threshold justifies. */
  lemma QueueIsBounded(lim: Limits, events: seq<Event>)
    requires !LiveAll(lim, NEWBORN, events).started
    ensures var items := LiveAll(lim, NEWBORN, events).buf.queue;
            |items| > 8 && |items| > AsSize(lim.maxQueueSize) ==> TotalSize(items[..|items| / 2 + 1]) <= lim.dataThreshold
  {
    LifeIsHealthy(lim, events);
    LifeEarnsRoom(lim, events);
    QueueIsEarned(lim, LiveAll(lim, NEWBORN, events));
  }

  lemma QueueIsEarned(lim: Limits, l: Life)
    requires Healthy(l) && RoomIsEarned(lim, l) && !l.started
    ensures var items := l.buf.queue;
            |items| > 8 && |items| > AsSize(lim.maxQueueSize) ==> TotalSize(items[..|items| / 2 + 1]) <= lim.dataThreshold
  {
    var items := l.buf.queue;
    var half := l.buf.capacity / 2;
    if |items| > 8 && |items| > AsSize(lim.maxQueueSize) {
      assert |items| / 2 <= half < |items|;
      TotalSizeGrows(items, |items| / 2 + 1, half + 1);
    }
  }

  // ----- how room is made -----

  /** The least of 8, 16, 32 and so on that holds `n` packets. */
  function RoomFor(n: nat): (r: nat)
    ensures r >= n && r >= 8
    ensures n <= 8 ==> r == 8
    ensures n > 8 ==> r < 2 * n
  {
    if n <= 8 then 8 else 2 * RoomFor((n + 1) / 2)
  }

  lemma {:induction false} RoomForOneMore(n: nat)
    ensures RoomFor(n + 1) == if n < RoomFor(n) then RoomFor(n) else 2 * RoomFor(n)
  {
    if n <= 8 {
    } else if n % 2 == 0 {
      RoomForOneMore(n / 2);
      assert (n + 1) / 2 == n / 2 && (n + 2) / 2 == n / 2 + 1;
    } else {
      assert (n + 1) / 2 == (n + 2) / 2;
    }
  }

  lemma RoomForSubmitted(lim: Limits, l: Life, e: Event)
    requires Healthy(l) && !l.started && e.Submit? && TotalSize(l.submitted + [e.item]) <= lim.dataThreshold
    requires l.buf.capacity == RoomFor(|l.submitted|)
    ensures var l' := Live(lim, l, e); l'.buf.capacity == RoomFor(|l'.submitted|)
  {
    BeforeEofGrows(l.submitted, e.item);
    RoomForOneMore(|l.submitted|);
  }

  /** Within the data threshold a buffer doubles whenever it is full. */
  lemma {:induction false} RoomDoubles(lim: Limits, events: seq<Event>)
    requires TotalSize(Handed(events)) <= lim.dataThreshold
    ensures var l := LiveAll(lim, NEWBORN, events); !l.started ==> l.buf.capacity == RoomFor(|l.submitted|)
  {
    if events == [] {
    } else {
      var e := events[|events| - 1];
      var before := events[..|events| - 1];
      var l := LiveAll(lim, NEWBORN, before);
      if e.Submit? {
        BeforeEofGrows(Handed(before), e.item);
      } else {
        assert Handed(events) == Handed(before);
      }
      RoomDoubles(lim, before);
      NothingRefused(lim, before);
      LifeIsHealthy(lim, before);
      if e.Submit? && !l.started {
        RoomForSubmitted(lim, l, e);
      }
    }
  }

  /** Over the threshold it grows to the allowed number at most, and to twice its size. */
  lemma RoomOverThreshold(lim: Limits, events: seq<Event>, item: Option<Packet>)
    requires !LiveAll(lim, NEWBORN, events).started
    requires var l := LiveAll(lim, NEWBORN, events);
             |l.submitted| == l.buf.capacity && TotalSize(l.submitted + [item]) > lim.dataThreshold && !Refuses(lim, l.buf, item)
    ensures var l := LiveAll(lim, NEWBORN, events);
            Enqueue(lim, l.buf, item).capacity == Min(2 * l.buf.capacity, AsSize(lim.maxQueueSize))
  {
    LifeIsHealthy(lim, events);
    BeforeEofGrows(LiveAll(lim, NEWBORN, events).submitted, item);
  }

  /** A negative limit is stored in an unsigned number, and limits nothing. */
  lemma NegativeLimitIsNone(lim: Limits, b: Buffer, item: Option<Packet>)
    requires -0x8000_0000 <= lim.maxQueueSize < 0 && |b.queue| < 0x8000_0000_0000_0000
    ensures !Refuses(lim, b, item)
  {
  }

  // ----- when sending fails -----

  /** Only a broken thread queue is a failure; one whose receiver is gone just ends the stream. */
  lemma FailsIffBroken(b: Buffer, item: Option<Packet>, answer: Answer)
    ensures SendFails(b, item, answer) <==> item.Some? && !b.finished && answer == Broken
    ensures item.Some? && !b.finished && answer == ReceiverGone ==> Send(b, item, answer) == b.(finished := true)
  {
  }

  lemma {:induction false} DrainFailsOnlyIfBroken(b: Buffer, answers: seq<Answer>, i: nat)
    requires Broken !in answers
    ensures Drain(b, answers, i).1
    decreases |b.queue|
  {
    if b.queue == [] {
    } else {
      DrainFailsOnlyIfBroken(Send(b.(queue := b.queue[1..]), b.queue[0], AnswerAt(answers, i)), answers, i + 1);
    }
  }
}
