/** A list of forced times, served by the frames the converter encodes. */
module VideoForcedTimes {
  import opened Numbers
  import opened Options
  import opened ForcedKeyframes
  import opened VideoSync
  import opened VideoConservation
  import opened VideoTiming

  predicate TimesMode(f: Forcing) {
    f.kind.Times? && f.expr.None?
  }

  /** The encoded frames' times in microseconds. */
  function Clocked(cfg: Config, sent: seq<Sent>): (times: seq<real>)
    ensures |times| == |sent|
  {
    seq(|sent|, i requires 0 <= i < |sent| => TimeAt(cfg, sent[i].pts))
  }

  function ForcedCount(sent: seq<Sent>): nat {
    if sent == [] then 0 else ForcedCount(sent[..|sent| - 1]) + B(sent[|sent| - 1].forced)
  }

  /** Of frames at these times, forced are exactly those that served one of `pts`, `index` in all. */
  predicate LogServes(pts: seq<int>, times: seq<real>, sent: seq<Sent>, index: nat) {
    && |times| == |sent|
    && index == ServedBy(pts, times, |times|) == ForcedCount(sent)
    && forall i :: 0 <= i < |times| ==> (sent[i].forced <==> ServedBy(pts, times, i + 1) == ServedBy(pts, times, i) + 1)
  }

  /** The forcing step stands where the frames encoded so far have brought it. */
  predicate Serves(cfg: Config, s: StreamState) {
    LogServes(cfg.forcing.pts, Clocked(cfg, s.sent), s.sent, s.kf.index)
  }

  lemma {:induction false} ServedByPrefix(pts: seq<int>, times: seq<real>, more: seq<real>, n: nat)
    requires n <= |times| && times <= more
    ensures ServedBy(pts, more, n) == ServedBy(pts, times, n)
  {
    if n == 0 {
    } else {
      ServedByPrefix(pts, times, more, n - 1);
    }
  }

  /** One more time. */
  lemma ServedOnce(pts: seq<int>, times: seq<real>, time: real)
    ensures var more := times + [time];
            && (forall j :: 0 <= j <= |times| ==> ServedBy(pts, more, j) == ServedBy(pts, times, j))
            && ServedBy(pts, more, |more|) == Served(pts, ServedBy(pts, times, |times|), time)
  {
    var more := times + [time];
    forall j | 0 <= j <= |times|
      ensures ServedBy(pts, more, j) == ServedBy(pts, times, j)
    {
      ServedByPrefix(pts, times, more, j);
    }
  }

  lemma OneMoreInLog(pts: seq<int>, times: seq<real>, sent: seq<Sent>, index: nat, time: real, e: Sent)
    requires LogServes(pts, times, sent, index)
    requires e.forced <==> Served(pts, index, time) == index + 1
    ensures LogServes(pts, times + [time], sent + [e], Served(pts, index, time))
  {
    ServedOnce(pts, times, time);
    assert (sent + [e])[..|sent|] == sent;
  }

  lemma OneMoreServes(cfg: Config, s: StreamState, shot: Shot, i: int)
    requires TimesMode(cfg.forcing) && Serves(cfg, s)
    ensures Serves(cfg, AfterOffer(cfg, s, shot, i, Done))
  {
    var time := TimeAt(cfg, s.nextPts);
    var (kf, forced) := Asked(cfg, s, shot, i);
    var e := Sent(shot, s.nextPts, i, forced);
    OneMoreInLog(cfg.forcing.pts, Clocked(cfg, s.sent), s.sent, s.kf.index, time, e);
    assert Clocked(cfg, s.sent + [e]) == Clocked(cfg, s.sent) + [time];
  }

  lemma SlotServes(cfg: Config, s: StreamState, next: Option<Picture>, prev: int, enc: seq<Answer>, i: int)
    requires TimesMode(cfg.forcing) && Serves(cfg, s) && cfg.recordingEnd.None? && Willing(enc)
    requires PictureAt(s.held, next, prev, i).Some?
    ensures Slot(cfg, s, next, prev, enc, i).Done? && Serves(cfg, AfterSlot(cfg, s, next, prev, i, Done))
  {
    OneMoreServes(cfg, s, PictureAt(s.held, next, prev, i).value, i);
  }

  lemma {:induction false} FeedServes(cfg: Config, s: StreamState, next: Option<Picture>, nb: int, prev: int, enc: seq<Answer>, i: int)
    requires TimesMode(cfg.forcing) && Serves(cfg, s) && cfg.recordingEnd.None? && Willing(enc)
    ensures Serves(cfg, Feed(cfg, s, next, nb, prev, enc, i).state)
    decreases nb - i
  {
    if i >= nb {
    } else if PictureAt(s.held, next, prev, i).None? {
    } else {
      SlotServes(cfg, s, next, prev, enc, i);
      FeedServes(cfg, AfterSlot(cfg, s, next, prev, i, Done), next, nb, prev, enc, i + 1);
    }
  }

  lemma SameLogServes(cfg: Config, s: StreamState, s': StreamState)
    requires Serves(cfg, s) && s'.sent == s.sent && s'.kf.index == s.kf.index
    ensures Serves(cfg, s')
  {
  }

  lemma CallServes(cfg: Config, s: StreamState, next: Option<Picture>, enc: seq<Answer>)
    requires TimesMode(cfg.forcing) && Serves(cfg, s) && cfg.recordingEnd.None? && Willing(enc)
    ensures Serves(cfg, VideoOut(cfg, s, next, enc).state)
  {
    var d := PlanCopies(cfg, s, next);
    var planned := Marked(Advanced(s, d), next, d.nbFrames, d.nbFramesPrev);
    var s' := VideoOut(cfg, s, next, enc).state;
    if TooLarge(cfg, d, s.lastDropped) {
      SameLogServes(cfg, s, s');
    } else {
      SameLogServes(cfg, s, planned);
      FeedServes(cfg, planned, next, d.nbFrames, d.nbFramesPrev, enc, 0);
      SameLogServes(cfg, Feed(cfg, planned, next, d.nbFrames, d.nbFramesPrev, enc, 0).state, s');
    }
  }

  /** In every run with willing encoders and no recording limits, the frames forced are exactly those
      that serve a time in the sense of the rule for frames in a row, and each serves one. */
  lemma {:induction false} ForcedAreServing(cfgs: seq<Config>, n: nat, calls: seq<Call>, k: nat)
    requires k < n && k < |cfgs| && TimesMode(cfgs[k].forcing) && Unhindered(cfgs, calls)
    ensures var w := RunCalls(cfgs, Fresh(n), calls); |w.streams| == n && Serves(cfgs[k], w.streams[k])
  {
    if calls == [] {
    } else {
      var m := |calls| - 1;
      ForcedAreServing(cfgs, n, calls[..m], k);
      var w := RunCalls(cfgs, Fresh(n), calls[..m]);
      if calls[m].stream == k {
        CallServes(cfgs[k], w.streams[k], calls[m].next, calls[m].enc);
      }
    }
  }

  lemma ClockedInOrder(cfg: Config, sent: seq<Sent>)
    requires Increasing(sent) && cfg.tick >= 0.0
    ensures Nondecreasing(Clocked(cfg, sent))
  {
    forall i, j | 0 <= i <= j < |sent|
      ensures TimeAt(cfg, sent[i].pts) <= TimeAt(cfg, sent[j].pts)
    {
      ProductGrows(sent[i].pts as real, sent[j].pts as real, cfg.tick);
    }
  }

  /** In the pacing modes no way to give the sorted times to different encoded frames, none before
      its time, forces more frames than the converter does. */
  lemma ForcedAreMost(cfgs: seq<Config>, n: nat, calls: seq<Call>, k: nat, chosen: map<nat, nat>)
    requires k < n && k < |cfgs| && TimesMode(cfgs[k].forcing) && Unhindered(cfgs, calls)
    requires (cfgs[k].vsync.Cfr? || cfgs[k].vsync.Vscfr? || cfgs[k].vsync.Vfr?) && cfgs[k].tick >= 0.0
    requires SortedTimes(cfgs[k].forcing.pts)
    ensures var w := RunCalls(cfgs, Fresh(n), calls);
            && |w.streams| == n
            && (Assignment(cfgs[k].forcing.pts, Clocked(cfgs[k], w.streams[k].sent), |w.streams[k].sent|, chosen) ==>
                  |chosen| <= ForcedCount(w.streams[k].sent))
  {
    ForcedAreServing(cfgs, n, calls, k);
    EncodedPts(cfgs, n, calls, k);
    var sent := RunCalls(cfgs, Fresh(n), calls).streams[k].sent;
    ClockedInOrder(cfgs[k], sent);
    if Assignment(cfgs[k].forcing.pts, Clocked(cfgs[k], sent), |sent|, chosen) {
      ServingIsOptimal(cfgs[k].forcing.pts, Clocked(cfgs[k], sent), |sent|, chosen);
    }
  }

  /** And forced are exactly the frames whose turn it is to serve a time: the first not before it, but
      behind the frame that served the time ahead of it. */
  lemma ForcedAtTurns(cfgs: seq<Config>, n: nat, calls: seq<Call>, k: nat, i: nat)
    requires k < n && k < |cfgs| && TimesMode(cfgs[k].forcing) && Unhindered(cfgs, calls)
    requires (cfgs[k].vsync.Cfr? || cfgs[k].vsync.Vscfr? || cfgs[k].vsync.Vfr?) && cfgs[k].tick >= 0.0
    ensures var w := RunCalls(cfgs, Fresh(n), calls);
            && |w.streams| == n
            && var sent, pts := w.streams[k].sent, cfgs[k].forcing.pts;
            && (i < |sent| ==> (sent[i].forced <==> exists j :: 0 <= j < |pts| && TurnOf(pts, Clocked(cfgs[k], sent), j) == i))
  {
    ForcedAreServing(cfgs, n, calls, k);
    EncodedPts(cfgs, n, calls, k);
    var sent := RunCalls(cfgs, Fresh(n), calls).streams[k].sent;
    ClockedInOrder(cfgs[k], sent);
    if i < |sent| {
      ServingTurn(cfgs[k].forcing.pts, Clocked(cfgs[k], sent), i);
    }
  }

  /** Every time forces the first frame encoded that is not before it, in every sync mode. */
  lemma FirstFramesForced(cfgs: seq<Config>, n: nat, calls: seq<Call>, k: nat, j: nat)
    requires k < n && k < |cfgs| && TimesMode(cfgs[k].forcing) && Unhindered(cfgs, calls)
    requires SortedTimes(cfgs[k].forcing.pts) && j < |cfgs[k].forcing.pts|
    ensures var w := RunCalls(cfgs, Fresh(n), calls);
            && |w.streams| == n
            && var sent := w.streams[k].sent;
               var first := FirstFor(cfgs[k].forcing.pts, Clocked(cfgs[k], sent), j);
            && (first < |sent| ==> sent[first].forced)
  {
    ForcedAreServing(cfgs, n, calls, k);
    FirstIsForced(cfgs[k].forcing.pts, Clocked(cfgs[k], RunCalls(cfgs, Fresh(n), calls).streams[k].sent), j);
  }

  /** In the pacing modes a frame is forced if and only if it is the first for some time or more times
      came due before it than there were frames to serve them. */
  lemma ForcedFramesExactly(cfgs: seq<Config>, n: nat, calls: seq<Call>, k: nat, i: nat)
    requires k < n && k < |cfgs| && TimesMode(cfgs[k].forcing) && Unhindered(cfgs, calls)
    requires (cfgs[k].vsync.Cfr? || cfgs[k].vsync.Vscfr? || cfgs[k].vsync.Vfr?) && cfgs[k].tick >= 0.0
    requires SortedTimes(cfgs[k].forcing.pts)
    ensures var w := RunCalls(cfgs, Fresh(n), calls);
            && |w.streams| == n
            && var sent, pts := w.streams[k].sent, cfgs[k].forcing.pts;
               var times := Clocked(cfgs[k], sent);
            && (i < |sent| ==> (sent[i].forced <==> FirstForSome(pts, times, i) || Backlog(pts, times, i)))
  {
    ForcedAreServing(cfgs, n, calls, k);
    EncodedPts(cfgs, n, calls, k);
    var sent := RunCalls(cfgs, Fresh(n), calls).streams[k].sent;
    ClockedInOrder(cfgs[k], sent);
    if i < |sent| {
      ForcedExactly(cfgs[k].forcing.pts, Clocked(cfgs[k], sent), i);
    }
  }

  function Ticks(sent: seq<Sent>): (ticks: seq<int>)
    ensures |ticks| == |sent|
  {
    seq(|sent|, i requires 0 <= i < |sent| => sent[i].pts)
  }

  /** The frame the manual means by a time is the first one not before it, except where a frame was
      encoded at the nearest tick and the time lies behind that tick. */
  lemma RoundingAgreesInRuns(cfgs: seq<Config>, n: nat, calls: seq<Call>, k: nat, j: nat)
    requires k < n && k < |cfgs| && j < |cfgs[k].forcing.pts| && cfgs[k].tick > 0.0
    requires cfgs[k].vsync.Cfr? || cfgs[k].vsync.Vscfr? || cfgs[k].vsync.Vfr?
    ensures var w := RunCalls(cfgs, Fresh(n), calls);
            && |w.streams| == n
            && var sent, pts, tick := w.streams[k].sent, cfgs[k].forcing.pts, cfgs[k].tick;
               var q := NearestTick(pts[j], tick);
            && (FirstRounded(pts[j], Ticks(sent), tick) == FirstFor(pts, Clocked(cfgs[k], sent), j) <==>
                  !(q in Ticks(sent) && TimeOfTick(q, tick) < pts[j] as real))
  {
    EncodedPts(cfgs, n, calls, k);
    RoundingAgreesFor(cfgs[k], RunCalls(cfgs, Fresh(n), calls).streams[k].sent, j);
  }

  lemma RoundingAgreesFor(cfg: Config, sent: seq<Sent>, j: nat)
    requires j < |cfg.forcing.pts| && cfg.tick > 0.0 && Increasing(sent)
    ensures var pts, tick := cfg.forcing.pts, cfg.tick;
            var q := NearestTick(pts[j], tick);
            FirstRounded(pts[j], Ticks(sent), tick) == FirstFor(pts, Clocked(cfg, sent), j) <==>
              !(q in Ticks(sent) && TimeOfTick(q, tick) < pts[j] as real)
  {
    ClockedInOrder(cfg, sent);
    assert Clocked(cfg, sent) == OnTicks(Ticks(sent), cfg.tick);
    RoundingAgreesIff(cfg.forcing.pts[j], Ticks(sent), cfg.tick);
  }

  // ----- two runs of two frames -----

  function Listed(pts: seq<int>): Config {
    Config(Cfr, 0.0, 10.0, None, Forcing(pts, Times, None), 40000.0)
  }

  function Arrives(id: int): Call {
    Call(0, Some(Picture(Shot(id, false), id as real, 1.0)), [])
  }

  /** After `calls` each of `n` frames was shown once. */
  predicate Stands(pts: seq<int>, calls: seq<Call>, s: StreamState, n: nat) {
    var w := RunCalls([Listed(pts)], Fresh(1), calls);
    && !w.exited && w.streams == [s]
    && s.nextPts == n && |s.sent| == n && !s.finished && !s.lastDropped
    && forall i :: 0 <= i < n ==> s.sent[i].pts == i
  }

  lemma AtStart(pts: seq<int>)
    ensures Stands(pts, [], FRESH_STREAM, 0)
  {
    assert Fresh(1).streams == [FRESH_STREAM];
  }

  /** One more frame of one tick. */
  lemma ShownOnce(pts: seq<int>, calls: seq<Call>, s: StreamState, n: nat) returns (s': StreamState)
    requires Stands(pts, calls, s, n)
    ensures Stands(pts, calls + [Arrives(n)], s', n + 1)
  {
    var c := Arrives(n);
    s' := VideoOut(Listed(pts), s, c.next, []).state;
    OnTime(pts, s, n);
    FullCall(Listed(pts), s, c.next, []);
    OneMoreCall(Listed(pts), calls, s, c);
    assert Shows(s'.sent[n], s.held, c.next, 0, 0, n);
  }

  lemma OnTime(pts: seq<int>, s: StreamState, n: nat)
    requires s.nextPts == n
    ensures PlanCopies(Listed(pts), s, Arrives(n).next) == Decision(1, 0, n)
  {
  }

  function Arriving(n: nat): seq<Call> {
    if n == 0 then [] else Arriving(n - 1) + [Arrives(n - 1)]
  }

  lemma {:induction false} AllShown(pts: seq<int>, n: nat) returns (s: StreamState)
    ensures Stands(pts, Arriving(n), s, n) && Unhindered([Listed(pts)], Arriving(n))
  {
    if n == 0 {
      AtStart(pts);
      s := FRESH_STREAM;
    } else {
      var before := AllShown(pts, n - 1);
      s := ShownOnce(pts, Arriving(n - 1), before, n - 1);
    }
  }

  lemma TwoTimes(pts: seq<int>, n: nat) returns (s: StreamState)
    requires n == 2
    ensures var w := RunCalls([Listed(pts)], Fresh(1), Arriving(n));
            w.streams == [s] && |s.sent| == 2 && s.sent[0].pts == 0 && s.sent[1].pts == 1 && Serves(Listed(pts), s) && Clocked(Listed(pts), s.sent) == [0.0, 40000.0]
  {
    s := AllShown(pts, n);
    ForcedAreServing([Listed(pts)], 1, Arriving(n), 0);
  }

  lemma SharedFirst()
    ensures var times := [0.0, 40000.0];
            && ServedBy([0, 0], times, 0) == 0 && ServedBy([0, 0], times, 1) == 1 && ServedBy([0, 0], times, 2) == 2
            && FirstFor([0, 0], times, 0) == FirstFor([0, 0], times, 1) == 0
  {
    var times := [0.0, 40000.0];
    assert ServedBy([0, 0], times, 1) == Served([0, 0], 0, 0.0);
    assert ServedBy([0, 0], times, 2) == Served([0, 0], 1, 40000.0);
  }

  /** The same time given twice forces two frames, the second of which is first for no time. */
  lemma SharedFirstForcesTwo(n: nat)
    requires n == 2
    ensures var w := RunCalls([Listed([0, 0])], Fresh(1), Arriving(n));
            && |w.streams| == 1 && |w.streams[0].sent| == 2
            && w.streams[0].sent[0].forced && w.streams[0].sent[1].forced
            && !FirstForSome([0, 0], Clocked(Listed([0, 0]), w.streams[0].sent), 1)
  {
    var s := TwoTimes([0, 0], n);
    BothServe(s);
  }

  lemma BothServe(s: StreamState)
    requires Serves(Listed([0, 0]), s) && |s.sent| == 2 && Clocked(Listed([0, 0]), s.sent) == [0.0, 40000.0]
    ensures s.sent[0].forced && s.sent[1].forced && !FirstForSome([0, 0], Clocked(Listed([0, 0]), s.sent), 1)
  {
    SharedFirst();
  }

  lemma Rounded()
    ensures var times := [0.0, 40000.0];
            && ServedBy([10000], times, 0) == ServedBy([10000], times, 1) == 0 && ServedBy([10000], times, 2) == 1
            && FirstRounded(10000, [0, 1], 40000.0) == 0
  {
    var times := [0.0, 40000.0];
    assert ServedBy([10000], times, 1) == Served([10000], 0, 0.0);
    assert ServedBy([10000], times, 2) == Served([10000], 0, 40000.0);
    assert 10000.0 / 40000.0 == 0.25;
    assert NearestTick(10000, 40000.0) == 0;
    assert OnTicks([0, 1], 40000.0)[0] == 0.0;
  }

  /** A time a quarter of a tick behind a frame: the manual rounds it to that frame, and the code
      forces the next one. */
  lemma RoundingForcesAnother(n: nat)
    requires n == 2
    ensures var w := RunCalls([Listed([10000])], Fresh(1), Arriving(n));
            && |w.streams| == 1 && |w.streams[0].sent| == 2
            && w.streams[0].sent[0].pts == 0 && w.streams[0].sent[1].pts == 1
            && !w.streams[0].sent[0].forced && w.streams[0].sent[1].forced
            && FirstRounded(10000, [0, 1], 40000.0) == 0
  {
    var s := TwoTimes([10000], n);
    SecondServes(s);
    Rounded();
  }

  lemma SecondServes(s: StreamState)
    requires Serves(Listed([10000]), s) && |s.sent| == 2 && Clocked(Listed([10000]), s.sent) == [0.0, 40000.0]
    ensures !s.sent[0].forced && s.sent[1].forced
  {
    Rounded();
  }
}
