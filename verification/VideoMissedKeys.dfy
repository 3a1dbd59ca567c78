/** Two runs in which a key frame of the source forces nothing. */
module VideoMissedKeys {
  import opened Options
  import opened ForcedKeyframes
  import opened VideoSync
  import opened VideoConservation
  import opened VideoKeyframes

  function Cfg(f: Forcing): Config {
    Config(Cfr, 0.0, 10.0, None, f, 40000.0)
  }

  function FrameCall(id: int, key: bool, start: real, length: real): Call {
    Call(0, Some(Picture(Shot(id, key), start, length)), [])
  }

  /** After `calls` the only stream is in state `s`. */
  predicate Stands(f: Forcing, calls: seq<Call>, s: StreamState) {
    var w := RunCalls([Cfg(f)], Fresh(1), calls);
    !w.exited && w.streams == [s] && !s.finished && SlotForces(s.sent)
  }

  lemma AtStart(f: Forcing)
    ensures Stands(f, [], FRESH_STREAM)
  {
    assert Fresh(1).streams == [FRESH_STREAM];
  }

  /** One more frame, shown as planned. */
  lemma OneMore(f: Forcing, calls: seq<Call>, s: StreamState, c: Call, d: Decision) returns (s': StreamState)
    requires SourceMode(f) && Stands(f, calls, s) && c.stream == 0 && c.enc == [] && c.next.Some?
    requires PlanCopies(Cfg(f), s, c.next) == d && 0 <= d.nbFrames <= 300
    ensures Stands(f, calls + [c], s')
    ensures Grown(s, s', c.next, d.nbFramesPrev, d.nextPts, d.nbFrames)
    ensures s'.held == Some(c.next.value.shot) && s'.lastDropped == (d.nbFrames == d.nbFramesPrev)
  {
    s' := VideoOut(Cfg(f), s, c.next, []).state;
    FullCall(Cfg(f), s, c.next, []);
    CallForces(Cfg(f), s, c.next, []);
    OneMoreCall(Cfg(f), calls, s, c);
  }

  /** `n` entries of the log from the `i`-th on show the same frame. */
  predicate Only(sent: seq<Sent>, i: nat, n: nat, shot: Shot) {
    i + n <= |sent| && forall j :: i <= j < i + n ==> sent[j].shot == shot
  }

  /** What a call shows, if it shows the new frame only. */
  lemma ShowsNew(s: StreamState, s': StreamState, next: Option<Picture>, base: int, n: nat)
    requires Grown(s, s', next, 0, base, n) && next.Some?
    ensures |s'.sent| == |s.sent| + n && s.sent <= s'.sent && s'.nextPts == base + n
    ensures Only(s'.sent, |s.sent|, n, next.value.shot)
  {
    forall j | |s.sent| <= j < |s'.sent|
      ensures s'.sent[j].shot == next.value.shot
    {
      assert Shows(s'.sent[j], s.held, next, 0, j - |s.sent|, base + j - |s.sent|);
    }
  }

  lemma KeyOfSecond(calls: seq<Call>)
    requires |calls| >= 2 && calls[1].stream == 0 && calls[1].next.Some? && calls[1].next.value.shot == Shot(2, true)
    ensures 2 in KeyIds(calls, 0)
    decreases |calls|
  {
    if |calls| > 2 {
      KeyOfSecond(calls[..|calls| - 1]);
    }
  }

  // ----- a dropped key frame -----

  const LONG := FrameCall(1, false, 0.0, 4.0)
  const LATE_KEY := FrameCall(2, true, 2.0, 0.5)
  const AFTER := FrameCall(3, false, 3.0, 1.0)

  lemma LongPlan(f: Forcing)
    ensures PlanCopies(Cfg(f), FRESH_STREAM, LONG.next) == Decision(4, 0, 0)
  {
  }

  lemma LatePlan(f: Forcing, s: StreamState)
    requires s.nextPts == 4
    ensures PlanCopies(Cfg(f), s, LATE_KEY.next) == Decision(0, 0, 4)
    ensures PlanCopies(Cfg(f), s, AFTER.next) == Decision(1, 0, 4)
  {
  }

  /** The first frame is shown four times. */
  lemma LongRun(f: Forcing) returns (s: StreamState)
    requires SourceMode(f)
    ensures Stands(f, [] + [LONG], s)
    ensures |s.sent| == 4 && Only(s.sent, 0, 4, Shot(1, false)) && s.nextPts == 4
  {
    AtStart(f);
    LongPlan(f);
    s := OneMore(f, [], FRESH_STREAM, LONG, Decision(4, 0, 0));
    ShowsNew(FRESH_STREAM, s, LONG.next, 0, 4);
  }

  /** A key frame that ends more than 1.1 ticks before the clock is not shown. */
  lemma LateRun(f: Forcing, calls: seq<Call>, s: StreamState) returns (s': StreamState)
    requires SourceMode(f) && Stands(f, calls, s) && s.nextPts == 4
    ensures Stands(f, calls + [LATE_KEY], s')
    ensures s'.sent == s.sent && s'.nextPts == 4
  {
    LatePlan(f, s);
    s' := OneMore(f, calls, s, LATE_KEY, Decision(0, 0, 4));
    ShowsNew(s, s', LATE_KEY.next, 4, 0);
  }

  /** For the next frame there is just room. */
  lemma AfterRun(f: Forcing, calls: seq<Call>, s: StreamState) returns (s': StreamState)
    requires SourceMode(f) && Stands(f, calls, s) && s.nextPts == 4
    ensures Stands(f, calls + [AFTER], s')
    ensures |s'.sent| == |s.sent| + 1 && s.sent <= s'.sent && s'.sent[|s.sent|].shot == Shot(3, false)
  {
    LatePlan(f, s);
    s' := OneMore(f, calls, s, AFTER, Decision(1, 0, 4));
    ShowsNew(s, s', AFTER.next, 4, 1);
  }

  lemma DropRun(f: Forcing) returns (s: StreamState)
    requires SourceMode(f)
    ensures Stands(f, [] + [LONG] + [LATE_KEY] + [AFTER], s)
    ensures |s.sent| == 5 && Only(s.sent, 0, 4, Shot(1, false)) && s.sent[4].shot == Shot(3, false)
  {
    var s1 := LongRun(f);
    var s2 := LateRun(f, [] + [LONG], s1);
    s := AfterRun(f, [] + [LONG] + [LATE_KEY], s2);
  }

  /** The key frame is dropped, and the frame after it is not forced in its place. */
  lemma DroppedKeyForcesNothing(f: Forcing)
    requires SourceMode(f)
    ensures var calls := [LONG, LATE_KEY, AFTER];
            var w := RunCalls([Cfg(f)], Fresh(1), calls);
            && w.streams != [] && |w.streams[0].sent| == 5
            && w.streams[0].sent[4].shot.id == 3 && (forall e :: e in w.streams[0].sent ==> !e.forced && e.shot.id != 2)
            && 2 in KeyIds(calls, 0) && !EveryKeyForces(KeyIds(calls, 0), w.streams[0].sent)
  {
    var s := DropRun(f);
    assert [] + [LONG] + [LATE_KEY] + [AFTER] == [LONG, LATE_KEY, AFTER];
    KeyOfSecond([LONG, LATE_KEY, AFTER]);
    KeyIsForgotten(s.sent, KeyIds([LONG, LATE_KEY, AFTER], 0));
  }

  lemma KeyIsForgotten(sent: seq<Sent>, keys: set<int>)
    requires |sent| == 5 && Only(sent, 0, 4, Shot(1, false)) && sent[4].shot == Shot(3, false)
    requires SlotForces(sent) && 2 in keys
    ensures (forall e :: e in sent ==> !e.forced && e.shot.id != 2) && !EveryKeyForces(keys, sent)
  {
    assert FirstFrom(sent, 4, 2) && !sent[4].forced;
  }

  // ----- a key frame behind a copy -----

  const SHORT := FrameCall(1, false, 0.0, 1.0)
  const GAP_KEY := FrameCall(2, true, 3.0, 1.0)

  lemma ShortPlan(f: Forcing)
    ensures PlanCopies(Cfg(f), FRESH_STREAM, SHORT.next) == Decision(1, 0, 0)
  {
  }

  lemma GapPlan(f: Forcing, s: StreamState)
    requires s.nextPts == 1
    ensures PlanCopies(Cfg(f), s, GAP_KEY.next) == Decision(3, 1, 1)
  {
  }

  /** What a call shows, if it shows one copy of the frame held and two of the new one. */
  lemma ShowsBoth(s: StreamState, s': StreamState, next: Option<Picture>, base: int)
    requires Grown(s, s', next, 1, base, 3) && next.Some? && s.held.Some?
    ensures |s'.sent| == |s.sent| + 3 && s.sent <= s'.sent
    ensures Only(s'.sent, |s.sent|, 1, s.held.value) && Only(s'.sent, |s.sent| + 1, 2, next.value.shot)
    ensures s'.sent[|s.sent| + 1].slot == 1 && s'.sent[|s.sent| + 2].slot == 2
  {
    var n := |s.sent|;
    assert Shows(s'.sent[n], s.held, next, 1, 0, base);
    assert Shows(s'.sent[n + 1], s.held, next, 1, 1, base + 1);
    assert Shows(s'.sent[n + 2], s.held, next, 1, 2, base + 2);
  }

  /** The first frame is shown once. */
  lemma ShortRun(f: Forcing) returns (s: StreamState)
    requires SourceMode(f)
    ensures Stands(f, [] + [SHORT], s)
    ensures |s.sent| == 1 && Only(s.sent, 0, 1, Shot(1, false)) && s.nextPts == 1 && s.held == Some(Shot(1, false))
  {
    AtStart(f);
    ShortPlan(f);
    s := OneMore(f, [], FRESH_STREAM, SHORT, Decision(1, 0, 0));
    ShowsNew(FRESH_STREAM, s, SHORT.next, 0, 1);
  }

  /** Behind a gap, a copy of the frame before fills the first slot, and the key frame comes second. */
  lemma GapKeyRun(f: Forcing, calls: seq<Call>, s: StreamState) returns (s': StreamState)
    requires SourceMode(f) && Stands(f, calls, s) && s.nextPts == 1 && s.held.Some?
    ensures Stands(f, calls + [GAP_KEY], s')
    ensures |s'.sent| == |s.sent| + 3 && s.sent <= s'.sent
    ensures Only(s'.sent, |s.sent|, 1, s.held.value) && Only(s'.sent, |s.sent| + 1, 2, Shot(2, true))
    ensures s'.sent[|s.sent| + 1].slot != 0 && s'.sent[|s.sent| + 2].slot != 0
  {
    GapPlan(f, s);
    s' := OneMore(f, calls, s, GAP_KEY, Decision(3, 1, 1));
    ShowsBoth(s, s', GAP_KEY.next, 1);
  }

  lemma GapRun(f: Forcing) returns (s: StreamState)
    requires SourceMode(f)
    ensures Stands(f, [] + [SHORT] + [GAP_KEY], s)
    ensures |s.sent| == 4 && Only(s.sent, 0, 2, Shot(1, false)) && Only(s.sent, 2, 2, Shot(2, true))
    ensures s.sent[2].slot != 0 && s.sent[3].slot != 0
  {
    var s1 := ShortRun(f);
    s := GapKeyRun(f, [] + [SHORT], s1);
    assert s.sent[0] == s1.sent[0] && s.sent[1].shot == Shot(1, false);
    assert s.sent[2].shot == Shot(2, true) && s.sent[3].shot == Shot(2, true);
  }

  /** The key frame is shown twice, and neither time forced. */
  lemma KeyBehindCopyIsNotForced(f: Forcing)
    requires SourceMode(f)
    ensures var calls := [SHORT, GAP_KEY];
            var w := RunCalls([Cfg(f)], Fresh(1), calls);
            && w.streams != [] && |w.streams[0].sent| == 4
            && w.streams[0].sent[2].shot == w.streams[0].sent[3].shot == Shot(2, true)
            && (forall e :: e in w.streams[0].sent ==> !e.forced)
            && !ShownKeysForced(KeyIds(calls, 0), w.streams[0].sent)
  {
    var s := GapRun(f);
    assert [] + [SHORT] + [GAP_KEY] == [SHORT, GAP_KEY];
    KeyOfSecond([SHORT, GAP_KEY]);
    KeyIsMissed(s.sent, KeyIds([SHORT, GAP_KEY], 0));
  }

  lemma KeyIsMissed(sent: seq<Sent>, keys: set<int>)
    requires |sent| == 4 && Only(sent, 0, 2, Shot(1, false)) && Only(sent, 2, 2, Shot(2, true))
    requires sent[2].slot != 0 && sent[3].slot != 0 && SlotForces(sent) && 2 in keys
    ensures (forall e :: e in sent ==> !e.forced) && !ShownKeysForced(keys, sent)
  {
    assert FirstFrom(sent, 2, 2) && !sent[2].forced;
  }
}
