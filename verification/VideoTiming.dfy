/** When frames are shown: the output clock against the input, and the order of what is encoded. */
module VideoTiming {
  import opened Numbers
  import opened Options
  import opened VideoSync
  import opened VideoConservation

  // ----- drift of the constant-rate modes -----

  function EndOf(pic: Picture): real {
    pic.syncIpts + pic.duration
  }

  /** How far the input's end is ahead of the output clock. */
  function Lag(s: StreamState, pic: Picture): real {
    EndOf(pic) - s.nextPts as real
  }

  function RMax(a: real, b: real): real {
    if a < b then b else a
  }

  /** The pacing rule the constant-rate drift bound is about. */
  predicate Pacing(cfg: Config, s: StreamState) {
    cfg.vsync.Cfr? || (cfg.vsync.Vscfr? && s.frameNumber != 0)
  }

  /** The call was carried out in full. */
  predicate Complete(o: Outcome) {
    !o.oversize && o.accepted == o.wanted
  }

  /** One call: the upper bound always holds, the lower one is kept while frame ends do not go back. */
  lemma DriftStep(cfg: Config, s: StreamState, pic: Picture, enc: seq<Answer>, lastEnd: real)
    requires Pacing(cfg, s) && pic.duration >= 0.0
    requires Complete(VideoOut(cfg, s, Some(pic), enc))
    ensures var s' := VideoOut(cfg, s, Some(pic), enc).state;
            && Lag(s', pic) <= RMax(0.5, cfg.dropThreshold)
            && (-2.1 <= lastEnd - s.nextPts as real && lastEnd <= EndOf(pic) ==> -2.1 <= Lag(s', pic))
  {
    CarryGrows(cfg, s, Some(pic), PlanCopies(cfg, s, Some(pic)), enc);
  }

  /** A frame converted in full: `s'` is the stream after it. */
  predicate Follows(cfg: Config, s: StreamState, pic: Picture, enc: seq<Answer>, s': StreamState) {
    && pic.duration >= 0.0
    && Complete(VideoOut(cfg, s, Some(pic), enc))
    && s' == VideoOut(cfg, s, Some(pic), enc).state
  }

  /** A stretch of a stream's life without flush: `states[n]` is the stream before frame `n`. */
  predicate Stretch(cfg: Config, pics: seq<Picture>, encs: seq<seq<Answer>>, states: seq<StreamState>) {
    && |encs| == |pics| && |states| == |pics| + 1
    && forall n :: 0 <= n < |pics| ==> Follows(cfg, states[n], pics[n], encs[n], states[n + 1])
  }

  predicate EndsAdvance(pics: seq<Picture>) {
    forall i, j :: 0 <= i <= j < |pics| ==> EndOf(pics[i]) <= EndOf(pics[j])
  }

  /** In a constant-rate stretch the clock never falls more than half a tick (or the drop
      threshold) behind the input. */
  lemma DriftAbove(cfg: Config, pics: seq<Picture>, encs: seq<seq<Answer>>, states: seq<StreamState>, n: nat)
    requires cfg.vsync.Cfr? && Stretch(cfg, pics, encs, states) && n < |pics|
    ensures Lag(states[n + 1], pics[n]) <= RMax(0.5, cfg.dropThreshold)
  {
    assert Follows(cfg, states[n], pics[n], encs[n], states[n + 1]);
    DriftStep(cfg, states[n], pics[n], encs[n], 0.0);
  }

  /** Once at most 2.1 ticks ahead, and while frame ends do not go back, it stays so. */
  lemma {:induction false} DriftBelow(cfg: Config, pics: seq<Picture>, encs: seq<seq<Answer>>, states: seq<StreamState>, m: nat, n: nat)
    requires cfg.vsync.Cfr? && Stretch(cfg, pics, encs, states) && EndsAdvance(pics) && m <= n < |pics|
    requires -2.1 <= Lag(states[m + 1], pics[m])
    ensures -2.1 <= Lag(states[n + 1], pics[n])
    decreases n
  {
    if m == n {
    } else {
      DriftBelow(cfg, pics, encs, states, m, n - 1);
      assert Follows(cfg, states[n], pics[n], encs[n], states[n + 1]);
      DriftStep(cfg, states[n], pics[n], encs[n], EndOf(pics[n - 1]));
    }
  }

  lemma ClockCountsStep(cfg: Config, s: StreamState, pic: Picture, enc: seq<Answer>, s': StreamState)
    requires cfg.vsync.Cfr? && Follows(cfg, s, pic, enc, s')
    ensures s'.nextPts - s.nextPts == |s'.sent| - |s.sent|
  {
    CarryGrows(cfg, s, Some(pic), PlanCopies(cfg, s, Some(pic)), enc);
  }

  lemma {:induction false} ClockCountsFrames(cfg: Config, pics: seq<Picture>, encs: seq<seq<Answer>>, states: seq<StreamState>, n: nat)
    requires cfg.vsync.Cfr? && Stretch(cfg, pics, encs, states) && n <= |pics|
    ensures states[n].nextPts - states[0].nextPts == |states[n].sent| - |states[0].sent|
  {
    if n == 0 {
    } else {
      ClockCountsFrames(cfg, pics, encs, states, n - 1);
      ClockCountsStep(cfg, states[n - 1], pics[n - 1], encs[n - 1], states[n]);
    }
  }

  /** With the default threshold, the frames encoded over any part of such a stretch match the
      input time that went by to within 2.6 ticks. */
  lemma OutputFollowsInput(cfg: Config, pics: seq<Picture>, encs: seq<seq<Answer>>, states: seq<StreamState>, m: nat, n: nat)
    requires cfg.vsync.Cfr? && cfg.dropThreshold == 0.0
    requires Stretch(cfg, pics, encs, states) && EndsAdvance(pics) && m <= n < |pics|
    requires -2.1 <= Lag(states[m + 1], pics[m])
    ensures var frames := (|states[n + 1].sent| - |states[m + 1].sent|) as real;
            -2.6 <= frames - (EndOf(pics[n]) - EndOf(pics[m])) <= 2.6
  {
    DriftAbove(cfg, pics, encs, states, m);
    DriftAbove(cfg, pics, encs, states, n);
    DriftBelow(cfg, pics, encs, states, m, n);
    ClockCountsFrames(cfg, pics, encs, states, m + 1);
    ClockCountsFrames(cfg, pics, encs, states, n + 1);
  }

  /** The new frame itself is first shown in slot `nbFramesPrev`. In the constant-rate modes that is
      never more than 1.1 ticks before its time, and at least 0.1 before if older copies fill a gap. */
  lemma ShownNearStart(cfg: Config, s: StreamState, pic: Picture)
    requires Pacing(cfg, s) && pic.duration >= 0.0
    ensures var d := Decide(cfg, s.nextPts, s.frameNumber, pic);
            var early := pic.syncIpts - (d.nextPts + d.nbFramesPrev) as real;
            && (d.nbFrames > d.nbFramesPrev ==> early <= 1.1)
            && (d.nbFramesPrev > 0 ==> 0.1 <= early)
            && (d.nbFrames > 0 ==> -1.1 - pic.duration <= early)
  {
  }

  /** In the variable-rate mode a frame is shown within 0.6 ticks of its span. */
  lemma ShownWithinSpan(cfg: Config, s: StreamState, pic: Picture)
    requires cfg.vsync.Vfr? && pic.duration >= 0.0
    ensures var d := Decide(cfg, s.nextPts, s.frameNumber, pic);
            && (d.nbFrames == 1 ==> pic.syncIpts - 0.6 <= d.nextPts as real <= EndOf(pic) + 0.6)
            && (d.nbFrames == 0 <==> EndOf(pic) <= s.nextPts as real - 0.6)
  {
  }

  /** What a call in the variable-rate mode encodes, if anything, is the new frame, once: at most half a
      tick from the later of its start and the clock if it ends more than 0.6 ticks after the clock, and
      on the clock otherwise. */
  lemma ShownAtStart(cfg: Config, s: StreamState, pic: Picture, enc: seq<Answer>)
    requires cfg.vsync.Vfr? && pic.duration >= 0.0
    ensures var sent := VideoOut(cfg, s, Some(pic), enc).state.sent;
            && s.sent <= sent && |sent| <= |s.sent| + 1
            && (|sent| == |s.sent| + 1 ==>
                  var e := sent[|s.sent|];
                  && e.shot == pic.shot
                  && (EndOf(pic) - s.nextPts as real > 0.6 ==>
                        -0.5 <= e.pts as real - RMax(pic.syncIpts, s.nextPts as real) <= 0.5)
                  && (EndOf(pic) - s.nextPts as real <= 0.6 ==> e.pts == s.nextPts))
  {
    var d := PlanCopies(cfg, s, Some(pic));
    CarryGrows(cfg, s, Some(pic), d, enc);
    CarryEnds(cfg, s, Some(pic), d, enc);
  }

  /** How many copies the constant-rate modes plan: none exactly if the frame ends more than 1.1 ticks
      before the clock, or before the threshold; one up to 1.1 ticks after it; then as many as make up
      for it, to the nearest, the first of them copies of the old frame as far as the new one starts
      more than 1.1 ticks after the clock. */
  lemma ConstantRateCounts(cfg: Config, s: StreamState, pic: Picture)
    requires Pacing(cfg, s) && pic.duration >= 0.0
    ensures var d := Decide(cfg, s.nextPts, s.frameNumber, pic);
            var late := EndOf(pic) - s.nextPts as real;
            var drift := pic.syncIpts - s.nextPts as real;
            var early := late < -1.1 || (cfg.dropThreshold != 0.0 && late < cfg.dropThreshold && s.frameNumber != 0);
            && d.nextPts == s.nextPts
            && (d.nbFrames == 0 <==> early)
            && (d.nbFrames == 1 <== !early && late <= 1.1)
            && (!early && late > 1.1 ==> -0.5 <= d.nbFrames as real - late <= 0.5)
            && (early || late <= 1.1 || drift <= 1.1 ==> d.nbFramesPrev == 0)
            && (!early && late > 1.1 && drift > 1.1 ==> -0.5 <= d.nbFramesPrev as real - (drift - 0.6) <= 0.5)
  {
  }

  /** The first frame in the VSCFR mode sets the clock if it starts half a tick or more after it: to its
      start, to the nearest tick, with nothing shown before. */
  lemma FirstFrameSetsClock(cfg: Config, s: StreamState, pic: Picture)
    requires cfg.vsync.Vscfr? && s.frameNumber == 0 && pic.duration >= 0.0
    ensures var d := Decide(cfg, s.nextPts, 0, pic);
            if pic.syncIpts - s.nextPts as real >= 0.5 then
              && -0.5 <= d.nextPts as real - pic.syncIpts <= 0.5
              && d.nbFramesPrev == 0 && d.nbFrames >= 1
              && (pic.duration > 1.1 ==> -0.5 <= d.nbFrames as real - pic.duration <= 0.5)
              && (pic.duration <= 1.1 ==> d.nbFrames == 1)
            else
              d.nextPts == s.nextPts
  {
  }

  // ----- timestamps of the encoded frames -----

  predicate Increasing(sent: seq<Sent>) {
    forall i, j :: 0 <= i < j < |sent| ==> sent[i].pts < sent[j].pts
  }

  predicate Consecutive(sent: seq<Sent>) {
    forall i :: 0 <= i < |sent| ==> sent[i].pts == sent[0].pts + i
  }

  predicate OnClock(cfg: Config, s: StreamState) {
    && s.frameNumber == |s.sent|
    && (cfg.vsync.Cfr? || cfg.vsync.Vscfr? || cfg.vsync.Vfr? ==>
          Increasing(s.sent) && (s.sent != [] ==> s.sent[|s.sent| - 1].pts < s.nextPts))
    && (cfg.vsync.Cfr? || cfg.vsync.Vscfr? ==>
          Consecutive(s.sent) && (s.sent != [] ==> s.sent[|s.sent| - 1].pts == s.nextPts - 1))
  }

  lemma PlanNeverRewinds(cfg: Config, s: StreamState, next: Option<Picture>)
    ensures var d := PlanCopies(cfg, s, next);
            && (cfg.vsync.Cfr? || cfg.vsync.Vscfr? || cfg.vsync.Vfr? ==> s.nextPts <= d.nextPts)
            && (cfg.vsync.Cfr? || (cfg.vsync.Vscfr? && s.frameNumber != 0) ==> s.nextPts == d.nextPts)
  {
    if next.Some? && next.value.syncIpts >= s.nextPts as real {
      RintOfInt(s.nextPts);
      RintMonotone(s.nextPts as real, next.value.syncIpts);
    }
  }

  lemma CallKeepsClock(cfg: Config, s: StreamState, next: Option<Picture>, enc: seq<Answer>)
    requires OnClock(cfg, s)
    ensures OnClock(cfg, VideoOut(cfg, s, next, enc).state)
  {
    PlanNeverRewinds(cfg, s, next);
    var d := PlanCopies(cfg, s, next);
    CarryGrows(cfg, s, next, d, enc);
    GrowthKeepsClock(cfg, s, VideoOut(cfg, s, next, enc).state, next, d, VideoOut(cfg, s, next, enc).accepted);
  }

  lemma GrowthKeepsClock(cfg: Config, s: StreamState, s': StreamState, next: Option<Picture>, d: Decision, k: int)
    requires OnClock(cfg, s) && Grown(s, s', next, d.nbFramesPrev, d.nextPts, k)
    requires cfg.vsync.Cfr? || cfg.vsync.Vscfr? || cfg.vsync.Vfr? ==> s.nextPts <= d.nextPts
    requires cfg.vsync.Cfr? || (cfg.vsync.Vscfr? && s.frameNumber != 0) ==> s.nextPts == d.nextPts
    ensures OnClock(cfg, s')
  {
  }

  lemma {:induction false} RunKeepsClock(cfgs: seq<Config>, n: nat, calls: seq<Call>, k: nat)
    requires k < n && k < |cfgs|
    ensures var w := RunCalls(cfgs, Fresh(n), calls); |w.streams| == n && OnClock(cfgs[k], w.streams[k])
  {
    if calls == [] {
    } else {
      var m := |calls| - 1;
      RunKeepsClock(cfgs, n, calls[..m], k);
      var w := RunCalls(cfgs, Fresh(n), calls[..m]);
      if calls[m].stream == k {
        CallKeepsClock(cfgs[k], w.streams[k], calls[m].next, calls[m].enc);
      }
    }
  }

  /** For arbitrary input times and every behaviour of the encoder: encoded timestamps strictly
      increase in the three pacing modes, and are consecutive integers in the constant-rate ones. */
  lemma EncodedPts(cfgs: seq<Config>, n: nat, calls: seq<Call>, k: nat)
    requires k < n && k < |cfgs|
    ensures var w := RunCalls(cfgs, Fresh(n), calls);
            && |w.streams| == n
            && (cfgs[k].vsync.Vfr? || cfgs[k].vsync.Cfr? || cfgs[k].vsync.Vscfr? ==> Increasing(w.streams[k].sent))
            && (cfgs[k].vsync.Cfr? || cfgs[k].vsync.Vscfr? ==> Consecutive(w.streams[k].sent))
  {
    RunKeepsClock(cfgs, n, calls, k);
  }

  /** The two other modes pass every frame on once, with its own rounded time. */
  lemma PassthroughIsTransparent(cfg: Config, s: StreamState, pic: Picture, enc: seq<Answer>)
    requires cfg.vsync.Passthrough? || cfg.vsync.Drop?
    requires cfg.recordingEnd.None? && !s.lastDropped && Willing(enc)
    ensures var o := VideoOut(cfg, s, Some(pic), enc);
            && |o.state.sent| == |s.sent| + 1
            && o.state.sent == s.sent + [Sent(pic.shot, Rint(pic.syncIpts), 0, o.state.sent[|s.sent|].forced)]
            && o.dup == 0 && o.drop == 0 && !o.state.lastDropped
  {
    var d := Decision(1, 0, Rint(pic.syncIpts));
    assert PlanCopies(cfg, s, Some(pic)) == d;
    var planned := Marked(Advanced(s, d), Some(pic), 1, 0);
    var fed := AfterSlot(cfg, planned, Some(pic), 0, 0, Done);
    assert Feed(cfg, planned, Some(pic), 1, 0, enc, 0).state == Feed(cfg, fed, Some(pic), 1, 0, enc, 1).state;
  }

  // ----- the order of the frames -----

  predicate Sorted(sent: seq<Sent>) {
    forall i, j :: 0 <= i <= j < |sent| ==> sent[i].shot.id <= sent[j].shot.id
  }

  /** Nothing shown is newer than the frame held, unless the recording is over. */
  predicate InOrder(cfg: Config, s: StreamState, newest: int) {
    && Sorted(s.sent)
    && (forall e :: e in s.sent ==> e.shot.id <= newest)
    && (s.held.Some? ==>
          && s.held.value.id <= newest
          && ((forall e :: e in s.sent ==> e.shot.id <= s.held.value.id) || (s.finished && PastEnd(cfg, s.nextPts))))
  }

  lemma CallKeepsOrder(cfg: Config, s: StreamState, next: Option<Picture>, enc: seq<Answer>, newest: int)
    requires InOrder(cfg, s, newest)
    requires next.Some? ==> newest < next.value.shot.id && !s.finished
    ensures !VideoOut(cfg, s, next, enc).exited ==> InOrder(cfg, VideoOut(cfg, s, next, enc).state, if next.Some? then next.value.shot.id else newest)
  {
    var d := PlanCopies(cfg, s, next);
    var o := VideoOut(cfg, s, next, enc);
    CarryGrows(cfg, s, next, d, enc);
    CarryEnds(cfg, s, next, d, enc);
    if !o.exited {
      GrowthKeepsOrder(cfg, s, o.state, next, d, o.accepted, newest);
    }
  }

  /** How a call may leave the held frame, and when it shows nothing. */
  predicate Rests(cfg: Config, s: StreamState, s': StreamState, next: Option<Picture>, k: int) {
    && (s.finished ==> s'.finished)
    && (next.None? && s.held.None? ==> k == 0)
    && (s'.held == (if next.Some? then Some(next.value.shot) else None)
        || (s'.held == s.held && (k == 0 || (s'.finished && PastEnd(cfg, s'.nextPts)))))
    && (next.None? && PastEnd(cfg, s.nextPts) ==> k == 0)
  }

  lemma CarryEnds(cfg: Config, s: StreamState, next: Option<Picture>, d: Decision, enc: seq<Answer>)
    requires next.None? ==> d.nextPts == s.nextPts && d.nbFramesPrev == d.nbFrames
    ensures var o := Carry(cfg, s, next, d, enc);
            && o.accepted <= Max(0, d.nbFrames)
            && (!o.exited ==> Rests(cfg, s, o.state, next, o.accepted))
  {
    var planned := Marked(Advanced(s, d), next, d.nbFrames, d.nbFramesPrev);
    FeedCounts(cfg, planned, next, d.nbFrames, d.nbFramesPrev, enc, 0);
    FeedEnds(cfg, planned, next, d.nbFrames, d.nbFramesPrev, enc, 0);
  }

  lemma GrowthKeepsOrder(cfg: Config, s: StreamState, s': StreamState, next: Option<Picture>, d: Decision, k: int, newest: int)
    requires InOrder(cfg, s, newest)
    requires Grown(s, s', next, d.nbFramesPrev, d.nextPts, k) && Rests(cfg, s, s', next, k)
    requires next.Some? ==> newest < next.value.shot.id && !s.finished
    requires next.None? ==> d.nextPts == s.nextPts && k <= Max(0, d.nbFramesPrev)
    ensures InOrder(cfg, s', if next.Some? then next.value.shot.id else newest)
  {
  }

  /** What each way of stopping says about the stream it leaves. */
  lemma {:induction false} FeedEnds(cfg: Config, s: StreamState, next: Option<Picture>, nb: int, prev: int, enc: seq<Answer>, i: int)
    ensures var f := Feed(cfg, s, next, nb, prev, enc, i);
            && (f.ending.RecordingOver? ==> f.state.finished && PastEnd(cfg, f.state.nextPts))
            && (f.ending.NoPicture? ==> next.None? && (s.held.None? || prev <= i + f.accepted))
            && (s.finished ==> f.state.finished)
            && (next.None? && s.held.None? ==> f.accepted == 0)
            && (PastEnd(cfg, s.nextPts) ==> f.accepted == 0)
    decreases nb - i
  {
    if i >= nb || !Slot(cfg, s, next, prev, enc, i).Done? {
    } else {
      FeedEnds(cfg, AfterSlot(cfg, s, next, prev, i, Done), next, nb, prev, enc, i + 1);
    }
  }

  /** The id of the last frame offered to stream `k`, or `base` before the first. */
  function LastId(calls: seq<Call>, k: nat, base: int): int {
    if calls == [] then base
    else
      var c := calls[|calls| - 1];
      if c.stream == k && c.next.Some? then c.next.value.shot.id else LastId(calls[..|calls| - 1], k, base)
  }

  /** Stream `k` is offered frames with rising ids. */
  predicate IdsRise(calls: seq<Call>, k: nat, base: int) {
    forall i :: 0 <= i < |calls| && calls[i].stream == k && calls[i].next.Some? ==>
      LastId(calls[..i], k, base) < calls[i].next.value.shot.id
  }

  /** Whatever is duplicated, dropped or refused, the encoder sees each stream's frames in input order. */
  lemma {:induction false} EncodedInInputOrder(cfgs: seq<Config>, n: nat, calls: seq<Call>, k: nat, base: int)
    requires k < n && k < |cfgs| && IdsRise(calls, k, base)
    ensures var w := RunCalls(cfgs, Fresh(n), calls);
            && |w.streams| == n
            && (!w.exited ==> InOrder(cfgs[k], w.streams[k], LastId(calls, k, base)))
  {
    if calls == [] {
    } else {
      var m := |calls| - 1;
      forall i | 0 <= i < m
        ensures calls[..m][..i] == calls[..i]
      {
      }
      EncodedInInputOrder(cfgs, n, calls[..m], k, base);
      var w := RunCalls(cfgs, Fresh(n), calls[..m]);
      var c := calls[m];
      if c.stream == k && !w.exited && !(c.next.Some? && w.streams[k].finished) {
        CallKeepsOrder(cfgs[k], w.streams[k], c.next, c.enc, LastId(calls[..m], k, base));
      }
    }
  }
}
