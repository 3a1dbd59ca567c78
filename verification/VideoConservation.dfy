/** What the duplicate and drop counters mean, over every run of several streams. */
module VideoConservation {
  import opened Numbers
  import opened Options
  import opened VideoSync

  // ----- feeding -----

  lemma {:induction false} FeedCounts(cfg: Config, s: StreamState, next: Option<Picture>, nb: int, prev: int, enc: seq<Answer>, i: int)
    ensures var f := Feed(cfg, s, next, nb, prev, enc, i);
            && f.state == s.(nextPts := s.nextPts + f.accepted, frameNumber := s.frameNumber + f.accepted,
                             kf := f.state.kf, finished := f.state.finished, sent := f.state.sent)
            && (if f.ending.Done? then f.accepted == Max(0, nb - i) else f.accepted < nb - i)
            && |f.state.sent| == |s.sent| + f.accepted
    decreases nb - i
  {
    if i >= nb || !Slot(cfg, s, next, prev, enc, i).Done? {
    } else {
      FeedCounts(cfg, AfterSlot(cfg, s, next, prev, i, Done), next, nb, prev, enc, i + 1);
    }
  }

  /** `e` is the picture of slot `i`, shown at `pts`. */
  predicate Shows(e: Sent, held: Option<Shot>, next: Option<Picture>, prev: int, i: int, pts: int) {
    PictureAt(held, next, prev, i) == Some(e.shot) && e.pts == pts && e.slot == i
  }

  /** The closed form of the encoding loop: a block of consecutively numbered copies is appended. */
  lemma {:induction false} FeedAppends(cfg: Config, s: StreamState, next: Option<Picture>, nb: int, prev: int, enc: seq<Answer>, i: int)
    ensures var f := Feed(cfg, s, next, nb, prev, enc, i);
            && s.sent <= f.state.sent
            && (forall j :: |s.sent| <= j < |f.state.sent| ==>
                  Shows(f.state.sent[j], s.held, next, prev, i + j - |s.sent|, s.nextPts + j - |s.sent|))
    decreases nb - i
  {
    if i >= nb || !Slot(cfg, s, next, prev, enc, i).Done? {
    } else {
      FeedAppends(cfg, AfterSlot(cfg, s, next, prev, i, Done), next, nb, prev, enc, i + 1);
    }
  }

  /** `s'` is `s` after `k` accepted slots of a call whose clock starts at `base`. */
  predicate Grown(s: StreamState, s': StreamState, next: Option<Picture>, prev: int, base: int, k: int) {
    && s'.nextPts == base + k
    && s'.frameNumber == s.frameNumber + k
    && |s'.sent| == |s.sent| + k
    && s.sent <= s'.sent
    && (forall j :: |s.sent| <= j < |s'.sent| ==>
          Shows(s'.sent[j], s.held, next, prev, j - |s.sent|, base + j - |s.sent|))
  }

  lemma CarryGrows(cfg: Config, s: StreamState, next: Option<Picture>, d: Decision, enc: seq<Answer>)
    ensures var o := Carry(cfg, s, next, d, enc);
            Grown(s, o.state, next, d.nbFramesPrev, d.nextPts, o.accepted)
  {
    var planned := Marked(Advanced(s, d), next, d.nbFrames, d.nbFramesPrev);
    FeedCounts(cfg, planned, next, d.nbFrames, d.nbFramesPrev, enc, 0);
    FeedAppends(cfg, planned, next, d.nbFrames, d.nbFramesPrev, enc, 0);
  }

  /** Without a recording limit and with a willing encoder, only a missing picture stops the loop. */
  lemma {:induction false} FeedsAll(cfg: Config, s: StreamState, next: Option<Picture>, nb: int, prev: int, enc: seq<Answer>, i: int)
    requires cfg.recordingEnd.None? && Willing(enc)
    requires next.Some? || (s.held.Some? && nb <= prev)
    ensures Feed(cfg, s, next, nb, prev, enc, i).ending.Done?
    decreases nb - i
  {
    if i >= nb {
    } else {
      FeedsAll(cfg, AfterSlot(cfg, s, next, prev, i, Done), next, nb, prev, enc, i + 1);
    }
  }

  predicate Willing(enc: seq<Answer>) {
    forall a :: a in enc ==> a.Accept?
  }

  // ----- one call -----

  /** Slots that were counted as frames but never became one. */
  function Lost(o: Outcome): int {
    if o.oversize then 0 else o.wanted - o.accepted
  }

  /** Drops counted by a skipped call beyond the one input frame it discards. */
  function Recounted(s: StreamState, next: Option<Picture>, o: Outcome): int {
    if !o.oversize then 0
    else if next.None? then 1
    else B(o.state.last0 == 0 && s.lastDropped)
  }

  predicate Sound(s: StreamState) {
    s.last0 >= 0 && s.last1 >= 0 && s.last2 >= 0
  }

  predicate ForwardPicture(next: Option<Picture>) {
    next.Some? ==> next.value.duration >= 0.0
  }

  predicate Balance(s: StreamState, next: Option<Picture>, o: Outcome) {
    && Sound(o.state)
    && Lost(o) >= 0 && Recounted(s, next, o) >= 0
    && |o.state.sent| - |s.sent| + o.drop + B(o.state.lastDropped) - B(s.lastDropped) + Lost(o)
       == B(next.Some?) + o.dup + Recounted(s, next, o)
  }

  lemma CarryBalance(cfg: Config, s: StreamState, next: Option<Picture>, d: Decision, enc: seq<Answer>)
    requires Sound(s) && 0 <= d.nbFramesPrev <= d.nbFrames
    requires next.None? ==> d.nbFramesPrev == d.nbFrames
    ensures Balance(s, next, Carry(cfg, s, next, d, enc))
  {
    var planned := Marked(Advanced(s, d), next, d.nbFrames, d.nbFramesPrev);
    FeedCounts(cfg, planned, next, d.nbFrames, d.nbFramesPrev, enc, 0);
  }

  lemma CallBalance(cfg: Config, s: StreamState, next: Option<Picture>, enc: seq<Answer>)
    requires Sound(s) && ForwardPicture(next)
    ensures Balance(s, next, VideoOut(cfg, s, next, enc))
  {
    if next.Some? {
      DecideBounds(cfg, s.nextPts, s.frameNumber, next.value);
    }
    CarryBalance(cfg, s, next, PlanCopies(cfg, s, next), enc);
  }

  /** With a willing encoder and no recording limit, slots are lost exactly by a flush that finds
      no frame held although earlier calls showed copies. */
  lemma LossIff(cfg: Config, s: StreamState, next: Option<Picture>, enc: seq<Answer>)
    requires Sound(s) && ForwardPicture(next)
    requires cfg.recordingEnd.None? && Willing(enc)
    ensures var o := VideoOut(cfg, s, next, enc);
            var m := MidPred(s.last0, s.last1, s.last2);
            !o.oversize ==>
              Lost(o) == (if next.None? && s.held.None? then m else 0)
  {
    var d := PlanCopies(cfg, s, next);
    var planned := Marked(Advanced(s, d), next, d.nbFrames, d.nbFramesPrev);
    FeedCounts(cfg, planned, next, d.nbFrames, d.nbFramesPrev, enc, 0);
    if next.Some? || s.held.Some? {
      FeedsAll(cfg, planned, next, d.nbFrames, d.nbFramesPrev, enc, 0);
    }
  }

  /** A flush plans the median of the numbers of old copies in the three calls before it. */
  lemma FlushPlansMedian(cfg: Config, s: StreamState, next: seq<Option<Picture>>, enc: seq<seq<Answer>>)
    requires |next| == |enc| == 3
    ensures var s1 := VideoOut(cfg, s, next[0], enc[0]).state;
            var s2 := VideoOut(cfg, s1, next[1], enc[1]).state;
            var s3 := VideoOut(cfg, s2, next[2], enc[2]).state;
            var m := MidPred(PlanCopies(cfg, s2, next[2]).nbFramesPrev, PlanCopies(cfg, s1, next[1]).nbFramesPrev,
                             PlanCopies(cfg, s, next[0]).nbFramesPrev);
            PlanCopies(cfg, s3, None) == Decision(m, m, s3.nextPts)
  {
    HistoryMovesOn(cfg, s, next[0], enc[0]);
    var s1 := VideoOut(cfg, s, next[0], enc[0]).state;
    HistoryMovesOn(cfg, s1, next[1], enc[1]);
    HistoryMovesOn(cfg, VideoOut(cfg, s1, next[1], enc[1]).state, next[2], enc[2]);
  }

  lemma HistoryMovesOn(cfg: Config, s: StreamState, next: Option<Picture>, enc: seq<Answer>)
    ensures var s' := VideoOut(cfg, s, next, enc).state;
            s'.last0 == PlanCopies(cfg, s, next).nbFramesPrev && s'.last1 == s.last0 && s'.last2 == s.last1
  {
    var d := PlanCopies(cfg, s, next);
    var planned := Marked(Advanced(s, d), next, d.nbFrames, d.nbFramesPrev);
    FeedCounts(cfg, planned, next, d.nbFrames, d.nbFramesPrev, enc, 0);
  }

  /** Slots that reach a willing encoder. */
  function ShownSlots(cfg: Config, s: StreamState, next: Option<Picture>): nat {
    var d := PlanCopies(cfg, s, next);
    if TooLarge(cfg, d, s.lastDropped) || (next.None? && s.held.None?) then 0 else Max(0, d.nbFrames)
  }

  /** A call with a willing encoder and no recording limit, in closed form. */
  lemma FullCall(cfg: Config, s: StreamState, next: Option<Picture>, enc: seq<Answer>)
    requires cfg.recordingEnd.None? && Willing(enc)
    ensures var d := PlanCopies(cfg, s, next);
            var o := VideoOut(cfg, s, next, enc);
            var skipped := TooLarge(cfg, d, s.lastDropped);
            && !o.exited && o.state.finished == s.finished
            && o.accepted == ShownSlots(cfg, s, next)
            && Grown(s, o.state, next, d.nbFramesPrev, d.nextPts, o.accepted)
            && o.state.held == (if skipped then s.held else if next.Some? then Some(next.value.shot) else None)
            && o.state.lastDropped == (if skipped then s.lastDropped else d.nbFrames == d.nbFramesPrev && next.Some?)
  {
    var d := PlanCopies(cfg, s, next);
    var planned := Marked(Advanced(s, d), next, d.nbFrames, d.nbFramesPrev);
    CarryGrows(cfg, s, next, d, enc);
    FeedCounts(cfg, planned, next, d.nbFrames, d.nbFramesPrev, enc, 0);
    if next.Some? || s.held.Some? {
      FeedsAll(cfg, planned, next, d.nbFrames, d.nbFramesPrev, enc, 0);
    }
    FeedStaysOpen(cfg, planned, next, d.nbFrames, d.nbFramesPrev, enc, 0);
  }

  lemma {:induction false} FeedStaysOpen(cfg: Config, s: StreamState, next: Option<Picture>, nb: int, prev: int, enc: seq<Answer>, i: int)
    requires cfg.recordingEnd.None? && Willing(enc)
    ensures var f := Feed(cfg, s, next, nb, prev, enc, i); f.state.finished == s.finished && (f.ending.Done? || f.ending.NoPicture?)
    decreases nb - i
  {
    if i >= nb || !Slot(cfg, s, next, prev, enc, i).Done? {
    } else {
      FeedStaysOpen(cfg, AfterSlot(cfg, s, next, prev, i, Done), next, nb, prev, enc, i + 1);
    }
  }

  // ----- whole runs -----

  /** All streams, the shared counters, and what was offered to and lost by the converter. */
  datatype World = World(
    streams: seq<StreamState>, dup: int, drop: int,
    inputs: int, lost: int, recounted: int, exited: bool)

  datatype Call = Call(stream: nat, next: Option<Picture>, enc: seq<Answer>)

  function Fresh(n: nat): World {
    World(seq(n, i => FRESH_STREAM), 0, 0, 0, 0, 0, false)
  }

  function Apply(cfgs: seq<Config>, w: World, c: Call): World {
    if w.exited || c.stream >= |w.streams| || c.stream >= |cfgs| then w
    else
      var s := w.streams[c.stream];
      var o := Reaped(cfgs[c.stream], s, c.next, c.enc);
      World(w.streams[c.stream := o.state], w.dup + o.dup, w.drop + o.drop,
            w.inputs + B(Offered(s, c.next)), w.lost + Lost(o), w.recounted + Recounted(s, c.next, o), o.exited)
  }

  function RunCalls(cfgs: seq<Config>, w: World, calls: seq<Call>): World {
    if calls == [] then w
    else Apply(cfgs, RunCalls(cfgs, w, calls[..|calls| - 1]), calls[|calls| - 1])
  }

  function Accepted(streams: seq<StreamState>): int {
    if streams == [] then 0
    else Accepted(streams[..|streams| - 1]) + |streams[|streams| - 1].sent|
  }

  predicate ForwardCalls(calls: seq<Call>) {
    forall c :: c in calls ==> ForwardPicture(c.next)
  }

  predicate Balanced(w: World) {
    && (forall s :: s in w.streams ==> Sound(s))
    && Accepted(w.streams) + w.drop + StillHeld(w.streams) + w.lost == w.inputs + w.dup + w.recounted
    && w.lost >= 0 && w.recounted >= 0
  }

  lemma {:induction false} TotalsAfterUpdate(streams: seq<StreamState>, k: nat, s: StreamState)
    requires k < |streams|
    ensures Accepted(streams[k := s]) == Accepted(streams) - |streams[k].sent| + |s.sent|
    ensures StillHeld(streams[k := s]) == StillHeld(streams) - B(streams[k].lastDropped) + B(s.lastDropped)
  {
    var n := |streams| - 1;
    if k == n {
      assert streams[k := s][..n] == streams[..n];
    } else {
      assert streams[k := s][..n] == streams[..n][k := s];
      TotalsAfterUpdate(streams[..n], k, s);
    }
  }

  lemma {:induction false} FreshTotals(n: nat)
    ensures Accepted(Fresh(n).streams) == 0 && StillHeld(Fresh(n).streams) == 0
  {
    if n == 0 {
    } else {
      FreshTotals(n - 1);
      assert Fresh(n).streams[..n - 1] == Fresh(n - 1).streams;
    }
  }

  lemma ApplyKeepsBalance(cfgs: seq<Config>, w: World, c: Call)
    requires Balanced(w) && ForwardPicture(c.next)
    ensures Balanced(Apply(cfgs, w, c))
  {
    if !w.exited && c.stream < |w.streams| && c.stream < |cfgs| {
      var s := w.streams[c.stream];
      var o := Reaped(cfgs[c.stream], s, c.next, c.enc);
      TotalsAfterUpdate(w.streams, c.stream, o.state);
      if !(c.next.Some? && s.finished) {
        CallBalance(cfgs[c.stream], s, c.next, c.enc);
      }
    }
  }

  lemma {:induction false} RunKeepsBalance(cfgs: seq<Config>, w: World, calls: seq<Call>)
    requires Balanced(w) && ForwardCalls(calls)
    ensures Balanced(RunCalls(cfgs, w, calls))
  {
    if calls == [] {
    } else {
      var n := |calls| - 1;
      RunKeepsBalance(cfgs, w, calls[..n]);
      ApplyKeepsBalance(cfgs, RunCalls(cfgs, w, calls[..n]), calls[n]);
    }
  }

  /** The law, for every run of every number of streams, whatever the encoder answers. */
  lemma Conservation(cfgs: seq<Config>, n: nat, calls: seq<Call>)
    requires ForwardCalls(calls)
    ensures var w := RunCalls(cfgs, Fresh(n), calls);
            Accepted(w.streams) + w.drop + StillHeld(w.streams) + w.lost == w.inputs + w.dup + w.recounted
  {
    FreshTotals(n);
    RunKeepsBalance(cfgs, Fresh(n), calls);
  }

  // ----- exactly when the counters are right -----

  /** Read off before the call: a skipped call discards one new frame and nothing else, and a flush
      finds a frame held unless the recent calls showed no copies. */
  predicate CountsRight(cfg: Config, s: StreamState, next: Option<Picture>) {
    var d := PlanCopies(cfg, s, next);
    if next.Some? && s.finished then true
    else if TooLarge(cfg, d, s.lastDropped) then next.Some? && (d.nbFramesPrev != 0 || !s.lastDropped)
    else next.Some? || s.held.Some? || d.nbFrames == 0
  }

  lemma CallCountsRight(cfg: Config, s: StreamState, next: Option<Picture>, enc: seq<Answer>)
    requires Sound(s) && ForwardPicture(next)
    requires cfg.recordingEnd.None? && Willing(enc)
    ensures var o := Reaped(cfg, s, next, enc);
            Lost(o) == Recounted(s, next, o) <==> CountsRight(cfg, s, next)
  {
    if next.None? || !s.finished {
      LossIff(cfg, s, next, enc);
    }
  }

  /** The counters, with the frames still held as dropped, account for what the encoder got. */
  predicate Explained(w: World) {
    Accepted(w.streams) == w.inputs + w.dup - (w.drop + StillHeld(w.streams))
  }

  predicate Unhindered(cfgs: seq<Config>, calls: seq<Call>) {
    && (forall i :: 0 <= i < |cfgs| ==> cfgs[i].recordingEnd.None?)
    && (forall c :: c in calls ==> Willing(c.enc))
  }

  predicate CallIsRight(cfgs: seq<Config>, w: World, c: Call) {
    w.exited || c.stream >= |w.streams| || c.stream >= |cfgs| || CountsRight(cfgs[c.stream], w.streams[c.stream], c.next)
  }

  /** The counters account for the output after every call. */
  predicate AlwaysExplained(cfgs: seq<Config>, n: nat, calls: seq<Call>) {
    && Explained(RunCalls(cfgs, Fresh(n), calls))
    && (calls == [] || AlwaysExplained(cfgs, n, calls[..|calls| - 1]))
  }

  /** Each call counts right in the state it finds. */
  predicate AllRight(cfgs: seq<Config>, n: nat, calls: seq<Call>) {
    calls == [] ||
    var k := |calls| - 1;
    AllRight(cfgs, n, calls[..k]) && CallIsRight(cfgs, RunCalls(cfgs, Fresh(n), calls[..k]), calls[k])
  }

  /** Without recording limits and with willing encoders, the counters account for the output
      throughout a run if and only if each of its calls counts right. */
  lemma {:induction false} CountersExplainOutput(cfgs: seq<Config>, n: nat, calls: seq<Call>)
    requires ForwardCalls(calls) && Unhindered(cfgs, calls)
    ensures AlwaysExplained(cfgs, n, calls) <==> AllRight(cfgs, n, calls)
  {
    if calls == [] {
      FreshTotals(n);
    } else {
      CountersExplainOutput(cfgs, n, calls[..|calls| - 1]);
      if AlwaysExplained(cfgs, n, calls[..|calls| - 1]) {
        CallExplains(cfgs, n, calls);
      }
    }
  }

  lemma CallExplains(cfgs: seq<Config>, n: nat, calls: seq<Call>)
    requires calls != [] && ForwardCalls(calls) && Unhindered(cfgs, calls)
    ensures var k := |calls| - 1;
            var before := RunCalls(cfgs, Fresh(n), calls[..k]);
            Explained(before) ==> (Explained(RunCalls(cfgs, Fresh(n), calls)) <==> CallIsRight(cfgs, before, calls[k]))
  {
    var k := |calls| - 1;
    FreshTotals(n);
    RunKeepsBalance(cfgs, Fresh(n), calls[..k]);
    ApplyExplains(cfgs, RunCalls(cfgs, Fresh(n), calls[..k]), calls[k]);
  }

  /** One call in any world with its books in order. */
  lemma ApplyExplains(cfgs: seq<Config>, w: World, c: Call)
    requires Balanced(w) && ForwardPicture(c.next) && Willing(c.enc)
    requires forall i :: 0 <= i < |cfgs| ==> cfgs[i].recordingEnd.None?
    ensures Explained(w) ==> (Explained(Apply(cfgs, w, c)) <==> CallIsRight(cfgs, w, c))
  {
    ApplyKeepsBalance(cfgs, w, c);
    if !w.exited && c.stream < |w.streams| && c.stream < |cfgs| {
      CallCountsRight(cfgs[c.stream], w.streams[c.stream], c.next, c.enc);
    }
  }

  lemma RunOn(cfgs: seq<Config>, w: World, calls: seq<Call>, c: Call)
    ensures RunCalls(cfgs, w, calls + [c]) == Apply(cfgs, RunCalls(cfgs, w, calls), c)
  {
    assert (calls + [c])[..|calls|] == calls;
  }

  lemma OneCall(cfg: Config, w: World, s: StreamState, c: Call)
    requires !w.exited && w.streams == [s]
    requires c.stream == 0 && !(c.next.Some? && s.finished)
    ensures var r := Apply([cfg], w, c);
            var o := VideoOut(cfg, s, c.next, c.enc);
            r.streams == [o.state] && r.exited == o.exited
  {
  }

  /** One more call in a run of a single stream. */
  lemma OneMoreCall(cfg: Config, calls: seq<Call>, s: StreamState, c: Call)
    requires var w := RunCalls([cfg], Fresh(1), calls); !w.exited && w.streams == [s]
    requires c.stream == 0 && !(c.next.Some? && s.finished)
    ensures var r := RunCalls([cfg], Fresh(1), calls + [c]);
            var o := VideoOut(cfg, s, c.next, c.enc);
            r.streams == [o.state] && r.exited == o.exited
  {
    RunOn([cfg], Fresh(1), calls, c);
    OneCall(cfg, RunCalls([cfg], Fresh(1), calls), s, c);
  }

  // ----- limits -----

  /** A call plans at most two frames or thirty times the error threshold, or it is skipped whole. */
  lemma CallIsBounded(cfg: Config, s: StreamState, next: Option<Picture>, enc: seq<Answer>)
    ensures var o := VideoOut(cfg, s, next, enc);
            && (o.oversize ==> o.wanted as real > 30.0 * cfg.dtsErrorThreshold && o.state.sent == s.sent && o.state.held == s.held)
            && (!o.oversize ==> o.accepted <= o.wanted && (o.wanted <= 2 || o.wanted as real <= 30.0 * cfg.dtsErrorThreshold))
  {
    var d := PlanCopies(cfg, s, next);
    FeedCounts(cfg, Marked(Advanced(s, d), next, d.nbFrames, d.nbFramesPrev), next, d.nbFrames, d.nbFramesPrev, enc, 0);
  }

  predicate BeforeEnd(cfg: Config, pts: int) {
    cfg.recordingEnd.Some? ==> pts as real < cfg.recordingEnd.value
  }

  lemma {:induction false} FeedUntilEnd(cfg: Config, s: StreamState, next: Option<Picture>, nb: int, prev: int, enc: seq<Answer>, i: int, j: int)
    requires Willing(enc) && (next.Some? || (s.held.Some? && nb <= prev)) && i <= j < nb
    ensures var f := Feed(cfg, s, next, nb, prev, enc, i);
            && (j - i < f.accepted <==> BeforeEnd(cfg, s.nextPts + j - i))
            && (f.accepted < nb - i ==> f.state.finished)
    decreases nb - i
  {
    if Slot(cfg, s, next, prev, enc, i).Done? {
      if i < j {
        FeedUntilEnd(cfg, AfterSlot(cfg, s, next, prev, i, Done), next, nb, prev, enc, i + 1, j);
      } else if i + 1 < nb {
        FeedUntilEnd(cfg, AfterSlot(cfg, s, next, prev, i, Done), next, nb, prev, enc, i + 1, i + 1);
      }
    } else {
      assert cfg.recordingEnd.value <= s.nextPts as real;
    }
  }

  /** A willing encoder gets exactly the planned frames whose times lie before the recording limit; if that
      is not all of them, the stream is finished. */
  lemma RecordingStopsAtEnd(cfg: Config, s: StreamState, next: Option<Picture>, enc: seq<Answer>, j: nat)
    requires Willing(enc) && (next.Some? || s.held.Some?)
    requires !VideoOut(cfg, s, next, enc).oversize && j < PlanCopies(cfg, s, next).nbFrames
    ensures var o := VideoOut(cfg, s, next, enc);
            && (j < o.accepted <==> BeforeEnd(cfg, PlanCopies(cfg, s, next).nextPts + j))
            && (o.accepted < o.wanted ==> o.state.finished)
  {
    var d := PlanCopies(cfg, s, next);
    FeedUntilEnd(cfg, Marked(Advanced(s, d), next, d.nbFrames, d.nbFramesPrev), next, d.nbFrames, d.nbFramesPrev, enc, 0, j);
  }

  /** The encoder takes the slots before the `n`-th and says something else to that one, which lies before the
      recording limit. */
  predicate StopsAt(cfg: Config, s: StreamState, enc: seq<Answer>, i: int, n: int) {
    && (forall m :: i <= m < n ==> AnswerAt(enc, m).Accept?)
    && !AnswerAt(enc, n).Accept?
    && BeforeEnd(cfg, s.nextPts + n - i)
  }

  lemma {:induction false} FeedStopsAt(cfg: Config, s: StreamState, next: Option<Picture>, nb: int, prev: int, enc: seq<Answer>, i: int, n: int)
    requires (next.Some? || (s.held.Some? && nb <= prev)) && i <= n < nb && StopsAt(cfg, s, enc, i, n)
    ensures var f := Feed(cfg, s, next, nb, prev, enc, i);
            && f.accepted == n - i
            && (AnswerAt(enc, n).Fatal? ==> f.ending == EncoderFailed)
            && (AnswerAt(enc, n).Eof? ==> f.ending.EncoderEof? && f.state.finished == (s.finished || AnswerAt(enc, n).close))
    decreases nb - i
  {
    if i == n {
    } else {
      assert AnswerAt(enc, i).Accept?;
      var s' := AfterSlot(cfg, s, next, prev, i, Done);
      FeedStopsAt(cfg, s', next, nb, prev, enc, i + 1, n);
    }
  }

  /** A new frame whose `n`-th copy the encoder does not take: the ones before it are encoded and no more.
      At end of file the frame is held all the same, and the stream is finished if told to close; any other
      failure ends the program. */
  lemma EncoderStopsCall(cfg: Config, s: StreamState, pic: Picture, enc: seq<Answer>, n: nat)
    requires var d := PlanCopies(cfg, s, Some(pic));
             n < d.nbFrames && !TooLarge(cfg, d, s.lastDropped) && StopsAt(cfg, s.(nextPts := d.nextPts), enc, 0, n)
    ensures var o := VideoOut(cfg, s, Some(pic), enc);
            && o.accepted == n && |o.state.sent| == |s.sent| + n
            && o.exited == AnswerAt(enc, n).Fatal?
            && (AnswerAt(enc, n).Eof? ==>
                  o.state.held == Some(pic.shot) && o.state.finished == (s.finished || AnswerAt(enc, n).close))
  {
    var d := PlanCopies(cfg, s, Some(pic));
    var planned := Marked(Advanced(s, d), Some(pic), d.nbFrames, d.nbFramesPrev);
    assert StopsAt(cfg, planned, enc, 0, n);
    FeedStopsAt(cfg, planned, Some(pic), d.nbFrames, d.nbFramesPrev, enc, 0, n);
    CarryGrows(cfg, s, Some(pic), d, enc);
  }

  predicate AllBeforeEnd(cfg: Config, sent: seq<Sent>) {
    forall i :: 0 <= i < |sent| ==> BeforeEnd(cfg, sent[i].pts)
  }

  lemma {:induction false} FeedStaysBefore(cfg: Config, s: StreamState, next: Option<Picture>, nb: int, prev: int, enc: seq<Answer>, i: int)
    requires AllBeforeEnd(cfg, s.sent)
    ensures AllBeforeEnd(cfg, Feed(cfg, s, next, nb, prev, enc, i).state.sent)
    decreases nb - i
  {
    if i >= nb || !Slot(cfg, s, next, prev, enc, i).Done? {
    } else {
      FeedStaysBefore(cfg, AfterSlot(cfg, s, next, prev, i, Done), next, nb, prev, enc, i + 1);
    }
  }

  /** Nothing is ever encoded at or behind the recording limit. */
  lemma {:induction false} SentBeforeEnd(cfgs: seq<Config>, n: nat, calls: seq<Call>, k: nat)
    requires k < n && k < |cfgs|
    ensures var w := RunCalls(cfgs, Fresh(n), calls); |w.streams| == n && AllBeforeEnd(cfgs[k], w.streams[k].sent)
  {
    if calls == [] {
    } else {
      var m := |calls| - 1;
      SentBeforeEnd(cfgs, n, calls[..m], k);
      var s := RunCalls(cfgs, Fresh(n), calls[..m]).streams[k];
      if calls[m].stream == k {
        var d := PlanCopies(cfgs[k], s, calls[m].next);
        FeedStaysBefore(cfgs[k], Marked(Advanced(s, d), calls[m].next, d.nbFrames, d.nbFramesPrev),
                        calls[m].next, d.nbFrames, d.nbFramesPrev, calls[m].enc, 0);
      }
    }
  }

  /** A finished stream takes no more frames. */
  lemma {:induction false} FinishedTakesNothing(cfgs: seq<Config>, w: World, calls: seq<Call>, k: nat)
    requires k < |w.streams| && w.streams[k].finished
    requires forall c :: c in calls && c.stream == k ==> c.next.Some?
    ensures var r := RunCalls(cfgs, w, calls); |r.streams| == |w.streams| && r.streams[k] == w.streams[k]
  {
    if calls == [] {
    } else {
      var m := |calls| - 1;
      FinishedTakesNothing(cfgs, w, calls[..m], k);
      assert calls[m] in calls;
    }
  }
}
