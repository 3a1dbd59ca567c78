/**
 The video half of the frame-rate converter: for every frame leaving a filter graph it is
 decided how many copies of the previous and of the new frame the encoder gets, and the
 output clock and the duplicate/drop counters move on.
 */
module VideoSync {
  import opened Numbers
  import opened Options
  import opened ForcedKeyframes

  datatype SyncMethod = Passthrough | Cfr | Vfr | Vscfr | Drop

  /** Per-stream settings; `recordingEnd` is the recording-time limit on the encoder's clock, `tick`
      the length of the clock's unit in microseconds. */
  datatype Config = Config(
    vsync: SyncMethod,
    dropThreshold: real,
    dtsErrorThreshold: real,
    recordingEnd: Option<real>,
    forcing: Forcing,
    tick: real)

  /** A frame, and whether it is a key frame in its source. */
  datatype Shot = Shot(id: int, key: bool)

  /** A filtered frame: its start on the encoder's clock (with sub-tick precision) and its length. */
  datatype Picture = Picture(shot: Shot, syncIpts: real, duration: real)

  /** What the encoder says to one submitted frame; at end of file it may also close the stream. */
  datatype Answer = Accept | Eof(close: bool) | Fatal

  /** A frame the encoder accepted, with the timestamp it carried, the slot of its call it was shown
      in, and whether it was to become a key frame. */
  datatype Sent = Sent(shot: Shot, pts: int, slot: int, forced: bool)

  /** The state the converter keeps for one output stream, with the log of accepted frames. */
  datatype StreamState = StreamState(
    nextPts: int,
    frameNumber: int,
    lastDropped: bool,
    last0: int, last1: int, last2: int,
    held: Option<Shot>,
    kf: KfState,
    finished: bool,
    sent: seq<Sent>)

  const FRESH_STREAM := StreamState(0, 0, false, 0, 0, 0, None, FRESH_KF, false, [])

  function B(b: bool): int {
    if b then 1 else 0
  }

  // ----- the length of a frame -----

  type Interval = x: real | x > 0.0 witness 1.0

  /** A frame as it leaves the filter, with the frame intervals and lengths known for it, in ticks. */
  datatype Filtered = Filtered(
    shot: Shot, syncIpts: real,
    filterInterval: Option<Interval>, wantedInterval: Option<Interval>, ownTicks: Option<int>)

  /** The length `do_video_out` gives a frame: an interval known from the filter's frame rate, capped
      by the one asked for, unless the input frame's own length rounds to a positive number of ticks. */
  function FrameLength(filterInterval: Option<Interval>, wantedInterval: Option<Interval>, ownTicks: Option<int>): (r: real)
    ensures r >= 0.0
    ensures r == 0.0 <==> (ownTicks.Some? ==> ownTicks.value <= 0) && filterInterval.None?
    ensures ownTicks.Some? && ownTicks.value > 0 ==> r == ownTicks.value as real
    ensures (ownTicks.Some? ==> ownTicks.value <= 0) && filterInterval.Some? ==>
      && r <= filterInterval.value && (wantedInterval.Some? ==> r <= wantedInterval.value)
      && (r == filterInterval.value || (wantedInterval.Some? && r == wantedInterval.value))
  {
    var fromFilter := if filterInterval.Some? then filterInterval.value else 0.0;
    var capped := if wantedInterval.Some? && wantedInterval.value < fromFilter then wantedInterval.value else fromFilter;
    if ownTicks.Some? && ownTicks.value > 0 then ownTicks.value as real else capped
  }

  /** The frame with its length, as the converter sees it. */
  function Pictured(frame: Option<Filtered>): (r: Option<Picture>)
    ensures r.Some? <==> frame.Some?
    ensures frame.Some? ==> r.value.shot == frame.value.shot && r.value.syncIpts == frame.value.syncIpts && r.value.duration >= 0.0
  {
    if frame.None? then None
    else
      var f := frame.value;
      Some(Picture(f.shot, f.syncIpts, FrameLength(f.filterInterval, f.wantedInterval, f.ownTicks)))
  }

  // ----- how many copies -----

  datatype Decision = Decision(nbFrames: int, nbFramesPrev: int, nextPts: int)

  /** Constant-rate pacing of a frame that starts `drift` ticks and ends `late` ticks after the clock. */
  function Paced(cfg: Config, next: int, frameNumber: int, drift: real, late: real): Decision {
    if (cfg.dropThreshold != 0.0 && late < cfg.dropThreshold && frameNumber != 0) || late < -1.1 then
      Decision(0, 0, next)
    else if late <= 1.1 then
      Decision(1, 0, next)
    else
      Decision(Rint(late), if drift > 1.1 then Rint(drift - 0.6) else 0, next)
  }

  /** The decision in closed form: clipping a frame that starts early never shows in the result. */
  function Decide(cfg: Config, next: int, frameNumber: int, pic: Picture): Decision {
    var drift := pic.syncIpts - next as real;
    var late := drift + pic.duration;
    match cfg.vsync
    case Passthrough => Decision(1, 0, Rint(pic.syncIpts))
    case Drop => Decision(1, 0, Rint(pic.syncIpts))
    case Vfr =>
      Decision(B(late > -0.6), 0, if late > 0.6 then Max(next, Rint(pic.syncIpts)) else next)
    case Cfr => Paced(cfg, next, frameNumber, drift, late)
    case Vscfr =>
      if frameNumber == 0 && drift >= 0.5 then
        Paced(cfg, Rint(pic.syncIpts), 0, 0.0, pic.duration)
      else
        Paced(cfg, next, frameNumber, drift, late)
  }

  lemma DecideBounds(cfg: Config, next: int, frameNumber: int, pic: Picture)
    requires pic.duration >= 0.0
    ensures var d := Decide(cfg, next, frameNumber, pic);
            0 <= d.nbFramesPrev <= d.nbFrames && (d.nbFramesPrev < d.nbFrames || d.nbFrames == 0 || cfg.vsync in {Cfr, Vscfr})
  {
    var drift := pic.syncIpts - next as real;
    if drift > 1.1 {
      RintMonotone(drift - 0.6, drift + pic.duration);
    }
  }

  // ----- feeding the encoder -----

  function AnswerAt(enc: seq<Answer>, i: int): Answer {
    if 0 <= i < |enc| then enc[i] else Accept
  }

  /** The picture shown in slot `i`: the held one for the first `prev` slots, else the new one. */
  function PictureAt(held: Option<Shot>, next: Option<Picture>, prev: int, i: int): Option<Shot> {
    if i < prev && held.Some? then held
    else if next.Some? then Some(next.value.shot)
    else None
  }

  predicate PastEnd(cfg: Config, pts: int) {
    cfg.recordingEnd.Some? && pts as real >= cfg.recordingEnd.value
  }

  datatype Ending = Done | NoPicture | RecordingOver | EncoderEof(close: bool) | EncoderFailed

  /** What happens to a picture offered with the stream in state `s`. */
  function Offer(cfg: Config, s: StreamState, answer: Answer): Ending {
    if PastEnd(cfg, s.nextPts) then RecordingOver
    else match answer
      case Accept => Done
      case Eof(close) => EncoderEof(close)
      case Fatal => EncoderFailed
  }

  /** A time on the encoder's clock, in microseconds. */
  function TimeAt(cfg: Config, pts: int): real {
    TimeOfTick(pts, cfg.tick)
  }

  /** Asking whether a picture shown in slot `i` is to become a key frame. */
  function Asked(cfg: Config, s: StreamState, shot: Shot, i: int): (KfState, bool) {
    Forced(cfg.forcing, s.kf, Frame(TimeAt(cfg, s.nextPts), shot.key), i)
  }

  function AfterOffer(cfg: Config, s: StreamState, shot: Shot, i: int, ending: Ending): StreamState {
    var (kf, forced) := Asked(cfg, s, shot, i);
    match ending
    case Done =>
      s.(nextPts := s.nextPts + 1, frameNumber := s.frameNumber + 1, kf := kf,
         sent := s.sent + [Sent(shot, s.nextPts, i, forced)])
    case RecordingOver => s.(finished := true)
    case EncoderEof(close) => s.(kf := kf, finished := s.finished || close)
    case NoPicture => s
    case EncoderFailed => s.(kf := kf)
  }

  function Slot(cfg: Config, s: StreamState, next: Option<Picture>, prev: int, enc: seq<Answer>, i: int): Ending {
    if PictureAt(s.held, next, prev, i).None? then NoPicture else Offer(cfg, s, AnswerAt(enc, i))
  }

  function AfterSlot(cfg: Config, s: StreamState, next: Option<Picture>, prev: int, i: int, ending: Ending): StreamState {
    var shot := PictureAt(s.held, next, prev, i);
    if shot.None? then s else AfterOffer(cfg, s, shot.value, i, ending)
  }

  datatype Feeding = Feeding(state: StreamState, accepted: nat, ending: Ending)

  /** Slots `i` to `nb` offered to the encoder in order until one is not accepted. */
  function Feed(cfg: Config, s: StreamState, next: Option<Picture>, nb: int, prev: int, enc: seq<Answer>, i: int): Feeding
    decreases nb - i
  {
    if i >= nb then Feeding(s, 0, Done)
    else
      var ending := Slot(cfg, s, next, prev, enc, i);
      var s' := AfterSlot(cfg, s, next, prev, i, ending);
      if ending.Done? then
        var rest := Feed(cfg, s', next, nb, prev, enc, i + 1);
        rest.(accepted := rest.accepted + 1)
      else
        Feeding(s', 0, ending)
  }

  // ----- one call -----

  /** `wanted` slots were planned and `accepted` of them reached the encoder. */
  datatype Outcome = Outcome(
    state: StreamState, dup: int, drop: int,
    wanted: int, accepted: nat, oversize: bool, exited: bool)

  function PlanCopies(cfg: Config, s: StreamState, next: Option<Picture>): Decision {
    match next
    case Some(pic) => Decide(cfg, s.nextPts, s.frameNumber, pic)
    case None =>
      var m := MidPred(s.last0, s.last1, s.last2);
      Decision(m, m, s.nextPts)
  }

  /** Copies that count as neither duplicated nor dropped. */
  function Regular(d: Decision, lastDropped: bool): int {
    B(d.nbFramesPrev != 0 && lastDropped) + B(d.nbFrames > d.nbFramesPrev)
  }

  predicate TooLarge(cfg: Config, d: Decision, lastDropped: bool) {
    d.nbFrames > Regular(d, lastDropped) && d.nbFrames as real > cfg.dtsErrorThreshold * 30.0
  }

  /** After a completed call, or one the encoder ended, the new frame is the one held. */
  function Keep(f: Feeding, next: Option<Picture>): StreamState {
    if f.ending.Done? || f.ending.EncoderEof? then
      f.state.(held := if next.Some? then Some(next.value.shot) else None)
    else
      f.state
  }

  /** Whether a new frame gets no copy of its own, and the mark left if it is a key frame. */
  function Marked(s: StreamState, next: Option<Picture>, nb: int, prev: int): StreamState {
    var dropped := nb == prev && next.Some?;
    s.(lastDropped := dropped, kf := s.kf.(droppedKeyframe := dropped && next.value.shot.key))
  }

  /** The planned copies offered to the encoder. */
  function Encoded(cfg: Config, s: StreamState, next: Option<Picture>, nb: int, prev: int, enc: seq<Answer>): Feeding {
    Feed(cfg, Marked(s, next, nb, prev), next, nb, prev, enc, 0)
  }

  /** The clock and the history moved on by a plan. */
  function Advanced(s: StreamState, d: Decision): StreamState {
    s.(nextPts := d.nextPts, last0 := d.nbFramesPrev, last1 := s.last0, last2 := s.last1)
  }

  /** A planned call carried out: counting, encoding, and keeping the new frame for the next call. */
  function Carry(cfg: Config, s: StreamState, next: Option<Picture>, d: Decision, enc: seq<Answer>): Outcome {
    var planned := Advanced(s, d);
    var missed := B(d.nbFramesPrev == 0 && s.lastDropped);
    if TooLarge(cfg, d, s.lastDropped) then
      Outcome(planned, 0, missed + 1, d.nbFrames, 0, true, false)
    else
      var dup := Max(0, d.nbFrames - Regular(d, s.lastDropped));
      var f := Encoded(cfg, planned, next, d.nbFrames, d.nbFramesPrev, enc);
      Outcome(Keep(f, next), dup, missed, Max(0, d.nbFrames), f.accepted, false, f.ending.EncoderFailed?)
  }

  function VideoOut(cfg: Config, s: StreamState, next: Option<Picture>, enc: seq<Answer>): Outcome {
    Carry(cfg, s, next, PlanCopies(cfg, s, next), enc)
  }

  /** A finished stream's frames are discarded before they reach the converter. */
  predicate Offered(s: StreamState, next: Option<Picture>) {
    next.Some? && !s.finished
  }

  function Reaped(cfg: Config, s: StreamState, next: Option<Picture>, enc: seq<Answer>): Outcome {
    if next.Some? && s.finished then Outcome(s, 0, 0, 0, 0, false, false)
    else VideoOut(cfg, s, next, enc)
  }

  // ----- the code -----

  /** The counters shared by all streams. */
  class Counters {
    var nbFramesDup: int
    var nbFramesDrop: int

    constructor ()
      ensures nbFramesDup == 0 && nbFramesDrop == 0
    {
      nbFramesDup, nbFramesDrop := 0, 0;
    }
  }

  /** The frame's length, worked out step by step. */
  method LengthOf(frame: Filtered) returns (length: real)
    ensures length == FrameLength(frame.filterInterval, frame.wantedInterval, frame.ownTicks)
  {
    length := 0.0;
    if frame.filterInterval.Some? {
      length := frame.filterInterval.value;
    }
    if frame.wantedInterval.Some? && frame.wantedInterval.value < length {
      length := frame.wantedInterval.value;
    }
    if frame.ownTicks.Some? && frame.ownTicks.value > 0 {
      length := frame.ownTicks.value as real;
    }
  }

  class OutputStream {
    const cfg: Config
    var nextPts: int
    var vsyncFrameNumber: int
    var lastDropped: bool
    var lastNb0: int  // copies of the previous frame in the latest call
    var lastNb1: int  // and in the two calls before it
    var lastNb2: int
    var lastFrame: Option<Shot>
    const kf: KeyframeForceCtx
    var finished: bool
    var encoded: seq<Sent>

    ghost predicate Valid() {
      kf.forcing == cfg.forcing
    }

    ghost function State(): StreamState
      reads this, kf
    {
      StreamState(nextPts, vsyncFrameNumber, lastDropped, lastNb0, lastNb1, lastNb2, lastFrame, kf.Value(), finished, encoded)
    }

    constructor (cfg: Config)
      ensures this.cfg == cfg && Valid() && fresh(kf) && State() == FRESH_STREAM
    {
      this.cfg := cfg;
      nextPts, vsyncFrameNumber, lastDropped := 0, 0, false;
      lastNb0, lastNb1, lastNb2 := 0, 0, 0;
      lastFrame, finished, encoded := None, false, [];
      kf := new KeyframeForceCtx(cfg.forcing);
    }

    method VideoSyncProcess(picture: Picture) returns (nbFrames: int, nbFramesPrev: int)
      modifies this`nextPts
      ensures Decision(nbFrames, nbFramesPrev, nextPts) == Decide(cfg, old(nextPts), vsyncFrameNumber, picture)
    {
      var syncIpts := picture.syncIpts;
      var duration := picture.duration;
      var delta0 := syncIpts - nextPts as real;
      var delta := delta0 + duration;
      nbFramesPrev := 0;
      nbFrames := 1;
      if delta0 < 0.0 && delta > 0.0 && cfg.vsync != Passthrough && cfg.vsync != Drop {
        RintMonotone(syncIpts, nextPts as real);
        RintOfInt(nextPts);
        syncIpts := nextPts as real;
        duration := duration + delta0;
        delta0 := 0.0;
      } else if delta0 >= 0.0 {
        RintMonotone(nextPts as real, syncIpts);
        RintOfInt(nextPts);
      }
      if cfg.vsync == Vscfr || cfg.vsync == Cfr {
        if cfg.vsync == Vscfr && vsyncFrameNumber == 0 && delta0 >= 0.5 {
          delta := duration;
          delta0 := 0.0;
          nextPts := Rint(syncIpts);
        }
        if cfg.dropThreshold != 0.0 && delta < cfg.dropThreshold && vsyncFrameNumber != 0 {
          nbFrames := 0;
        } else if delta < -1.1 {
          nbFrames := 0;
        } else if delta > 1.1 {
          nbFrames := Rint(delta);
          if delta0 > 1.1 {
            nbFramesPrev := Rint(delta0 - 0.6);
          }
        }
      } else if cfg.vsync == Vfr {
        if delta <= -0.6 {
          nbFrames := 0;
        } else if delta > 0.6 {
          nextPts := Rint(syncIpts);
        }
      } else {
        nextPts := Rint(syncIpts);
      }
    }

    /** One picture on its way to the encoder. */
    method EncodePicture(shot: Shot, i: nat, answer: Answer) returns (ending: Ending)
      requires Valid()
      modifies this`nextPts, this`vsyncFrameNumber, this`encoded, this`finished, kf
      ensures ending == Offer(cfg, old(State()), answer)
      ensures State() == AfterOffer(cfg, old(State()), shot, i, ending)
    {
      var pts := nextPts;
      if PastEnd(cfg, pts) {
        finished := true;
        return RecordingOver;
      }
      var forced := kf.Apply(Frame(TimeAt(cfg, pts), shot.key), i);
      if answer.Eof? {
        finished := finished || answer.close;
        return EncoderEof(answer.close);
      } else if answer.Fatal? {
        return EncoderFailed;
      }
      encoded := encoded + [Sent(shot, pts, i, forced)];
      nextPts := nextPts + 1;
      vsyncFrameNumber := vsyncFrameNumber + 1;
      return Done;
    }

    /** One slot of the encoding loop. */
    method EncodeSlot(i: nat, nbFramesPrev: int, next: Option<Picture>, enc: seq<Answer>) returns (ending: Ending)
      requires Valid()
      modifies this`nextPts, this`vsyncFrameNumber, this`encoded, this`finished, kf
      ensures ending == Slot(cfg, old(State()), next, nbFramesPrev, enc, i)
      ensures State() == AfterSlot(cfg, old(State()), next, nbFramesPrev, i, ending)
    {
      var inPicture: Option<Shot> := None;
      if i < nbFramesPrev && lastFrame.Some? {
        inPicture := lastFrame;
      } else if next.Some? {
        inPicture := Some(next.value.shot);
      }
      if inPicture.None? {
        return NoPicture;
      }
      ending := EncodePicture(inPicture.value, i, AnswerAt(enc, i));
    }

    /** The encoding loop of `DoVideoOut`: slots are offered in order until one is not accepted. */
    method EncodeCopies(nbFrames: int, nbFramesPrev: int, next: Option<Picture>, enc: seq<Answer>) returns (ending: Ending)
      requires Valid()
      modifies this`nextPts, this`vsyncFrameNumber, this`encoded, this`finished, kf
      ensures var f := Feed(cfg, old(State()), next, nbFrames, nbFramesPrev, enc, 0);
              State() == f.state && ending == f.ending
    {
      var i := 0;
      ending := Done;
      while i < nbFrames
        invariant 0 <= i
        invariant var f := Feed(cfg, old(State()), next, nbFrames, nbFramesPrev, enc, 0);
                  var g := Feed(cfg, State(), next, nbFrames, nbFramesPrev, enc, i);
                  f.state == g.state && f.ending == g.ending
      {
        ending := EncodeSlot(i, nbFramesPrev, next, enc);
        if !ending.Done? {
          return;
        }
        i := i + 1;
      }
      return Done;
    }

    /** The counter updates of `DoVideoOut`; the result says that the duplication is too large. */
    method CountCopies(g: Counters, nbFrames: int, nbFramesPrev: int) returns (skip: bool)
      modifies g
      ensures var d := Decision(nbFrames, nbFramesPrev, nextPts);
              skip == TooLarge(cfg, d, lastDropped) &&
              g.nbFramesDrop == old(g.nbFramesDrop) + B(nbFramesPrev == 0 && lastDropped) + B(skip) &&
              g.nbFramesDup == old(g.nbFramesDup) + if skip then 0 else Max(0, nbFrames - Regular(d, lastDropped))
    {
      if nbFramesPrev == 0 && lastDropped {
        g.nbFramesDrop := g.nbFramesDrop + 1;
      }
      var regular := B(nbFramesPrev != 0 && lastDropped) + B(nbFrames > nbFramesPrev);
      if nbFrames > regular {
        if nbFrames as real > cfg.dtsErrorThreshold * 30.0 {
          g.nbFramesDrop := g.nbFramesDrop + 1;
          return true;
        }
        g.nbFramesDup := g.nbFramesDup + (nbFrames - regular);
      }
      return false;
    }

    /** The part of `DoVideoOut` after the counting. */
    method EncodeAndKeep(nbFrames: int, nbFramesPrev: int, next: Option<Picture>, enc: seq<Answer>) returns (exited: bool)
      requires Valid()
      modifies this, kf
      ensures var f := Encoded(cfg, old(State()), next, nbFrames, nbFramesPrev, enc);
              State() == Keep(f, next) && exited == f.ending.EncoderFailed?
    {
      lastDropped := nbFrames == nbFramesPrev && next.Some?;
      kf.droppedKeyframe := lastDropped && next.Some? && next.value.shot.key;
      var ending := EncodeCopies(nbFrames, nbFramesPrev, next, enc);
      exited := ending.EncoderFailed?;
      if ending.EncoderFailed? || ending.NoPicture? || ending.RecordingOver? {
        return;
      }
      lastFrame := None;
      if next.Some? {
        lastFrame := Some(next.value.shot);
      }
    }

    /** `DoVideoOut` once the numbers of copies are known. */
    method CarryOut(g: Counters, nbFrames: int, nbFramesPrev: int, next: Option<Picture>, enc: seq<Answer>) returns (exited: bool)
      requires Valid()
      modifies this, g, kf
      ensures var o := Carry(cfg, old(State()), next, Decision(nbFrames, nbFramesPrev, old(nextPts)), enc);
              State() == o.state && exited == o.exited &&
              g.nbFramesDup == old(g.nbFramesDup) + o.dup &&
              g.nbFramesDrop == old(g.nbFramesDrop) + o.drop
    {
      lastNb0, lastNb1, lastNb2 := nbFramesPrev, lastNb0, lastNb1;
      var skip := CountCopies(g, nbFrames, nbFramesPrev);
      if skip {
        return false;
      }
      exited := EncodeAndKeep(nbFrames, nbFramesPrev, next, enc);
    }

    /** `frame` is absent when the stream is flushed; `enc` lists the encoder's answers in order. */
    method DoVideoOut(g: Counters, frame: Option<Filtered>, enc: seq<Answer>) returns (exited: bool)
      requires Valid()
      modifies this, g, kf
      ensures var o := VideoOut(cfg, old(State()), Pictured(frame), enc);
              State() == o.state && exited == o.exited &&
              g.nbFramesDup == old(g.nbFramesDup) + o.dup &&
              g.nbFramesDrop == old(g.nbFramesDrop) + o.drop
    {
      var nbFrames, nbFramesPrev;
      var next: Option<Picture> := None;
      match frame {
        case None =>
          nbFrames := MidPred(lastNb0, lastNb1, lastNb2);
          nbFramesPrev := nbFrames;
        case Some(f) =>
          var duration := LengthOf(f);
          next := Some(Picture(f.shot, f.syncIpts, duration));
          nbFrames, nbFramesPrev := VideoSyncProcess(next.value);
      }
      assert State() == old(State()).(nextPts := nextPts);
      assert Decision(nbFrames, nbFramesPrev, nextPts) == PlanCopies(cfg, old(State()), next);
      exited := CarryOut(g, nbFrames, nbFramesPrev, next, enc);
    }

    /** One turn of the loop that empties a filter's sink. */
    method Reap(g: Counters, frame: Option<Filtered>, enc: seq<Answer>) returns (exited: bool)
      requires Valid()
      modifies this, g, kf
      ensures var o := Reaped(cfg, old(State()), Pictured(frame), enc);
              State() == o.state && exited == o.exited &&
              g.nbFramesDup == old(g.nbFramesDup) + o.dup &&
              g.nbFramesDrop == old(g.nbFramesDrop) + o.drop
    {
      if frame.Some? && finished {
        return false;
      }
      exited := DoVideoOut(g, frame, enc);
    }
  }

  ghost function States(streams: seq<OutputStream>): seq<StreamState>
    reads streams, Contexts(streams)
  {
    seq(|streams|, i requires 0 <= i < |streams| reads streams, Contexts(streams) => streams[i].State())
  }

  ghost function Contexts(streams: seq<OutputStream>): set<KeyframeForceCtx> {
    set s | s in streams :: s.kf
  }

  function StillHeld(states: seq<StreamState>): int {
    if states == [] then 0 else StillHeld(states[..|states| - 1]) + B(states[|states| - 1].lastDropped)
  }

  /** The last progress report adds the frames each stream still holds back. */
  method LastReport(streams: seq<OutputStream>, g: Counters)
    modifies g
    ensures States(streams) == old(States(streams))
    ensures g.nbFramesDrop == old(g.nbFramesDrop) + StillHeld(States(streams))
    ensures g.nbFramesDup == old(g.nbFramesDup)
  {
    ghost var states := States(streams);
    for i := 0 to |streams|
      invariant States(streams) == states
      invariant g.nbFramesDrop == old(g.nbFramesDrop) + StillHeld(states[..i])
      invariant g.nbFramesDup == old(g.nbFramesDup)
    {
      assert states[..i + 1][..i] == states[..i];
      g.nbFramesDrop := g.nbFramesDrop + B(streams[i].lastDropped);
    }
    assert states[..|streams|] == states;
  }
}
