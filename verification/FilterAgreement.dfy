/** Whether frames are as the graph was made for: what is rebuilt when they change, and what is not. */
module FilterAgreement {
  import opened Options
  import opened FilterInputs

  // ----- frames and the graph they go to -----

  /** A frame is as the input is configured: in format, hardware context and display matrix, in width and
      height for video, in rate and layout for audio. */
  predicate Agrees(i: Input, f: Frame) {
    && f.params.format == i.params.format
    && f.params.hwFrames == i.params.hwFrames && f.params.displayMatrix == i.params.displayMatrix
    && (i.media == Video ==> f.params.width == i.params.width && f.params.height == i.params.height)
    && (i.media == Audio ==> f.params.sampleRate == i.params.sampleRate && f.params.layout == i.params.layout)
  }

  /** What a frame does to a configured graph. One that agrees leaves the graph in place. One that does
      not has it rebuilt for itself, every source starting anew; but with reinitialisation turned off only
      a new hardware context or display matrix counts. */
  lemma ConfiguredSend(g: Graph, k: nat, frame: Frame, accepts: bool)
    requires Ok(g) && g.configured && k < |g.inputs| && frame.params.format >= 0
    ensures var i := g.inputs[k];
            var stays := Agrees(i, frame) || (!i.reinit && frame.params.hwFrames == i.params.hwFrames && frame.params.displayMatrix == i.params.displayMatrix);
            var r := SendFrame(g, k, frame, accepts).0;
            && (stays ==> r == Pushed(g, k, frame))
            && (!stays ==> r.inputs[k].params == frame.params && r.configured == accepts)
            && (!stays ==> forall j :: 0 <= j < |g.inputs| ==>
                  r.inputs[j].earlier == g.inputs[j].earlier + Frames(g.inputs[j].log))
  {
  }

  /** Every frame in the queue or given to the present source agrees with the input. */
  predicate AllAgree(i: Input) {
    && (forall f :: f in i.queue ==> Agrees(i, f))
    && (forall item :: item in i.log && item.Data? ==> Agrees(i, item.frame))
  }

  /** Frames are not mixed: one that differs does not come while others wait in the queue. */
  predicate NotMixed(g: Graph, k: nat, e: Event)
    requires k < |g.inputs|
  {
    e.Send? && e.k == k ==> g.inputs[k].queue == [] || Agrees(g.inputs[k], e.frame)
  }

  lemma AttachedAgrees(i: Input)
    requires forall f :: f in i.queue ==> Agrees(i, f)
    ensures AllAgree(Attached(i))
  {
    var log := Items(i.queue) + if i.eof then [Eof] else [];
    forall item | item in log && item.Data?
      ensures Agrees(Attached(i), item.frame)
    {
      var n :| 0 <= n < |log| && log[n] == item;
      assert n < |i.queue| && item.frame == i.queue[n];
      assert item.frame in i.queue;
    }
  }

  lemma PushedAgrees(i: Input, frame: Frame)
    requires AllAgree(i) && Agrees(i, frame)
    ensures AllAgree(Push(i, frame))
  {
  }

  lemma QueuedAgrees(i: Input, frame: Frame)
    requires AllAgree(i) && Agrees(i, frame)
    ensures AllAgree(i.(queue := i.queue + [frame], received := i.received + [frame]))
  {
  }

  /** The input refitted to a frame that differs, with nothing waiting and its source gone or to go. */
  lemma RefittedAgrees(g: Graph, k: nat, frame: Frame)
    requires k < |g.inputs| && g.inputs[k].reinit && AllAgree(g.inputs[k])
    requires g.inputs[k].queue == [] || Agrees(g.inputs[k], frame)
    ensures var i := Refit(g, k, frame).inputs[k];
            && Agrees(i, frame) && i.log == g.inputs[k].log && i.queue == g.inputs[k].queue
            && (forall f :: f in i.queue ==> Agrees(i, f))
            && (!NeedsReinit(g.inputs[k], frame, g.configured) ==> i == g.inputs[k])
  {
  }

  /** A frame for the input itself. */
  lemma OwnFrameAgrees(g: Graph, k: nat, frame: Frame, accepts: bool)
    requires Ok(g) && k < |g.inputs| && g.inputs[k].reinit && frame.params.format >= 0 && AllAgree(g.inputs[k])
    requires g.inputs[k].queue == [] || Agrees(g.inputs[k], frame)
    ensures AllAgree(SendFrame(g, k, frame, accepts).0.inputs[k])
  {
    var rebuild := NeedsReinit(g.inputs[k], frame, g.configured) || !g.configured;
    var g1 := Refit(g, k, frame);
    var i := g1.inputs[k];
    RefittedAgrees(g, k, frame);
    if !rebuild {
      PushedAgrees(i, frame);
    } else if !AllFormatsKnown(g1.inputs) {
      assert !g.configured && i.log == [];
      QueuedAgrees(i, frame);
    } else if accepts {
      AttachedAgrees(i);
      PushedAgrees(Attached(i), frame);
    }
  }

  /** Mixed frames: those that wait no longer agree with the input. */
  lemma MixedFrameDisagrees(g: Graph, k: nat, frame: Frame, accepts: bool)
    requires Ok(g) && k < |g.inputs| && frame.params.format >= 0 && AllAgree(g.inputs[k])
    requires g.inputs[k].queue != [] && !Agrees(g.inputs[k], frame)
    ensures !AllAgree(SendFrame(g, k, frame, accepts).0.inputs[k])
  {
    var g1 := Refit(g, k, frame);
    var r := SendFrame(g, k, frame, accepts).0.inputs[k];
    var first := g.inputs[k].queue[0];
    assert !Agrees(r, first) by {
      assert Agrees(g.inputs[k], first);
    }
    if AllFormatsKnown(g1.inputs) && accepts {
      var log := Attached(g1.inputs[k]).log;
      assert log[0] == Data(first);
      assert Data(first) in r.log;
    } else {
      assert first in r.queue;
    }
  }

  /** An event that is no frame for the input. */
  lemma OtherEventAgrees(g: Graph, k: nat, e: Event)
    requires Ok(g) && k < |g.inputs| && AllAgree(g.inputs[k]) && !(e.Send? && e.k == k)
    requires e.Send? ==> e.frame.params.format >= 0
    requires forall f :: f in g.inputs[k].queue ==> f.params.format >= 0
    ensures AllAgree(Handle(g, e).inputs[k])
  {
    AttachedAgrees(g.inputs[k]);
    if g.inputs[k].queue != [] {
      assert Agrees(g.inputs[k], g.inputs[k].queue[0]);
    }
    match e
    case Send(j, frame, accepts) =>
      if j < |g.inputs| {
        assert Refit(g, j, frame).inputs[k] == g.inputs[k];
      }
    case End(j, fallback) =>
    case Rebuild(accepts) =>
  }

  predicate AlwaysAgree(g: Graph, events: seq<Event>, k: nat)
    requires k < |g.inputs|
  {
    && |HandleAll(g, events).inputs| == |g.inputs|
    && AllAgree(HandleAll(g, events).inputs[k])
    && (events == [] || AlwaysAgree(g, events[..|events| - 1], k))
  }

  predicate NeverMixed(g: Graph, events: seq<Event>, k: nat)
    requires k < |g.inputs|
  {
    events == [] ||
    var n := |events| - 1;
    var before := HandleAll(g, events[..n]);
    NeverMixed(g, events[..n], k) && |before.inputs| == |g.inputs| && NotMixed(before, k, events[n])
  }

  lemma InputStays(g: Graph, e: Event, k: nat)
    requires k < |g.inputs|
    ensures |Handle(g, e).inputs| == |g.inputs| && Handle(g, e).inputs[k].reinit == g.inputs[k].reinit
  {
  }

  lemma {:induction false} InputsStay(g: Graph, events: seq<Event>, k: nat)
    requires k < |g.inputs|
    ensures |HandleAll(g, events).inputs| == |g.inputs| && HandleAll(g, events).inputs[k].reinit == g.inputs[k].reinit
  {
    if events == [] {
    } else {
      InputsStay(g, events[..|events| - 1], k);
      InputStays(HandleAll(g, events[..|events| - 1]), events[|events| - 1], k);
    }
  }

  predicate DecodedQueue(i: Input) {
    forall f :: f in i.queue ==> f.params.format >= 0
  }

  lemma QueueStaysDecoded(g: Graph, e: Event, k: nat)
    requires k < |g.inputs| && DecodedQueue(g.inputs[k]) && (e.Send? ==> e.frame.params.format >= 0)
    ensures |Handle(g, e).inputs| == |g.inputs| && DecodedQueue(Handle(g, e).inputs[k])
  {
  }

  lemma {:induction false} QueuesAreDecoded(g: Graph, events: seq<Event>, k: nat)
    requires Initial(g) && Decoded(events) && k < |g.inputs|
    ensures |HandleAll(g, events).inputs| == |g.inputs| && DecodedQueue(HandleAll(g, events).inputs[k])
  {
    if events == [] {
    } else {
      QueuesAreDecoded(g, events[..|events| - 1], k);
      QueueStaysDecoded(HandleAll(g, events[..|events| - 1]), events[|events| - 1], k);
    }
  }

  /** With reinitialisation on: throughout a run every frame waiting for or given to the source of an
      input is as the input is configured, if and only if no frame that differs from those waiting ever
      joins them in the queue. */
  lemma {:induction false} FramesAgreeIff(g: Graph, events: seq<Event>, k: nat)
    requires Initial(g) && Decoded(events) && k < |g.inputs| && g.inputs[k].reinit
    ensures AlwaysAgree(g, events, k) <==> NeverMixed(g, events, k)
  {
    InputsStay(g, events, k);
    if events == [] {
    } else {
      var n := |events| - 1;
      FramesAgreeIff(g, events[..n], k);
      InputsAreFifos(g, events[..n]);
      InputsStay(g, events[..n], k);
      QueuesAreDecoded(g, events[..n], k);
      if AlwaysAgree(g, events[..n], k) {
        OneEventAgrees(HandleAll(g, events[..n]), k, events[n]);
      }
    }
  }

  lemma OneEventAgrees(g: Graph, k: nat, e: Event)
    requires Ok(g) && k < |g.inputs| && g.inputs[k].reinit && AllAgree(g.inputs[k]) && DecodedQueue(g.inputs[k])
    requires e.Send? ==> e.frame.params.format >= 0
    ensures |Handle(g, e).inputs| == |g.inputs|
    ensures AllAgree(Handle(g, e).inputs[k]) <==> NotMixed(g, k, e)
  {
    if e.Send? && e.k == k {
      if NotMixed(g, k, e) {
        OwnFrameAgrees(g, k, e.frame, e.accepts);
      } else {
        MixedFrameDisagrees(g, k, e.frame, e.accepts);
      }
    } else {
      OtherEventAgrees(g, k, e);
    }
  }

  function Sized(width: int, height: int): Params {
    Params(0, width, height, 0, 0, None, None)
  }

  function NewVideo(): Input {
    Input(Video, true, Params(-1, 0, 0, 0, 0, None, None), [], false, [], [], [])
  }

  /** Two video inputs. The first gets a large frame and then a small one while the second is still
      unknown; when that becomes known, the large frame goes to a source made for small ones. */
  lemma MixedFramesReachOneSource()
    ensures var large, small := Frame(1, Sized(1920, 1080)), Frame(2, Sized(1280, 720));
            var g := Graph([NewVideo(), NewVideo()], false);
            var g1 := SendFrame(g, 0, large, true).0;
            var g2 := SendFrame(g1, 0, small, true).0;
            var g3 := SendFrame(g2, 1, small, true).0;
            && g3.configured && |g3.inputs| == 2
            && g3.inputs[0].log == [Data(large), Data(small)] && g3.inputs[0].params == small.params
  {
    var large, small := Frame(1, Sized(1920, 1080)), Frame(2, Sized(1280, 720));
    var g := Graph([NewVideo(), NewVideo()], false);
    var waiting := NewVideo().(params := large.params, queue := [large], received := [large]);
    var both := NewVideo().(params := small.params, queue := [large, small], received := [large, small]);
    assert NewVideo().queue + [large] == [large] && NewVideo().received + [large] == [large];
    assert [large] + [small] == [large, small];
    var g1 := SendFrame(g, 0, large, true).0;
    assert !FormatKnown(Refit(g, 0, large).inputs[1]);
    assert g1.inputs == [waiting, NewVideo()] && !g1.configured;
    var g2 := SendFrame(g1, 0, small, true).0;
    assert !FormatKnown(Refit(g1, 0, small).inputs[1]);
    assert g2.inputs == [both, NewVideo()] && !g2.configured;
    assert AllFormatsKnown(Refit(g2, 1, small).inputs);
    assert Items([large, small]) == [Data(large), Data(small)];
  }
}
