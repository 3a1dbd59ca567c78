/**
 The inputs of a filter graph: frames wait in a queue per input until the formats of all inputs
 are known, then go to the graph's sources; a changed input format rebuilds the graph.
 */
module FilterInputs {
  import opened Options

  datatype Media = Audio | Video | Subtitle

  /** The properties of a frame, or those configured for an input; a negative format is unknown. */
  datatype Params = Params(
    format: int, width: int, height: int, sampleRate: int, layout: int,
    hwFrames: Option<int>, displayMatrix: Option<int>)

  datatype Frame = Frame(id: int, params: Params)

  /** What a buffer source was given. */
  datatype Item = Data(frame: Frame) | Eof

  /** `log` is what the input's source in the present graph got, `earlier` the frames given to
      sources of graphs since freed, and `received` every frame accepted from the decoder. */
  datatype Input = Input(
    media: Media, reinit: bool, params: Params, queue: seq<Frame>, eof: bool,
    log: seq<Item>, earlier: seq<Frame>, received: seq<Frame>)

  datatype Graph = Graph(inputs: seq<Input>, configured: bool)

  function Frames(log: seq<Item>): seq<Frame> {
    if log == [] then []
    else Frames(log[..|log| - 1]) + if log[|log| - 1].Data? then [log[|log| - 1].frame] else []
  }

  function Items(frames: seq<Frame>): (r: seq<Item>)
    ensures |r| == |frames|
    ensures Eof !in r
  {
    seq(|frames|, i requires 0 <= i < |frames| => Data(frames[i]))
  }

  predicate FormatKnown(i: Input) {
    i.params.format >= 0 || i.media.Subtitle?
  }

  predicate AllFormatsKnown(inputs: seq<Input>) {
    forall i :: 0 <= i < |inputs| ==> FormatKnown(inputs[i])
  }

  /** Whether a frame calls for a new graph. */
  predicate NeedsReinit(i: Input, frame: Frame, configured: bool) {
    var p, f := i.params, frame.params;
    || ((i.reinit || !configured) &&
        (p.format != f.format
         || (i.media.Audio? && (p.sampleRate != f.sampleRate || p.layout != f.layout))
         || (i.media.Video? && (p.width != f.width || p.height != f.height))))
    || p.hwFrames != f.hwFrames
    || p.displayMatrix != f.displayMatrix
  }

  /** The source of a freed graph is gone; what it got counts as earlier. */
  function Detached(i: Input): Input {
    i.(log := [], earlier := i.earlier + Frames(i.log))
  }

  function Attached(i: Input): Input {
    Detached(i).(queue := [], log := Items(i.queue) + if i.eof then [Eof] else [])
  }

  /** A frame put into a source; one that has seen the end of file refuses it. */
  function Push(i: Input, frame: Frame): Input {
    if Eof in i.log then i else i.(log := i.log + [Data(frame)], received := i.received + [frame])
  }

  function Close(i: Input): Input {
    if Eof in i.log then i else i.(log := i.log + [Eof])
  }

  function DetachedAll(inputs: seq<Input>): seq<Input> {
    seq(|inputs|, k requires 0 <= k < |inputs| => Detached(inputs[k]))
  }

  function AttachedAll(inputs: seq<Input>): seq<Input> {
    seq(|inputs|, k requires 0 <= k < |inputs| => Attached(inputs[k]))
  }

  /** The graph rebuilt; if the filter library refuses, it is left without one. */
  function Configure(g: Graph, accepts: bool): Graph {
    if accepts then Graph(AttachedAll(g.inputs), true) else Graph(DetachedAll(g.inputs), false)
  }

  /** The frame's parameters taken over by input `k`. */
  function Refit(g: Graph, k: nat, frame: Frame): Graph
    requires k < |g.inputs|
  {
    if NeedsReinit(g.inputs[k], frame, g.configured) then g.(inputs := g.inputs[k := g.inputs[k].(params := frame.params)])
    else g
  }

  function Queued(g: Graph, k: nat, frame: Frame): Graph
    requires k < |g.inputs|
  {
    var i := g.inputs[k];
    g.(inputs := g.inputs[k := i.(queue := i.queue + [frame], received := i.received + [frame])])
  }

  function Pushed(g: Graph, k: nat, frame: Frame): Graph
    requires k < |g.inputs|
  {
    g.(inputs := g.inputs[k := Push(g.inputs[k], frame)])
  }

  /** A decoded frame for input `k`. */
  function SendFrame(g: Graph, k: nat, frame: Frame, accepts: bool): (r: (Graph, bool))
    requires k < |g.inputs|
  {
    var rebuild := NeedsReinit(g.inputs[k], frame, g.configured) || !g.configured;
    var g1 := Refit(g, k, frame);
    if rebuild && !AllFormatsKnown(g1.inputs) then (Queued(g1, k, frame), true)
    else if rebuild && !accepts then (Configure(g1, false), false)
    else
      var g2 := if rebuild then Configure(g1, true) else g1;
      (Pushed(g2, k, frame), Eof !in g2.inputs[k].log)
  }

  /** The end of input `k`; `fallback` are the parameters known from the container. */
  function SendEof(g: Graph, k: nat, fallback: Params): (r: (Graph, bool))
    requires k < |g.inputs|
  {
    var i := g.inputs[k].(eof := true);
    if g.configured then (g.(inputs := g.inputs[k := Close(i)]), true)
    else
      var i' := if i.params.format < 0 then
        i.(params := fallback.(hwFrames := i.params.hwFrames, displayMatrix := i.params.displayMatrix)) else i;
      (g.(inputs := g.inputs[k := i']), FormatKnown(i'))
  }

  // ----- the code -----

  class InputFilter {
    const media: Media
    const reinitFilters: bool
    var params: Params
    var frameQueue: seq<Frame>
    var eof: bool
    var log: seq<Item>
    ghost var earlier: seq<Frame>
    ghost var received: seq<Frame>

    ghost function Value(): Input
      reads this
    {
      Input(media, reinitFilters, params, frameQueue, eof, log, earlier, received)
    }

    /** The source created for this input in a new graph. */
    method Detach()
      modifies this`log, this`earlier
      ensures Value() == Detached(old(Value()))
    {
      earlier := earlier + Frames(log);
      log := [];
    }

    /** Empties the queue into the new source. */
    method DrainQueue()
      requires log == []
      modifies this`log, this`frameQueue
      ensures Value() == old(Value()).(queue := [], log := Items(old(frameQueue)))
    {
      ghost var q := frameQueue;
      while frameQueue != []
        invariant |frameQueue| <= |q| && frameQueue == q[|q| - |frameQueue|..]
        invariant log == Items(q[..|q| - |frameQueue|])
        invariant Value() == old(Value()).(queue := frameQueue, log := log)
        decreases |frameQueue|
      {
        var tmp := frameQueue[0];
        frameQueue := frameQueue[1..];
        log := log + [Data(tmp)];
        assert q[..|q| - |frameQueue|] == q[..|q| - |frameQueue| - 1] + [tmp];
      }
      assert q[..|q|] == q;
    }
  }

  class FilterGraph {
    const inputs: seq<InputFilter>
    var graph: bool

    ghost predicate Valid() {
      forall i, j :: 0 <= i < j < |inputs| ==> inputs[i] != inputs[j]
    }

    ghost function Value(): Graph
      reads this, inputs
    {
      Graph(seq(|inputs|, i requires 0 <= i < |inputs| reads inputs => inputs[i].Value()), graph)
    }

    method HasAllInputFormats() returns (r: bool)
      ensures r == AllFormatsKnown(Value().inputs)
    {
      for i := 0 to |inputs|
        invariant forall j :: 0 <= j < i ==> FormatKnown(inputs[j].Value())
      {
        if inputs[i].params.format < 0 && (inputs[i].media == Audio || inputs[i].media == Video) {
          assert !FormatKnown(Value().inputs[i]);
          return false;
        }
      }
      return true;
    }

    method CleanupFiltergraph()
      requires Valid()
      modifies this, inputs
      ensures Value() == Configure(old(Value()), false)
    {
      for i := 0 to |inputs|
        invariant graph == old(graph)
        invariant forall j :: 0 <= j < i ==> inputs[j].Value() == Detached(old(inputs[j].Value()))
        invariant forall j :: i <= j < |inputs| ==> inputs[j].Value() == old(inputs[j].Value())
      {
        inputs[i].Detach();
      }
      graph := false;
      assert Value().inputs == Configure(old(Value()), false).inputs;
    }

    method DrainQueues()
      requires Valid() && forall j :: 0 <= j < |inputs| ==> inputs[j].log == []
      modifies inputs
      ensures forall j :: 0 <= j < |inputs| ==>
        inputs[j].Value() == old(inputs[j].Value()).(queue := [], log := Items(old(inputs[j].frameQueue)))
    {
      for i := 0 to |inputs|
        invariant forall j :: 0 <= j < i ==>
          inputs[j].Value() == old(inputs[j].Value()).(queue := [], log := Items(old(inputs[j].frameQueue)))
        invariant forall j :: i <= j < |inputs| ==> inputs[j].Value() == old(inputs[j].Value()) && inputs[j].log == []
      {
        inputs[i].DrainQueue();
      }
    }

    /** The ends of file that came before the graph did. */
    method ReplayEofs()
      requires Valid()
      modifies inputs
      ensures forall j :: 0 <= j < |inputs| ==>
        inputs[j].Value() == old(inputs[j].Value()).(log := old(inputs[j].log) + if old(inputs[j].eof) then [Eof] else [])
    {
      for i := 0 to |inputs|
        invariant forall j :: 0 <= j < i ==>
          inputs[j].Value() == old(inputs[j].Value()).(log := old(inputs[j].log) + if old(inputs[j].eof) then [Eof] else [])
        invariant forall j :: i <= j < |inputs| ==> inputs[j].Value() == old(inputs[j].Value())
      {
        assert inputs[i].Value().log == old(inputs[i].Value()).log && inputs[i].Value().eof == old(inputs[i].Value()).eof;
        if inputs[i].eof {
          inputs[i].log := inputs[i].log + [Eof];
        }
      }
    }

    /** The new sources get what was queued, then the ends of file that came before them. */
    method FillSources(ghost before: seq<Input>)
      requires Valid() && |before| == |inputs|
      requires forall j :: 0 <= j < |inputs| ==> inputs[j].Value() == Detached(before[j])
      modifies inputs
      ensures forall j :: 0 <= j < |inputs| ==> inputs[j].Value() == Attached(before[j])
    {
      forall j | 0 <= j < |inputs|
        ensures inputs[j].log == []
      {
        assert inputs[j].Value().log == [];
      }
      DrainQueues();
      assert forall j :: 0 <= j < |inputs| ==>
        inputs[j].Value() == Detached(before[j]).(queue := [], log := Items(before[j].queue));
      ReplayEofs();
    }

    /** `accepts` says whether the filter library takes the graph. */
    method ConfigureFiltergraph(accepts: bool) returns (ok: bool)
      requires Valid()
      modifies this, inputs
      ensures Value() == Configure(old(Value()), accepts) && ok == accepts
    {
      ghost var before := Value().inputs;
      CleanupFiltergraph();
      if !accepts {
        return false;
      }
      assert Value().inputs == DetachedAll(before);
      assert forall j :: 0 <= j < |inputs| ==> inputs[j].Value() == Value().inputs[j];
      graph := true;
      FillSources(before);
      assert Value().inputs == AttachedAll(before);
      return true;
    }

    /** The first half of `IfilterSendFrame`: are the input's parameters still right? */
    method CheckParameters(k: nat, frame: Frame) returns (needReinit: bool)
      requires Valid() && k < |inputs|
      modifies inputs[k]
      ensures needReinit == NeedsReinit(old(Value()).inputs[k], frame, graph)
      ensures Value() == Refit(old(Value()), k, frame)
    {
      ghost var g := Value();
      var ifilter := inputs[k];
      needReinit := ifilter.params.format != frame.params.format;
      if ifilter.media == Audio {
        needReinit := needReinit || ifilter.params.sampleRate != frame.params.sampleRate || ifilter.params.layout != frame.params.layout;
      } else if ifilter.media == Video {
        needReinit := needReinit || ifilter.params.width != frame.params.width || ifilter.params.height != frame.params.height;
      }
      if !ifilter.reinitFilters && graph {
        needReinit := false;
      }
      if ifilter.params.hwFrames != frame.params.hwFrames {
        needReinit := true;
      }
      if ifilter.params.displayMatrix != frame.params.displayMatrix {
        needReinit := true;
      }
      assert g.inputs[k] == ifilter.Value();
      if needReinit {
        ifilter.params := frame.params;
      }
      assert Value().inputs == Refit(g, k, frame).inputs;
    }

    method QueueFrame(k: nat, frame: Frame)
      requires Valid() && k < |inputs|
      modifies inputs[k]
      ensures Value() == Queued(old(Value()), k, frame)
    {
      ghost var g := Value();
      var ifilter := inputs[k];
      assert g.inputs[k] == ifilter.Value();
      ifilter.frameQueue := ifilter.frameQueue + [frame];
      ifilter.received := ifilter.received + [frame];
      assert Value().inputs == Queued(g, k, frame).inputs;
    }

    method IfilterSendFrame(k: nat, frame: Frame, accepts: bool) returns (ok: bool)
      requires Valid() && k < |inputs|
      modifies this, inputs
      ensures (Value(), ok) == SendFrame(old(Value()), k, frame, accepts)
    {
      var needReinit := CheckParameters(k, frame);
      if needReinit || !graph {
        var known := HasAllInputFormats();
        if !known {
          QueueFrame(k, frame);
          return true;
        }
        ok := ConfigureFiltergraph(accepts);
        if !ok {
          return false;
        }
      }
      ok := AddFrame(k, frame);
    }

    /** A frame handed to the input's source. */
    method AddFrame(k: nat, frame: Frame) returns (ok: bool)
      requires Valid() && k < |inputs|
      modifies inputs[k]
      ensures Value() == Pushed(old(Value()), k, frame)
      ensures ok == (Eof !in old(Value()).inputs[k].log)
    {
      ghost var g := Value();
      var ifilter := inputs[k];
      assert g.inputs[k] == ifilter.Value();
      ok := Eof !in ifilter.log;
      if ok {
        ifilter.log := ifilter.log + [Data(frame)];
        ifilter.received := ifilter.received + [frame];
      }
      assert Value().inputs == Pushed(g, k, frame).inputs;
    }

    method IfilterSendEof(k: nat, fallback: Params) returns (ok: bool)
      requires Valid() && k < |inputs|
      modifies inputs[k]
      ensures (Value(), ok) == SendEof(old(Value()), k, fallback)
    {
      ghost var g := Value();
      var ifilter := inputs[k];
      assert g.inputs[k] == ifilter.Value();
      ifilter.eof := true;
      ok := true;
      if graph {
        if Eof !in ifilter.log {
          ifilter.log := ifilter.log + [Eof];
        }
      } else {
        if ifilter.params.format < 0 {
          ifilter.params := fallback.(hwFrames := ifilter.params.hwFrames, displayMatrix := ifilter.params.displayMatrix);
        }
        if ifilter.params.format < 0 && (ifilter.media == Audio || ifilter.media == Video) {
          ok := false;
        }
      }
      assert Value().inputs == SendEof(g, k, fallback).0.inputs;
    }
  }

  // ----- every run -----

  /** A source's log ends with the end of file, once, if there is one. */
  predicate WellEnded(log: seq<Item>, ended: bool) {
    if ended then log != [] && log[|log| - 1] == Eof && Eof !in log[..|log| - 1] else Eof !in log
  }

  predicate InputOk(i: Input, configured: bool) {
    && i.earlier + Frames(i.log) + i.queue == i.received
    && (configured ==> FormatKnown(i) && i.queue == [] && WellEnded(i.log, i.eof))
    && (!configured ==> i.log == [])
  }

  predicate Ok(g: Graph) {
    forall k :: 0 <= k < |g.inputs| ==> InputOk(g.inputs[k], g.configured)
  }

  lemma {:induction false} FramesAdd(a: seq<Item>, b: seq<Item>)
    ensures Frames(a + b) == Frames(a) + Frames(b)
  {
    if b == [] {
      assert a + b == a;
    } else {
      var n := |b| - 1;
      assert (a + b)[..|a + b| - 1] == a + b[..n];
      FramesAdd(a, b[..n]);
    }
  }

  lemma {:induction false} FramesOfItems(frames: seq<Frame>)
    ensures Frames(Items(frames)) == frames
  {
    if frames == [] {
    } else {
      var n := |frames| - 1;
      assert Items(frames)[..n] == Items(frames[..n]);
      FramesOfItems(frames[..n]);
    }
  }

  lemma AttachedOk(i: Input, configured: bool)
    requires i.earlier + Frames(i.log) + i.queue == i.received && FormatKnown(i)
    ensures InputOk(Attached(i), true)
  {
    var log := Items(i.queue) + if i.eof then [Eof] else [];
    FramesOfItems(i.queue);
    FramesAdd(Items(i.queue), if i.eof then [Eof] else []);
    assert Frames([Eof]) == Frames([]) + [] by {
      assert [Eof][..0] == [];
    }
    assert i.eof ==> log[..|log| - 1] == Items(i.queue);
    assert Frames(log) == i.queue;
  }

  lemma ConfigureOk(g: Graph, accepts: bool)
    requires forall k :: 0 <= k < |g.inputs| ==> var i := g.inputs[k]; i.earlier + Frames(i.log) + i.queue == i.received
    requires accepts ==> AllFormatsKnown(g.inputs)
    ensures Ok(Configure(g, accepts))
  {
    if accepts {
      forall k | 0 <= k < |g.inputs|
        ensures InputOk(Attached(g.inputs[k]), true)
      {
        AttachedOk(g.inputs[k], g.configured);
      }
    }
  }

  lemma PushOk(i: Input, frame: Frame)
    requires InputOk(i, true)
    ensures InputOk(Push(i, frame), true)
  {
    FramesAdd(i.log, [Data(frame)]);
    assert Frames([Data(frame)]) == [frame] by {
      assert [Data(frame)][..0] == [];
    }
  }

  /** The frame formats come from decoders and are always known. */
  lemma SendFrameOk(g: Graph, k: nat, frame: Frame, accepts: bool)
    requires Ok(g) && k < |g.inputs| && frame.params.format >= 0
    ensures Ok(SendFrame(g, k, frame, accepts).0)
  {
    var rebuild := NeedsReinit(g.inputs[k], frame, g.configured) || !g.configured;
    var g1 := Refit(g, k, frame);
    if rebuild && AllFormatsKnown(g1.inputs) {
      ConfigureOk(g1, accepts);
      if accepts {
        PushOk(Configure(g1, true).inputs[k], frame);
      }
    } else if !rebuild {
      PushOk(g1.inputs[k], frame);
    } else {
      assert !g.configured;
    }
  }

  lemma SendEofOk(g: Graph, k: nat, fallback: Params)
    requires Ok(g) && k < |g.inputs|
    ensures Ok(SendEof(g, k, fallback).0)
  {
    FramesAdd(g.inputs[k].log, [Eof]);
    assert Frames([Eof]) == [] by {
      assert [Eof][..0] == [];
    }
  }

  /** `Rebuild` is the main loop's attempt to configure a graph that has none. */
  datatype Event =
    | Send(k: nat, frame: Frame, accepts: bool)
    | End(k: nat, fallback: Params)
    | Rebuild(accepts: bool)

  function Handle(g: Graph, e: Event): Graph {
    match e
    case Send(k, frame, accepts) => if k < |g.inputs| then SendFrame(g, k, frame, accepts).0 else g
    case End(k, fallback) => if k < |g.inputs| then SendEof(g, k, fallback).0 else g
    case Rebuild(accepts) => if !g.configured && AllFormatsKnown(g.inputs) then Configure(g, accepts) else g
  }

  function HandleAll(g: Graph, events: seq<Event>): Graph {
    if events == [] then g else Handle(HandleAll(g, events[..|events| - 1]), events[|events| - 1])
  }

  predicate Initial(g: Graph) {
    && !g.configured
    && forall k :: 0 <= k < |g.inputs| ==>
         var i := g.inputs[k]; i.queue == [] && i.log == [] && i.earlier == [] && i.received == []
  }

  predicate Decoded(events: seq<Event>) {
    forall e :: e in events && e.Send? ==> e.frame.params.format >= 0
  }

  /** In every run, for every input: what its sources got, in order, followed by its queue, is what
      was accepted from the decoder. A graph exists only with all formats known and all queues
      empty, and its source has then seen the end of file exactly if the input has, after all frames. */
  lemma {:induction false} InputsAreFifos(g: Graph, events: seq<Event>)
    requires Initial(g) && Decoded(events)
    ensures Ok(HandleAll(g, events))
  {
    if events == [] {
    } else {
      var before := HandleAll(g, events[..|events| - 1]);
      InputsAreFifos(g, events[..|events| - 1]);
      var e := events[|events| - 1];
      match e
      case Send(k, frame, accepts) =>
        if k < |before.inputs| {
          SendFrameOk(before, k, frame, accepts);
        }
      case End(k, fallback) =>
        if k < |before.inputs| {
          SendEofOk(before, k, fallback);
        }
      case Rebuild(accepts) =>
        if !before.configured && AllFormatsKnown(before.inputs) {
          ConfigureOk(before, accepts);
        }
    }
  }

  /** A frame is refused only after the end of its input, or when the library refuses the new graph. */
  lemma RefusedWhen(g: Graph, k: nat, frame: Frame, accepts: bool)
    requires Ok(g) && k < |g.inputs| && frame.params.format >= 0
    ensures !SendFrame(g, k, frame, accepts).1 <==>
      var rebuild := NeedsReinit(g.inputs[k], frame, g.configured) || !g.configured;
      var known := AllFormatsKnown(Refit(g, k, frame).inputs);
      if rebuild && !known then false else (rebuild && !accepts) || g.inputs[k].eof
  {
    var rebuild := NeedsReinit(g.inputs[k], frame, g.configured) || !g.configured;
    var g1 := Refit(g, k, frame);
    if rebuild && AllFormatsKnown(g1.inputs) && accepts {
      var i := Configure(g1, true).inputs[k];
      assert Eof in i.log <==> i.eof by {
        assert i.eof ==> i.log[|i.log| - 1] == Eof;
      }
    }
  }

  /** A frame that was not refused settles the parameters: another one like it changes nothing but
      the queue, or the source it goes to. */
  lemma NoSecondRebuild(g: Graph, k: nat, frame: Frame, again: Frame, accepts: bool, accepts': bool)
    requires k < |g.inputs| && SendFrame(g, k, frame, accepts).1 && again.params == frame.params
    ensures var g' := SendFrame(g, k, frame, accepts).0;
            && !NeedsReinit(g'.inputs[k], again, g'.configured)
            && (g'.configured ==> SendFrame(g', k, again, accepts').0 == Pushed(g', k, again))
            && (!g'.configured ==> SendFrame(g', k, again, accepts').0 == Queued(g', k, again))
  {
    var g' := SendFrame(g, k, frame, accepts).0;
    if !g'.configured {
      assert !AllFormatsKnown(Refit(g, k, frame).inputs);
      var j :| 0 <= j < |g.inputs| && !FormatKnown(Refit(g, k, frame).inputs[j]);
      assert !FormatKnown(g'.inputs[j]);
    }
  }

  /** The end of an input: a source is closed, or, without a graph, the container's parameters fill in for
      unknown ones; it fails only if an audio or video input then still has no format. */
  lemma EndedWhen(g: Graph, k: nat, fallback: Params)
    requires k < |g.inputs|
    ensures var i := g.inputs[k];
            var (r, ok) := SendEof(g, k, fallback);
            var j := r.inputs[k];
            && j.eof && r.configured == g.configured && j.queue == i.queue
            && (ok <==> g.configured || i.media == Subtitle || i.params.format >= 0 || fallback.format >= 0)
            && (g.configured || i.params.format >= 0 ==> j.params == i.params)
            && (!g.configured && i.params.format < 0 ==>
                  && j.params.format == fallback.format && j.params.width == fallback.width && j.params.height == fallback.height
                  && j.params.sampleRate == fallback.sampleRate && j.params.layout == fallback.layout)
  {
  }
}
