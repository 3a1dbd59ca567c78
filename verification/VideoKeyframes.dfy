/** Which encoded frames are forced to be key frames, over whole runs of the frame-rate converter. */
module VideoKeyframes {
  import opened Options
  import opened ForcedKeyframes
  import opened VideoSync
  import opened VideoConservation
  import opened VideoTiming

  // ----- the source modes -----

  predicate SourceMode(f: Forcing) {
    f.pts == [] && f.expr.None? && !f.kind.Times?
  }

  /** Forced are exactly the key frames shown in the first slot of their call. */
  predicate SlotForces(sent: seq<Sent>) {
    forall j :: 0 <= j < |sent| ==> (sent[j].forced <==> sent[j].shot.key && sent[j].slot == 0)
  }

  lemma {:induction false} FeedForces(cfg: Config, s: StreamState, next: Option<Picture>, nb: int, prev: int, enc: seq<Answer>, i: int)
    requires SourceMode(cfg.forcing) && SlotForces(s.sent)
    ensures SlotForces(Feed(cfg, s, next, nb, prev, enc, i).state.sent)
    decreases nb - i
  {
    if i >= nb {
    } else {
      var ending := Slot(cfg, s, next, prev, enc, i);
      var s' := AfterSlot(cfg, s, next, prev, i, ending);
      if ending.Done? {
        FeedForces(cfg, s', next, nb, prev, enc, i + 1);
      }
    }
  }

  lemma CallForces(cfg: Config, s: StreamState, next: Option<Picture>, enc: seq<Answer>)
    requires SourceMode(cfg.forcing) && SlotForces(s.sent)
    ensures SlotForces(VideoOut(cfg, s, next, enc).state.sent)
  {
    var d := PlanCopies(cfg, s, next);
    FeedForces(cfg, Marked(Advanced(s, d), next, d.nbFrames, d.nbFramesPrev), next, d.nbFrames, d.nbFramesPrev, enc, 0);
  }

  /** In both source modes, over every run and whatever the encoders answer: forced are exactly the
      key frames shown in the first slot of their call. */
  lemma {:induction false} ForcedBySource(cfgs: seq<Config>, n: nat, calls: seq<Call>, k: nat)
    requires k < n && k < |cfgs| && SourceMode(cfgs[k].forcing)
    ensures var w := RunCalls(cfgs, Fresh(n), calls); |w.streams| == n && SlotForces(w.streams[k].sent)
  {
    if calls == [] {
    } else {
      var m := |calls| - 1;
      ForcedBySource(cfgs, n, calls[..m], k);
      var w := RunCalls(cfgs, Fresh(n), calls[..m]);
      if calls[m].stream == k {
        CallForces(cfgs[k], w.streams[k], calls[m].next, calls[m].enc);
      }
    }
  }

  // ----- the two source modes are one -----

  const SOURCE := Forcing([], Source, None)
  const SOURCE_NO_DROP := Forcing([], SourceNoDrop, None)

  /** The same stream with another state of the forcing step. */
  predicate SameBut(s: StreamState, s': StreamState) {
    s' == s.(kf := s'.kf)
  }

  lemma {:induction false} FeedsAlike(cfg: Config, s: StreamState, s': StreamState, next: Option<Picture>, nb: int, prev: int, enc: seq<Answer>, i: int)
    requires cfg.forcing == SOURCE && SameBut(s, s')
    ensures var f := Feed(cfg, s, next, nb, prev, enc, i);
            var f' := Feed(cfg.(forcing := SOURCE_NO_DROP), s', next, nb, prev, enc, i);
            SameBut(f.state, f'.state) && f'.accepted == f.accepted && f'.ending == f.ending
    decreases nb - i
  {
    var cfg' := cfg.(forcing := SOURCE_NO_DROP);
    if i >= nb {
    } else {
      var ending := Slot(cfg, s, next, prev, enc, i);
      assert Slot(cfg', s', next, prev, enc, i) == ending;
      var t, t' := AfterSlot(cfg, s, next, prev, i, ending), AfterSlot(cfg', s', next, prev, i, ending);
      assert SameBut(t, t');
      if ending.Done? {
        FeedsAlike(cfg, t, t', next, nb, prev, enc, i + 1);
      }
    }
  }

  lemma CallsAlike(cfg: Config, s: StreamState, s': StreamState, next: Option<Picture>, enc: seq<Answer>)
    requires cfg.forcing == SOURCE && SameBut(s, s')
    ensures var o := VideoOut(cfg, s, next, enc);
            var o' := VideoOut(cfg.(forcing := SOURCE_NO_DROP), s', next, enc);
            SameBut(o.state, o'.state) && o' == o.(state := o'.state)
  {
    var d := PlanCopies(cfg, s, next);
    var cfg' := cfg.(forcing := SOURCE_NO_DROP);
    assert PlanCopies(cfg', s', next) == d;
    FeedsAlike(cfg, Marked(Advanced(s, d), next, d.nbFrames, d.nbFramesPrev), Marked(Advanced(s', d), next, d.nbFrames, d.nbFramesPrev),
               next, d.nbFrames, d.nbFramesPrev, enc, 0);
  }

  /** Worlds that differ in how stream `k`'s forcing step stands, if at all. */
  predicate SameWorldBut(w: World, w': World, k: nat)
    requires k < |w.streams|
  {
    && |w'.streams| == |w.streams|
    && w' == w.(streams := w'.streams)
    && SameBut(w.streams[k], w'.streams[k])
    && forall i :: 0 <= i < |w.streams| && i != k ==> w'.streams[i] == w.streams[i]
  }

  lemma AppliedAlike(cfgs: seq<Config>, w: World, w': World, c: Call, k: nat)
    requires k < |cfgs| && k < |w.streams| && cfgs[k].forcing == SOURCE && SameWorldBut(w, w', k)
    ensures |Apply(cfgs, w, c).streams| == |w.streams|
    ensures SameWorldBut(Apply(cfgs, w, c), Apply(cfgs[k := cfgs[k].(forcing := SOURCE_NO_DROP)], w', c), k)
  {
    if c.stream == k {
      CallsAlike(cfgs[k], w.streams[k], w'.streams[k], c.next, c.enc);
    }
  }

  /** Asking for `source_no_drop` instead of `source` changes nothing, in any run: the same frames
      are encoded, the same ones are forced, and everything is counted alike. */
  lemma {:induction false} SourceModesAgree(cfgs: seq<Config>, n: nat, calls: seq<Call>, k: nat)
    requires k < n && k < |cfgs| && cfgs[k].forcing == SOURCE
    ensures var w := RunCalls(cfgs, Fresh(n), calls);
            var w' := RunCalls(cfgs[k := cfgs[k].(forcing := SOURCE_NO_DROP)], Fresh(n), calls);
            |w.streams| == n && SameWorldBut(w, w', k)
  {
    if calls == [] {
    } else {
      var m := |calls| - 1;
      SourceModesAgree(cfgs, n, calls[..m], k);
      AppliedAlike(cfgs, RunCalls(cfgs, Fresh(n), calls[..m]),
                   RunCalls(cfgs[k := cfgs[k].(forcing := SOURCE_NO_DROP)], Fresh(n), calls[..m]), calls[m], k);
    }
  }

  /** Accepting slots keeps the frame held and never sets the mark of a dropped key frame; in the
      `source_no_drop` mode the first one clears it. */
  lemma {:induction false} FeedKeepsMark(cfg: Config, s: StreamState, next: Option<Picture>, nb: int, prev: int, enc: seq<Answer>, i: int)
    ensures var f := Feed(cfg, s, next, nb, prev, enc, i);
            && f.state.held == s.held
            && (f.state.kf.droppedKeyframe ==> s.kf.droppedKeyframe)
            && (cfg.forcing == SOURCE_NO_DROP && i == 0 && f.accepted > 0 ==> !f.state.kf.droppedKeyframe)
            && (cfg.forcing == SOURCE ==> f.state.kf.droppedKeyframe == s.kf.droppedKeyframe)
    decreases nb - i
  {
    if i >= nb || !Slot(cfg, s, next, prev, enc, i).Done? {
    } else {
      FeedKeepsMark(cfg, AfterSlot(cfg, s, next, prev, i, Done), next, nb, prev, enc, i + 1);
    }
  }

  /** Why: whatever the state before the call, at each of its slots the mark of a dropped key frame is
      that of the frame this very call drops, or clear. It is set only while copies of the frame
      before are shown, and never while a frame after a dropped one is. */
  lemma MarkIsOfThisCall(cfg: Config, s: StreamState, next: Option<Picture>, enc: seq<Answer>, i: nat)
    requires i < PlanCopies(cfg, s, next).nbFrames
    ensures var d := PlanCopies(cfg, s, next);
            var si := Feed(cfg, Marked(Advanced(s, d), next, d.nbFrames, d.nbFramesPrev), next, i, d.nbFramesPrev, enc, 0).state;
            && (si.kf.droppedKeyframe ==> next.Some? && next.value.shot.key && d.nbFrames == d.nbFramesPrev)
            && (si.kf.droppedKeyframe && s.held.Some? ==> PictureAt(si.held, next, d.nbFramesPrev, i) == s.held)
            && (d.nbFramesPrev < d.nbFrames ==> !si.kf.droppedKeyframe)
  {
    var d := PlanCopies(cfg, s, next);
    FeedKeepsMark(cfg, Marked(Advanced(s, d), next, d.nbFrames, d.nbFramesPrev), next, i, d.nbFramesPrev, enc, 0);
  }

  // ----- what the manual asks for -----

  /** The ids of the key frames offered to stream `k`. */
  function KeyIds(calls: seq<Call>, k: nat): set<int> {
    if calls == [] then {} else KeyIds(calls[..|calls| - 1], k) + NewKey(calls[|calls| - 1], k)
  }

  function NewKey(c: Call, k: nat): set<int> {
    if c.stream == k then KeyOf(c.next) else {}
  }

  function KeyOf(next: Option<Picture>): set<int> {
    if next.Some? && next.value.shot.key then {next.value.shot.id} else {}
  }

  /** The first frame encoded of those not older than `id`. */
  predicate FirstFrom(sent: seq<Sent>, j: nat, id: int)
    requires j < |sent|
  {
    sent[j].shot.id >= id && forall i :: 0 <= i < j ==> sent[i].shot.id < id
  }

  /** The rule for `source`: a key frame that is shown is forced when it first is. */
  predicate ShownKeysForced(keys: set<int>, sent: seq<Sent>) {
    forall id, j :: id in keys && 0 <= j < |sent| && FirstFrom(sent, j, id) && sent[j].shot.id == id ==> sent[j].forced
  }

  /** The rule for `source_no_drop`: for a key frame that is dropped, the next frame is forced. */
  predicate EveryKeyForces(keys: set<int>, sent: seq<Sent>) {
    forall id, j :: id in keys && 0 <= j < |sent| && FirstFrom(sent, j, id) ==> sent[j].forced
  }

  /** Nothing from `id` on was encoded yet. */
  predicate Waits(sent: seq<Sent>, id: int) {
    forall j :: 0 <= j < |sent| ==> sent[j].shot.id < id
  }

  // ----- one block of copies -----

  /** From `|sent|` on: `b` copies of `first`, then copies of `second`, the very first forced if it is a key frame. */
  predicate Block(sent: seq<Sent>, sent': seq<Sent>, first: Shot, second: Shot, b: nat) {
    && sent <= sent' && 0 < b <= |sent'| - |sent|
    && (forall j :: |sent| <= j < |sent'| ==>
          && sent'[j].shot == (if j < |sent| + b then first else second)
          && (sent'[j].forced <==> sent'[j].shot.key && j == |sent|))
    && (forall j :: 0 <= j < |sent| ==> sent[j].shot.id <= first.id)
    && (b < |sent'| - |sent| ==> first.id < second.id)
  }

  lemma FirstInBlock(sent: seq<Sent>, sent': seq<Sent>, first: Shot, second: Shot, b: nat, j: nat, id: int)
    requires Block(sent, sent', first, second, b) && j < |sent'|
    ensures FirstFrom(sent', j, id) <==>
      || (j < |sent| && FirstFrom(sent, j, id))
      || (j == |sent| && Waits(sent, id) && id <= first.id)
      || (j == |sent| + b && Waits(sent, id) && first.id < id <= second.id)
  {
    if |sent| + b < j {
      assert sent'[|sent| + b].shot == sent'[j].shot;
    }
    if FirstFrom(sent', j, id) {
      assert j >= |sent| ==> Waits(sent, id) by {
        assert forall i :: 0 <= i < |sent| ==> sent'[i] == sent[i];
      }
      assert j > |sent| ==> sent'[|sent|].shot.id < id;
    }
  }

  /** A key frame waits that is not newer than `first`. */
  predicate Due(keys: set<int>, sent: seq<Sent>, first: int) {
    exists id :: id in keys && Waits(sent, id) && id <= first
  }

  /** A key frame waits that is newer than `first`, but not than `second`. */
  predicate DueLater(keys: set<int>, sent: seq<Sent>, first: int, second: int) {
    exists id :: id in keys && Waits(sent, id) && first < id <= second
  }

  lemma BlockForces(keys: set<int>, sent: seq<Sent>, sent': seq<Sent>, first: Shot, second: Shot, b: nat)
    requires Block(sent, sent', first, second, b)
    ensures EveryKeyForces(keys, sent') <==>
      && EveryKeyForces(keys, sent)
      && (Due(keys, sent, first.id) ==> first.key)
      && (b < |sent'| - |sent| ==> !DueLater(keys, sent, first.id, second.id))
  {
    forall id, j | id in keys && 0 <= j < |sent'|
      ensures FirstFrom(sent', j, id) <==>
        || (j < |sent| && FirstFrom(sent, j, id))
        || (j == |sent| && Waits(sent, id) && id <= first.id)
        || (j == |sent| + b && Waits(sent, id) && first.id < id <= second.id)
    {
      FirstInBlock(sent, sent', first, second, b, j, id);
    }
    if EveryKeyForces(keys, sent') {
      OldFirsts(keys, sent, sent', first, second, b);
    }
    if Due(keys, sent, first.id) && !first.key {
      var id :| id in keys && Waits(sent, id) && id <= first.id;
      assert FirstFrom(sent', |sent|, id) && !sent'[|sent|].forced;
    }
    if b < |sent'| - |sent| && DueLater(keys, sent, first.id, second.id) {
      var id :| id in keys && Waits(sent, id) && first.id < id <= second.id;
      assert FirstFrom(sent', |sent| + b, id) && !sent'[|sent| + b].forced;
    }
  }

  lemma OldFirsts(keys: set<int>, sent: seq<Sent>, sent': seq<Sent>, first: Shot, second: Shot, b: nat)
    requires Block(sent, sent', first, second, b) && EveryKeyForces(keys, sent')
    ensures EveryKeyForces(keys, sent)
  {
    forall id, j | id in keys && 0 <= j < |sent| && FirstFrom(sent, j, id)
      ensures sent[j].forced
    {
      assert FirstFrom(sent', j, id);
    }
  }

  lemma BlockShows(keys: set<int>, sent: seq<Sent>, sent': seq<Sent>, first: Shot, second: Shot, b: nat)
    requires Block(sent, sent', first, second, b) && (first.id in keys ==> first.key)
    ensures ShownKeysForced(keys, sent') <==>
      ShownKeysForced(keys, sent) && (b < |sent'| - |sent| ==> second.id !in keys)
  {
    forall id, j | id in keys && 0 <= j < |sent'|
      ensures FirstFrom(sent', j, id) <==>
        || (j < |sent| && FirstFrom(sent, j, id))
        || (j == |sent| && Waits(sent, id) && id <= first.id)
        || (j == |sent| + b && Waits(sent, id) && first.id < id <= second.id)
    {
      FirstInBlock(sent, sent', first, second, b, j, id);
    }
    if ShownKeysForced(keys, sent') {
      forall id, j | id in keys && 0 <= j < |sent| && FirstFrom(sent, j, id) && sent[j].shot.id == id
        ensures sent[j].forced
      {
        assert FirstFrom(sent', j, id);
      }
    }
    if b < |sent'| - |sent| && second.id in keys {
      assert FirstFrom(sent', |sent| + b, second.id) && !sent'[|sent| + b].forced;
    }
  }

  // ----- one call -----

  /** Copies of the older frame are shown before the new one. */
  predicate Behind(s: StreamState, next: Option<Picture>, d: Decision) {
    s.held.Some? && next.Some? && 0 < d.nbFramesPrev < d.nbFrames
  }

  /** Read off before the call: what the rule for `source` needs of it. */
  predicate ShowsKeyFirst(cfg: Config, s: StreamState, next: Option<Picture>) {
    ShownSlots(cfg, s, next) > 0 && Behind(s, next, PlanCopies(cfg, s, next)) ==> !next.value.shot.key
  }

  /** What the rule for `source_no_drop` needs: the first frame shown is a key frame if one is due
      by then, and none is due between it and a new frame shown behind it. `keys` are the key frames
      offered, the new frame among them. */
  predicate ServesDueKeys(cfg: Config, s: StreamState, next: Option<Picture>, keys: set<int>) {
    var d := PlanCopies(cfg, s, next);
    var first := PictureAt(s.held, next, d.nbFramesPrev, 0);
    ShownSlots(cfg, s, next) > 0 && first.Some? ==>
      && (Due(keys, s.sent, first.value.id) ==> first.value.key)
      && (Behind(s, next, d) ==> !DueLater(keys, s.sent, first.value.id, next.value.shot.id))
  }

  /** A stream that was offered key frames `keys` and no frame newer than `newest`. */
  predicate Ready(cfg: Config, s: StreamState, keys: set<int>, newest: int) {
    && !s.finished && InOrder(cfg, s, newest) && SlotForces(s.sent)
    && (s.held.Some? ==> (s.held.value.key <==> s.held.value.id in keys))
    && (forall id :: id in keys ==> id <= newest)
  }

  function Newest(newest: int, next: Option<Picture>): int {
    if next.Some? then next.value.shot.id else newest
  }

  predicate Unlimited(cfg: Config, enc: seq<Answer>) {
    SourceMode(cfg.forcing) && cfg.recordingEnd.None? && Willing(enc)
  }

  lemma CallStaysReady(cfg: Config, s: StreamState, next: Option<Picture>, enc: seq<Answer>, keys: set<int>, newest: int)
    requires Unlimited(cfg, enc) && Ready(cfg, s, keys, newest)
    requires next.Some? ==> newest < next.value.shot.id
    ensures Ready(cfg, VideoOut(cfg, s, next, enc).state, keys + KeyOf(next), Newest(newest, next))
  {
    FullCall(cfg, s, next, enc);
    CallKeepsOrder(cfg, s, next, enc, newest);
    CallForces(cfg, s, next, enc);
  }

  /** The frames of a call: copies of one frame, then perhaps of another. */
  lemma CallIsBlock(cfg: Config, s: StreamState, next: Option<Picture>, enc: seq<Answer>, keys: set<int>, newest: int)
    returns (first: Shot, second: Shot, b: nat)
    requires Unlimited(cfg, enc) && Ready(cfg, s, keys, newest) && ShownSlots(cfg, s, next) > 0
    requires next.Some? ==> newest < next.value.shot.id
    ensures var d := PlanCopies(cfg, s, next);
            var s' := VideoOut(cfg, s, next, enc).state;
            && Block(s.sent, s'.sent, first, second, b)
            && PictureAt(s.held, next, d.nbFramesPrev, 0) == Some(first)
            && (Behind(s, next, d) <==> b < |s'.sent| - |s.sent|)
            && (Behind(s, next, d) ==> second == next.value.shot)
            && (first.key <==> first.id in keys + KeyOf(next))
  {
    FullCall(cfg, s, next, enc);
    CallForces(cfg, s, next, enc);
    var d := PlanCopies(cfg, s, next);
    var s' := VideoOut(cfg, s, next, enc).state;
    var n := ShownSlots(cfg, s, next);
    first := PictureAt(s.held, next, d.nbFramesPrev, 0).value;
    second := if next.Some? then next.value.shot else first;
    b := if Behind(s, next, d) then d.nbFramesPrev else n;
    forall j | |s.sent| <= j < |s'.sent|
      ensures s'.sent[j].shot == if j < |s.sent| + b then first else second
      ensures s'.sent[j].forced <==> s'.sent[j].shot.key && j == |s.sent|
    {
      assert Shows(s'.sent[j], s.held, next, d.nbFramesPrev, j - |s.sent|, d.nextPts + j - |s.sent|);
    }
    assert forall e :: e in s.sent ==> e.shot.id <= first.id;
  }

  /** A new frame's id is not yet anywhere in the log. */
  lemma NewKeyIsLate(s: StreamState, keys: set<int>, next: Option<Picture>, newest: int)
    requires forall e :: e in s.sent ==> e.shot.id <= newest
    requires next.Some? ==> newest < next.value.shot.id
    ensures EveryKeyForces(keys + KeyOf(next), s.sent) <==> EveryKeyForces(keys, s.sent)
    ensures ShownKeysForced(keys + KeyOf(next), s.sent) <==> ShownKeysForced(keys, s.sent)
  {
    assert forall j, id :: 0 <= j < |s.sent| && id in KeyOf(next) ==> s.sent[j] in s.sent && !FirstFrom(s.sent, j, id);
    assert forall id :: id in keys ==> id in keys + KeyOf(next);
  }

  lemma CallMeetsRules(cfg: Config, s: StreamState, next: Option<Picture>, enc: seq<Answer>, keys: set<int>, newest: int)
    requires Unlimited(cfg, enc) && Ready(cfg, s, keys, newest)
    requires next.Some? ==> newest < next.value.shot.id
    ensures var keys' := keys + KeyOf(next);
            var sent' := VideoOut(cfg, s, next, enc).state.sent;
            && (EveryKeyForces(keys', sent') <==> EveryKeyForces(keys, s.sent) && ServesDueKeys(cfg, s, next, keys'))
            && (ShownKeysForced(keys', sent') <==> ShownKeysForced(keys, s.sent) && ShowsKeyFirst(cfg, s, next))
  {
    var keys' := keys + KeyOf(next);
    NewKeyIsLate(s, keys, next, newest);
    FullCall(cfg, s, next, enc);
    var s' := VideoOut(cfg, s, next, enc).state;
    if ShownSlots(cfg, s, next) == 0 {
      assert s'.sent == s.sent;
    } else {
      var first, second, b := CallIsBlock(cfg, s, next, enc, keys, newest);
      BlockForces(keys', s.sent, s'.sent, first, second, b);
      BlockShows(keys', s.sent, s'.sent, first, second, b);
    }
  }

  // ----- whole runs -----

  /** Every call to stream `k` meets its rule in the state it finds. */
  predicate AllServe(cfgs: seq<Config>, n: nat, calls: seq<Call>, k: nat)
    requires k < |cfgs|
  {
    calls == [] ||
    var m := |calls| - 1;
    var streams := RunCalls(cfgs, Fresh(n), calls[..m]).streams;
    && AllServe(cfgs, n, calls[..m], k)
    && (calls[m].stream == k < |streams| ==> ServesDueKeys(cfgs[k], streams[k], calls[m].next, KeyIds(calls, k)))
  }

  predicate AllShowFirst(cfgs: seq<Config>, n: nat, calls: seq<Call>, k: nat)
    requires k < |cfgs|
  {
    calls == [] ||
    var m := |calls| - 1;
    var streams := RunCalls(cfgs, Fresh(n), calls[..m]).streams;
    && AllShowFirst(cfgs, n, calls[..m], k)
    && (calls[m].stream == k < |streams| ==> ShowsKeyFirst(cfgs[k], streams[k], calls[m].next))
  }

  lemma IdsRisePrefix(calls: seq<Call>, k: nat, base: int)
    requires calls != [] && IdsRise(calls, k, base)
    ensures IdsRise(calls[..|calls| - 1], k, base)
  {
    var m := |calls| - 1;
    assert forall i :: 0 <= i < m ==> calls[..m][..i] == calls[..i];
  }

  /** Stream `k` of a run with willing encoders and no recording limits. */
  predicate RunIsReady(cfgs: seq<Config>, n: nat, calls: seq<Call>, k: nat, base: int)
    requires k < |cfgs|
  {
    var w := RunCalls(cfgs, Fresh(n), calls);
    && !w.exited && |w.streams| == n && k < n
    && Ready(cfgs[k], w.streams[k], KeyIds(calls, k), LastId(calls, k, base))
  }

  lemma OtherCall(cfgs: seq<Config>, w: World, c: Call, k: nat)
    requires !w.exited && k < |cfgs| && k < |w.streams| && c.stream != k
    requires Willing(c.enc) && forall i :: 0 <= i < |cfgs| ==> cfgs[i].recordingEnd.None?
    ensures var r := Apply(cfgs, w, c); !r.exited && |r.streams| == |w.streams| && r.streams[k] == w.streams[k]
  {
    if c.stream < |w.streams| && c.stream < |cfgs| {
      FullCall(cfgs[c.stream], w.streams[c.stream], c.next, c.enc);
    }
  }

  lemma OwnCall(cfgs: seq<Config>, w: World, c: Call)
    requires !w.exited && c.stream < |cfgs| && c.stream < |w.streams| && !w.streams[c.stream].finished
    requires Willing(c.enc) && cfgs[c.stream].recordingEnd.None?
    ensures var r := Apply(cfgs, w, c);
            && !r.exited && |r.streams| == |w.streams|
            && r.streams[c.stream] == VideoOut(cfgs[c.stream], w.streams[c.stream], c.next, c.enc).state
  {
    FullCall(cfgs[c.stream], w.streams[c.stream], c.next, c.enc);
  }

  lemma {:induction false} RunStaysReady(cfgs: seq<Config>, n: nat, calls: seq<Call>, k: nat, base: int)
    requires k < n && k < |cfgs| && SourceMode(cfgs[k].forcing) && Unhindered(cfgs, calls) && IdsRise(calls, k, base)
    ensures RunIsReady(cfgs, n, calls, k, base)
  {
    if calls == [] {
    } else {
      var m := |calls| - 1;
      var c := calls[m];
      IdsRisePrefix(calls, k, base);
      RunStaysReady(cfgs, n, calls[..m], k, base);
      var w := RunCalls(cfgs, Fresh(n), calls[..m]);
      if c.stream == k {
        OwnCall(cfgs, w, c);
        CallStaysReady(cfgs[k], w.streams[k], c.next, c.enc, KeyIds(calls[..m], k), LastId(calls[..m], k, base));
      } else {
        OtherCall(cfgs, w, c, k);
      }
    }
  }

  /** The rules of the two source modes, over runs with willing encoders and no recording limits.
      Every key frame shown is forced when it first is, if and only if no call shows a key frame
      behind copies of the frame before. And for every dropped key frame the next one encoded is
      forced too, if and only if each call shows a key frame first whenever one is due. */
  lemma {:induction false} RulesMetIff(cfgs: seq<Config>, n: nat, calls: seq<Call>, k: nat, base: int)
    requires k < n && k < |cfgs| && SourceMode(cfgs[k].forcing) && Unhindered(cfgs, calls) && IdsRise(calls, k, base)
    ensures var w := RunCalls(cfgs, Fresh(n), calls);
            && |w.streams| == n
            && (ShownKeysForced(KeyIds(calls, k), w.streams[k].sent) <==> AllShowFirst(cfgs, n, calls, k))
            && (EveryKeyForces(KeyIds(calls, k), w.streams[k].sent) <==> AllServe(cfgs, n, calls, k))
  {
    RunStaysReady(cfgs, n, calls, k, base);
    if calls == [] {
    } else {
      var m := |calls| - 1;
      IdsRisePrefix(calls, k, base);
      RulesMetIff(cfgs, n, calls[..m], k, base);
      RunStaysReady(cfgs, n, calls[..m], k, base);
      ApplyMeets(cfgs, RunCalls(cfgs, Fresh(n), calls[..m]), calls[m], k, KeyIds(calls[..m], k), LastId(calls[..m], k, base));
    }
  }

  /** One call, to stream `k` or another, in any world in which stream `k` is ready. */
  lemma ApplyMeets(cfgs: seq<Config>, w: World, c: Call, k: nat, keys: set<int>, newest: int)
    requires k < |cfgs| && k < |w.streams| && !w.exited && SourceMode(cfgs[k].forcing)
    requires Willing(c.enc) && forall i :: 0 <= i < |cfgs| ==> cfgs[i].recordingEnd.None?
    requires Ready(cfgs[k], w.streams[k], keys, newest)
    requires c.stream == k && c.next.Some? ==> newest < c.next.value.shot.id
    ensures var r := Apply(cfgs, w, c);
            var s := w.streams[k];
            var keys' := keys + NewKey(c, k);
            var mine := c.stream == k;
            && |r.streams| == |w.streams|
            && (EveryKeyForces(keys', r.streams[k].sent) <==>
                  EveryKeyForces(keys, s.sent) && (mine ==> ServesDueKeys(cfgs[k], s, c.next, keys')))
            && (ShownKeysForced(keys', r.streams[k].sent) <==>
                  ShownKeysForced(keys, s.sent) && (mine ==> ShowsKeyFirst(cfgs[k], s, c.next)))
  {
    if c.stream == k {
      OwnCall(cfgs, w, c);
      CallMeetsRules(cfgs[k], w.streams[k], c.next, c.enc, keys, newest);
    } else {
      OtherCall(cfgs, w, c, k);
      assert keys + NewKey(c, k) == keys;
    }
  }
}
