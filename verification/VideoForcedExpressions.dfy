/** An expression that decides which encoded frames are forced, and the variables it sees. */
module VideoForcedExpressions {
  import opened Options
  import opened ForcedKeyframes
  import opened VideoSync
  import opened VideoConservation
  import opened VideoForcedTimes

  predicate ExpressionMode(f: Forcing) {
    f.pts == [] && f.expr.Some?
  }

  /** The number of the last frame forced, if any. */
  function LastForced(sent: seq<Sent>): (r: Option<nat>)
    ensures r.Some? ==> r.value < |sent| && sent[r.value].forced && forall i :: r.value < i < |sent| ==> !sent[i].forced
    ensures r.None? ==> forall i :: 0 <= i < |sent| ==> !sent[i].forced
  {
    if sent == [] then None
    else if sent[|sent| - 1].forced then Some(|sent| - 1)
    else LastForced(sent[..|sent| - 1])
  }

  /** Time since the first frame encoded. */
  function Since(cfg: Config, sent: seq<Sent>, j: nat): real
    requires j < |sent|
  {
    TimeAt(cfg, sent[j].pts) - TimeAt(cfg, sent[0].pts)
  }

  /** The variables as the manual describes them, `before` being the frames encoded so far. */
  function Described(cfg: Config, before: seq<Sent>, t: real): ExprVars {
    var last := LastForced(before);
    ExprVars(|before|, ForcedCount(before),
             if last.Some? then Some(last.value) else None,
             if last.Some? then Some(Since(cfg, before, last.value)) else None,
             t)
  }

  /** Each frame is forced exactly if the expression says so of the variables described. */
  predicate ByExpression(cfg: Config, sent: seq<Sent>)
    requires cfg.forcing.expr.Some?
  {
    forall i :: 0 <= i < |sent| ==> sent[i].forced == cfg.forcing.expr.value(Described(cfg, sent[..i], Since(cfg, sent, i)))
  }

  predicate Stands(cfg: Config, s: StreamState)
    requires cfg.forcing.expr.Some?
  {
    && ByExpression(cfg, s.sent)
    && s.kf.refTime == (if s.sent == [] then None else Some(TimeAt(cfg, s.sent[0].pts)))
    && s.kf.vars == Described(cfg, s.sent, s.kf.vars.t)
  }

  lemma DescribedNext(cfg: Config, sent: seq<Sent>, e: Sent, t: real)
    ensures var more := sent + [e];
            var v := Described(cfg, sent, t);
            var time := Since(cfg, more, |sent|);
            Described(cfg, more, t) ==
              if e.forced then ExprVars(v.n + 1, v.nForced + 1, Some(v.n), Some(time), t) else v.(n := v.n + 1)
  {
    assert (sent + [e])[..|sent|] == sent;
  }

  lemma OneMoreByExpression(cfg: Config, sent: seq<Sent>, e: Sent)
    requires cfg.forcing.expr.Some? && ByExpression(cfg, sent)
    requires e.forced == cfg.forcing.expr.value(Described(cfg, sent, Since(cfg, sent + [e], |sent|)))
    ensures ByExpression(cfg, sent + [e])
  {
    var more := sent + [e];
    assert more[..|sent|] == sent;
    forall j | 0 <= j < |more|
      ensures more[j].forced == cfg.forcing.expr.value(Described(cfg, more[..j], Since(cfg, more, j)))
    {
      assert j < |sent| ==> more[..j] == sent[..j];
    }
  }

  /** What the forcing step does when there is nothing but an expression. */
  lemma AskedByExpression(cfg: Config, s: StreamState, shot: Shot, i: int)
    requires ExpressionMode(cfg.forcing) && Stands(cfg, s)
    ensures var (kf, forced) := Asked(cfg, s, shot, i);
            var more := s.sent + [Sent(shot, s.nextPts, i, forced)];
            var t := Since(cfg, more, |s.sent|);
            && forced == cfg.forcing.expr.value(Described(cfg, s.sent, t))
            && kf.refTime == Some(TimeAt(cfg, more[0].pts))
            && kf.vars == Described(cfg, more, t)
  {
    var (kf, forced) := Asked(cfg, s, shot, i);
    var e := Sent(shot, s.nextPts, i, forced);
    DescribedNext(cfg, s.sent, e, Since(cfg, s.sent + [e], |s.sent|));
  }

  lemma OneMoreStands(cfg: Config, s: StreamState, shot: Shot, i: int)
    requires ExpressionMode(cfg.forcing) && Stands(cfg, s)
    ensures Stands(cfg, AfterOffer(cfg, s, shot, i, Done))
  {
    AskedByExpression(cfg, s, shot, i);
    OneMoreByExpression(cfg, s.sent, Sent(shot, s.nextPts, i, Asked(cfg, s, shot, i).1));
  }

  lemma {:induction false} FeedStands(cfg: Config, s: StreamState, next: Option<Picture>, nb: int, prev: int, enc: seq<Answer>, i: int)
    requires ExpressionMode(cfg.forcing) && Stands(cfg, s) && cfg.recordingEnd.None? && Willing(enc)
    ensures Stands(cfg, Feed(cfg, s, next, nb, prev, enc, i).state)
    decreases nb - i
  {
    var shot := PictureAt(s.held, next, prev, i);
    if i >= nb || shot.None? {
    } else {
      OneMoreStands(cfg, s, shot.value, i);
      FeedStands(cfg, AfterSlot(cfg, s, next, prev, i, Done), next, nb, prev, enc, i + 1);
    }
  }

  lemma SameLogStands(cfg: Config, s: StreamState, s': StreamState)
    requires cfg.forcing.expr.Some? && Stands(cfg, s)
    requires s'.sent == s.sent && s'.kf.refTime == s.kf.refTime && s'.kf.vars == s.kf.vars
    ensures Stands(cfg, s')
  {
  }

  lemma CallStands(cfg: Config, s: StreamState, next: Option<Picture>, enc: seq<Answer>)
    requires ExpressionMode(cfg.forcing) && Stands(cfg, s) && cfg.recordingEnd.None? && Willing(enc)
    ensures Stands(cfg, VideoOut(cfg, s, next, enc).state)
  {
    var d := PlanCopies(cfg, s, next);
    var planned := Marked(Advanced(s, d), next, d.nbFrames, d.nbFramesPrev);
    var s' := VideoOut(cfg, s, next, enc).state;
    if TooLarge(cfg, d, s.lastDropped) {
      SameLogStands(cfg, s, s');
    } else {
      SameLogStands(cfg, s, planned);
      FeedStands(cfg, planned, next, d.nbFrames, d.nbFramesPrev, enc, 0);
      SameLogStands(cfg, Feed(cfg, planned, next, d.nbFrames, d.nbFramesPrev, enc, 0).state, s');
    }
  }

  /** In every run with willing encoders and no recording limits, each frame is forced exactly if the
      expression holds of its number, the number forced before it, the number and time of the last
      one forced, and its own time, all counted from the first frame encoded. */
  lemma {:induction false} ForcedByExpression(cfgs: seq<Config>, n: nat, calls: seq<Call>, k: nat)
    requires k < n && k < |cfgs| && ExpressionMode(cfgs[k].forcing) && Unhindered(cfgs, calls)
    ensures var w := RunCalls(cfgs, Fresh(n), calls);
            |w.streams| == n && Stands(cfgs[k], w.streams[k]) && ByExpression(cfgs[k], w.streams[k].sent)
  {
    if calls == [] {
    } else {
      var m := |calls| - 1;
      ForcedByExpression(cfgs, n, calls[..m], k);
      var w := RunCalls(cfgs, Fresh(n), calls[..m]);
      if calls[m].stream == k {
        CallStands(cfgs[k], w.streams[k], calls[m].next, calls[m].enc);
      }
    }
  }
}
