/** A run in which the duplicate and drop counters do not account for the output. */
module VideoMiscount {
  import opened Options
  import opened ForcedKeyframes
  import opened VideoSync
  import opened VideoConservation

  const PLAIN := Config(Cfr, 0.0, 10.0, None, Forcing([], Times, None), 40000.0)

  /** Two frames, each after a gap, and a flush. */
  const GAP1 := Call(0, Some(Picture(Shot(1, false), 3.0, 1.0)), [])
  const GAP2 := Call(0, Some(Picture(Shot(2, false), 7.0, 1.0)), [])
  const FLUSH := Call(0, None, [])

  /** A world with one stream in state `s`, and the counters right so far. */
  predicate IsRight(w: World, s: StreamState) {
    !w.exited && w.streams == [s] && !s.finished && Balanced(w) && Explained(w)
  }

  lemma CallStaysRight(w: World, s: StreamState, c: Call)
    requires IsRight(w, s) && c.stream == 0 && ForwardPicture(c.next) && Willing(c.enc) && CountsRight(PLAIN, s, c.next)
    ensures IsRight(Apply([PLAIN], w, c), VideoOut(PLAIN, s, c.next, c.enc).state)
  {
    FullCall(PLAIN, s, c.next, c.enc);
    OneCall(PLAIN, w, s, c);
    ApplyKeepsBalance([PLAIN], w, c);
    ApplyExplains([PLAIN], w, c);
  }

  lemma AtStart(n: nat)
    requires n == 1
    ensures IsRight(Fresh(n), FRESH_STREAM)
  {
    assert Fresh(n).streams == [FRESH_STREAM];
    FreshTotals(n);
  }

  /** Each frame is shown four times, the first two of them as a copy of the one before it. */
  lemma AfterGap(s: StreamState, c: Call)
    requires (s == FRESH_STREAM && c == GAP1) || (c == GAP2 && s.nextPts == 4 && s.last0 == 2 && !s.lastDropped)
    ensures CountsRight(PLAIN, s, c.next)
    ensures var s' := VideoOut(PLAIN, s, c.next, []).state;
            && s'.nextPts == s.nextPts + 4 && s'.last0 == 2 && s'.last1 == s.last0 && s'.held.Some? && !s'.lastDropped
  {
    assert PlanCopies(PLAIN, s, c.next) == Decision(4, 2, s.nextPts);
    FullCall(PLAIN, s, c.next, []);
    HistoryMovesOn(PLAIN, s, c.next, []);
  }

  /** A flush shows the frame held twice more and leaves none. */
  lemma AfterFlush(s: StreamState)
    requires s.last0 == s.last1 == 2 && s.held.Some? && !s.lastDropped
    ensures CountsRight(PLAIN, s, None)
    ensures var s' := VideoOut(PLAIN, s, None, []).state; s'.last0 == s'.last1 == s'.last2 == 2 && s'.held.None?
  {
    assert PlanCopies(PLAIN, s, None).nbFrames == 2;
    FullCall(PLAIN, s, None, []);
    HistoryMovesOn(PLAIN, s, None, []);
  }

  /** Another frame behind a gap. */
  lemma GapOn(w: World, s: StreamState, c: Call) returns (w': World, s': StreamState)
    requires IsRight(w, s)
    requires (s == FRESH_STREAM && c == GAP1) || (c == GAP2 && s.nextPts == 4 && s.last0 == 2 && !s.lastDropped)
    ensures w' == Apply([PLAIN], w, c) && IsRight(w', s')
    ensures s'.nextPts == s.nextPts + 4 && s'.last0 == 2 && s'.last1 == s.last0 && s'.held.Some? && !s'.lastDropped
  {
    AfterGap(s, c);
    CallStaysRight(w, s, c);
    w', s' := Apply([PLAIN], w, c), VideoOut(PLAIN, s, c.next, c.enc).state;
  }

  lemma FlushOn(w: World, s: StreamState) returns (w': World, s': StreamState)
    requires IsRight(w, s) && s.last0 == s.last1 == 2 && s.held.Some? && !s.lastDropped
    ensures w' == Apply([PLAIN], w, FLUSH) && IsRight(w', s')
    ensures s'.last0 == s'.last1 == s'.last2 == 2 && s'.held.None?
  {
    AfterFlush(s);
    CallStaysRight(w, s, FLUSH);
    w', s' := Apply([PLAIN], w, FLUSH), VideoOut(PLAIN, s, None, []).state;
  }

  lemma EmptyFlushIsWrong(s: StreamState)
    requires s.held.None? && s.last0 == s.last1 == s.last2 == 2
    ensures !CountsRight(PLAIN, s, None)
  {
    assert PlanCopies(PLAIN, s, None).nbFrames == 2;
  }

  lemma FlushMiscounts(w: World, s: StreamState)
    requires IsRight(w, s) && !CountsRight(PLAIN, s, None)
    ensures !Explained(Apply([PLAIN], w, FLUSH))
  {
    ApplyExplains([PLAIN], w, FLUSH);
    assert !CallIsRight([PLAIN], w, FLUSH);
  }

  /** The four calls, one after the other. */
  lemma GapsAndFlushes(w: World) returns (w1: World, w2: World, w3: World)
    requires IsRight(w, FRESH_STREAM)
    ensures w1 == Apply([PLAIN], w, GAP1) && w2 == Apply([PLAIN], w1, GAP2) && w3 == Apply([PLAIN], w2, FLUSH)
    ensures Explained(w3) && !Explained(Apply([PLAIN], w3, FLUSH))
  {
    var s1, s2, s3;
    w1, s1 := GapOn(w, FRESH_STREAM, GAP1);
    w2, s2 := GapOn(w1, s1, GAP2);
    w3, s3 := FlushOn(w2, s2);
    EmptyFlushIsWrong(s3);
    FlushMiscounts(w3, s3);
  }

  lemma FourCalls(cfgs: seq<Config>, w: World, a: Call, b: Call, c: Call, d: Call)
    ensures RunCalls(cfgs, w, [a, b, c]) == Apply(cfgs, Apply(cfgs, Apply(cfgs, w, a), b), c)
    ensures RunCalls(cfgs, w, [a, b, c, d]) == Apply(cfgs, RunCalls(cfgs, w, [a, b, c]), d)
  {
    RunOn(cfgs, w, [], a);
    assert [] + [a] == [a];
    RunOn(cfgs, w, [a], b);
    assert [a] + [b] == [a, b];
    RunOn(cfgs, w, [a, b], c);
    assert [a, b] + [c] == [a, b, c];
    RunOn(cfgs, w, [a, b, c], d);
    assert [a, b, c] + [d] == [a, b, c, d];
  }

  /** With one stream, from the start: the second flush counts two duplicates of a frame that is no
      longer there. */
  lemma SecondFlushMiscounts(n: nat)
    requires n == 1
    ensures Explained(RunCalls([PLAIN], Fresh(n), [GAP1, GAP2, FLUSH]))
    ensures !Explained(RunCalls([PLAIN], Fresh(n), [GAP1, GAP2, FLUSH, FLUSH]))
  {
    AtStart(n);
    var w1, w2, w3 := GapsAndFlushes(Fresh(n));
    FourCalls([PLAIN], Fresh(n), GAP1, GAP2, FLUSH, FLUSH);
  }
}
