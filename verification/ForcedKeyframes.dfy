/** Forced key frames: parsing the list of times, and choosing the frames that serve them. */
module ForcedKeyframes {
  import opened Numbers
  import opened Options

  // ----- the list of times -----

  /** Index of the first comma, or the length. */
  function FirstComma(s: string): (k: nat)
    ensures k <= |s|
    ensures k < |s| ==> s[k] == ','
    ensures ',' !in s[..k]
  {
    if s == [] || s[0] == ',' then 0
    else
      assert s[..1 + FirstComma(s[1..])] == [s[0]] + s[1..][..FirstComma(s[1..])];
      1 + FirstComma(s[1..])
  }

  function Commas(s: string): nat {
    if s == [] then 0 else Commas(s[..|s| - 1]) + if s[|s| - 1] == ',' then 1 else 0
  }

  function Tokens(s: string): (r: seq<string>)
    ensures r != []
  {
    var k := FirstComma(s);
    if k == |s| then [s] else [s[..k]] + Tokens(s[k + 1..])
  }

  function Joined(tokens: seq<string>): string {
    if tokens == [] then "" else if |tokens| == 1 then tokens[0] else tokens[0] + "," + Joined(tokens[1..])
  }

  /** The tokens are the pieces between the commas. */
  lemma {:induction false} TokensSplit(s: string)
    ensures Joined(Tokens(s)) == s
    ensures forall t :: t in Tokens(s) ==> ',' !in t
    ensures |Tokens(s)| == 1 + Commas(s)
    decreases |s|
  {
    var k := FirstComma(s);
    if k == |s| {
      assert s[..k] == s;
      NoCommas(s);
    } else {
      TokensSplit(s[k + 1..]);
      assert s == s[..k] + "," + s[k + 1..];
      OneComma(s[..k], s[k + 1..]);
    }
  }

  lemma {:induction false} NoCommas(s: string)
    requires ',' !in s
    ensures Commas(s) == 0
  {
    if s == [] {
    } else {
      NoCommas(s[..|s| - 1]);
      assert s[|s| - 1] in s;
    }
  }

  lemma OneComma(before: string, rest: string)
    requires ',' !in before
    ensures Commas(before + "," + rest) == 1 + Commas(rest)
  {
    NoCommas(before);
    assert (before + ",")[..|before|] == before;
    CommasAdd(before + ",", rest);
  }

  lemma {:induction false} CommasAdd(a: string, b: string)
    ensures Commas(a + b) == Commas(a) + Commas(b)
  {
    if b == [] {
      assert a + b == a;
    } else {
      var n := |b| - 1;
      assert (a + b)[..|a + b| - 1] == a + b[..n];
      CommasAdd(a, b[..n]);
    }
  }

  const CHAPTERS := "chapters"

  predicate IsChapters(token: string) {
    |token| >= 8 && token[..8] == CHAPTERS
  }

  /** The times a token stands for, or none if it cannot be parsed: one time, or every chapter
      start shifted by the time after the word. */
  function TokenTimes(token: string, chapters: seq<int>, parse: string -> Option<int>): Option<seq<int>> {
    if IsChapters(token) then
      var shift := if token[8..] == "" then Some(0) else parse(token[8..]);
      if shift.None? then None
      else Some(seq(|chapters|, j requires 0 <= j < |chapters| => chapters[j] + shift.value))
    else
      var t := parse(token);
      if t.None? then None else Some([t.value])
  }

  /** All times of a list, given those of the tokens before it. */
  function AllTimes(done: seq<int>, tokens: seq<string>, chapters: seq<int>, parse: string -> Option<int>): Option<seq<int>>
    decreases |tokens|
  {
    if tokens == [] then Some(done)
    else
      var first := TokenTimes(tokens[0], chapters, parse);
      if first.None? then None else AllTimes(done + first.value, tokens[1..], chapters, parse)
  }

  /** `chapters` and a time behind the word stand for every chapter's start that much later; the word
      alone for the starts themselves. */
  lemma ChapterTimes(delta: string, chapters: seq<int>, parse: string -> Option<int>)
    ensures var r := TokenTimes(CHAPTERS + delta, chapters, parse);
            && (r.None? <==> delta != "" && parse(delta).None?)
            && (r.Some? ==>
                  && |r.value| == |chapters|
                  && forall j :: 0 <= j < |chapters| ==>
                       r.value[j] - chapters[j] == if delta == "" then 0 else parse(delta).value)
  {
    var token := CHAPTERS + delta;
    assert token[..8] == CHAPTERS && token[8..] == delta;
  }

  /** Any other token stands for the one time it is parsed as. */
  lemma SingleTime(token: string, chapters: seq<int>, parse: string -> Option<int>)
    requires !(CHAPTERS <= token)
    ensures TokenTimes(token, chapters, parse) == (var t := parse(token); if t.Some? then Some([t.value]) else None)
  {
  }

  /** The times of a list are those of its tokens, one after the other; a list is rejected exactly if one
      of its tokens is. */
  lemma {:induction false} AllTimesAreTokens(done: seq<int>, tokens: seq<string>, chapters: seq<int>, parse: string -> Option<int>)
    ensures var r := AllTimes(done, tokens, chapters, parse);
            && (r.None? <==> exists i :: 0 <= i < |tokens| && TokenTimes(tokens[i], chapters, parse).None?)
            && (r.Some? ==>
                  && done <= r.value
                  && forall x :: x in r.value <==> x in done || exists i :: 0 <= i < |tokens| && x in TokenTimes(tokens[i], chapters, parse).value)
    decreases |tokens|
  {
    if tokens == [] {
    } else {
      var first := TokenTimes(tokens[0], chapters, parse);
      if first.Some? {
        AllTimesAreTokens(done + first.value, tokens[1..], chapters, parse);
        assert forall i :: 1 <= i < |tokens| ==> tokens[i] == tokens[1..][i - 1];
        assert forall i :: 0 <= i < |tokens| - 1 ==> tokens[1..][i] == tokens[i + 1];
      }
    }
  }

  predicate SortedTimes(pts: seq<int>) {
    forall i, j :: 0 <= i <= j < |pts| ==> pts[i] <= pts[j]
  }

  function Insert(x: int, s: seq<int>): seq<int> {
    if s == [] || x <= s[0] then [x] + s else [s[0]] + Insert(x, s[1..])
  }

  /** What the C library's `qsort` makes of integers. */
  function QSort(s: seq<int>): seq<int> {
    if s == [] then [] else Insert(s[0], QSort(s[1..]))
  }

  lemma {:induction false} InsertAdds(x: int, s: seq<int>)
    ensures multiset(Insert(x, s)) == multiset(s) + multiset{x}
  {
    if s == [] || x <= s[0] {
    } else {
      InsertAdds(x, s[1..]);
      assert s == [s[0]] + s[1..];
    }
  }

  lemma {:induction false} InsertSorts(x: int, s: seq<int>)
    requires SortedTimes(s)
    ensures SortedTimes(Insert(x, s))
  {
    if s == [] || x <= s[0] {
    } else {
      InsertSorts(x, s[1..]);
      InsertAdds(x, s[1..]);
      var r := Insert(x, s[1..]);
      forall i | 0 <= i < |r|
        ensures s[0] <= r[i]
      {
        assert r[i] in multiset(r);
      }
    }
  }

  lemma {:induction false} QSortSorts(s: seq<int>)
    ensures SortedTimes(QSort(s)) && multiset(QSort(s)) == multiset(s)
  {
    if s == [] {
    } else {
      QSortSorts(s[1..]);
      InsertSorts(s[0], QSort(s[1..]));
      InsertAdds(s[0], QSort(s[1..]));
      assert s == [s[0]] + s[1..];
    }
  }

  method CountTokens(spec: string) returns (n: nat)
    ensures n == |Tokens(spec)|
  {
    n := 1;
    for k := 0 to |spec|
      invariant n == 1 + Commas(spec[..k])
    {
      assert spec[..k + 1][..k] == spec[..k];
      if spec[k] == ',' {
        n := n + 1;
      }
    }
    assert spec[..|spec|] == spec;
    TokensSplit(spec);
  }

  /** The slots resized, keeping the first `index` of them. */
  method Realloc(slots: array<int>, index: nat, size: nat) returns (pts: array<int>)
    requires index <= slots.Length && index <= size
    ensures fresh(pts) && pts.Length == size && pts[..index] == slots[..index]
  {
    pts := new int[size];
    forall k | 0 <= k < index {
      pts[k] := slots[k];
    }
  }

  /** One token's times go into the next free slots; a chapter list first makes the room it needs. */
  method StoreToken(token: string, slots: array<int>, start: nat, chapters: seq<int>, parse: string -> Option<int>)
    returns (ok: bool, pts: array<int>, index: nat)
    requires start < slots.Length
    modifies slots
    ensures pts == slots || fresh(pts)
    ensures ok == TokenTimes(token, chapters, parse).Some?
    ensures ok ==> start <= index <= pts.Length && pts.Length - index == slots.Length - start - 1
    ensures ok ==> pts[..index] == old(slots[..start]) + TokenTimes(token, chapters, parse).value
  {
    pts, index := slots, start;
    if IsChapters(token) {
      pts := Realloc(slots, index, slots.Length + |chapters| - 1);
      var t := Some(0);
      if token[8..] != "" {
        t := parse(token[8..]);
      }
      if t.None? {
        return false, pts, index;
      }
      ghost var times := TokenTimes(token, chapters, parse).value;
      for j := 0 to |chapters|
        invariant index == start + j
        invariant pts[..index] == old(slots[..start]) + times[..j]
      {
        pts[index] := chapters[j] + t.value;
        index := index + 1;
        assert times[..j + 1] == times[..j] + [chapters[j] + t.value];
      }
      assert times[..|chapters|] == times;
      ok := true;
    } else {
      var t := parse(token);
      if t.None? {
        return false, pts, index;
      }
      pts[index] := t.value;
      index := index + 1;
      ok := true;
    }
  }

  /** `parse` stands for the time parser; a token it rejects ends the program. */
  method ParseForcedKeyFrames(spec: string, chapters: seq<int>, parse: string -> Option<int>) returns (r: Option<seq<int>>)
    ensures var times := AllTimes([], Tokens(spec), chapters, parse);
            && (r.Some? <==> times.Some?)
            && (r.Some? ==> SortedTimes(r.value) && multiset(r.value) == multiset(times.value))
  {
    var n := CountTokens(spec);
    var pts := new int[n];
    var p := spec;
    var index: nat := 0;
    var i := 0;
    assert pts[..index] == [];
    while i < n
      invariant 0 <= i <= n && fresh(pts)
      // the free slots are one for each token left, whatever the number of chapters
      invariant index <= pts.Length && pts.Length - index == n - i
      invariant i < n ==> |Tokens(p)| == n - i
      invariant AllTimes([], Tokens(spec), chapters, parse) ==
        AllTimes(pts[..index], if i < n then Tokens(p) else [], chapters, parse)
    {
      var comma := FirstComma(p);
      assert p[..comma] == Tokens(p)[0] by {
        assert comma == |p| ==> p[..comma] == p;
      }
      var ok;
      ok, pts, index := StoreToken(p[..comma], pts, index, chapters, parse);
      if !ok {
        return None;
      }
      p := if comma < |p| then p[comma + 1..] else "";
      i := i + 1;
    }
    assert pts[..] == pts[..index];
    QSortSorts(pts[..]);
    return Some(QSort(pts[..]));
  }

  // ----- forcing frames -----

  datatype Kind = Times | Source | SourceNoDrop

  /** The variables an expression can use; those of the last forced frame start out undefined. */
  datatype ExprVars = ExprVars(n: int, nForced: int, prevForcedN: Option<int>, prevForcedT: Option<real>, t: real)

  datatype Frame = Frame(time: real, key: bool)

  /** What was asked for: times, the evaluator of an expression, or one of the source modes. */
  datatype Forcing = Forcing(pts: seq<int>, kind: Kind, expr: Option<ExprVars -> bool>)

  datatype KfState = KfState(refTime: Option<real>, index: nat, droppedKeyframe: bool, vars: ExprVars)

  const FRESH_KF := KfState(None, 0, false, ExprVars(0, 0, None, None, 0.0))

  /** The number of forced times served after a frame at `time`. */
  function Served(pts: seq<int>, index: nat, time: real): nat {
    if index < |pts| && time >= pts[index] as real then index + 1 else index
  }

  /** What the two source modes force: key frames, but only in the first slot. */
  predicate KindForces(kind: Kind, frame: Frame, dupIdx: int) {
    !kind.Times? && frame.key && dupIdx == 0
  }

  /** Whether the frame in slot `dupIdx` is to become a key frame, and the state after asking. */
  function Forced(f: Forcing, k: KfState, frame: Frame, dupIdx: int): (KfState, bool) {
    var ref := if k.refTime.Some? then k.refTime.value else frame.time;
    var t := frame.time - ref;
    var k1 := k.(refTime := Some(ref), index := Served(f.pts, k.index, frame.time));
    if k.index < k1.index then (k1, true)
    else if f.expr.Some? then
      var v := k.vars.(t := t);
      if f.expr.value(v) then
        (k1.(vars := ExprVars(v.n + 1, v.nForced + 1, Some(v.n), Some(t), t)), true)
      else
        (k1.(vars := v.(n := v.n + 1)), false)
    else
      (k1.(droppedKeyframe := k.droppedKeyframe && !(f.kind.SourceNoDrop? && dupIdx == 0)), KindForces(f.kind, frame, dupIdx))
  }

  class KeyframeForceCtx {
    const forcing: Forcing
    var refTime: Option<real>
    var index: nat
    var droppedKeyframe: bool
    var vars: ExprVars

    ghost function Value(): KfState
      reads this
    {
      KfState(refTime, index, droppedKeyframe, vars)
    }

    constructor (forcing: Forcing)
      ensures this.forcing == forcing && Value() == FRESH_KF
    {
      this.forcing := forcing;
      refTime, index, droppedKeyframe := None, 0, false;
      vars := ExprVars(0, 0, None, None, 0.0);
    }

    /** Times are in microseconds, compared exactly. */
    method Apply(frame: Frame, dupIdx: int) returns (forced: bool)
      modifies this
      ensures (Value(), forced) == Forced(forcing, old(Value()), frame, dupIdx)
    {
      if refTime.None? {
        refTime := Some(frame.time);
      }
      var ptsTime := frame.time - refTime.value;
      if index < |forcing.pts| && frame.time >= forcing.pts[index] as real {
        index := index + 1;
        return true;
      } else if forcing.expr.Some? {
        vars := vars.(t := ptsTime);
        var res := forcing.expr.value(vars);
        vars := vars.(n := vars.n + 1);
        if res {
          vars := vars.(prevForcedN := Some(vars.n - 1), prevForcedT := Some(vars.t), nForced := vars.nForced + 1);
          return true;
        }
      } else if forcing.kind == Source && frame.key && dupIdx == 0 {
        return true;
      } else if forcing.kind == SourceNoDrop && dupIdx == 0 {
        droppedKeyframe := false;
        if frame.key || droppedKeyframe {
          return true;
        }
      }
      return false;
    }
  }

  // ----- serving a list of times -----

  /** How many forced times are served by the first `n` frames. */
  function ServedBy(pts: seq<int>, times: seq<real>, n: nat): (r: nat)
    requires n <= |times|
    ensures r <= |pts| && r <= n
  {
    if n == 0 then 0 else Served(pts, ServedBy(pts, times, n - 1), times[n - 1])
  }

  /** How many forced times are not after `time`. */
  function Due(pts: seq<int>, time: real): (r: nat)
    ensures r <= |pts|
  {
    if pts == [] then 0 else Due(pts[..|pts| - 1], time) + if pts[|pts| - 1] as real <= time then 1 else 0
  }

  lemma {:induction false} DueIsPrefix(pts: seq<int>, time: real, j: nat)
    requires SortedTimes(pts) && j < |pts|
    ensures j < Due(pts, time) <==> pts[j] as real <= time
  {
    var n := |pts| - 1;
    if j < n {
      DueIsPrefix(pts[..n], time, j);
    }
    if n == 0 {
    } else {
      DueIsPrefix(pts[..n], time, n - 1);
    }
  }

  /** Each forced time is served by one frame, which is not before it. */
  lemma ServedNotBefore(pts: seq<int>, times: seq<real>, n: nat)
    requires n < |times| && ServedBy(pts, times, n + 1) != ServedBy(pts, times, n)
    ensures var j := ServedBy(pts, times, n);
            j < |pts| && pts[j] as real <= times[n] && ServedBy(pts, times, n + 1) == j + 1
  {
  }

  /** A frame left alone means that every forced time up to it was served before. */
  lemma UnforcedMeansServed(pts: seq<int>, times: seq<real>, n: nat, j: nat)
    requires SortedTimes(pts) && n < |times| && j < |pts| && pts[j] as real <= times[n]
    requires ServedBy(pts, times, n + 1) == ServedBy(pts, times, n)
    ensures j < ServedBy(pts, times, n)
  {
  }

  predicate Nondecreasing(times: seq<real>) {
    forall i, j :: 0 <= i <= j < |times| ==> times[i] <= times[j]
  }

  /** The times due at the end of the first `k` frames. */
  function DueBy(pts: seq<int>, times: seq<real>, k: nat): nat
    requires k <= |times|
  {
    if k == 0 then 0 else Due(pts, times[k - 1])
  }

  /** The number served in closed form: for frames in order of time it is the least, over all
      moments so far, of what was due then plus one for each frame since. */
  lemma {:induction false} ServedClosedForm(pts: seq<int>, times: seq<real>, n: nat)
    requires SortedTimes(pts) && Nondecreasing(times) && n <= |times|
    ensures forall k :: 0 <= k <= n ==> ServedBy(pts, times, n) <= DueBy(pts, times, k) + n - k
    ensures exists k :: 0 <= k <= n && ServedBy(pts, times, n) == DueBy(pts, times, k) + n - k
  {
    if n == 0 {
      assert ServedBy(pts, times, 0) == DueBy(pts, times, 0) + 0 - 0;
    } else {
      ServedClosedForm(pts, times, n - 1);
      var index := ServedBy(pts, times, n - 1);
      assert index <= DueBy(pts, times, n - 1) + (n - 1) - (n - 1);
      DueGrows(pts, times, n);
      if index < |pts| {
        DueIsPrefix(pts, times[n - 1], index);
      }
      if index < DueBy(pts, times, n) {
        var k :| 0 <= k <= n - 1 && index == DueBy(pts, times, k) + n - 1 - k;
        assert ServedBy(pts, times, n) == DueBy(pts, times, k) + n - k;
      } else {
        assert ServedBy(pts, times, n) == DueBy(pts, times, n) + n - n;
      }
    }
  }

  lemma DueGrows(pts: seq<int>, times: seq<real>, n: nat)
    requires SortedTimes(pts) && Nondecreasing(times) && 0 < n <= |times|
    ensures DueBy(pts, times, n - 1) <= DueBy(pts, times, n)
  {
    if n > 1 {
      var d := Due(pts, times[n - 2]);
      if d > 0 {
        DueIsPrefix(pts, times[n - 2], d - 1);
        DueIsPrefix(pts, times[n - 1], d - 1);
      }
    }
  }

  // ----- which frame serves a time -----

  /** The first frame from the `n`-th on that is not before `time`, or the number of frames. */
  function FirstFrame(times: seq<real>, time: real, n: nat): (k: nat)
    requires n <= |times|
    ensures n <= k <= |times|
    ensures k < |times| ==> times[k] >= time
    ensures forall i :: n <= i < k ==> times[i] < time
    decreases |times| - n
  {
    if n == |times| || times[n] >= time then n else FirstFrame(times, time, n + 1)
  }

  /** What the manual promises: the first frame not before the `j`-th time. */
  function FirstFor(pts: seq<int>, times: seq<real>, j: nat): nat
    requires j < |pts|
  {
    FirstFrame(times, pts[j] as real, 0)
  }

  /** The frame whose turn it is to serve the `j`-th time: the first not before it, but not before the
      time ahead of it in the list has had its turn. */
  function TurnOf(pts: seq<int>, times: seq<real>, j: nat): nat
    requires j < |pts|
  {
    if j == 0 then FirstFor(pts, times, 0)
    else Max(FirstFor(pts, times, j), TurnOf(pts, times, j - 1) + 1)
  }

  lemma FirstForReached(pts: seq<int>, times: seq<real>, j: nat, n: nat)
    requires Nondecreasing(times) && j < |pts| && n < |times|
    ensures times[n] >= pts[j] as real <==> FirstFor(pts, times, j) <= n
  {
  }

  lemma {:induction false} TurnsClimb(pts: seq<int>, times: seq<real>, i: nat, j: nat)
    requires i < j < |pts|
    ensures TurnOf(pts, times, i) + (j - i) <= TurnOf(pts, times, j)
  {
    if j == i + 1 {
    } else {
      TurnsClimb(pts, times, i, j - 1);
    }
  }

  /** One more frame, behind `n` that have served those whose turn was before. */
  lemma TurnsServe(pts: seq<int>, times: seq<real>, n: nat, index: nat, j: nat)
    requires Nondecreasing(times) && n < |times| && index <= |pts| && j < |pts|
    requires forall i :: 0 <= i < |pts| ==> (i < index <==> TurnOf(pts, times, i) < n)
    ensures j < Served(pts, index, times[n]) <==> TurnOf(pts, times, j) < n + 1
  {
    if j < index {
    } else if j == index {
      FirstForReached(pts, times, j, n);
    } else {
      assert n <= TurnOf(pts, times, index);
      TurnsClimb(pts, times, index, j);
    }
  }

  /** For frames in order of time, the times served by the first `n` are those whose turn was before. */
  lemma {:induction false} ServedWhenTurn(pts: seq<int>, times: seq<real>, n: nat, j: nat)
    requires Nondecreasing(times) && n <= |times| && j < |pts|
    ensures j < ServedBy(pts, times, n) <==> TurnOf(pts, times, j) < n
  {
    if n == 0 {
    } else {
      var index := ServedBy(pts, times, n - 1);
      forall i | 0 <= i < |pts|
        ensures i < index <==> TurnOf(pts, times, i) < n - 1
      {
        ServedWhenTurn(pts, times, n - 1, i);
      }
      TurnsServe(pts, times, n - 1, index, j);
    }
  }

  /** A frame serves a time exactly if it is the turn of one, and then of that one. */
  lemma ServingTurn(pts: seq<int>, times: seq<real>, n: nat)
    requires Nondecreasing(times) && n < |times|
    ensures var j := ServedBy(pts, times, n);
            && (ServedBy(pts, times, n + 1) != j <==> j < |pts| && TurnOf(pts, times, j) == n)
            && (forall i :: 0 <= i < |pts| && TurnOf(pts, times, i) == n ==> i == j)
  {
    var j := ServedBy(pts, times, n);
    if j < |pts| {
      ServedWhenTurn(pts, times, n, j);
      ServedWhenTurn(pts, times, n + 1, j);
    }
    forall i | 0 <= i < |pts| && TurnOf(pts, times, i) == n
      ensures i == j
    {
      ServedWhenTurn(pts, times, n, i);
      ServedWhenTurn(pts, times, n + 1, i);
    }
  }

  // ----- the manual's promise -----

  lemma {:induction false} ServedBeforeFirst(pts: seq<int>, times: seq<real>, n: nat, j: nat)
    requires SortedTimes(pts) && n <= |times| && j < |pts|
    requires forall i :: 0 <= i < n ==> times[i] < pts[j] as real
    ensures ServedBy(pts, times, n) <= j
  {
    if n == 0 {
    } else {
      ServedBeforeFirst(pts, times, n - 1, j);
    }
  }

  /** Every time forces the first frame not before it, whatever the order of the frames. */
  lemma FirstIsForced(pts: seq<int>, times: seq<real>, j: nat)
    requires SortedTimes(pts) && j < |pts|
    ensures var n := FirstFor(pts, times, j);
            n < |times| ==> ServedBy(pts, times, n + 1) == ServedBy(pts, times, n) + 1
  {
    ServedBeforeFirst(pts, times, FirstFor(pts, times, j), j);
  }

  /** The frame is the first for some time. */
  predicate FirstForSome(pts: seq<int>, times: seq<real>, n: nat) {
    exists j :: 0 <= j < |pts| && FirstFor(pts, times, j) == n
  }

  /** Before frame `n`, at some moment more times came due than there were frames to serve them. */
  predicate Backlog(pts: seq<int>, times: seq<real>, n: nat)
    requires n <= |times|
  {
    exists k :: 0 <= k <= n && DueBy(pts, times, k) + n - k < DueBy(pts, times, n)
  }

  lemma LeftOverIffBacklog(pts: seq<int>, times: seq<real>, n: nat)
    requires SortedTimes(pts) && Nondecreasing(times) && n <= |times|
    ensures ServedBy(pts, times, n) < DueBy(pts, times, n) <==> Backlog(pts, times, n)
  {
    ServedClosedForm(pts, times, n);
    if Backlog(pts, times, n) {
      var k :| 0 <= k <= n && DueBy(pts, times, k) + n - k < DueBy(pts, times, n);
      assert ServedBy(pts, times, n) <= DueBy(pts, times, k) + n - k;
    } else {
      var k :| 0 <= k <= n && ServedBy(pts, times, n) == DueBy(pts, times, k) + n - k;
    }
  }

  /** A frame that is first for no time brings none due. */
  lemma NothingNewIsDue(pts: seq<int>, times: seq<real>, n: nat)
    requires SortedTimes(pts) && Nondecreasing(times) && n < |times| && !FirstForSome(pts, times, n)
    ensures Due(pts, times[n]) == DueBy(pts, times, n)
  {
    DueGrows(pts, times, n + 1);
    var d := DueBy(pts, times, n);
    if d < Due(pts, times[n]) {
      DueIsPrefix(pts, times[n], d);
      FirstForReached(pts, times, d, n);
      if n > 0 {
        DueIsPrefix(pts, times[n - 1], d);
        FirstForReached(pts, times, d, n - 1);
      }
    }
  }

  lemma ServesIfDue(pts: seq<int>, times: seq<real>, n: nat)
    requires SortedTimes(pts) && n < |times|
    ensures ServedBy(pts, times, n + 1) != ServedBy(pts, times, n) <==> ServedBy(pts, times, n) < Due(pts, times[n])
  {
    var index := ServedBy(pts, times, n);
    if index < |pts| {
      DueIsPrefix(pts, times[n], index);
    }
  }

  /** What else is forced: for frames in order of time, a frame is forced if and only if it is the
      first for some time or there is a backlog. */
  lemma ForcedExactly(pts: seq<int>, times: seq<real>, n: nat)
    requires SortedTimes(pts) && Nondecreasing(times) && n < |times|
    ensures ServedBy(pts, times, n + 1) != ServedBy(pts, times, n) <==> FirstForSome(pts, times, n) || Backlog(pts, times, n)
  {
    if FirstForSome(pts, times, n) {
      var j :| 0 <= j < |pts| && FirstFor(pts, times, j) == n;
      FirstIsForced(pts, times, j);
    } else {
      NothingNewIsDue(pts, times, n);
      ServesIfDue(pts, times, n);
      LeftOverIffBacklog(pts, times, n);
    }
  }

  // ----- rounding -----

  /** The nearest tick of the encoder's clock. */
  function NearestTick(time: int, tick: real): int
    requires tick > 0.0
  {
    Rint(time as real / tick)
  }

  function TimeOfTick(m: int, tick: real): real {
    Product(m as real, tick)
  }

  /** The times of frames on the clock. */
  function OnTicks(ticks: seq<int>, tick: real): (times: seq<real>)
    ensures |times| == |ticks|
  {
    seq(|ticks|, i requires 0 <= i < |ticks| => TimeOfTick(ticks[i], tick))
  }

  /** The manual's frame: the first not before the time rounded to the nearest tick. */
  function FirstRounded(time: int, ticks: seq<int>, tick: real): nat
    requires tick > 0.0
  {
    FirstFrame(OnTicks(ticks, tick), TimeOfTick(NearestTick(time, tick), tick), 0)
  }

  /** A frame is on the same side of the time and of its nearest tick, unless it is at that tick. */
  lemma SameSide(time: int, m: int, tick: real)
    requires tick > 0.0
    ensures var q := NearestTick(time, tick);
            (TimeOfTick(m, tick) >= time as real <==> TimeOfTick(m, tick) >= TimeOfTick(q, tick)) <==>
              !(m == q && TimeOfTick(q, tick) < time as real)
  {
    var x := time as real / tick;
    var q := NearestTick(time, tick);
    ProductUndoes(time as real, tick);
    ProductOrder(m as real, x, tick);
    ProductOrder(q as real, x, tick);
    ProductOrder(m as real, q as real, tick);
    if m < q {
      assert m as real <= q as real - 1.0;
    } else if m > q {
      assert m as real >= q as real + 1.0;
    }
  }

  lemma FirstsAgree(times: seq<real>, a: real, b: real)
    requires forall i :: 0 <= i < |times| ==> (times[i] >= a <==> times[i] >= b)
    ensures FirstFrame(times, a, 0) == FirstFrame(times, b, 0)
  {
  }

  lemma FirstsDisagree(times: seq<real>, a: real, i: nat)
    requires Nondecreasing(times) && i < |times| && times[i] < a
    ensures FirstFrame(times, times[i], 0) != FirstFrame(times, a, 0)
  {
  }

  /** The manual rounds a time before it looks for the frame, and the code does not. The two mean the
      same frame if and only if no frame is at the nearest tick with the time itself behind it. */
  lemma RoundingAgreesIff(time: int, ticks: seq<int>, tick: real)
    requires tick > 0.0 && Nondecreasing(OnTicks(ticks, tick))
    ensures var q := NearestTick(time, tick);
            FirstRounded(time, ticks, tick) == FirstFrame(OnTicks(ticks, tick), time as real, 0) <==>
              !(q in ticks && TimeOfTick(q, tick) < time as real)
  {
    var times := OnTicks(ticks, tick);
    var q := NearestTick(time, tick);
    if q in ticks && TimeOfTick(q, tick) < time as real {
      var i :| 0 <= i < |ticks| && ticks[i] == q;
      assert times[i] == TimeOfTick(q, tick);
      FirstsDisagree(times, time as real, i);
    } else {
      forall i | 0 <= i < |times|
        ensures times[i] >= time as real <==> times[i] >= TimeOfTick(q, tick)
      {
        SameSide(time, ticks[i], tick);
      }
      FirstsAgree(times, time as real, TimeOfTick(q, tick));
    }
  }

  // ----- no rule serves more -----

  /** Any way to serve some of the times by different ones of the first `n` frames, none before its time. */
  predicate Assignment(pts: seq<int>, times: seq<real>, n: nat, chosen: map<nat, nat>)
    requires n <= |times|
  {
    && (forall j :: j in chosen ==> j < |pts| && chosen[j] < n && pts[j] as real <= times[chosen[j]])
    && (forall i, j :: i in chosen && j in chosen && i != j ==> chosen[i] != chosen[j])
  }

  lemma {:induction false} InjectiveSize(chosen: map<nat, nat>, lo: nat, hi: nat)
    requires lo <= hi
    requires forall j :: j in chosen ==> lo <= chosen[j] < hi
    requires forall i, j :: i in chosen && j in chosen && i != j ==> chosen[i] != chosen[j]
    ensures |chosen| <= hi - lo
    decreases hi - lo
  {
    if lo == hi {
      assert chosen == map[];
    } else if j :| j in chosen && chosen[j] == hi - 1 {
      InjectiveSize(chosen - {j}, lo, hi - 1);
      assert |chosen - {j}| == |chosen| - 1;
    } else {
      InjectiveSize(chosen, lo, hi - 1);
    }
  }

  lemma {:induction false} KeysBelow(keys: set<nat>, n: nat)
    requires forall j :: j in keys ==> j < n
    ensures |keys| <= n
  {
    if n == 0 {
      assert keys == {};
    } else {
      KeysBelow(keys - {n - 1}, n - 1);
    }
  }

  /** Serving the earliest unserved time at once is optimal: no assignment serves more. */
  lemma ServingIsOptimal(pts: seq<int>, times: seq<real>, n: nat, chosen: map<nat, nat>)
    requires SortedTimes(pts) && Nondecreasing(times) && n <= |times| && Assignment(pts, times, n, chosen)
    ensures |chosen| <= ServedBy(pts, times, n)
  {
    ServedClosedForm(pts, times, n);
    var k :| 0 <= k <= n && ServedBy(pts, times, n) == DueBy(pts, times, k) + n - k;
    AssignmentBound(pts, times, n, chosen, k);
  }

  /** The frames before any moment serve at most what was due by then, the others one time each. */
  lemma AssignmentBound(pts: seq<int>, times: seq<real>, n: nat, chosen: map<nat, nat>, k: nat)
    requires SortedTimes(pts) && Nondecreasing(times) && k <= n <= |times| && Assignment(pts, times, n, chosen)
    ensures |chosen| <= DueBy(pts, times, k) + n - k
  {
    var early := set j | j in chosen && chosen[j] < k;
    var late := map j | j in chosen && chosen[j] >= k :: chosen[j];
    EarlyAreDue(pts, times, n, chosen, k, early);
    assert |late| <= n - k by {
      InjectiveSize(late, k, n);
    }
    assert chosen.Keys == early + late.Keys;
    assert early !! late.Keys;
  }

  lemma EarlyAreDue(pts: seq<int>, times: seq<real>, n: nat, chosen: map<nat, nat>, k: nat, early: set<nat>)
    requires SortedTimes(pts) && Nondecreasing(times) && k <= n <= |times| && Assignment(pts, times, n, chosen)
    requires forall j :: j in early ==> j in chosen && chosen[j] < k
    ensures |early| <= DueBy(pts, times, k)
  {
    forall j | j in early
      ensures j < DueBy(pts, times, k)
    {
      assert times[chosen[j]] <= times[k - 1];
      DueIsPrefix(pts, times[k - 1], j);
    }
    KeysBelow(early, DueBy(pts, times, k));
  }
}
