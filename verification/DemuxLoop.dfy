/**
 Looped input: every pass over a file shifts its timestamps by the duration of the passes before.
 All streams share one time base.
 */
module DemuxLoop {
  import opened Numbers
  import opened Options

  const INT64_MAX: int := 0x7FFF_FFFF_FFFF_FFFF
  const INT64_MIN: int := -0x8000_0000_0000_0000

  datatype Packet = Packet(stream: nat, pts: Option<int>, dts: Option<int>)

  /** The length of the last frame of a stream, as reported at the end of a pass. */
  datatype Report = Report(stream: nat, lastDuration: int)

  /** The smallest and largest timestamp seen in a stream. */
  datatype Span = Span(min: int, max: int)

  const EMPTY_SPAN := Span(INT64_MAX, INT64_MIN)

  datatype State = State(spans: seq<Span>, duration: int)

  // ----- one packet, one report -----

  function Widen(s: Span, pts: int): Span {
    Span(Min(pts, s.min), Max(pts, s.max))
  }

  function Shift(t: Option<int>, delta: int): Option<int> {
    if t.Some? then Some(t.value + delta) else None
  }

  function Fixed(s: State, offset: int, pkt: Packet): Packet {
    pkt.(pts := Shift(pkt.pts, offset + s.duration), dts := Shift(pkt.dts, offset + s.duration))
  }

  function Fixup(s: State, offset: int, pkt: Packet): State {
    if pkt.pts.Some? && pkt.stream < |s.spans| then
      s.(spans := s.spans[pkt.stream := Widen(s.spans[pkt.stream], pkt.pts.value + offset + s.duration)])
    else s
  }

  /** The length of a stream: its span, unless that would overflow, plus its last frame. */
  function Length(s: Span, lastDuration: int): int {
    if s.max > s.min && s.max - s.min < INT64_MAX - lastDuration then s.max - s.min + lastDuration
    else lastDuration
  }

  function Updated(s: State, r: Report): State {
    if r.stream >= |s.spans| then s
    else
      var length := Length(s.spans[r.stream], r.lastDuration);
      if s.duration == 0 || s.duration < length then s.(duration := length) else s
  }

  function FixupAll(s: State, offset: int, pkts: seq<Packet>): State {
    if pkts == [] then s else Fixup(FixupAll(s, offset, pkts[..|pkts| - 1]), offset, pkts[|pkts| - 1])
  }

  function UpdateAll(s: State, reports: seq<Report>): State {
    if reports == [] then s else Updated(UpdateAll(s, reports[..|reports| - 1]), reports[|reports| - 1])
  }

  // ----- a packet before it is shifted -----

  type Bits = n: nat | n > 0 witness 64

  /** What is known of a stream: where the file starts, the width of its time counter, the offset asked
      for, and the scale. */
  datatype StreamInfo = StreamInfo(start: Option<int>, wrapBits: Bits, offset: int, scale: real)

  /** The counter has a start to be compared with, and a period that fits. */
  predicate Wrapping(info: StreamInfo) {
    info.start.Some? && info.wrapBits < 64
  }

  /** A time more than half a period behind the start was read before the counter wrapped around. */
  predicate BeforeWrap(info: StreamInfo, t: Option<int>) {
    && Wrapping(info) && t.Some?
    && info.start.value + Pow2(info.wrapBits) <= INT64_MAX
    && t.value > info.start.value + Pow2(info.wrapBits - 1)
  }

  function Unwrapped(info: StreamInfo, done: bool, t: Option<int>): Option<int> {
    if !done && BeforeWrap(info, t) then Some(t.value - Pow2(info.wrapBits)) else t
  }

  /** The correction goes on until a packet comes that does not need it. */
  function CorrectionDone(info: StreamInfo, done: bool, pkt: Packet): bool {
    if !done && Wrapping(info) then !BeforeWrap(info, pkt.dts) && !BeforeWrap(info, pkt.pts) else done
  }

  function Times(t: int, scale: real): int {
    Truncate(Product(t as real, scale))
  }

  function Scaled(info: StreamInfo, t: Option<int>): Option<int> {
    if t.Some? then Some(Times(t.value + info.offset, info.scale)) else None
  }

  /** The packet as it enters the loop: unwrapped, offset and scaled. */
  function Prepared(info: StreamInfo, done: bool, pkt: Packet): Packet {
    pkt.(pts := Scaled(info, Unwrapped(info, done, pkt.pts)), dts := Scaled(info, Unwrapped(info, done, pkt.dts)))
  }

  lemma {:induction false} HalfPeriod(n: Bits)
    ensures Pow2(n) == 2 * Pow2(n - 1)
  {
  }

  /** Within a period of the start the correction picks the reading of the counter that is nearest to
      the start; the counter itself is not changed by it. */
  lemma UnwrappedIsNearest(info: StreamInfo, t: int)
    requires Wrapping(info) && info.start.value + Pow2(info.wrapBits) <= INT64_MAX
    requires info.start.value <= t < info.start.value + Pow2(info.wrapBits)
    ensures var r := Unwrapped(info, false, Some(t));
            && r.Some? && (r.value == t || r.value == t - Pow2(info.wrapBits))
            && Abs(r.value - info.start.value) <= Pow2(info.wrapBits - 1)
  {
    HalfPeriod(info.wrapBits);
  }

  /** The times of one packet are kept in order unless the counter wrapped between them. */
  lemma PreparedKeepsOrder(info: StreamInfo, done: bool, pkt: Packet)
    requires pkt.pts.Some? && pkt.dts.Some? && pkt.dts.value <= pkt.pts.value && info.scale >= 0.0
    requires done || (BeforeWrap(info, pkt.dts) <==> BeforeWrap(info, pkt.pts))
    ensures var r := Prepared(info, done, pkt); r.dts.value <= r.pts.value
  {
    var d, p := Unwrapped(info, done, pkt.dts), Unwrapped(info, done, pkt.pts);
    assert d.value <= p.value;
    TimesInOrder(d.value + info.offset, p.value + info.offset, info.scale);
  }

  lemma TimesInOrder(a: int, b: int, scale: real)
    requires a <= b && scale >= 0.0
    ensures Times(a, scale) <= Times(b, scale)
  {
    ProductGrows(a as real, b as real, scale);
    TruncatesInOrder(Product(a as real, scale), Product(b as real, scale));
  }

  lemma TruncatesInOrder(x: real, y: real)
    requires x <= y
    ensures Truncate(x) <= Truncate(y)
  {
  }

  // ----- the code -----

  class InputStream {
    const info: StreamInfo
    var wrapCorrectionDone: bool
    var minPts: int
    var maxPts: int

    constructor (info: StreamInfo)
      ensures this.info == info && !wrapCorrectionDone && minPts == INT64_MAX && maxPts == INT64_MIN
    {
      this.info := info;
      wrapCorrectionDone := false;
      minPts, maxPts := INT64_MAX, INT64_MIN;
    }

    /** The part of `TsFixup` before the shift. */
    method Prepare(pkt: Packet) returns (r: Packet)
      modifies this`wrapCorrectionDone
      ensures r == Prepared(info, old(wrapCorrectionDone), pkt)
      ensures wrapCorrectionDone == CorrectionDone(info, old(wrapCorrectionDone), pkt)
    {
      var dts, pts := pkt.dts, pkt.pts;
      if !wrapCorrectionDone && info.start.Some? && info.wrapBits < 64 {
        var stime := info.start.value;
        var fits := stime + Pow2(info.wrapBits) <= INT64_MAX;
        wrapCorrectionDone := true;
        if fits && dts.Some? && dts.value > stime + Pow2(info.wrapBits - 1) {
          dts := Some(dts.value - Pow2(info.wrapBits));
          wrapCorrectionDone := false;
        }
        if fits && pts.Some? && pts.value > stime + Pow2(info.wrapBits - 1) {
          pts := Some(pts.value - Pow2(info.wrapBits));
          wrapCorrectionDone := false;
        }
      }
      if dts.Some? {
        dts := Some(dts.value + info.offset);
      }
      if pts.Some? {
        pts := Some(pts.value + info.offset);
      }
      if pts.Some? {
        pts := Some(Times(pts.value, info.scale));
      }
      if dts.Some? {
        dts := Some(Times(dts.value, info.scale));
      }
      r := Packet(pkt.stream, pts, dts);
    }
  }

  class Demuxer {
    const streams: seq<InputStream>
    var duration: int
    var loop: int

    ghost predicate Valid() {
      forall i, j :: 0 <= i < j < |streams| ==> streams[i] != streams[j]
    }

    ghost function Value(): State
      reads this, streams
    {
      State(seq(|streams|, i requires 0 <= i < |streams| reads streams => Span(streams[i].minPts, streams[i].maxPts)), duration)
    }

    /** The part of `TsFixup` that depends on the passes before. */
    method ShiftPacket(ist: InputStream, p: Packet) returns (r: Packet)
      requires Valid() && p.stream < |streams| && streams[p.stream] == ist
      modifies ist`minPts, ist`maxPts
      ensures r == Fixed(old(Value()), 0, p) && Value() == Fixup(old(Value()), 0, p)
    {
      var dts := p.dts;
      var pts := p.pts;
      if pts.Some? {
        pts := Some(pts.value + duration);
        ist.maxPts := Max(pts.value, ist.maxPts);
        ist.minPts := Min(pts.value, ist.minPts);
      }
      if dts.Some? {
        dts := Some(dts.value + duration);
      }
      r := Packet(p.stream, pts, dts);
      assert Value().spans == Fixup(old(Value()), 0, p).spans;
    }

    method TsFixup(pkt: Packet) returns (r: Packet)
      requires Valid() && pkt.stream < |streams|
      modifies streams[pkt.stream]
      ensures var p := Prepared(streams[pkt.stream].info, old(streams[pkt.stream].wrapCorrectionDone), pkt);
              r == Fixed(old(Value()), 0, p) && Value() == Fixup(old(Value()), 0, p)
      ensures streams[pkt.stream].wrapCorrectionDone ==
        CorrectionDone(streams[pkt.stream].info, old(streams[pkt.stream].wrapCorrectionDone), pkt)
    {
      var ist := streams[pkt.stream];
      var p := ist.Prepare(pkt);
      assert Value().spans == old(Value()).spans;
      r := ShiftPacket(ist, p);
    }

    method IfileDurationUpdate(ist: InputStream, lastDuration: int)
      modifies this`duration
      ensures var length := Length(Span(ist.minPts, ist.maxPts), lastDuration);
              duration == if old(duration) == 0 || old(duration) < length then length else old(duration)
    {
      var length := lastDuration;
      if ist.maxPts > ist.minPts && ist.maxPts - ist.minPts < INT64_MAX - length {
        length := length + (ist.maxPts - ist.minPts);
      }
      if duration == 0 || duration < length {
        duration := length;
      }
    }

    /** `reports` are the audio durations received, or one length for every stream without audio. */
    method SeekToStart(reports: seq<Report>)
      requires Valid() && forall r :: r in reports ==> r.stream < |streams|
      modifies this
      ensures Value() == UpdateAll(old(Value()), reports)
      ensures loop == if old(loop) > 0 then old(loop) - 1 else old(loop)
    {
      for i := 0 to |reports|
        invariant Value() == UpdateAll(old(Value()), reports[..i])
        invariant loop == old(loop)
      {
        assert reports[..i + 1][..i] == reports[..i];
        IfileDurationUpdate(streams[reports[i].stream], reports[i].lastDuration);
        assert Value().spans == UpdateAll(old(Value()), reports[..i + 1]).spans;
      }
      assert reports[..|reports|] == reports;
      if loop > 0 {
        loop := loop - 1;
      }
    }
  }

  // ----- one pass -----

  /** The span of one stream's own timestamps in a pass. */
  function OwnSpan(pkts: seq<Packet>, offset: int, k: nat): Span {
    if pkts == [] then EMPTY_SPAN
    else
      var before := OwnSpan(pkts[..|pkts| - 1], offset, k);
      var p := pkts[|pkts| - 1];
      if p.stream == k && p.pts.Some? then Widen(before, p.pts.value + offset) else before
  }

  predicate Empty(s: Span) {
    s.max < s.min
  }

  /** Every timestamp, shifted by up to `top`, is a 64-bit integer. */
  predicate InRange(pkts: seq<Packet>, offset: int, top: int) {
    forall p :: p in pkts && p.pts.Some? ==> INT64_MIN <= p.pts.value + offset <= p.pts.value + offset + top <= INT64_MAX
  }

  lemma {:induction false} OwnSpanBounds(pkts: seq<Packet>, offset: int, k: nat, top: int)
    requires InRange(pkts, offset, top) && top >= 0
    ensures var s := OwnSpan(pkts, offset, k);
            && (s == EMPTY_SPAN || INT64_MIN <= s.min <= s.max <= s.max + top <= INT64_MAX)
            && (forall p :: p in pkts && p.stream == k && p.pts.Some? ==> s.min <= p.pts.value + offset <= s.max)
  {
    if pkts == [] {
    } else {
      var n := |pkts| - 1;
      OwnSpanBounds(pkts[..n], offset, k, top);
      assert pkts == pkts[..n] + [pkts[n]];
    }
  }

  /** The span of a stream after another pass, shifted by `delta`. */
  function Joined(s: Span, own: Span, delta: int): Span {
    if Empty(own) then s else Span(Min(s.min, own.min + delta), Max(s.max, own.max + delta))
  }

  lemma {:induction false} PassSpans(s: State, offset: int, pkts: seq<Packet>, k: nat)
    requires s.duration >= 0 && InRange(pkts, offset, s.duration) && k < |s.spans|
    ensures var r := FixupAll(s, offset, pkts);
            && |r.spans| == |s.spans| && r.duration == s.duration
            && r.spans[k] == Joined(s.spans[k], OwnSpan(pkts, offset, k), s.duration)
  {
    if pkts == [] {
    } else {
      var n := |pkts| - 1;
      PassSpans(s, offset, pkts[..n], k);
      OwnSpanBounds(pkts[..n], offset, k, s.duration);
      assert pkts[n] in pkts;
    }
  }

  // ----- all passes -----

  function Fresh(n: nat): State {
    State(seq(n, i => EMPTY_SPAN), 0)
  }

  /** The state after `n` passes over the same packets, each followed by the same reports. */
  function Passes(streams: nat, offset: int, pkts: seq<Packet>, reports: seq<Report>, n: nat): State {
    if n == 0 then Fresh(streams)
    else UpdateAll(FixupAll(Passes(streams, offset, pkts, reports, n - 1), offset, pkts), reports)
  }

  /** The length of a reported stream in a single pass. */
  function OwnLength(pkts: seq<Packet>, offset: int, r: Report): int {
    var own := OwnSpan(pkts, offset, r.stream);
    if Empty(own) then r.lastDuration else own.max - own.min + r.lastDuration
  }

  /** The longest reported stream among those with (`timed`) or without timestamps. */
  function Longest(pkts: seq<Packet>, offset: int, reports: seq<Report>, timed: bool): int {
    if reports == [] then 0
    else
      var before := Longest(pkts, offset, reports[..|reports| - 1], timed);
      var r := reports[|reports| - 1];
      if Empty(OwnSpan(pkts, offset, r.stream)) == timed then before else Max(before, OwnLength(pkts, offset, r))
  }

  predicate Reported(streams: nat, reports: seq<Report>) {
    forall r :: r in reports ==> r.stream < streams && 0 <= r.lastDuration
  }

  /** The first pass counts the longest stream of any kind, every further one only the longest
      with timestamps. */
  function Laps(timed: int, untimed: int, n: nat): int {
    if n == 0 then 0
    else if n == 1 then Max(timed, untimed)
    else Laps(timed, untimed, n - 1) + timed
  }

  /** The total duration after `n` passes. */
  function Total(pkts: seq<Packet>, offset: int, reports: seq<Report>, n: nat): int {
    Laps(Longest(pkts, offset, reports, true), Longest(pkts, offset, reports, false), n)
  }

  lemma {:induction false} LapsGrow(timed: int, untimed: int, n: nat)
    requires timed >= 0 && untimed >= 0
    ensures Laps(timed, untimed, n) >= 0
    ensures n > 0 ==> Laps(timed, untimed, n - 1) + timed <= Laps(timed, untimed, n)
    ensures n > 0 ==> untimed <= Laps(timed, untimed, n)
  {
    if n <= 1 {
    } else {
      LapsGrow(timed, untimed, n - 1);
    }
  }

  lemma {:induction false} LapsAreMultiples(timed: int, untimed: int, n: nat)
    requires timed >= 0 && untimed >= 0
    ensures n > 0 ==> Laps(timed, untimed, n) == Max(timed, untimed) + (n - 1) * timed
    ensures Laps(timed, untimed, n) <= n * Max(timed, untimed)
    ensures Laps(timed, untimed, n) == n * Max(timed, untimed) <==> n <= 1 || untimed <= timed
  {
    if n <= 1 {
    } else {
      LapsAreMultiples(timed, untimed, n - 1);
      assert n * Max(timed, untimed) == (n - 1) * Max(timed, untimed) + Max(timed, untimed);
    }
  }

  lemma {:induction false} LongestFacts(pkts: seq<Packet>, offset: int, reports: seq<Report>, timed: bool, top: int)
    requires forall r :: r in reports ==> 0 <= r.lastDuration
    requires InRange(pkts, offset, top) && top >= 0
    ensures Longest(pkts, offset, reports, timed) >= 0
    ensures forall r :: r in reports && Empty(OwnSpan(pkts, offset, r.stream)) != timed ==>
              OwnLength(pkts, offset, r) <= Longest(pkts, offset, reports, timed)
  {
    if reports == [] {
    } else {
      var n := |reports| - 1;
      LongestFacts(pkts, offset, reports[..n], timed, top);
      assert reports == reports[..n] + [reports[n]];
    }
  }

  /** The spans of pass `d` passes' worth in: what the reports see. */
  predicate Spread(s: State, streams: nat, pkts: seq<Packet>, offset: int, delta: int) {
    && |s.spans| == streams
    && forall k :: 0 <= k < streams ==>
         var own := OwnSpan(pkts, offset, k);
         s.spans[k] == if Empty(own) then EMPTY_SPAN else Span(own.min, own.max + delta)
  }

  /** A reported length grows with the shift, if the stream has timestamps. */
  lemma ReportedLength(s: State, streams: nat, pkts: seq<Packet>, offset: int, r: Report)
    requires r.stream < streams && 0 <= r.lastDuration && s.duration >= 0
    requires InRange(pkts, offset, s.duration) && Spread(s, streams, pkts, offset, s.duration)
    requires Empty(OwnSpan(pkts, offset, r.stream)) || s.duration + OwnLength(pkts, offset, r) < INT64_MAX
    ensures OwnLength(pkts, offset, r) >= 0
    ensures Length(s.spans[r.stream], r.lastDuration) ==
      OwnLength(pkts, offset, r) + if Empty(OwnSpan(pkts, offset, r.stream)) then 0 else s.duration
  {
    OwnSpanBounds(pkts, offset, r.stream, s.duration);
  }

  lemma {:induction false} UpdatesTakeLongest(s: State, streams: nat, pkts: seq<Packet>, offset: int, reports: seq<Report>)
    requires Reported(streams, reports) && s.duration >= 0
    requires InRange(pkts, offset, s.duration) && Spread(s, streams, pkts, offset, s.duration)
    requires s.duration + Longest(pkts, offset, reports, true) < INT64_MAX
    ensures var r := UpdateAll(s, reports);
            && r.spans == s.spans
            && r.duration == Max(s.duration + Longest(pkts, offset, reports, true), Longest(pkts, offset, reports, false))
  {
    if reports == [] {
    } else {
      var n := |reports| - 1;
      var r := reports[n];
      assert r in reports;
      UpdatesTakeLongest(s, streams, pkts, offset, reports[..n]);
      LongestSign(pkts, offset, reports[..n], true);
      LongestSign(pkts, offset, reports[..n], false);
      ReportedLength(s, streams, pkts, offset, r);
      UpdateIsMax(UpdateAll(s, reports[..n]), r);
    }
  }

  lemma UpdateIsMax(s: State, r: Report)
    requires r.stream < |s.spans| && s.duration >= 0 && Length(s.spans[r.stream], r.lastDuration) >= 0
    ensures Updated(s, r) == s.(duration := Max(s.duration, Length(s.spans[r.stream], r.lastDuration)))
  {
  }

  /** After any number of passes the duration is as given by `Total`, as long as it fits. */
  lemma {:induction false} DurationAfterPasses(streams: nat, offset: int, pkts: seq<Packet>, reports: seq<Report>, n: nat)
    requires Reported(streams, reports)
    requires InRange(pkts, offset, Total(pkts, offset, reports, n)) && Total(pkts, offset, reports, n) < INT64_MAX
    ensures var s := Passes(streams, offset, pkts, reports, n);
            && s.duration == Total(pkts, offset, reports, n)
            && |s.spans| == streams
            && (n > 0 ==> Spread(s, streams, pkts, offset, Total(pkts, offset, reports, n - 1)))
  {
    if n == 0 {
    } else {
      TotalGrows(pkts, offset, reports, n);
      DurationAfterPasses(streams, offset, pkts, reports, n - 1);
      var s := Passes(streams, offset, pkts, reports, n - 1);
      if n > 1 {
        TotalGrows(pkts, offset, reports, n - 1);
      }
      PassIsSpread(s, streams, offset, pkts, reports, n);
      UpdatesTakeLongest(FixupAll(s, offset, pkts), streams, pkts, offset, reports);
    }
  }

  lemma TotalGrows(pkts: seq<Packet>, offset: int, reports: seq<Report>, n: nat)
    requires n > 0
    ensures 0 <= Total(pkts, offset, reports, n - 1)
    ensures Total(pkts, offset, reports, n - 1) + Longest(pkts, offset, reports, true) <= Total(pkts, offset, reports, n)
    ensures Longest(pkts, offset, reports, false) <= Total(pkts, offset, reports, n)
    ensures 0 <= Longest(pkts, offset, reports, true)
    ensures InRange(pkts, offset, Total(pkts, offset, reports, n)) ==> InRange(pkts, offset, Total(pkts, offset, reports, n - 1))
  {
    LongestSign(pkts, offset, reports, true);
    LongestSign(pkts, offset, reports, false);
    LapsGrow(Longest(pkts, offset, reports, true), Longest(pkts, offset, reports, false), n - 1);
    LapsGrow(Longest(pkts, offset, reports, true), Longest(pkts, offset, reports, false), n);
  }

  lemma {:induction false} LongestSign(pkts: seq<Packet>, offset: int, reports: seq<Report>, timed: bool)
    ensures Longest(pkts, offset, reports, timed) >= 0
  {
    if reports == [] {
    } else {
      LongestSign(pkts, offset, reports[..|reports| - 1], timed);
    }
  }

  lemma PassIsSpread(s: State, streams: nat, offset: int, pkts: seq<Packet>, reports: seq<Report>, n: nat)
    requires n > 0 && |s.spans| == streams && s.duration == Total(pkts, offset, reports, n - 1) >= 0
    requires InRange(pkts, offset, s.duration)
    requires n == 1 ==> s == Fresh(streams)
    requires n > 1 ==> Spread(s, streams, pkts, offset, Total(pkts, offset, reports, n - 2))
    requires n > 1 ==> 0 <= Total(pkts, offset, reports, n - 2) <= s.duration
    ensures Spread(FixupAll(s, offset, pkts), streams, pkts, offset, s.duration)
    ensures FixupAll(s, offset, pkts).duration == s.duration
  {
    var r := FixupAll(s, offset, pkts);
    FixupKeepsShape(s, offset, pkts);
    forall k | 0 <= k < streams
      ensures var own := OwnSpan(pkts, offset, k);
              r.spans[k] == if Empty(own) then EMPTY_SPAN else Span(own.min, own.max + s.duration)
    {
      PassSpans(s, offset, pkts, k);
      OwnSpanBounds(pkts, offset, k, s.duration);
    }
  }

  lemma {:induction false} FixupKeepsShape(s: State, offset: int, pkts: seq<Packet>)
    ensures var r := FixupAll(s, offset, pkts); |r.spans| == |s.spans| && r.duration == s.duration
  {
    if pkts == [] {
    } else {
      FixupKeepsShape(s, offset, pkts[..|pkts| - 1]);
    }
  }

  /** The duration is the number of passes times the first one's, exactly when no stream without
      timestamps is longer than all those with them (or fewer than two passes were made). */
  lemma DurationIsMultiple(streams: nat, offset: int, pkts: seq<Packet>, reports: seq<Report>, n: nat)
    requires Reported(streams, reports)
    requires InRange(pkts, offset, Total(pkts, offset, reports, n)) && Total(pkts, offset, reports, n) < INT64_MAX
    ensures Passes(streams, offset, pkts, reports, n).duration == n * Total(pkts, offset, reports, 1) <==>
              n <= 1 || Longest(pkts, offset, reports, false) <= Longest(pkts, offset, reports, true)
  {
    DurationAfterPasses(streams, offset, pkts, reports, n);
    LongestSign(pkts, offset, reports, true);
    LongestSign(pkts, offset, reports, false);
    LapsAreMultiples(Longest(pkts, offset, reports, true), Longest(pkts, offset, reports, false), n);
  }

  /** A reported stream's timestamps of one pass all lie at least its last frame's length before
      those of the next. */
  lemma PassesDoNotOverlap(streams: nat, offset: int, pkts: seq<Packet>, reports: seq<Report>, n: nat, r: Report, p: Packet, q: Packet)
    requires Reported(streams, reports) && r in reports
    requires InRange(pkts, offset, Total(pkts, offset, reports, n + 1)) && Total(pkts, offset, reports, n + 1) < INT64_MAX
    requires p in pkts && q in pkts && p.stream == q.stream == r.stream && p.pts.Some? && q.pts.Some?
    ensures var earlier := Fixed(Passes(streams, offset, pkts, reports, n), offset, p);
            var later := Fixed(Passes(streams, offset, pkts, reports, n + 1), offset, q);
            earlier.pts.value + r.lastDuration <= later.pts.value
  {
    DurationAfterPasses(streams, offset, pkts, reports, n + 1);
    TotalGrows(pkts, offset, reports, n + 1);
    DurationAfterPasses(streams, offset, pkts, reports, n);
    OwnSpanBounds(pkts, offset, r.stream, 0);
    LongestFacts(pkts, offset, reports, true, 0);
  }

  /** Decoding times move on with the duration. They lie before those of the next pass exactly where
      they spread by less than it grows, and at least the last frame's length before them where they
      spread no more than the stream's presentation times. */
  lemma DecodingTimesMoveOn(streams: nat, offset: int, pkts: seq<Packet>, reports: seq<Report>, n: nat, r: Report, p: Packet, q: Packet)
    requires Reported(streams, reports) && r in reports
    requires InRange(pkts, offset, Total(pkts, offset, reports, n + 1)) && Total(pkts, offset, reports, n + 1) < INT64_MAX
    requires p in pkts && q in pkts && p.stream == q.stream == r.stream && p.dts.Some? && q.dts.Some?
    ensures var earlier := Fixed(Passes(streams, offset, pkts, reports, n), offset, p);
            var later := Fixed(Passes(streams, offset, pkts, reports, n + 1), offset, q);
            var own := OwnSpan(pkts, offset, r.stream);
            && (earlier.dts.value < later.dts.value <==>
                  p.dts.value - q.dts.value < Total(pkts, offset, reports, n + 1) - Total(pkts, offset, reports, n))
            && (!Empty(own) && p.dts.value - q.dts.value <= own.max - own.min ==>
                  earlier.dts.value + r.lastDuration <= later.dts.value)
  {
    DurationAfterPasses(streams, offset, pkts, reports, n + 1);
    TotalGrows(pkts, offset, reports, n + 1);
    DurationAfterPasses(streams, offset, pkts, reports, n);
    LongestFacts(pkts, offset, reports, true, 0);
  }

  /** A file whose second stream has no timestamps and lasts longest: two passes take 101, not 200. */
  lemma UntimedStreamCountsOnce()
    ensures var pkts, reports := [Packet(0, Some(0), Some(0))], [Report(0, 1), Report(1, 100)];
            Passes(2, 0, pkts, reports, 1).duration == 100 && Passes(2, 0, pkts, reports, 2).duration == 101
  {
    var pkts, reports := [Packet(0, Some(0), Some(0))], [Report(0, 1), Report(1, 100)];
    assert pkts[..0] == [] && reports[..1] == [reports[0]] && reports[..1][..0] == [];
    assert OwnSpan(pkts, 0, 0) == Widen(OwnSpan([], 0, 0), 0);
    assert OwnSpan(pkts, 0, 1) == OwnSpan([], 0, 1);
    assert Longest(pkts, 0, [reports[0]], true) == 1 && Longest(pkts, 0, [reports[0]], false) == 0;
    assert Longest(pkts, 0, reports, true) == 1 && Longest(pkts, 0, reports, false) == 100;
    assert Total(pkts, 0, reports, 1) == 100;
    assert Total(pkts, 0, reports, 2) == 101;
    DurationAfterPasses(2, 0, pkts, reports, 1);
    DurationAfterPasses(2, 0, pkts, reports, 2);
  }

  // ----- preparation from outside -----

  /** At scale one every time that is not corrected moves by exactly the offset; so a file whose offset
      is minus its start begins at zero. */
  lemma MovesByOffset(info: StreamInfo, t: int)
    requires info.scale == 1.0
    ensures Scaled(info, Some(t)) == Some(t + info.offset)
    ensures info.offset == -t ==> Scaled(info, Some(t)) == Some(0)
  {
    assert Product((t + info.offset) as real, 1.0) == (t + info.offset) as real;
  }

  /** At any scale the result is less than one tick from the scaled sum, and no farther from zero. */
  lemma ScaledIsNear(info: StreamInfo, t: int)
    ensures var r := Scaled(info, Some(t));
            var exact := (t + info.offset) as real * info.scale;
            && r.Some? && -1.0 < r.value as real - exact < 1.0
            && (if exact >= 0.0 then 0.0 <= r.value as real <= exact else exact <= r.value as real <= 0.0)
  {
    assert Product((t + info.offset) as real, info.scale) == (t + info.offset) as real * info.scale;
  }

  /** A time is unwrapped, by one period, exactly if the file's start is known, the counter narrower
      than 64 bits with a period that fits, and the time more than half a period behind the start. */
  lemma UnwrappedWhen(info: StreamInfo, t: int)
    ensures var late := info.start.Some? && info.wrapBits < 64
                        && info.start.value + Pow2(info.wrapBits) <= INT64_MAX
                        && t - info.start.value > Pow2(info.wrapBits - 1);
            && Unwrapped(info, false, Some(t)) == Some(if late then t - Pow2(info.wrapBits) else t)
            && Unwrapped(info, true, Some(t)) == Some(t)
  {
  }

  /** The correction flag after a stream's first packets. */
  function DoneAfter(info: StreamInfo, pkts: seq<Packet>): bool {
    if pkts == [] then false else CorrectionDone(info, DoneAfter(info, pkts[..|pkts| - 1]), pkts[|pkts| - 1])
  }

  predicate LeftAsIs(info: StreamInfo, pkt: Packet) {
    && Unwrapped(info, false, pkt.pts) == pkt.pts
    && Unwrapped(info, false, pkt.dts) == pkt.dts
  }

  /** The correction is over once a packet has come that it leaves as it is. */
  lemma {:induction false} CorrectionStops(info: StreamInfo, pkts: seq<Packet>)
    requires info.start.Some? && info.wrapBits < 64
    ensures DoneAfter(info, pkts) <==> exists i :: 0 <= i < |pkts| && LeftAsIs(info, pkts[i])
  {
    if pkts == [] {
    } else {
      var n := |pkts| - 1;
      CorrectionStops(info, pkts[..n]);
      if exists i :: 0 <= i < n && LeftAsIs(info, pkts[i]) {
        var i :| 0 <= i < n && LeftAsIs(info, pkts[i]);
        assert pkts[..n][i] == pkts[i];
      }
    }
  }

  /** A stream's length never leaves the 64-bit range: it is the span and the last frame where these
      fit, and the last frame alone otherwise. */
  lemma LengthNeverOverflows(s: Span, lastDuration: int)
    requires INT64_MIN <= s.min <= s.max <= INT64_MAX && 0 <= lastDuration <= INT64_MAX
    ensures var r := Length(s, lastDuration);
            && 0 <= r <= INT64_MAX
            && r == (if s.max - s.min + lastDuration < INT64_MAX then s.max - s.min + lastDuration else lastDuration)
  {
  }
}
