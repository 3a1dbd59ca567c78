/**
 Timestamp discontinuities of an input file: jumps are found per packet and folded into one offset
 for all streams. All time bases are microseconds.
 */
module Discontinuity {
  import opened Numbers
  import opened Options

  const AV_TIME_BASE := 1_000_000

  datatype Media = Video | Audio | Other

  datatype Packet = Packet(pts: Option<int>, dts: Option<int>)

  /** Settings of the program and of the file's format. */
  datatype Config = Config(copyTs: bool, isDiscont: bool, deltaThreshold: real, errorThreshold: real)

  /** What is known of a packet's stream: the next decoding time expected, and the latest times. */
  datatype Stream = Stream(media: Media, wrapBits: nat, nextDts: Option<int>, pts: int, dts: int)

  datatype State = State(offset: int, lastTs: Option<int>)

  predicate Beyond(delta: int, threshold: real) {
    Abs(delta) as real > threshold * AV_TIME_BASE as real
  }

  function Moved(t: Option<int>, delta: int): Option<int> {
    if t.Some? then Some(t.value + delta) else None
  }

  // ----- when a jump is corrected -----

  /** With timestamps to be kept, only a wrap-around that explains the jump ten times better counts. */
  predicate Corrects(cfg: Config, ist: Stream, dts: int) {
    !cfg.copyTs ||
    (ist.nextDts.Some? && cfg.isDiscont && ist.wrapBits < 60 &&
     Abs(dts + Pow2(ist.wrapBits) - ist.nextDts.value) < Abs(dts - ist.nextDts.value) / 10)
  }

  /** The jump to take out of a packet whose decoding time, with the present offset, is `dts`. */
  function Jump(cfg: Config, s: State, ist: Stream, dts: int): int {
    if !cfg.isDiscont then 0
    else if ist.nextDts.Some? && Corrects(cfg, ist, dts) then
      var delta := dts - ist.nextDts.value;
      if Beyond(delta, cfg.deltaThreshold) || dts + AV_TIME_BASE / 10 < Max(ist.pts, ist.dts) then delta else 0
    else if ist.nextDts.None? && !cfg.copyTs && s.lastTs.Some? && Beyond(dts - s.lastTs.value, cfg.deltaThreshold) then
      dts - s.lastTs.value
    else 0
  }

  /** In formats without jumps, a time too far from the expected one is blanked instead. */
  predicate Blanks(cfg: Config, ist: Stream, dts: int, t: Option<int>) {
    !cfg.isDiscont && ist.nextDts.Some? && Corrects(cfg, ist, dts) && t.Some? &&
    Beyond(t.value - ist.nextDts.value, cfg.errorThreshold)
  }

  predicate Detects(ist: Stream, pkt: Packet) {
    !ist.media.Other? && pkt.dts.Some?
  }

  /** A packet that already carries the offset, searched for a jump. */
  function Searched(cfg: Config, s: State, ist: Stream, p: Packet): (Packet, State)
    requires p.dts.Some?
  {
    var dts := p.dts.value;
    var jump := Jump(cfg, s, ist, dts);
    var q := Packet(
      if Blanks(cfg, ist, dts, p.pts) then None else Moved(p.pts, -jump),
      if Blanks(cfg, ist, dts, p.dts) then None else Some(dts - jump));
    (q, State(s.offset - jump, q.dts))
  }

  /** The packet as delivered, and the file's new state. */
  function Processed(cfg: Config, s: State, ist: Stream, pkt: Packet): (Packet, State) {
    var p := Packet(Moved(pkt.pts, s.offset), Moved(pkt.dts, s.offset));
    if Detects(ist, pkt) then Searched(cfg, s, ist, p) else (p, s)
  }

  // ----- the code -----

  class InputFile {
    const cfg: Config
    var tsOffsetDiscont: int
    var lastTs: Option<int>

    ghost function Value(): State
      reads this
    {
      State(tsOffsetDiscont, lastTs)
    }

    method TsDiscontinuityDetect(ist: Stream, pkt: Packet) returns (r: Packet)
      requires pkt.dts.Some?
      modifies this
      ensures (r, Value()) == Searched(cfg, old(Value()), ist, pkt)
    {
      var disable := cfg.copyTs;
      var pktDts := pkt.dts.value;
      var dts, pts := pkt.dts, pkt.pts;
      if cfg.copyTs && ist.nextDts.Some? && cfg.isDiscont && ist.wrapBits < 60 {
        var wrapDts := pktDts + Pow2(ist.wrapBits);
        if Abs(wrapDts - ist.nextDts.value) < Abs(pktDts - ist.nextDts.value) / 10 {
          disable := false;
        }
      }
      if ist.nextDts.Some? && !disable {
        var delta := pktDts - ist.nextDts.value;
        if cfg.isDiscont {
          if Abs(delta) as real > cfg.deltaThreshold * AV_TIME_BASE as real
             || pktDts + AV_TIME_BASE / 10 < Max(ist.pts, ist.dts) {
            tsOffsetDiscont := tsOffsetDiscont - delta;
            dts := Some(dts.value - delta);
            if pts.Some? {
              pts := Some(pts.value - delta);
            }
          }
        } else {
          if Abs(delta) as real > cfg.errorThreshold * AV_TIME_BASE as real {
            dts := None;
          }
          if pts.Some? {
            delta := pts.value - ist.nextDts.value;
            if Abs(delta) as real > cfg.errorThreshold * AV_TIME_BASE as real {
              pts := None;
            }
          }
        }
      } else if ist.nextDts.None? && !cfg.copyTs && cfg.isDiscont && lastTs.Some? {
        var delta := pktDts - lastTs.value;
        if Abs(delta) as real > cfg.deltaThreshold * AV_TIME_BASE as real {
          tsOffsetDiscont := tsOffsetDiscont - delta;
          dts := Some(dts.value - delta);
          if pts.Some? {
            pts := Some(pts.value - delta);
          }
        }
      }
      lastTs := dts;
      r := Packet(pts, dts);
    }

    method TsDiscontinuityProcess(ist: Stream, pkt: Packet) returns (r: Packet)
      modifies this
      ensures (r, Value()) == Processed(cfg, old(Value()), ist, pkt)
    {
      var offset := tsOffsetDiscont;
      var dts, pts := pkt.dts, pkt.pts;
      if dts.Some? {
        dts := Some(dts.value + offset);
      }
      if pts.Some? {
        pts := Some(pts.value + offset);
      }
      r := Packet(pts, dts);
      if (ist.media == Video || ist.media == Audio) && dts.Some? {
        r := TsDiscontinuityDetect(ist, r);
      }
    }
  }

  // ----- one packet -----

  /** Whatever happens, a time delivered is the input's plus the offset now in force. */
  lemma DeliveredIsShifted(cfg: Config, s: State, ist: Stream, pkt: Packet)
    ensures var (r, s') := Processed(cfg, s, ist, pkt);
            && (r.pts.Some? ==> pkt.pts.Some? && r.pts.value == pkt.pts.value + s'.offset)
            && (r.dts.Some? ==> pkt.dts.Some? && r.dts.value == pkt.dts.value + s'.offset)
            && (cfg.isDiscont || !Detects(ist, pkt) ==> r.pts.Some? == pkt.pts.Some? && r.dts.Some? == pkt.dts.Some?)
  {
  }

  /** In formats with jumps, an audio or video packet is delivered near the expected time; after a
      correction, at it. In the other formats a time is delivered near the expected one or blank. */
  lemma DeliveredIsExpected(cfg: Config, s: State, ist: Stream, pkt: Packet)
    requires Detects(ist, pkt) && ist.nextDts.Some? && !cfg.copyTs && cfg.deltaThreshold >= 0.0
    ensures var (r, s') := Processed(cfg, s, ist, pkt);
            && (cfg.isDiscont ==> r.dts.Some? && !Beyond(r.dts.value - ist.nextDts.value, cfg.deltaThreshold))
            && (s'.offset != s.offset ==> cfg.isDiscont && r.dts == ist.nextDts)
            && (!cfg.isDiscont ==>
                  && (r.dts.Some? ==> !Beyond(r.dts.value - ist.nextDts.value, cfg.errorThreshold))
                  && (r.pts.Some? ==> !Beyond(r.pts.value - ist.nextDts.value, cfg.errorThreshold)))
  {
  }

  /** A time, with the offset, that is more than a threshold of seconds from another one. */
  predicate FarFrom(t: int, other: int, seconds: real) {
    (t - other) as real > seconds * 1_000_000.0 || (other - t) as real > seconds * 1_000_000.0
  }

  /** In formats without jumps, a time of a searched packet is blanked if and only if it lies more than
      the error threshold from the expected one; otherwise it is delivered as it came, offset added. */
  lemma BlankedIff(cfg: Config, s: State, ist: Stream, pkt: Packet)
    requires Detects(ist, pkt) && ist.nextDts.Some? && !cfg.copyTs && !cfg.isDiscont
    ensures var (r, s') := Processed(cfg, s, ist, pkt);
            && s'.offset == s.offset
            && (r.dts.None? <==> FarFrom(pkt.dts.value + s.offset, ist.nextDts.value, cfg.errorThreshold))
            && (r.dts.Some? ==> r.dts.value == pkt.dts.value + s.offset)
            && (r.pts.None? <==> pkt.pts.None? || FarFrom(pkt.pts.value + s.offset, ist.nextDts.value, cfg.errorThreshold))
            && (r.pts.Some? ==> r.pts.value == pkt.pts.value + s.offset)
  {
  }

  /** In formats with jumps, a correction is made if and only if the time lies more than the threshold
      from the expected one, or more than a tenth of a second before the stream's latest times. */
  lemma CorrectedIff(cfg: Config, s: State, ist: Stream, pkt: Packet)
    requires Detects(ist, pkt) && ist.nextDts.Some? && !cfg.copyTs && cfg.isDiscont
    ensures var (r, s') := Processed(cfg, s, ist, pkt);
            var t := pkt.dts.value + s.offset;
            var jumps := FarFrom(t, ist.nextDts.value, cfg.deltaThreshold) || t + 100_000 < ist.pts || t + 100_000 < ist.dts;
            && s'.offset == (if jumps then s.offset - (t - ist.nextDts.value) else s.offset)
            && (jumps ==> r.dts == ist.nextDts)
  {
  }

  /** A stream's first packet, when nothing is expected of it, follows the file's last time instead, in
      formats with jumps and if it lies more than the threshold from it; else it is left alone. */
  lemma FirstPacketFollows(cfg: Config, s: State, ist: Stream, pkt: Packet)
    requires Detects(ist, pkt) && ist.nextDts.None?
    ensures var (r, s') := Processed(cfg, s, ist, pkt);
            var t := pkt.dts.value + s.offset;
            var follows := cfg.isDiscont && !cfg.copyTs && s.lastTs.Some? && FarFrom(t, s.lastTs.value, cfg.deltaThreshold);
            && (follows ==> r.dts == s.lastTs && s'.offset == s.offset - (t - s.lastTs.value))
            && (!follows ==> s'.offset == s.offset && r.dts == Some(t))
            && r.pts.Some? == pkt.pts.Some?
  {
  }

  /** With timestamps to be kept, a packet whose time is expected is left alone unless the format has
      jumps, the counter is narrower than 60 bits, and one period more brings the time ten times nearer
      to the expected one. */
  lemma CopiedIsLeftAlone(cfg: Config, s: State, ist: Stream, pkt: Packet)
    requires Detects(ist, pkt) && ist.nextDts.Some? && cfg.copyTs
    requires var t := pkt.dts.value + s.offset - ist.nextDts.value;
             !(cfg.isDiscont && ist.wrapBits < 60 && Abs(t + Pow2(ist.wrapBits)) < Abs(t) / 10)
    ensures var (r, s') := Processed(cfg, s, ist, pkt);
            && s'.offset == s.offset && r.dts == Some(pkt.dts.value + s.offset)
            && r.pts == Moved(pkt.pts, s.offset)
  {
  }

  /** The file's last time is the latest decoding time delivered for audio or video with a known one
      before the search; other packets do not count. */
  lemma LastTimeIsDelivered(cfg: Config, s: State, ist: Stream, pkt: Packet)
    ensures var (r, s') := Processed(cfg, s, ist, pkt);
            s'.lastTs == if (ist.media == Video || ist.media == Audio) && pkt.dts.Some? then r.dts else s.lastTs
  {
  }

  // ----- whole files -----

  /** A packet and what was known of its stream when it arrived; streams interleave as they like. */
  datatype Arrival = Arrival(ist: Stream, pkt: Packet)

  function After(cfg: Config, s: State, arrivals: seq<Arrival>): State {
    if arrivals == [] then s
    else
      var last := arrivals[|arrivals| - 1];
      Processed(cfg, After(cfg, s, arrivals[..|arrivals| - 1]), last.ist, last.pkt).1
  }

  function Delivered(cfg: Config, s: State, arrivals: seq<Arrival>, n: nat): Packet
    requires n < |arrivals|
  {
    Processed(cfg, After(cfg, s, arrivals[..n]), arrivals[n].ist, arrivals[n].pkt).0
  }

  predicate SameSpacing(a: Option<int>, a': Option<int>, b: Option<int>, b': Option<int>) {
    a'.Some? && b'.Some? ==> a.Some? && b.Some? && b'.value - a'.value == b.value - a.value
  }

  /** Between corrections the spacing of all times, within a packet and across packets and streams,
      is that of the input. */
  lemma SpacingKept(cfg: Config, s: State, arrivals: seq<Arrival>, m: nat, n: nat)
    requires m <= n < |arrivals|
    requires After(cfg, s, arrivals[..m + 1]).offset == After(cfg, s, arrivals[..n + 1]).offset
    ensures var (a, b) := (arrivals[m].pkt, arrivals[n].pkt);
            var (a', b') := (Delivered(cfg, s, arrivals, m), Delivered(cfg, s, arrivals, n));
            && SameSpacing(a.dts, a'.dts, b.dts, b'.dts) && SameSpacing(a.pts, a'.pts, b.pts, b'.pts)
            && SameSpacing(a.dts, a'.dts, b.pts, b'.pts) && SameSpacing(a.pts, a'.pts, b.dts, b'.dts)
  {
    OffsetAfter(cfg, s, arrivals, m);
    OffsetAfter(cfg, s, arrivals, n);
  }

  lemma OffsetAfter(cfg: Config, s: State, arrivals: seq<Arrival>, n: nat)
    requires n < |arrivals|
    ensures var r := Delivered(cfg, s, arrivals, n);
            var offset := After(cfg, s, arrivals[..n + 1]).offset;
            && (r.pts.Some? ==> arrivals[n].pkt.pts == Moved(r.pts, -offset))
            && (r.dts.Some? ==> arrivals[n].pkt.dts == Moved(r.dts, -offset))
  {
    assert arrivals[..n + 1][..n] == arrivals[..n];
    DeliveredIsShifted(cfg, After(cfg, s, arrivals[..n]), arrivals[n].ist, arrivals[n].pkt);
  }

  /** Formats without jumps are never shifted; nor are others when timestamps are to be kept and no
      stream's counter wraps below 60 bits. */
  lemma {:induction false} NeverShifted(cfg: Config, s: State, arrivals: seq<Arrival>)
    requires !cfg.isDiscont || (cfg.copyTs && forall a :: a in arrivals ==> a.ist.wrapBits >= 60)
    ensures After(cfg, s, arrivals).offset == s.offset
  {
    if arrivals == [] {
    } else {
      var n := |arrivals| - 1;
      NeverShifted(cfg, s, arrivals[..n]);
      assert arrivals[n] in arrivals;
    }
  }
}
