/** What timestamp repair guarantees over whole streams of packets. */
module MuxTimestamps {
  import opened Numbers
  import opened Muxer

  /** Both times known; 64-bit times other than the sentinel lie above it. */
  predicate Known(p: Packet) {
    p.pts > NOPTS && p.dts > NOPTS
  }

  predicate AllKnown(pkts: seq<Packet>) {
    forall i :: 0 <= i < |pkts| ==> Known(pkts[i])
  }

  /** Settings under which timestamps are repaired and a late packet is not an error. */
  predicate Repairs(cfg: WriteConfig) {
    Timed(cfg) && !cfg.noTimestamps && !cfg.exitOnError && !(cfg.media.Video? && cfg.vsyncDrop)
  }

  /** The packets as written, one after the other. */
  function Write(cfg: WriteConfig, last: int, pkts: seq<Packet>): (r: seq<Packet>)
    ensures |r| == |pkts|
  {
    if pkts == [] then []
    else
      var before := Write(cfg, last, pkts[..|pkts| - 1]);
      before + [Repair(cfg, if before == [] then last else before[|before| - 1].dts, pkts[|pkts| - 1])]
  }

  lemma {:induction false} WritePrefix(cfg: WriteConfig, last: int, pkts: seq<Packet>, n: nat)
    requires n <= |pkts|
    ensures Write(cfg, last, pkts)[..n] == Write(cfg, last, pkts[..n])
    decreases |pkts|
  {
    if n < |pkts| {
      var m := |pkts| - 1;
      WritePrefix(cfg, last, pkts[..m], n);
      assert pkts[..m][..n] == pkts[..n];
    } else {
      assert pkts[..n] == pkts;
    }
  }

  /** The packet before the `n`-th is what the repair of the `n`-th looks at. */
  lemma WrittenAt(cfg: WriteConfig, last: int, pkts: seq<Packet>, n: nat)
    requires n < |pkts|
    ensures var w := Write(cfg, last, pkts);
            w[n] == Repair(cfg, if n == 0 then last else w[n - 1].dts, pkts[n])
  {
    var w := Write(cfg, last, pkts);
    WritePrefix(cfg, last, pkts, n + 1);
    WritePrefix(cfg, last, pkts, n);
    assert pkts[..n + 1][..n] == pkts[..n];
    assert w[..n + 1][n] == w[n];
  }

  // ----- one packet -----

  /** In strict formats the whole repair comes down to this: the decoding time is the earlier of the
      packet's two times, moved up to the next free one, and the presentation time follows it up. */
  lemma StrictRepair(cfg: WriteConfig, last: int, p: Packet)
    requires Repairs(cfg) && !cfg.nonstrict && Known(p) && last >= NOPTS
    ensures var r := Repair(cfg, last, p);
            && r.dts == (if last == NOPTS then Min(p.pts, p.dts) else Max(last + 1, Min(p.pts, p.dts)))
            && r.pts == Max(p.pts, r.dts)
  {
  }

  /** In non-strict formats the same holds with "not before the last one", except for exactly one
      kind of packet, shown no later than the last one was decoded but decoded after it: it is
      written one tick late. */
  lemma NonstrictRepair(cfg: WriteConfig, last: int, p: Packet)
    requires Repairs(cfg) && cfg.nonstrict && Known(p) && last > NOPTS
    ensures var r := Repair(cfg, last, p);
            && (r.dts == Max(last, Min(p.pts, p.dts)) <==> !(p.pts <= last < p.dts))
            && (p.pts <= last < p.dts ==> r.dts == last + 1)
            && r.pts == Max(p.pts, r.dts)
  {
  }

  /** Whatever is unknown, wrong or out of order: known times are never written decoded after shown. */
  lemma NeverDecodedLate(cfg: WriteConfig, last: int, p: Packet)
    requires !cfg.noTimestamps && last >= NOPTS && p.pts >= NOPTS && p.dts >= NOPTS
    ensures var r := Repair(cfg, last, p);
            && r.dts >= NOPTS
            && (r.pts != NOPTS && r.dts != NOPTS ==> r.dts <= r.pts)
            && (Timed(cfg) && last != NOPTS && r.dts != NOPTS ==> r.dts >= last + Step(cfg))
  {
  }

  // ----- whole streams -----

  /** Neighbouring packets with known decoding times are written in order, in every stream. */
  lemma NeighboursInOrder(cfg: WriteConfig, pkts: seq<Packet>, n: nat)
    requires Timed(cfg) && !cfg.noTimestamps && n + 1 < |pkts|
    requires forall i :: 0 <= i < |pkts| ==> pkts[i].pts >= NOPTS && pkts[i].dts >= NOPTS
    ensures var w := Write(cfg, NOPTS, pkts);
            w[n].dts != NOPTS && w[n + 1].dts != NOPTS ==> w[n].dts + Step(cfg) <= w[n + 1].dts
  {
    WrittenAt(cfg, NOPTS, pkts, n + 1);
    WrittenBounded(cfg, pkts, n);
    NeverDecodedLate(cfg, Write(cfg, NOPTS, pkts)[n].dts, pkts[n + 1]);
  }

  lemma {:induction false} WrittenBounded(cfg: WriteConfig, pkts: seq<Packet>, n: nat)
    requires !cfg.noTimestamps && n < |pkts|
    requires forall i :: 0 <= i < |pkts| ==> pkts[i].pts >= NOPTS && pkts[i].dts >= NOPTS
    ensures Write(cfg, NOPTS, pkts)[n].dts >= NOPTS
  {
    WrittenAt(cfg, NOPTS, pkts, n);
    if n > 0 {
      WrittenBounded(cfg, pkts, n - 1);
    }
    NeverDecodedLate(cfg, if n == 0 then NOPTS else Write(cfg, NOPTS, pkts)[n - 1].dts, pkts[n]);
  }

  // ----- the written times in closed form -----

  /** The time a packet asks for. */
  function Wanted(p: Packet): int {
    Min(p.pts, p.dts)
  }

  /** In a non-strict format, the packet that is moved a tick too far. */
  predicate Overtaken(cfg: WriteConfig, last: int, p: Packet) {
    cfg.nonstrict && p.pts <= last < p.dts
  }

  /** Streams in which no packet is moved too far by what was written before it; in strict formats,
      and where no dts is after its pts, all are. */
  predicate Regular(cfg: WriteConfig, pkts: seq<Packet>) {
    && Repairs(cfg) && AllKnown(pkts)
    && (forall i :: 0 < i < |pkts| ==> !Overtaken(cfg, Write(cfg, NOPTS, pkts)[i - 1].dts, pkts[i]))
  }

  /** Each decoding time is the wanted one, moved up past the last by the step. */
  predicate Climbs(cfg: WriteConfig, pkts: seq<Packet>, n: nat)
    requires n < |pkts|
  {
    var w := Write(cfg, NOPTS, pkts);
    w[n].dts == (if n == 0 then Wanted(pkts[0]) else Max(w[n - 1].dts + Step(cfg), Wanted(pkts[n])))
  }

  lemma WrittenClimbs(cfg: WriteConfig, pkts: seq<Packet>, n: nat)
    requires Regular(cfg, pkts) && n < |pkts|
    ensures var w := Write(cfg, NOPTS, pkts);
            && w[n].dts > NOPTS
            && w[n].dts == (if n == 0 then Wanted(pkts[0]) else Max(w[n - 1].dts + Step(cfg), Wanted(pkts[n])))
            && w[n].pts == Max(pkts[n].pts, w[n].dts)
  {
    ClimbsUnlessOvertaken(cfg, pkts, n);
  }

  /** The two formats together, for one packet behind another. */
  lemma RepairClimbs(cfg: WriteConfig, last: int, p: Packet)
    requires Repairs(cfg) && Known(p) && last > NOPTS
    ensures var r := Repair(cfg, last, p);
            && r.pts == Max(p.pts, r.dts)
            && (r.dts == Max(last + Step(cfg), Wanted(p)) <==> !Overtaken(cfg, last, p))
            && (Overtaken(cfg, last, p) ==> r.dts == last + 1)
  {
    if cfg.nonstrict {
      NonstrictRepair(cfg, last, p);
    } else {
      StrictRepair(cfg, last, p);
    }
  }

  lemma FirstRepair(cfg: WriteConfig, p: Packet)
    requires Repairs(cfg) && Known(p)
    ensures var r := Repair(cfg, NOPTS, p); r.dts == Wanted(p) && r.pts == Max(p.pts, r.dts)
  {
  }

  /** One packet of any stream with known times. */
  lemma ClimbsUnlessOvertaken(cfg: WriteConfig, pkts: seq<Packet>, n: nat)
    requires Repairs(cfg) && AllKnown(pkts) && n < |pkts|
    ensures var w := Write(cfg, NOPTS, pkts);
            && w[n].dts > NOPTS
            && w[n].pts == Max(pkts[n].pts, w[n].dts)
            && (Climbs(cfg, pkts, n) <==> n == 0 || !Overtaken(cfg, w[n - 1].dts, pkts[n]))
            && (!Climbs(cfg, pkts, n) ==> w[n].dts == w[n - 1].dts + 1)
  {
    WrittenAt(cfg, NOPTS, pkts, n);
    WrittenStep(cfg, pkts, n);
    if n == 0 {
      FirstRepair(cfg, pkts[0]);
    } else {
      WrittenStep(cfg, pkts, n - 1);
      RepairClimbs(cfg, Write(cfg, NOPTS, pkts)[n - 1].dts, pkts[n]);
    }
  }

  /** Every decoding time of a stream climbs like that if and only if no packet is overtaken. */
  lemma ClimbsIffRegular(cfg: WriteConfig, pkts: seq<Packet>)
    requires Repairs(cfg) && AllKnown(pkts)
    ensures (forall n :: 0 <= n < |pkts| ==> Climbs(cfg, pkts, n)) <==> Regular(cfg, pkts)
    ensures (forall i :: 0 < i < |pkts| ==> pkts[i].dts <= pkts[i].pts) ==> Regular(cfg, pkts)
    ensures !cfg.nonstrict ==> Regular(cfg, pkts)
  {
    forall n | 0 <= n < |pkts|
      ensures Climbs(cfg, pkts, n) <==> n == 0 || !Overtaken(cfg, Write(cfg, NOPTS, pkts)[n - 1].dts, pkts[n])
    {
      ClimbsUnlessOvertaken(cfg, pkts, n);
    }
    if forall n :: 0 <= n < |pkts| ==> Climbs(cfg, pkts, n) {
      forall i | 0 < i < |pkts|
        ensures !Overtaken(cfg, Write(cfg, NOPTS, pkts)[i - 1].dts, pkts[i])
      {
        assert Climbs(cfg, pkts, i);
      }
    }
  }

  /** A packet shown at 5 and decoded at 20, after one written at 10, is written at 11. */
  lemma OvertakenIsLate(cfg: WriteConfig)
    requires Repairs(cfg) && cfg.nonstrict
    ensures exists pkts ::
      var w := Write(cfg, NOPTS, pkts);
      && |w| == 2 && AllKnown(pkts) && w[0].dts == 10 && w[1].dts == 11
      && Max(w[0].dts + Step(cfg), Wanted(pkts[1])) == 10
  {
    var pkts := [Packet(10, 10, 0, 0), Packet(5, 20, 0, 0)];
    WrittenAt(cfg, NOPTS, pkts, 0);
    WrittenAt(cfg, NOPTS, pkts, 1);
    assert Write(cfg, NOPTS, pkts)[1].dts == 11;
  }

  /** The n-th written decoding time is the maximum, over the packets so far, of the wanted time
      plus one step for each packet since. */
  lemma {:induction false} WrittenIsMaximum(cfg: WriteConfig, pkts: seq<Packet>, n: nat)
    requires Regular(cfg, pkts) && n < |pkts|
    ensures var w := Write(cfg, NOPTS, pkts);
            && (forall k :: 0 <= k <= n ==> Wanted(pkts[k]) + (n - k) * Step(cfg) <= w[n].dts)
            && (exists k :: 0 <= k <= n && w[n].dts == Wanted(pkts[k]) + (n - k) * Step(cfg))
  {
    var w := Write(cfg, NOPTS, pkts);
    WrittenClimbs(cfg, pkts, n);
    if n == 0 {
      assert w[0].dts == Wanted(pkts[0]) + 0 * Step(cfg);
    } else {
      WrittenIsMaximum(cfg, pkts, n - 1);
      var k :| 0 <= k <= n - 1 && w[n - 1].dts == Wanted(pkts[k]) + (n - 1 - k) * Step(cfg);
      assert w[n].dts == Wanted(pkts[k]) + (n - k) * Step(cfg) || w[n].dts == Wanted(pkts[n]) + (n - n) * Step(cfg);
      forall k | 0 <= k <= n
        ensures Wanted(pkts[k]) + (n - k) * Step(cfg) <= w[n].dts
      {
        if k < n {
          assert Wanted(pkts[k]) + (n - 1 - k) * Step(cfg) <= w[n - 1].dts;
        }
      }
    }
  }

  /** Written decoding times strictly increase (in non-strict formats: never decrease), and no
      packet is decoded after it is shown. */
  lemma {:induction false} WrittenInOrder(cfg: WriteConfig, pkts: seq<Packet>, m: nat, n: nat)
    requires Repairs(cfg) && AllKnown(pkts) && m < n < |pkts|
    ensures var w := Write(cfg, NOPTS, pkts);
            && w[m].dts + (n - m) * Step(cfg) <= w[n].dts
            && w[n].dts <= w[n].pts
    decreases n
  {
    var w := Write(cfg, NOPTS, pkts);
    WrittenStep(cfg, pkts, n);
    if m + 1 == n {
    } else {
      WrittenInOrder(cfg, pkts, m, n - 1);
    }
  }

  lemma {:induction false} WrittenStep(cfg: WriteConfig, pkts: seq<Packet>, n: nat)
    requires Repairs(cfg) && AllKnown(pkts) && n < |pkts|
    ensures var w := Write(cfg, NOPTS, pkts);
            && NOPTS < w[n].dts <= w[n].pts
            && (n > 0 ==> w[n - 1].dts + Step(cfg) <= w[n].dts)
  {
    var w := Write(cfg, NOPTS, pkts);
    WrittenAt(cfg, NOPTS, pkts, n);
    if n == 0 {
    } else {
      WrittenStep(cfg, pkts, n - 1);
      NeverDecodedLate(cfg, w[n - 1].dts, pkts[n]);
    }
  }

  /** No other choice of decoding times in order and not before the wanted ones is earlier anywhere. */
  lemma {:induction false} WrittenIsLeast(cfg: WriteConfig, pkts: seq<Packet>, other: seq<int>, n: nat)
    requires Regular(cfg, pkts) && n < |pkts| == |other|
    requires forall i :: 0 <= i < |other| ==> Wanted(pkts[i]) <= other[i]
    requires forall i :: 0 < i < |other| ==> other[i - 1] + Step(cfg) <= other[i]
    ensures Write(cfg, NOPTS, pkts)[n].dts <= other[n]
  {
    WrittenClimbs(cfg, pkts, n);
    if n == 0 {
    } else {
      WrittenIsLeast(cfg, pkts, other, n - 1);
    }
  }

  // ----- streams with unknown times -----

  /** What the container or the encoder can hand over: times are unknown or above the sentinel. */
  predicate AllTimes(pkts: seq<Packet>) {
    forall i :: 0 <= i < |pkts| ==> pkts[i].pts >= NOPTS && pkts[i].dts >= NOPTS
  }

  /** The time a packet with a known decoding time asks for. */
  function Asks(p: Packet): int {
    if p.pts == NOPTS then p.dts else Min(p.pts, p.dts)
  }

  /** The last known decoding time written, if any. */
  function LastKnown(w: seq<Packet>): int {
    if w == [] then NOPTS
    else if w[|w| - 1].dts != NOPTS then w[|w| - 1].dts
    else LastKnown(w[..|w| - 1])
  }

  /** Known decoding times are written in order, whatever lies between them. */
  predicate KnownInOrder(cfg: WriteConfig, w: seq<Packet>) {
    forall i, j :: 0 <= i < j < |w| && w[i].dts != NOPTS && w[j].dts != NOPTS ==> w[i].dts + Step(cfg) <= w[j].dts
  }

  /** A packet behind one without a decoding time asks for too early a time. */
  predicate Forgets(cfg: WriteConfig, w: seq<Packet>, p: Packet) {
    && w != [] && w[|w| - 1].dts == NOPTS && LastKnown(w) != NOPTS
    && p.dts != NOPTS && Asks(p) < LastKnown(w) + Step(cfg)
  }

  lemma {:induction false} LastKnownBounds(cfg: WriteConfig, w: seq<Packet>)
    requires KnownInOrder(cfg, w)
    ensures LastKnown(w) == NOPTS ==> forall i :: 0 <= i < |w| ==> w[i].dts == NOPTS
    ensures LastKnown(w) != NOPTS ==>
      && (exists i :: 0 <= i < |w| && w[i].dts == LastKnown(w))
      && (forall i :: 0 <= i < |w| && w[i].dts != NOPTS ==> w[i].dts <= LastKnown(w))
  {
    if w == [] || w[|w| - 1].dts != NOPTS {
    } else {
      var n := |w| - 1;
      assert forall i :: 0 <= i < n ==> w[..n][i] == w[i];
      LastKnownBounds(cfg, w[..n]);
    }
  }

  /** Looking at the packet before it, or at nothing: what a packet with a known time becomes. */
  lemma KnownRepair(cfg: WriteConfig, last: int, p: Packet)
    requires Repairs(cfg) && p.pts >= NOPTS && p.dts >= NOPTS && last >= NOPTS
    ensures var r := Repair(cfg, last, p);
            && (r.dts == NOPTS <==> p.dts == NOPTS)
            && (p.dts != NOPTS && last == NOPTS ==> r.dts == Asks(p))
            && (p.dts != NOPTS && last != NOPTS ==> r.dts >= last + Step(cfg))
  {
  }

  /** One more packet. */
  lemma StaysInOrder(cfg: WriteConfig, w: seq<Packet>, p: Packet)
    requires Repairs(cfg) && p.pts >= NOPTS && p.dts >= NOPTS
    requires forall i :: 0 <= i < |w| ==> w[i].dts >= NOPTS
    requires KnownInOrder(cfg, w)
    ensures var r := Repair(cfg, if w == [] then NOPTS else w[|w| - 1].dts, p);
            KnownInOrder(cfg, w + [r]) <==> !Forgets(cfg, w, p)
  {
    var last := if w == [] then NOPTS else w[|w| - 1].dts;
    var r := Repair(cfg, last, p);
    KnownRepair(cfg, last, p);
    LastKnownBounds(cfg, w);
    var all := w + [r];
    assert forall i :: 0 <= i < |w| ==> all[i] == w[i];
    if Forgets(cfg, w, p) {
      var i :| 0 <= i < |w| && w[i].dts == LastKnown(w);
      assert all[i].dts != NOPTS && all[|w|].dts < all[i].dts + Step(cfg);
    }
  }

  /** No packet of the stream forgets, given what was written before it. */
  predicate NoneForgets(cfg: WriteConfig, pkts: seq<Packet>) {
    pkts == [] ||
    var before := pkts[..|pkts| - 1];
    NoneForgets(cfg, before) && !Forgets(cfg, Write(cfg, NOPTS, before), pkts[|pkts| - 1])
  }

  /** The known decoding times of a stream are written in order if and only if no packet behind one
      without a decoding time asks for less than the last known time written, plus the step. */
  lemma {:induction false} OrderedUnlessForgotten(cfg: WriteConfig, pkts: seq<Packet>)
    requires Repairs(cfg) && AllTimes(pkts)
    ensures KnownInOrder(cfg, Write(cfg, NOPTS, pkts)) <==> NoneForgets(cfg, pkts)
  {
    if pkts == [] {
    } else {
      var n := |pkts| - 1;
      var before := Write(cfg, NOPTS, pkts[..n]);
      OrderedUnlessForgotten(cfg, pkts[..n]);
      AllWrittenBounded(cfg, pkts[..n]);
      if KnownInOrder(cfg, before) {
        StaysInOrder(cfg, before, pkts[n]);
      } else {
        PrefixInOrder(cfg, before, Write(cfg, NOPTS, pkts));
      }
    }
  }

  lemma AllWrittenBounded(cfg: WriteConfig, pkts: seq<Packet>)
    requires Repairs(cfg) && AllTimes(pkts)
    ensures forall i :: 0 <= i < |pkts| ==> Write(cfg, NOPTS, pkts)[i].dts >= NOPTS
  {
    forall i | 0 <= i < |pkts|
      ensures Write(cfg, NOPTS, pkts)[i].dts >= NOPTS
    {
      WrittenBounded(cfg, pkts, i);
    }
  }

  lemma PrefixInOrder(cfg: WriteConfig, w: seq<Packet>, more: seq<Packet>)
    requires w <= more
    ensures KnownInOrder(cfg, more) ==> KnownInOrder(cfg, w)
  {
  }

  /** Such a stream: the repair writes 10, nothing, and then 5. */
  lemma UnknownTimeForgets(cfg: WriteConfig)
    requires Repairs(cfg)
    ensures exists pkts ::
      var w := Write(cfg, NOPTS, pkts);
      |w| == 3 && w[0].dts == 10 && w[1].dts == NOPTS && w[2].dts == 5 && !KnownInOrder(cfg, w)
  {
    var p0, p1, p2 := Packet(10, 10, 0, 0), Packet(NOPTS, NOPTS, 0, 0), Packet(5, 5, 0, 0);
    var pkts := [p0, p1, p2];
    WrittenAt(cfg, NOPTS, pkts, 0);
    WrittenAt(cfg, NOPTS, pkts, 1);
    WrittenAt(cfg, NOPTS, pkts, 2);
    assert Write(cfg, NOPTS, pkts)[2].dts == 5;
  }

  // ----- what repair leaves alone -----

  /** The size stays; the duration is the one a constant frame rate imposes on video, if any. */
  lemma WrittenDuration(cfg: WriteConfig, last: int, p: Packet)
    ensures var r := Repair(cfg, last, p);
            && r.size == p.size
            && r.duration == (if cfg.media.Video? && cfg.cfrDuration.Some? then cfg.cfrDuration.value else p.duration)
  {
  }

  /** One time unknown: an unknown pts stays so and the dts is moved up past the last; an unknown dts is
      left unknown, and the pts as it is. */
  lemma OneTimeUnknown(cfg: WriteConfig, last: int, p: Packet)
    requires Repairs(cfg) && last >= NOPTS
    ensures var r := Repair(cfg, last, p);
            && (p.pts == NOPTS && p.dts > NOPTS ==>
                  r.pts == NOPTS && r.dts == if last == NOPTS then p.dts else Max(p.dts, last + Step(cfg)))
            && (p.dts == NOPTS ==> r.pts == p.pts && r.dts == NOPTS)
  {
  }

  /** Formats without timestamps, and video in the drop mode. */
  lemma NotRepaired(cfg: WriteConfig, last: int, p: Packet)
    ensures var r := Repair(cfg, last, p);
            && (cfg.media.Video? && cfg.vsyncDrop ==> r.pts == NOPTS && r.dts == NOPTS)
            && (cfg.noTimestamps && !(cfg.media.Video? && cfg.vsyncDrop) ==> r.pts == p.pts && r.dts == p.dts)
  {
  }

  /** Other streams than audio, video and subtitles need not climb: only a packet decoded after it is
      shown is changed, to a time of its own or the next free one. */
  lemma OtherStreams(cfg: WriteConfig, last: int, p: Packet)
    requires cfg.media.Other? && !cfg.noTimestamps && Known(p)
    ensures var r := Repair(cfg, last, p);
            if p.dts <= p.pts then r.pts == p.pts && r.dts == p.dts
            else r.pts == r.dts && (r.dts == Max(p.pts, Min(p.dts, last + 1)))
  {
  }

  /** A packet is an error, where late ones are, exactly if its own dts lies before the next allowed. */
  lemma RejectedIff(cfg: WriteConfig, last: int, p: Packet)
    requires Timed(cfg) && !(cfg.media.Video? && cfg.vsyncDrop) && Known(p) && last >= NOPTS
    ensures Rejected(cfg, last, p) <==>
              cfg.exitOnError && !cfg.noTimestamps && last != NOPTS && p.dts < last + Step(cfg)
  {
  }
}
