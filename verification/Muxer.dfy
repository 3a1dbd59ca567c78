/**
 The muxer front end: packets are buffered per stream until the muxer starts, then go straight
 to its thread queue; on the far side their timestamps are repaired before they are written.
 */
module Muxer {
  import opened Numbers
  import opened Options

  /** The sentinel for an unknown timestamp: the smallest 64-bit integer. */
  const NOPTS: int := -0x8000_0000_0000_0000

  datatype Packet = Packet(pts: int, dts: int, duration: int, size: nat)

  datatype MediaType = Audio | Video | Subtitle | Other

  /** `cfrDuration` is the packet duration imposed by a constant output frame rate, if any. */
  datatype WriteConfig = WriteConfig(
    media: MediaType, vsyncDrop: bool, cfrDuration: Option<int>,
    noTimestamps: bool, nonstrict: bool, exitOnError: bool, limitFilesize: int)

  // ----- timestamp repair -----

  predicate Timed(cfg: WriteConfig) {
    cfg.media.Audio? || cfg.media.Video? || cfg.media.Subtitle?
  }

  /** The smallest step between two written decoding times. */
  function Step(cfg: WriteConfig): int {
    if cfg.nonstrict then 0 else 1
  }

  function Prepare(cfg: WriteConfig, pkt: Packet): Packet {
    var p := if cfg.media.Video? && cfg.vsyncDrop then pkt.(pts := NOPTS, dts := NOPTS) else pkt;
    if cfg.media.Video? && cfg.cfrDuration.Some? then p.(duration := cfg.cfrDuration.value) else p
  }

  /** A packet decoded after it is shown gets one time for both: the middle one of its own two
      and the next free one. */
  function Guess(last: int, p: Packet): Packet {
    if p.dts != NOPTS && p.pts != NOPTS && p.dts > p.pts then
      var m := MidPred(p.pts, p.dts, last + 1);
      p.(pts := m, dts := m)
    else p
  }

  predicate TooEarly(cfg: WriteConfig, last: int, p: Packet) {
    Timed(cfg) && p.dts != NOPTS && last != NOPTS && p.dts < last + Step(cfg)
  }

  function Raise(cfg: WriteConfig, last: int, p: Packet): Packet {
    if TooEarly(cfg, last, p) then
      p.(pts := if p.pts >= p.dts then Max(p.pts, last + Step(cfg)) else p.pts, dts := last + Step(cfg))
    else p
  }

  /** The packet as it is written after one whose decoding time was `last`. */
  function Repair(cfg: WriteConfig, last: int, pkt: Packet): Packet {
    var p := Prepare(cfg, pkt);
    if cfg.noTimestamps then p else Raise(cfg, last, Guess(last, p))
  }

  predicate Rejected(cfg: WriteConfig, last: int, pkt: Packet) {
    !cfg.noTimestamps && cfg.exitOnError && TooEarly(cfg, last, Guess(last, Prepare(cfg, pkt)))
  }

  datatype WriteResult = Written | FileFull | InvalidTimestamp | WriteFailed

  // ----- buffering -----

  /** What the thread queue says to a packet: taken, receiver gone, or failure. */
  datatype Answer = Taken | ReceiverGone | Broken

  /** An absent packet marks the end of the stream. */
  datatype Buffer = Buffer(
    queue: seq<Option<Packet>>, capacity: nat, bytes: int,
    finished: bool, sent: seq<Packet>)

  const FRESH_BUFFER := Buffer([], 8, 0, false, [])

  datatype Limits = Limits(maxQueueSize: int, dataThreshold: nat)

  function SizeOf(item: Option<Packet>): nat {
    if item.Some? then item.value.size else 0
  }

  /** An `int` stored in an unsigned 64-bit `size_t`. */
  function AsSize(x: int): nat {
    x % 0x1_0000_0000_0000_0000
  }

  predicate Refuses(lim: Limits, b: Buffer, item: Option<Packet>) {
    && |b.queue| >= b.capacity
    && b.bytes + SizeOf(item) > lim.dataThreshold
    && AsSize(lim.maxQueueSize) <= |b.queue|
  }

  function GrownCapacity(lim: Limits, b: Buffer, item: Option<Packet>): nat {
    if |b.queue| < b.capacity then b.capacity
    else if b.bytes + SizeOf(item) > lim.dataThreshold then Min(2 * |b.queue|, AsSize(lim.maxQueueSize))
    else 2 * |b.queue|
  }

  function Enqueue(lim: Limits, b: Buffer, item: Option<Packet>): Buffer {
    if Refuses(lim, b, item) then b
    else b.(queue := b.queue + [item], capacity := GrownCapacity(lim, b, item), bytes := b.bytes + SizeOf(item))
  }

  /** A packet, or the end of the stream, offered to the thread queue. */
  function Send(b: Buffer, item: Option<Packet>, answer: Answer): Buffer {
    if item.None? || b.finished || !answer.Taken? then b.(finished := true)
    else b.(sent := b.sent + [item.value])
  }

  predicate SendFails(b: Buffer, item: Option<Packet>, answer: Answer) {
    item.Some? && !b.finished && answer.Broken?
  }

  function AnswerAt(answers: seq<Answer>, i: nat): Answer {
    if i < |answers| then answers[i] else Taken
  }

  /** The buffered packets sent in order until one fails; the `i`-th answer is the next one. */
  function Drain(b: Buffer, answers: seq<Answer>, i: nat): (r: (Buffer, bool))
    decreases |b.queue|
  {
    if b.queue == [] then (b, true)
    else
      var item := b.queue[0];
      var b' := Send(b.(queue := b.queue[1..]), item, AnswerAt(answers, i));
      if SendFails(b, item, AnswerAt(answers, i)) then (b', false)
      else Drain(b', answers, i + 1)
  }

  // ----- the code -----

  class MuxStream {
    const cfg: WriteConfig
    const limits: Limits
    var lastMuxDts: int
    var dataSizeMux: int
    var packetsWritten: int
    var handed: seq<Packet>           // passed to the container writer
    var muxingQueue: seq<Option<Packet>>
    var queueCapacity: nat
    var muxingQueueDataSize: int
    var muxerFinished: bool
    var sent: seq<Packet>             // taken by the thread queue

    ghost predicate Valid()
      reads this
    {
      queueCapacity > 0
    }

    ghost function State(): Buffer
      reads this
    {
      Buffer(muxingQueue, queueCapacity, muxingQueueDataSize, muxerFinished, sent)
    }

    constructor (cfg: WriteConfig, limits: Limits)
      ensures this.cfg == cfg && this.limits == limits
      ensures Valid() && State() == FRESH_BUFFER && lastMuxDts == NOPTS && handed == []
    {
      this.cfg, this.limits := cfg, limits;
      lastMuxDts, dataSizeMux, packetsWritten, handed := NOPTS, 0, 0, [];
      muxingQueue, queueCapacity, muxingQueueDataSize := [], 8, 0;
      muxerFinished, sent := false, [];
    }

    /** The timestamp part of `WritePacket`. */
    method FixTimestamps(pkt: Packet) returns (p: Packet, valid: bool)
      ensures valid == !Rejected(cfg, lastMuxDts, pkt)
      ensures valid ==> p == Repair(cfg, lastMuxDts, pkt)
    {
      p := pkt;
      valid := true;
      if cfg.media == Video && cfg.vsyncDrop {
        p := p.(pts := NOPTS, dts := NOPTS);
      }
      if cfg.media == Video && cfg.cfrDuration.Some? {
        p := p.(duration := cfg.cfrDuration.value);
      }
      assert p == Prepare(cfg, pkt);
      if !cfg.noTimestamps {
        if p.dts != NOPTS && p.pts != NOPTS && p.dts > p.pts {
          var next := lastMuxDts + 1;
          var guess := p.pts + p.dts + next - Min(p.pts, Min(p.dts, next)) - Max(p.pts, Max(p.dts, next));
          p := p.(pts := guess, dts := guess);
        }
        assert p == Guess(lastMuxDts, Prepare(cfg, pkt));
        if (cfg.media == Audio || cfg.media == Video || cfg.media == Subtitle) && p.dts != NOPTS && lastMuxDts != NOPTS {
          var max := lastMuxDts + (if cfg.nonstrict then 0 else 1);
          if p.dts < max {
            if cfg.exitOnError {
              return p, false;
            }
            if p.pts >= p.dts {
              p := p.(pts := Max(p.pts, max));
            }
            p := p.(dts := max);
          }
        }
      }
    }

    /** `filesize` is the size of the output so far, `writer` whether the container takes the packet. */
    method WritePacket(pkt: Packet, filesize: int, writer: bool) returns (r: WriteResult)
      modifies this`lastMuxDts, this`dataSizeMux, this`packetsWritten, this`handed
      ensures r.FileFull? <==> filesize >= cfg.limitFilesize
      ensures r.InvalidTimestamp? <==> filesize < cfg.limitFilesize && Rejected(cfg, old(lastMuxDts), pkt)
      ensures r.FileFull? || r.InvalidTimestamp? ==>
        lastMuxDts == old(lastMuxDts) && handed == old(handed) && packetsWritten == old(packetsWritten) && dataSizeMux == old(dataSizeMux)
      ensures r.Written? || r.WriteFailed? ==>
        var p := Repair(cfg, old(lastMuxDts), pkt);
        && lastMuxDts == p.dts && handed == old(handed) + [p] && (r.Written? <==> writer)
        && packetsWritten == old(packetsWritten) + 1 && dataSizeMux == old(dataSizeMux) + pkt.size
    {
      if filesize >= cfg.limitFilesize {
        return FileFull;
      }
      var p, valid := FixTimestamps(pkt);
      if !valid {
        return InvalidTimestamp;
      }
      lastMuxDts := p.dts;
      dataSizeMux := dataSizeMux + p.size;
      packetsWritten := packetsWritten + 1;
      handed := handed + [p];
      return if writer then Written else WriteFailed;
    }

    method ThreadSubmitPacket(item: Option<Packet>, answer: Answer) returns (ok: bool)
      modifies this`muxerFinished, this`sent
      ensures State() == Send(old(State()), item, answer)
      ensures ok == !SendFails(old(State()), item, answer)
    {
      if item.Some? && !muxerFinished {
        if answer.Taken? {
          sent := sent + [item.value];
          return true;
        }
        muxerFinished := true;
        return answer.ReceiverGone?;
      }
      muxerFinished := true;
      return true;
    }

    method QueuePacket(item: Option<Packet>) returns (ok: bool)
      requires Valid()
      modifies this`muxingQueue, this`queueCapacity, this`muxingQueueDataSize
      ensures Valid()
      ensures State() == Enqueue(limits, old(State()), item)
      ensures ok == !Refuses(limits, old(State()), item)
    {
      if |muxingQueue| >= queueCapacity {
        var curSize := |muxingQueue|;
        var overSize := muxingQueueDataSize + SizeOf(item) > limits.dataThreshold;
        var newSize := 2 * curSize;
        if overSize {
          newSize := Min(2 * curSize, AsSize(limits.maxQueueSize));
        }
        if newSize <= curSize {
          return false;
        }
        queueCapacity := newSize;
      }
      muxingQueueDataSize := muxingQueueDataSize + SizeOf(item);
      muxingQueue := muxingQueue + [item];
      return true;
    }

    /** The flushing loop of one stream when the muxer thread starts. */
    method DrainQueue(answers: seq<Answer>) returns (ok: bool)
      modifies this`muxingQueue, this`muxerFinished, this`sent
      ensures (State(), ok) == Drain(old(State()), answers, 0)
    {
      var i := 0;
      while muxingQueue != []
        invariant Drain(State(), answers, i) == Drain(old(State()), answers, 0)
        decreases |muxingQueue|
      {
        var item := muxingQueue[0];
        muxingQueue := muxingQueue[1..];
        ok := ThreadSubmitPacket(item, AnswerAt(answers, i));
        if !ok {
          return;
        }
        i := i + 1;
      }
      return true;
    }
  }

  class MuxerThread {
    const streams: seq<MuxStream>
    var started: bool

    ghost predicate Valid()
      reads this, streams
    {
      && (forall i, j :: 0 <= i < j < |streams| ==> streams[i] != streams[j])
      && (forall i :: 0 <= i < |streams| ==> streams[i].Valid())
    }

    constructor (streams: seq<MuxStream>)
      requires forall i, j :: 0 <= i < j < |streams| ==> streams[i] != streams[j]
      requires forall i :: 0 <= i < |streams| ==> streams[i].Valid()
      ensures this.streams == streams && !started && Valid()
    {
      this.streams := streams;
      started := false;
    }

    method SubmitPacket(k: nat, item: Option<Packet>, answer: Answer) returns (ok: bool)
      requires Valid() && k < |streams|
      modifies streams[k]
      ensures Valid()
      ensures streams[k].State() ==
        if started then Send(old(streams[k].State()), item, answer)
        else Enqueue(streams[k].limits, old(streams[k].State()), item)
      ensures ok == if started then !SendFails(old(streams[k].State()), item, answer)
                    else !Refuses(streams[k].limits, old(streams[k].State()), item)
    {
      if started {
        ok := streams[k].ThreadSubmitPacket(item, answer);
      } else {
        ok := streams[k].QueuePacket(item);
      }
    }

    /** The thread queue exists from here on; the buffered packets of every stream go first. */
    method ThreadStart(answers: seq<seq<Answer>>) returns (ok: bool)
      requires Valid() && |answers| == |streams|
      modifies this, streams
      ensures Valid() && started
      ensures ok ==> forall i :: 0 <= i < |streams| ==>
        (streams[i].State(), true) == Drain(old(streams[i].State()), answers[i], 0)
      ensures !ok ==> exists i ::
        && 0 <= i < |streams|
        && (streams[i].State(), false) == Drain(old(streams[i].State()), answers[i], 0)
        && (forall j :: 0 <= j < i ==> (streams[j].State(), true) == Drain(old(streams[j].State()), answers[j], 0))
        && (forall j :: i < j < |streams| ==> streams[j].State() == old(streams[j].State()))
    {
      started := true;
      var i := 0;
      while i < |streams|
        invariant 0 <= i <= |streams| && started && Valid()
        invariant forall j :: 0 <= j < i ==> (streams[j].State(), true) == Drain(old(streams[j].State()), answers[j], 0)
        invariant forall j :: i <= j < |streams| ==> streams[j].State() == old(streams[j].State())
      {
        ok := streams[i].DrainQueue(answers[i]);
        if !ok {
          assert (streams[i].State(), false) == Drain(old(streams[i].State()), answers[i], 0);
          return;
        }
        i := i + 1;
      }
      return true;
    }
  }
}
