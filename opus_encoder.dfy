/**
 * The Opus-over-Ogg encoder transform: it turns encoded Opus frames into the
 * ordered sequence of Ogg packet records that a downstream Ogg stream receives.
 * The packet sequence it produces is described by the functions `Emitted` (while
 * frames are still arriving) and `Finished` (after the flush at end of input);
 * the class `Encoder` keeps its fields in step with them.
 */
module OpusEncoderStream {
  import opened Wrappers
  import opened Bytes

  /** The sample rates libopus accepts. */
  const VALID_RATES: seq<int> := [8000, 12000, 16000, 24000, 48000]
  const DEFAULT_RATE: int := 48000
  const DEFAULT_CHANNELS: int := 1
  /** Granule positions of Ogg Opus count samples at 48 kHz whatever the input rate. */
  const GRANULE_RATE: int := 48000
  /** The pre-skip written into the identification header, in 48 kHz samples. */
  const PRE_SKIP: int := 3840
  const VENDOR: string := "node-opus"

  predicate ValidRate(rate: int) {
    rate in VALID_RATES
  }

  /** JavaScript `x || d` on an optional number: an absent or zero argument takes the default. */
  function OrDefault(x: Option<int>, d: int): int {
    if x.None? || x.value == 0 then d else x.value
  }

  /** The default frame size, 40 ms of samples (`rate * 0.04`). */
  function DefaultFrameSize(rate: int): int {
    rate / 25
  }

  datatype Config = Config(rate: int, channels: int, frameSize: int)

  /** The RangeError the constructor throws, with the rejected rate. */
  datatype EncoderError = RangeError(rate: int)

  /**
   * A configuration the integer model can run: a valid rate, and a frame size whose
   * length in 48 kHz samples is whole.
   */
  predicate ValidConfig(c: Config) {
    ValidRate(c.rate) && (c.frameSize * GRANULE_RATE) % c.rate == 0
  }

  /** How far each data packet advances the granule position. */
  function Increment(c: Config): int
    requires ValidRate(c.rate)
  {
    c.frameSize * GRANULE_RATE / c.rate
  }

  /** The constructor's argument handling: defaults, then the rate check. */
  function Configure(rate: Option<int>, channels: Option<int>, frameSize: Option<int>): (r: Result<Config, EncoderError>)
    ensures r.Success? <==> OrDefault(rate, DEFAULT_RATE) in {8000, 12000, 16000, 24000, 48000}
    ensures r.Failure? ==> r.error.rate == OrDefault(rate, DEFAULT_RATE)
    ensures r.Success? ==> r.value.rate == OrDefault(rate, DEFAULT_RATE)
    ensures r.Success? ==> r.value.channels == OrDefault(channels, DEFAULT_CHANNELS)
    ensures r.Success? && OrDefault(frameSize, 0) != 0 ==> r.value.frameSize == frameSize.value
    ensures r.Success? && OrDefault(frameSize, 0) == 0 ==> r.value.frameSize * 25 == r.value.rate
  {
    var rt := OrDefault(rate, DEFAULT_RATE);
    if !ValidRate(rt) then Failure(RangeError(rt))
    else Success(Config(rt, OrDefault(channels, DEFAULT_CHANNELS), OrDefault(frameSize, DefaultFrameSize(rt))))
  }

  /** What the integer model needs of the arguments beyond what the source checks. */
  predicate ExactFrame(rate: Option<int>, frameSize: Option<int>) {
    var rt := OrDefault(rate, DEFAULT_RATE);
    ValidRate(rt) ==> (OrDefault(frameSize, DefaultFrameSize(rt)) * GRANULE_RATE) % rt == 0
  }

  /** With the default frame size every rate advances the granule position by 1920 (40 ms). */
  lemma DefaultFrameSize40ms(rate: int)
    requires ValidRate(rate)
    ensures ValidConfig(Config(rate, DEFAULT_CHANNELS, DefaultFrameSize(rate)))
    ensures Increment(Config(rate, DEFAULT_CHANNELS, DefaultFrameSize(rate))) == 1920
  {
    assert rate == 8000 || rate == 12000 || rate == 16000 || rate == 24000 || rate == 48000;
    if rate == 8000 {
      assert DefaultFrameSize(rate) * GRANULE_RATE == 1920 * 8000;
    } else if rate == 12000 {
      assert DefaultFrameSize(rate) * GRANULE_RATE == 1920 * 12000;
    } else if rate == 16000 {
      assert DefaultFrameSize(rate) * GRANULE_RATE == 1920 * 16000;
    } else if rate == 24000 {
      assert DefaultFrameSize(rate) * GRANULE_RATE == 1920 * 24000;
    } else {
      assert DefaultFrameSize(rate) * GRANULE_RATE == 1920 * 48000;
    }
  }

  /**
   * The integer model's divisibility condition holds for every argument: 48000 is a
   * multiple of every valid rate, so any integral frame size gives an integral increment.
   */
  lemma ExactFrameAlways(rate: Option<int>, frameSize: Option<int>)
    ensures ExactFrame(rate, frameSize)
  {
    var rt := OrDefault(rate, DEFAULT_RATE);
    var f := OrDefault(frameSize, DefaultFrameSize(rt));
    if rt == 8000 {
      MultipleMod(f * 6, 8000);
    } else if rt == 12000 {
      MultipleMod(f * 4, 12000);
    } else if rt == 16000 {
      MultipleMod(f * 3, 16000);
    } else if rt == 24000 {
      MultipleMod(f * 2, 24000);
    } else if rt == 48000 {
      MultipleMod(f, 48000);
    }
  }

  /** A multiple of d leaves no remainder. */
  lemma MultipleMod(q: int, d: int)
    requires d > 0
    ensures (q * d) % d == 0
  {
    var k, r := (q * d) / d, (q * d) % d;
    assert q * d == k * d + r && 0 <= r < d;
    var e := q - k;
    assert e * d == r by { assert e * d == q * d - k * d; }
    if e >= 1 {
      assert e * d == (e - 1) * d + d;
      MulNonPositive(1 - e, d);
    }
    assert e == 0;
  }

  /** Construction without arguments gives 48 kHz mono with 1920-sample frames. */
  lemma ConfigureDefaults()
    ensures Configure(None, None, None) == Success(Config(48000, 1, 1920))
    ensures ExactFrame(None, None)
  {
  }

  /* ---------------- packet records ---------------- */

  /**
   * One record handed to `push`: the fields of an ogg_packet wrapper that the encoder
   * assigns, plus the `flush` property it attaches. `bos` is None where the encoder
   * never assigns b_o_s (data packets).
   */
  datatype Packet = Packet(payload: seq<byte>, bos: Option<int>, eos: int, granulepos: int, packetno: int, flush: bool)

  /** The identification header payload (section 5.1 of RFC 7845). */
  function OpusHeadPayload(c: Config): (r: seq<byte>)
    requires ValidRate(c.rate)
    ensures |r| == 19
  {
    Ascii("OpusHead") + [0x01, c.channels % 256, 0x00, 0x0f] + U32LE(c.rate) + [0x00, 0x00, 0x00]
  }

  /** The comment header payload (section 5.2 of RFC 7845): vendor "node-opus", no comments, one 0xff byte. */
  function OpusTagsPayload(): (r: seq<byte>)
  {
    Ascii("OpusTags") + U32LE(|VENDOR|) + Ascii(VENDOR) + U32LE(0) + [0xff]
  }

  /** OpusHead is the only packet that begins the stream; it is not flushed on its own. */
  function OpusHeadPacket(c: Config, packetno: int): Packet
    requires ValidRate(c.rate)
  {
    Packet(OpusHeadPayload(c), Some(1), 0, -1, packetno, false)
  }

  /** OpusTags carries b_o_s 0 and forces the header pages out. */
  function OpusTagsPacket(packetno: int): Packet
  {
    Packet(OpusTagsPayload(), Some(0), 0, -1, packetno, true)
  }

  /** Data packet number k (counting from 1) carrying `frame`. */
  function DataPacket(c: Config, k: nat, frame: seq<byte>, eos: int): Packet
    requires ValidRate(c.rate)
  {
    Packet(frame, None, eos, k * Increment(c), k + 1, true)
  }

  /* ---------------- the packet sequence, as a function of the frames ---------------- */

  /** The data packets for `frames`, none of them marked end-of-stream. */
  function DataPackets(c: Config, frames: seq<seq<byte>>): (r: seq<Packet>)
    requires ValidRate(c.rate)
    ensures |r| == |frames|
  {
    if |frames| == 0 then []
    else DataPackets(c, frames[..|frames| - 1]) + [DataPacket(c, |frames|, frames[|frames| - 1], 0)]
  }

  /** The data packet held back after `frames` have been transformed. */
  function Pending(c: Config, frames: seq<seq<byte>>, eos: int): Option<Packet>
    requires ValidRate(c.rate)
  {
    if |frames| == 0 then None else Some(DataPacket(c, |frames|, frames[|frames| - 1], eos))
  }

  /** What has been pushed after the frames have been transformed and before the flush. */
  function Emitted(c: Config, frames: seq<seq<byte>>): seq<Packet>
    requires ValidRate(c.rate)
  {
    if |frames| == 0 then []
    else [OpusHeadPacket(c, 0), OpusTagsPacket(1)] + DataPackets(c, frames[..|frames| - 1])
  }

  /** What has been pushed after the frames have been transformed and the stream flushed. */
  function Finished(c: Config, frames: seq<seq<byte>>): seq<Packet>
    requires ValidRate(c.rate)
  {
    if |frames| == 0 then []
    else Emitted(c, frames) + [Pending(c, frames, 1).value]
  }

  /**
   * Data packet i (from 0) is DataPacket(c, i + 1, ...): it carries frame i, granule
   * position (i + 1) * increment, and packetno i + 2 (its place after the two headers).
   */
  lemma {:induction false} DataPacketsAt(c: Config, frames: seq<seq<byte>>, i: nat)
    requires ValidRate(c.rate)
    requires i < |frames|
    ensures DataPackets(c, frames)[i] == DataPacket(c, i + 1, frames[i], 0)
  {
    var n := |frames| - 1;
    if i < n {
      DataPacketsAt(c, frames[..n], i);
    }
  }

  /**
   * The finished stream: OpusHead, OpusTags, then one data packet per frame in input
   * order; packet numbers run 0, 1, 2, ...; the granule position of data packet k is
   * k * frameSize * 48000 / rate; only the last packet is end-of-stream.
   * A flush with no frame pushes nothing.
   */
  lemma FinishedShape(c: Config, frames: seq<seq<byte>>)
    requires ValidRate(c.rate)
    ensures |frames| == 0 ==> Finished(c, frames) == []
    ensures |frames| > 0 ==> |Finished(c, frames)| == |frames| + 2
    ensures |frames| > 0 ==> Finished(c, frames)[0] == OpusHeadPacket(c, 0)
    ensures |frames| > 0 ==> Finished(c, frames)[1] == OpusTagsPacket(1)
    ensures forall k :: 2 <= k < |Finished(c, frames)| ==>
      Finished(c, frames)[k] == DataPacket(c, k - 1, frames[k - 2], if k == |frames| + 1 then 1 else 0)
  {
    forall k | 2 <= k < |Finished(c, frames)|
      ensures Finished(c, frames)[k] == DataPacket(c, k - 1, frames[k - 2], if k == |frames| + 1 then 1 else 0)
    {
      var n := |frames| - 1;
      if k - 2 < n {
        DataPacketsAt(c, frames[..n], k - 2);
      }
    }
  }

  /** Every packet's number is its position in the stream. */
  lemma PacketNumbersConsecutive(c: Config, frames: seq<seq<byte>>)
    requires ValidRate(c.rate)
    ensures forall i :: 0 <= i < |Finished(c, frames)| ==> Finished(c, frames)[i].packetno == i
  {
    FinishedShape(c, frames);
  }

  /**
   * The two header packets come first and only there: they are the packets that carry
   * a b_o_s value and granule position -1; OpusHead alone begins the stream.
   */
  lemma HeadersFirstAndOnce(c: Config, frames: seq<seq<byte>>)
    requires ValidRate(c.rate)
    ensures forall i :: 0 <= i < |Finished(c, frames)| ==>
      (Finished(c, frames)[i].bos.Some? <==> i < 2)
    ensures forall i :: 0 <= i < |Finished(c, frames)| ==>
      (Finished(c, frames)[i].bos == Some(1) <==> i == 0)
    ensures forall i :: 2 <= i < |Finished(c, frames)| ==> Finished(c, frames)[i].payload == frames[i - 2]
  {
    FinishedShape(c, frames);
  }

  /** Exactly the last packet of a finished stream is marked end-of-stream; all others carry 0. */
  lemma EndOfStreamOnlyLast(c: Config, frames: seq<seq<byte>>)
    requires ValidRate(c.rate)
    ensures forall i :: 0 <= i < |Finished(c, frames)| ==>
      Finished(c, frames)[i].eos == (if i == |Finished(c, frames)| - 1 then 1 else 0)
  {
    FinishedShape(c, frames);
  }

  /** With a positive frame size the data packets' granule positions strictly increase. */
  lemma GranuleIncreasing(c: Config, frames: seq<seq<byte>>, i: nat, j: nat)
    requires ValidConfig(c) && c.frameSize > 0
    requires 2 <= i < j < |Finished(c, frames)|
    ensures Finished(c, frames)[i].granulepos < Finished(c, frames)[j].granulepos
  {
    FinishedShape(c, frames);
    var inc := Increment(c);
    assert inc > 0 by {
      var m := c.frameSize * GRANULE_RATE;
      assert m > 0;
      assert m == inc * c.rate + m % c.rate;
      if inc <= 0 {
        MulNonPositive(inc, c.rate);
      }
    }
    MulStrict(i - 1, j - 1, inc);
    assert Finished(c, frames)[i].granulepos == (i - 1) * inc;
    assert Finished(c, frames)[j].granulepos == (j - 1) * inc;
  }

  lemma MulNonPositive(a: int, b: int)
    requires a <= 0 && b > 0
    ensures a * b <= 0
  {
  }

  lemma MulStrict(a: int, b: int, x: int)
    requires a < b && x > 0
    ensures a * x < b * x
  {
    assert b * x - a * x == (b - a) * x;
  }

  /**
   * Each transform only appends: the packets pushed so far stay a prefix. A transform
   * pushes the packet held back by the previous one (or the two headers, the first time).
   */
  lemma EmittedAppendOnly(c: Config, frames: seq<seq<byte>>, frame: seq<byte>)
    requires ValidRate(c.rate)
    ensures Emitted(c, frames + [frame]) ==
      if |frames| == 0 then [OpusHeadPacket(c, 0), OpusTagsPacket(1)]
      else Emitted(c, frames) + [Pending(c, frames, 0).value]
  {
  }

  /** Flush pushes exactly the held-back packet, now marked end-of-stream. */
  lemma FinishedExtendsEmitted(c: Config, frames: seq<seq<byte>>)
    requires ValidRate(c.rate)
    ensures |frames| > 0 ==> Finished(c, frames) == Emitted(c, frames) + [Pending(c, frames, 1).value]
    ensures |frames| > 0 ==> Pending(c, frames, 1).value == Pending(c, frames, 0).value.(eos := 1)
  {
  }

  /* ---------------- reading the headers back ---------------- */

  /** The fields of an identification header (section 5.1 of RFC 7845). */
  datatype OpusHead = OpusHead(version: int, channels: int, preSkip: int, inputRate: int, outputGain: int, mappingFamily: int)

  /** The fields of a comment header (section 5.2 of RFC 7845) and the bytes after the comment list. */
  datatype OpusTags = OpusTags(vendor: seq<byte>, comments: seq<seq<byte>>, extra: seq<byte>)

  /** Parses an identification header with channel mapping family 0 (19 bytes). */
  function ParseOpusHead(b: seq<byte>): Option<OpusHead>
  {
    if |b| < 19 || b[..8] != Ascii("OpusHead") then None
    else Some(OpusHead(b[8], b[9], ReadU16LE(b[10..12]), ReadU32LE(b[12..16]), ReadI16LE(b[16..18]), b[18]))
  }

  /** Parses `count` length-prefixed user comments, returning them and the bytes after them. */
  function ParseComments(b: seq<byte>, count: nat): Option<(seq<seq<byte>>, seq<byte>)>
    decreases count
  {
    if count == 0 then Some(([], b))
    else if |b| < 4 || |b| - 4 < ReadU32LE(b) then None
    else
      var len := ReadU32LE(b);
      match ParseComments(b[4 + len..], count - 1)
      case None => None
      case Some((rest, extra)) => Some(([b[4..4 + len]] + rest, extra))
  }

  /** Parses a comment header. */
  function ParseOpusTags(b: seq<byte>): Option<OpusTags>
  {
    if |b| < 12 || b[..8] != Ascii("OpusTags") || |b| - 12 < ReadU32LE(b[8..12]) then None
    else
      var vlen := ReadU32LE(b[8..12]);
      var afterVendor := b[12 + vlen..];
      if |afterVendor| < 4 then None
      else match ParseComments(afterVendor[4..], ReadU32LE(afterVendor))
        case None => None
        case Some((comments, extra)) => Some(OpusTags(b[12..12 + vlen], comments, extra))
  }

  /**
   * The identification header reads back as version 1, the channel count (as the byte
   * written), pre-skip 3840, the input rate, gain 0 and mapping family 0.
   */
  lemma OpusHeadRoundTrip(c: Config)
    requires ValidRate(c.rate)
    ensures ParseOpusHead(OpusHeadPayload(c)) == Some(OpusHead(1, c.channels % 256, PRE_SKIP, c.rate, 0, 0))
  {
  }

  /** The comment header reads back as vendor "node-opus", an empty comment list and the 0xff byte. */
  lemma OpusTagsRoundTrip()
    ensures ParseOpusTags(OpusTagsPayload()) == Some(OpusTags(Ascii(VENDOR), [], [0xff]))
  {
    var b := OpusTagsPayload();
    assert b[..8] == Ascii("OpusTags");
    assert b[8..12] == U32LE(9);
    U32LERoundTrip(9);
    assert b[12..21] == Ascii(VENDOR);
    assert b[21..] == U32LE(0) + [0xff];
    U32LERoundTrip(0);
  }

  /** Arithmetic helper: one more step of size x. */
  lemma MulSucc(n: int, x: int)
    ensures (n + 1) * x == n * x + x
  {
  }

  /* ---------------- the transform object ---------------- */

  /**
   * The Encoder transform. Its fields are those of the source object; `output` is the
   * sequence of records handed to `push`, `frames` (ghost) the encoded buffers given to
   * `_transform` so far and `flushed` (ghost) whether `_flush` has run.
   */
  class Encoder {
    const rate: int
    const channels: int
    const frameSize: int
    var headerWritten: bool
    var pos: int
    var granulepos: int
    var samplesWritten: int
    var lastPacket: Option<Packet>
    var output: seq<Packet>
    ghost var frames: seq<seq<byte>>
    ghost var flushed: bool

    function Cfg(): Config {
      Config(rate, channels, frameSize)
    }

    /** The fields agree with the packet sequence the frames so far determine. */
    ghost predicate Valid()
      reads this
    {
      && ValidConfig(Cfg())
      && headerWritten == (|frames| > 0)
      && pos == (if |frames| == 0 then 0 else |frames| + 2)
      && granulepos == |frames| * Increment(Cfg())
      && samplesWritten == |frames| * frameSize
      && lastPacket == Pending(Cfg(), frames, if flushed then 1 else 0)
      && output == (if flushed then Finished(Cfg(), frames) else Emitted(Cfg(), frames))
    }

    constructor (c: Config)
      requires ValidConfig(c)
      ensures Valid() && Cfg() == c
      ensures frames == [] && !flushed && output == []
    {
      rate, channels, frameSize := c.rate, c.channels, c.frameSize;
      headerWritten := false;
      pos, granulepos, samplesWritten := 0, 0, 0;
      lastPacket := None;
      output := [];
      frames, flushed := [], false;
    }

    /** `new Encoder(rate, channels, frameSize)`: a RangeError for an invalid rate. */
    static method Create(rate: Option<int>, channels: Option<int>, frameSize: Option<int>) returns (r: Result<Encoder, EncoderError>)
      ensures r.Failure? <==> !ValidRate(OrDefault(rate, DEFAULT_RATE))
      ensures r.Failure? ==> r == Failure(Configure(rate, channels, frameSize).error)
      ensures r.Success? ==> fresh(r.value) && r.value.Valid() && r.value.Cfg() == Configure(rate, channels, frameSize).value
      ensures r.Success? ==> r.value.frames == [] && !r.value.flushed && r.value.output == []
    {
      var c := Configure(rate, channels, frameSize);
      if c.Failure? {
        return Failure(c.error);
      }
      ExactFrameAlways(rate, frameSize);
      var e := new Encoder(c.value);
      return Success(e);
    }

    /** `this.push(packet)`: hands one record downstream. */
    method Push(p: Packet)
      modifies this`output
      ensures output == old(output) + [p]
    {
      output := output + [p];
    }

    /** `_transform`: consumes one encoded frame. */
    method Transform(buf: seq<byte>)
      requires Valid() && !flushed
      modifies this
      ensures Valid() && !flushed
      ensures frames == old(frames) + [buf]
      ensures output == Emitted(Cfg(), frames)
      ensures output == old(output) + (if |old(frames)| == 0 then [OpusHeadPacket(Cfg(), 0), OpusTagsPacket(1)] else [old(lastPacket).value])
      ensures lastPacket == Some(DataPacket(Cfg(), |frames|, buf, 0))
    {
      PushEncodedBuffer(buf);
    }

    /** `_writeHeader`: pushes OpusHead and OpusTags, numbering them from `pos`. */
    method WriteHeader()
      requires ValidRate(rate)
      modifies this`output, this`pos, this`headerWritten
      ensures output == old(output) + [OpusHeadPacket(Cfg(), old(pos)), OpusTagsPacket(old(pos) + 1)]
      ensures pos == old(pos) + 2 && headerWritten
    {
      var head := Packet(OpusHeadPayload(Cfg()), Some(1), 0, -1, pos, false);
      pos := pos + 1;
      Push(head);
      var tags := Packet(OpusTagsPayload(), Some(0), 0, -1, pos, true);
      pos := pos + 1;
      Push(tags);
      headerWritten := true;
    }

    /** `_pushEncodedBuffer`: pushes what was held back and holds the new data packet. */
    method PushEncodedBuffer(encoded: seq<byte>)
      requires Valid() && !flushed
      modifies this
      ensures Valid() && !flushed
      ensures frames == old(frames) + [encoded]
      ensures output == Emitted(Cfg(), frames)
      ensures output == old(output) + (if |old(frames)| == 0 then [OpusHeadPacket(Cfg(), 0), OpusTagsPacket(1)] else [old(lastPacket).value])
      ensures lastPacket == Some(DataPacket(Cfg(), |frames|, encoded, 0))
    {
      ghost var c, prior := Cfg(), frames;
      EmittedAppendOnly(c, prior, encoded);
      assert headerWritten == lastPacket.Some? == (|prior| > 0);
      if !headerWritten {
        WriteHeader();
        assert output == [OpusHeadPacket(c, 0), OpusTagsPacket(1)];
      }
      if lastPacket.Some? {
        Push(lastPacket.value);
      }
      assert output == Emitted(c, prior + [encoded]);
      MulSucc(|prior|, Increment(c));
      MulSucc(|prior|, frameSize);
      granulepos := granulepos + frameSize * GRANULE_RATE / rate;
      assert granulepos == (|prior| + 1) * Increment(c);
      samplesWritten := samplesWritten + frameSize;
      assert samplesWritten == (|prior| + 1) * frameSize;
      var packet := Packet(encoded, None, 0, granulepos, pos, true);
      assert packet == DataPacket(c, |prior| + 1, encoded, 0);
      pos := pos + 1;
      lastPacket := Some(packet);
      frames := frames + [encoded];
    }

    /** `_flush`: marks the held-back packet end-of-stream and pushes it. */
    method Flush()
      requires Valid() && !flushed
      modifies this
      ensures Valid() && flushed
      ensures frames == old(frames)
      ensures output == Finished(Cfg(), frames)
      ensures |frames| == 0 ==> output == old(output) == []
      ensures |frames| > 0 ==> output == old(output) + [old(lastPacket).value.(eos := 1)]
    {
      if lastPacket.Some? {
        lastPacket := Some(lastPacket.value.(eos := 1));
        Push(lastPacket.value);
      }
      flushed := true;
    }
  }
}
