/** The two sample decoders as functions from received frames to indexed
    samples. A sample is kept as its integer time index and its raw ADC byte;
    the plotted point is (timestretch * time, NormalizeSample(raw)). */
module Acquisition {
  import opened Wire
  import opened Transport
  import opened Exchange

  datatype Sample = Sample(time: int, raw: Byte)

  /** normalizeSample: the 8-bit ADC reading as a voltage-like value centred on 128. */
  function NormalizeSample(v: Byte): (r: real)
    ensures r == 0.0 <==> v == 128
    ensures r < 0.0 <==> v < 128
    ensures v == 0 ==> r == -2.05
    ensures -2.05 <= r < 2.05
  {
    2.05 * (v - 128) as real / 128.0
  }

  /** Distinct readings never normalise to the same value, and the order of readings is kept. */
  lemma NormalizeSampleMonotonic(a: Byte, b: Byte)
    requires a < b
    ensures NormalizeSample(a) < NormalizeSample(b)
  {
  }

  /** Frames read after the first: the link, the buffer and a copy of the 64
      decoded bytes of each continuation read. */
  datatype Capture = Capture(link: Link, buf: seq<Byte>, frames: seq<seq<Byte>>)

  /** `n` continuation reads of the whole 65-byte buffer, whatever each one
      returns; every frame decoded is the first 64 bytes of the buffer then. */
  function Continuations(l: Link, buf: seq<Byte>, n: nat): (c: Capture)
    requires |buf| == MaxStr
    ensures |c.frames| == n && |c.buf| == MaxStr
    ensures forall j :: 0 <= j < n ==> |c.frames[j]| == ReplySize
    ensures n > 0 ==> c.frames[n - 1] == c.buf[..ReplySize]
    ensures c.link.open == l.open && c.link.written == l.written && c.link.opens == l.opens
    ensures c.link.requested == l.requested + seq(n, _ => MaxStr)
  {
    if n == 0 then Capture(l, buf, [])
    else
      var prev := Continuations(l, buf, n - 1);
      var r := ReadStep(prev.link, prev.buf, MaxStr);
      Capture(r.link, r.buf, prev.frames + [r.buf[..ReplySize]])
  }

  /** While the script holds a reply of at least 64 bytes for every read,
      frame j is the front of the j-th reply and exactly n replies are used up. */
  lemma {:induction false} ContinuationsFullReplies(l: Link, buf: seq<Byte>, n: nat)
    requires |buf| == MaxStr && n <= |l.replies|
    requires forall j :: 0 <= j < n ==> |l.replies[j].data| >= ReplySize
    ensures var c := Continuations(l, buf, n);
      c.link.replies == l.replies[n..] &&
      forall j :: 0 <= j < n ==> c.frames[j] == l.replies[j].data[..ReplySize]
  {
    if n > 0 {
      ContinuationsFullReplies(l, buf, n - 1);
      var prev := Continuations(l, buf, n - 1);
      var c := Continuations(l, buf, n);
      assert prev.link.replies[0] == l.replies[n - 1];
      assert c.link.replies == prev.link.replies[1..] == l.replies[n..];
      var r := ReadStep(prev.link, prev.buf, MaxStr);
      assert c.frames[n - 1] == r.buf[..ReplySize];
      assert r.buf == Overlay(prev.buf, l.replies[n - 1].data, MaxStr);
    }
  }

  /** With the read script spent, every read fails and leaves the buffer as it
      was, so every frame repeats the bytes the buffer already held. */
  lemma {:induction false} ContinuationsSpentScript(l: Link, buf: seq<Byte>, n: nat)
    requires |buf| == MaxStr && l.replies == []
    ensures var c := Continuations(l, buf, n);
      c.link.replies == [] && c.buf == buf &&
      forall j :: 0 <= j < n ==> c.frames[j] == buf[..ReplySize]
  {
    if n > 0 {
      ContinuationsSpentScript(l, buf, n - 1);
    }
  }

  /** A capture command (SAMPLE_SINGLE or SAMPLE_INTERLEAVED) answered with
      full replies: when the exchange is accepted, the decoded reply is the
      front of the first reply, and continuation frame j is the front of
      reply j + 1. */
  lemma {:induction false} CaptureFramesAreLaterReplies(s: Observed, command: Byte, n: nat)
    requires |s.buf| == MaxStr && s.link.open && n < |s.link.replies|
    requires forall j :: 0 <= j <= n ==> |s.link.replies[j].data| >= ReplySize
    ensures var t := Comm(s, command);
      t.link.open ==>
        t.buf[..ReplySize] == s.link.replies[0].data[..ReplySize] &&
        var c := Continuations(t.link, t.buf, n);
        forall j :: 0 <= j < n ==> c.frames[j] == s.link.replies[j + 1].data[..ReplySize]
  {
    var t := Comm(s, command);
    if t.link.open {
      CommUsesOneOfEach(s, command);
      assert t.link.replies == s.link.replies[1..];
      ContinuationsFullReplies(t.link, t.buf, n);
    }
  }

  /** bufferCount - 1 continuation reads, none when the count is 0 or 1: the
      reply and the continuation frames together are bufferCount frames, or
      the reply alone when the count is 0. */
  function ContinuationCount(info: DeviceInfo): (n: nat)
    ensures info.bufferCount > 0 ==> 1 + n == info.bufferCount
    ensures info.bufferCount == 0 ==> n == 0
  {
    if info.bufferCount == 0 then 0 else info.bufferCount - 1
  }

  predicate FramesWellSized(first: seq<Byte>, frames: seq<seq<Byte>>)
  {
    |first| == ReplySize && forall j :: 0 <= j < |frames| ==> |frames[j]| == ReplySize
  }

  // ---------------------------------------------------------------------
  // getADCBlock: one channel, every byte a sample.

  /** The sample for byte `i` of frame `j` (frame 0 is the command's reply). */
  function BlockPoint(i: int, j: int, b: Byte): Sample
  {
    Sample(i + j * 64 - 1, b)
  }

  /** Bytes 1..63 of the command's reply (byte 0 is the acknowledgement). */
  function BlockFirstRow(first: seq<Byte>): (r: seq<Sample>)
    requires |first| == ReplySize
    ensures |r| == 63
  {
    seq(63, k requires 0 <= k < 63 => BlockPoint(k + 1, 0, first[k + 1]))
  }

  /** All 64 bytes of continuation frame `j`. */
  function BlockRow(frame: seq<Byte>, j: int): (r: seq<Sample>)
    requires |frame| == ReplySize
    ensures |r| == 64
  {
    seq(64, i requires 0 <= i < 64 => BlockPoint(i, j, frame[i]))
  }

  /** The samples getADCBlock appends, frame after frame. */
  function BlockSamples(first: seq<Byte>, frames: seq<seq<Byte>>): (r: seq<Sample>)
    requires FramesWellSized(first, frames)
    ensures |r| == 63 + 64 * |frames|
  {
    if frames == [] then BlockFirstRow(first)
    else BlockSamples(first, frames[..|frames| - 1]) + BlockRow(frames[|frames| - 1], |frames|)
  }

  /** The byte at `pos` of frame `j`, frame 0 being the command's reply. */
  function FrameByte(first: seq<Byte>, frames: seq<seq<Byte>>, j: nat, pos: nat): Byte
    requires FramesWellSized(first, frames)
    requires j <= |frames| && pos < ReplySize
  {
    if j == 0 then first[pos] else frames[j - 1][pos]
  }

  /** A block capture holds 63 + 64 * (frames) samples; sample k has time index
      k (no gaps, no repeats) and is byte (k + 1) % 64 of frame (k + 1) / 64. */
  lemma {:induction false} BlockSamplesLayout(first: seq<Byte>, frames: seq<seq<Byte>>)
    requires FramesWellSized(first, frames)
    ensures var r := BlockSamples(first, frames);
      |r| == 63 + 64 * |frames| &&
      forall k :: 0 <= k < |r| ==>
        r[k] == Sample(k, FrameByte(first, frames, (k + 1) / 64, (k + 1) % 64))
  {
    if frames != [] {
      var n := |frames|;
      var front := frames[..n - 1];
      BlockSamplesLayout(first, front);
      var r := BlockSamples(first, frames);
      var p := BlockSamples(first, front);
      assert r == p + BlockRow(frames[n - 1], n);
      forall k | 0 <= k < |r|
        ensures r[k] == Sample(k, FrameByte(first, frames, (k + 1) / 64, (k + 1) % 64))
      {
        if k < |p| {
          assert (k + 1) / 64 < n;
          assert FrameByte(first, front, (k + 1) / 64, (k + 1) % 64)
              == FrameByte(first, frames, (k + 1) / 64, (k + 1) % 64);
        } else {
          var i := k - |p|;
          assert k + 1 == n * 64 + i;
          assert (k + 1) / 64 == n && (k + 1) % 64 == i;
        }
      }
    }
  }

  // ---------------------------------------------------------------------
  // getADCInterleaved: even bytes to channel 1, odd bytes to channel 2.

  /** The reply's bytes 2..63 that belong to the channel of parity `p`. */
  function ChannelFirstRow(first: seq<Byte>, p: nat): (r: seq<Sample>)
    requires |first| == ReplySize && p < 2
    ensures |r| == 31
  {
    seq(31, m requires 0 <= m < 31 => Sample((2 * m + 2 + p) / 2 - 1, first[2 * m + 2 + p]))
  }

  /** The bytes of continuation frame `j` that belong to the channel of parity `p`. */
  function ChannelRow(frame: seq<Byte>, j: int, p: nat): (r: seq<Sample>)
    requires |frame| == ReplySize && p < 2
    ensures |r| == 32
  {
    seq(32, m requires 0 <= m < 32 => Sample((2 * m + p) / 2 + j * 32 - 2, frame[2 * m + p]))
  }

  /** The samples getADCInterleaved appends to one channel (p = 0: ch1, p = 1: ch2). */
  function ChannelSamples(first: seq<Byte>, frames: seq<seq<Byte>>, p: nat): (r: seq<Sample>)
    requires FramesWellSized(first, frames) && p < 2
    ensures |r| == 31 + 32 * |frames|
  {
    if frames == [] then ChannelFirstRow(first, p)
    else ChannelSamples(first, frames[..|frames| - 1], p) + ChannelRow(frames[|frames| - 1], |frames|, p)
  }

  /** Each channel holds 31 + 32 * (frames) samples. Sample k comes from byte
      2k + 2 + p of the reply when k < 31, and otherwise from byte
      2((k - 31) % 32) + p of continuation frame (k - 31) / 32. Its time index
      is k before 31 and k - 1 from 31 on: the first frame's formula and the
      continuation frames' formula disagree by one. */
  lemma {:induction false} ChannelSamplesLayout(first: seq<Byte>, frames: seq<seq<Byte>>, p: nat)
    requires FramesWellSized(first, frames) && p < 2
    ensures var r := ChannelSamples(first, frames, p);
      |r| == 31 + 32 * |frames| &&
      (forall k :: 0 <= k < 31 ==> r[k] == Sample(k, first[2 * k + 2 + p])) &&
      (forall k :: 31 <= k < |r| ==>
        r[k] == Sample(k - 1, frames[(k - 31) / 32][2 * ((k - 31) % 32) + p]))
  {
    var r := ChannelSamples(first, frames, p);
    if frames == [] {
      forall k | 0 <= k < 31 ensures r[k] == Sample(k, first[2 * k + 2 + p]) {
        assert (2 * k + 2 + p) / 2 == k + 1;
      }
    } else {
      var n := |frames|;
      var front := frames[..n - 1];
      ChannelSamplesLayout(first, front, p);
      var q := ChannelSamples(first, front, p);
      assert r == q + ChannelRow(frames[n - 1], n, p);
      forall k | 31 <= k < |r|
        ensures r[k] == Sample(k - 1, frames[(k - 31) / 32][2 * ((k - 31) % 32) + p])
      {
        if k < |q| {
          assert frames[(k - 31) / 32] == front[(k - 31) / 32];
        } else {
          var m := k - |q|;
          assert k - 31 == (n - 1) * 32 + m;
          assert (k - 31) / 32 == n - 1 && (k - 31) % 32 == m;
          assert (2 * m + p) / 2 == m;
        }
      }
    }
  }

  /** Time indices within a channel never decrease; they rise by one at every
      step except the step from the reply to the first continuation frame,
      where index 30 is repeated. */
  lemma {:induction false} ChannelTimesNondecreasing(first: seq<Byte>, frames: seq<seq<Byte>>, p: nat)
    requires FramesWellSized(first, frames) && p < 2
    ensures var r := ChannelSamples(first, frames, p);
      (forall k :: 0 < k < |r| ==> r[k].time == r[k - 1].time + (if k == 31 then 0 else 1)) &&
      (frames != [] ==> r[30].time == 30 && r[31].time == 30)
  {
    ChannelSamplesLayout(first, frames, p);
  }

  /** Channel 1 takes the even byte positions and channel 2 the odd ones, and
      both channels carry the same time indices, sample for sample. */
  lemma {:induction false} ChannelsShareTimes(first: seq<Byte>, frames: seq<seq<Byte>>)
    requires FramesWellSized(first, frames)
    ensures var ch1 := ChannelSamples(first, frames, 0);
      var ch2 := ChannelSamples(first, frames, 1);
      |ch1| == |ch2| && forall k :: 0 <= k < |ch1| ==> ch1[k].time == ch2[k].time
  {
    ChannelSamplesLayout(first, frames, 0);
    ChannelSamplesLayout(first, frames, 1);
  }

  /** The two channels together hold 62 samples for the reply (its bytes
      2..63) and 64 for each continuation frame, one sample fewer than a block
      capture of the same frames. */
  lemma {:induction false} InterleavedCoversFrames(first: seq<Byte>, frames: seq<seq<Byte>>)
    requires FramesWellSized(first, frames)
    ensures |ChannelSamples(first, frames, 0)| + |ChannelSamples(first, frames, 1)| == 62 + 64 * |frames|
    ensures |BlockSamples(first, frames)| == |ChannelSamples(first, frames, 0)| + |ChannelSamples(first, frames, 1)| + 1
  {
  }
}
