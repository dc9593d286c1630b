/** The Device class: the host-side engine of the oscilloscope. It owns a
    transport handle, the 65-byte frame buffer shared by every exchange, the
    configuration mirror, the device-info record, the calibration tables and
    the log of the signals it has emitted. Every method that exchanges frames
    with the device is proved to do what the protocol functions of module
    Exchange and the decoders of module Acquisition say; the constructor,
    DisConnect, SetTestSignal and SelectHardwareImplementation state their
    new state directly, in terms of the transport steps. */
module Osci {
  import opened Wire
  import opened Transport
  import opened Exchange
  import opened Acquisition
  import opened Calibration

  class Device {
    /** The transport handle (`device`); replaced by SelectHardwareImplementation. */
    var hw: Hardware
    /** `buf[MAX_STR]`: holds each outgoing command and each incoming reply. */
    const buf: array<Byte>
    var config: OsciConfig
    var deviceInfo: DeviceInfo
    /** `dummy`: the test-signal selector sent with each block capture. */
    var testSignal: Byte
    /** `delay_cal[Tdiv_LAST + 1]`, `gain_ch1_cal[Vdiv_LAST + 1]`, `gain_ch2_cal[Vdiv_LAST + 1]`. */
    const delayCal: array<U16>
    const gainCh1Cal: array<U16>
    const gainCh2Cal: array<U16>
    /** The `connected`, `disconnected` and `fatal` signals, in emission order. */
    var events: seq<Event>

    /** The frame buffer has MAX_STR bytes and the calibration tables hold
        the leading entries of the literal tables, both gain tables alike. */
    ghost predicate Valid()
      reads this, delayCal, gainCh1Cal, gainCh2Cal
    {
      buf.Length == MaxStr &&
      0 < delayCal.Length <= |Delays| && delayCal[..] == Delays[..delayCal.Length] &&
      0 < gainCh1Cal.Length <= |DacVals| && gainCh1Cal[..] == DacVals[..gainCh1Cal.Length] &&
      gainCh2Cal[..] == gainCh1Cal[..]
    }

    /** What the engine's surroundings can see: the transport, the buffer, the signals. */
    ghost function Observe(): Observed
      reads this, hw, buf
    {
      Observed(hw.State(), buf[..], events)
    }

    /** isConnected: exactly whether the transport is open. */
    predicate IsConnected()
      reads this, hw
      ensures IsConnected() <==> hw.State().open
    {
      hw.open
    }

    /** getTriggerSource: the trigger channel of the configuration mirror. */
    function GetTriggerSource(): (source: Byte)
      reads this
      ensures source == config.triggerChannel
    {
      config.triggerChannel
    }

    /** The constructor: the calibration tables are filled from the literal
        tables up to Tdiv_LAST and Vdiv_LAST, which must lie inside them.
        `hw0` is the new, still closed handle AbstractHardware::create(Impl_Real)
        returned and `initConfig` what InitOsciConfig produces; the buffer
        starts zeroed. The engine starts disconnected: only `connect` opens. */
    constructor (hw0: Hardware, initConfig: OsciConfig, tdivLast: nat, vdivLast: nat)
      requires hw0.impl == ImplReal && !hw0.open
      requires tdivLast < |Delays| && vdivLast < |DacVals|
      ensures Valid() && fresh(buf) && fresh(delayCal) && fresh(gainCh1Cal) && fresh(gainCh2Cal)
      ensures delayCal.Length == tdivLast + 1 && gainCh1Cal.Length == vdivLast + 1
      ensures hw == hw0 && config == initConfig && testSignal == TestSignalTri && events == []
      ensures !IsConnected()
      ensures buf[..] == seq(MaxStr, _ => 0)
    {
      var g1 := new U16[vdivLast + 1];
      for i := 0 to vdivLast + 1
        modifies g1
        invariant forall k :: 0 <= k < i ==> g1[k] == DacVals[k]
      {
        g1[i] := DacVals[i];
      }
      var g2 := new U16[vdivLast + 1];
      for i := 0 to vdivLast + 1
        modifies g2
        invariant forall k :: 0 <= k < i ==> g2[k] == DacVals[k]
      {
        g2[i] := DacVals[i];
      }
      var d := new U16[tdivLast + 1];
      for i := 0 to tdivLast + 1
        modifies d
        invariant forall k :: 0 <= k < i ==> d[k] == Delays[k]
      {
        d[i] := Delays[i];
      }
      hw := hw0;
      buf := new Byte[MaxStr](_ => 0);
      config := initConfig;
      deviceInfo := DeviceInfo(0, 0, 0, 0);
      testSignal := TestSignalTri;
      delayCal, gainCh1Cal, gainCh2Cal := d, g1, g2;
      events := [];
      assert g1[..] == DacVals[..vdivLast + 1];
      assert g2[..] == DacVals[..vdivLast + 1];
      assert d[..] == Delays[..tdivLast + 1];
    }

    /** selectHardwareImplementation: nothing happens when the backend is
        already the requested one; otherwise an open handle is disconnected
        and the handle is replaced by `created`, the new, still closed handle
        AbstractHardware::create(impl) returned; the engine is then
        disconnected until the next `connect`. */
    method SelectHardwareImplementation(impl: Impl, created: Hardware)
      requires created.impl == impl && !created.open
      modifies this`hw, this`events, hw
      ensures impl == old(hw.impl) ==> hw == old(hw) && unchanged(hw) && events == old(events)
      ensures impl != old(hw.impl) ==> hw == created && hw.State() == old(created.State()) && !IsConnected()
      ensures impl != old(hw.impl) ==>
        old(hw).State() == (if old(hw.open) then CloseStep(old(hw.State())) else old(hw.State())) &&
        events == old(events) + (if old(hw.open) then [Disconnected] else [])
    {
      if impl == hw.impl {
        return;
      }
      if hw.open {
        DisConnect();
      }
      hw := created;
    }

    /** refresh: a ping while connected, nothing otherwise (no reconnect). */
    method Refresh()
      requires Valid()
      modifies this`events, hw, buf
      ensures Valid()
      ensures Observe() == if old(hw.open) then Exchange.Comm(old(Observe()), OpPing) else old(Observe())
    {
      if IsConnected() {
        Ping();
      }
    }

    /** connect: open, handshake, and announce the device if still connected. */
    method Connect()
      requires Valid()
      modifies this`events, this`deviceInfo, hw, buf
      ensures Valid()
      ensures Handshake(Observe(), deviceInfo) ==
        Exchange.Connect(old(Observe()), old(deviceInfo), hw.manufacturer, hw.product)
    {
      hw.Open();
      if !IsConnected() {
        return;
      }
      ReceiveInfo();
      if !IsConnected() {
        return;
      }
      events := events + [Connected(hw.manufacturer, hw.product)];
    }

    /** disConnect: close the transport and signal it, whatever the state. */
    method DisConnect()
      modifies this`events, hw
      ensures hw.State() == CloseStep(old(hw.State()))
      ensures events == old(events) + [Disconnected]
    {
      hw.Close();
      events := events + [Disconnected];
    }

    method SetTestSignal(signal: Byte)
      modifies this`testSignal
      ensures testSignal == signal
    {
      testSignal := signal;
    }

    /** comm: one exchange of the command already laid out in the buffer. */
    method Comm(command: Byte)
      requires Valid()
      modifies this`events, hw, buf
      ensures Valid()
      ensures Observe() == Exchange.Comm(old(Observe()), command)
    {
      ghost var s := Observe();
      if !IsConnected() {
        events := events + [Fatal(NotConnected)];
        return;
      }
      buf[0] := 0;
      buf[1] := command;
      ghost var frame := CommandFrame(s.buf, command);
      assert buf[..] == frame;
      ghost var w := WriteStep(s.link, frame);
      var n := hw.Write(buf, buf.Length);
      assert hw.State() == w.link && n == w.ret by {
        assert buf[..buf.Length] == frame;
      }
      if n < 0 {
        DisConnect();
        events := events + [Fatal(WriteFailed(n))];
        assert Observe() == Observed(CloseStep(w.link), frame, s.events + [Disconnected, Fatal(WriteFailed(w.ret))]);
        return;
      }
      ghost var r := ReadStep(w.link, frame, ReplySize);
      n := hw.Read(buf, ReplySize);
      assert hw.State() == r.link && buf[..] == r.buf && n == r.ret;
      if n != ReplySize {
        DisConnect();
        events := events + [Fatal(ReadFailed(n))];
        assert Observe() == Observed(CloseStep(r.link), r.buf, s.events + [Disconnected, Fatal(ReadFailed(r.ret))]);
        return;
      }
      var check := Ack(command);
      if buf[0] != check {
        DisConnect();
        events := events + [Fatal(UnexpectedAnswer(check, buf[0], command))];
        assert Observe() == Observed(CloseStep(r.link), r.buf,
          s.events + [Disconnected, Fatal(UnexpectedAnswer(Ack(command), r.buf[0], command))]);
        return;
      }
    }

    method Ping()
      requires Valid()
      modifies this`events, hw, buf
      ensures Valid()
      ensures Observe() == Exchange.Comm(old(Observe()), OpPing)
    {
      Comm(OpPing);
    }

    /** setVdiv_Ch1: channel 1's gain becomes the DAC code of the step. */
    method SetVdivCh1(vdiv: nat)
      requires Valid() && vdiv < gainCh1Cal.Length
      modifies this`config, this`events, hw, buf
      ensures Valid()
      ensures config == old(config).(gainCh1 := DacVals[vdiv])
      ensures Observe() == Exchange.Comm(old(Observe()).(buf := ConfigFrame(old(buf[..]), config)), OpSetConfig)
    {
      config := config.(gainCh1 := gainCh1Cal[vdiv]);
      TransmitConfig();
    }

    /** setVdiv_Ch2: channel 2's gain becomes the DAC code of the step. */
    method SetVdivCh2(vdiv: nat)
      requires Valid() && vdiv < gainCh2Cal.Length
      modifies this`config, this`events, hw, buf
      ensures Valid()
      ensures config == old(config).(gainCh2 := DacVals[vdiv])
      ensures Observe() == Exchange.Comm(old(Observe()).(buf := ConfigFrame(old(buf[..]), config)), OpSetConfig)
    {
      config := config.(gainCh2 := gainCh2Cal[vdiv]);
      TransmitConfig();
    }

    /** setTdiv: the sample delay becomes the delay code of the step. */
    method SetTdiv(tdiv: nat)
      requires Valid() && tdiv < delayCal.Length
      modifies this`config, this`events, hw, buf
      ensures Valid()
      ensures config == old(config).(sampleDelay := Delays[tdiv])
      ensures Observe() == Exchange.Comm(old(Observe()).(buf := ConfigFrame(old(buf[..]), config)), OpSetConfig)
    {
      var delay := delayCal[tdiv];
      SetDelay(delay);
    }

    method SetDelay(delay: U16)
      requires Valid()
      modifies this`config, this`events, hw, buf
      ensures Valid()
      ensures config == old(config).(sampleDelay := delay)
      ensures Observe() == Exchange.Comm(old(Observe()).(buf := ConfigFrame(old(buf[..]), config)), OpSetConfig)
    {
      config := config.(sampleDelay := delay);
      TransmitConfig();
    }

    method SetTriggerLevel(level: U16)
      requires Valid()
      modifies this`config, this`events, hw, buf
      ensures Valid()
      ensures config == old(config).(triggerLevel := level)
      ensures Observe() == Exchange.Comm(old(Observe()).(buf := ConfigFrame(old(buf[..]), config)), OpSetConfig)
    {
      config := config.(triggerLevel := level);
      TransmitConfig();
    }

    method SetACDCCh1(coupling: Byte)
      requires Valid()
      modifies this`config, this`events, hw, buf
      ensures Valid()
      ensures config == old(config).(acdcCh1 := coupling)
      ensures Observe() == Exchange.Comm(old(Observe()).(buf := ConfigFrame(old(buf[..]), config)), OpSetConfig)
    {
      config := config.(acdcCh1 := coupling);
      TransmitConfig();
    }

    method SetACDCCh2(coupling: Byte)
      requires Valid()
      modifies this`config, this`events, hw, buf
      ensures Valid()
      ensures config == old(config).(acdcCh2 := coupling)
      ensures Observe() == Exchange.Comm(old(Observe()).(buf := ConfigFrame(old(buf[..]), config)), OpSetConfig)
    {
      config := config.(acdcCh2 := coupling);
      TransmitConfig();
    }

    /** selectTriggerSource: afterwards getTriggerSource answers `source`. */
    method SelectTriggerSource(source: Byte)
      requires Valid()
      modifies this`config, this`events, hw, buf
      ensures Valid()
      ensures config == old(config).(triggerChannel := source) && GetTriggerSource() == source
      ensures Observe() == Exchange.Comm(old(Observe()).(buf := ConfigFrame(old(buf[..]), config)), OpSetConfig)
    {
      config := config.(triggerChannel := source);
      TransmitConfig();
    }

    method SelectTriggerMode(mode: Byte)
      requires Valid()
      modifies this`config, this`events, hw, buf
      ensures Valid()
      ensures config == old(config).(triggerMode := mode)
      ensures Observe() == Exchange.Comm(old(Observe()).(buf := ConfigFrame(old(buf[..]), config)), OpSetConfig)
    {
      config := config.(triggerMode := mode);
      TransmitConfig();
    }

    /** transmitConfig: lay the whole configuration into the buffer behind the
        SET_CONFIG opcode and exchange it. */
    method TransmitConfig()
      requires Valid()
      modifies this`events, hw, buf
      ensures Valid()
      ensures Observe() == Exchange.Comm(old(Observe()).(buf := ConfigFrame(old(buf[..]), config)), OpSetConfig)
    {
      var bytes := EncodeConfig(config);
      buf[1] := OpSetConfig;
      forall i | 0 <= i < ConfigSize {
        buf[2 + i] := bytes[i];
      }
      assert buf[..] == ConfigFrame(old(buf[..]), config);
      Comm(OpSetConfig);
    }

    /** receiveInfo: the GET_INFO exchange and the size check of its answer. */
    method ReceiveInfo()
      requires Valid()
      modifies this`events, this`deviceInfo, hw, buf
      ensures Valid()
      ensures Handshake(Observe(), deviceInfo) == Exchange.ReceiveInfo(old(Observe()))
    {
      Comm(OpGetInfo);
      deviceInfo := DecodeInfo(buf[1..1 + InfoSize]);
      if !SizesMatch(deviceInfo) {
        events := events + [Fatal(WrongConfigSize)];
      }
    }

    /** getADCSingle: one READ_SINGLE exchange, then byte 1 of the buffer
        normalised, whether or not the exchange succeeded. */
    method GetADCSingle() returns (v: real)
      requires Valid()
      modifies this`events, hw, buf
      ensures Valid()
      ensures Observe() == Exchange.Comm(old(Observe()), OpReadSingle)
      ensures v == NormalizeSample(buf[1])
    {
      Comm(OpReadSingle);
      v := NormalizeSample(buf[1]);
    }

    /** getADCBlock: a SAMPLE_SINGLE exchange for channel `ch`; if the link
        survived, the reply's bytes 1..63 and then bufferCount - 1 further
        frames of 64 bytes, read whatever each read returns. */
    method GetADCBlock(ch: Byte) returns (result: seq<Sample>)
      requires Valid()
      modifies this`events, hw, buf
      ensures Valid()
      ensures var s := Exchange.Comm(old(Observe()).(buf := SampleFrame(old(buf[..]), ch, testSignal)), OpSampleSingle);
        if !s.link.open then result == [] && Observe() == s
        else
          var c := Continuations(s.link, s.buf, ContinuationCount(deviceInfo));
          result == BlockSamples(s.buf[..ReplySize], c.frames) && Observe() == Observed(c.link, c.buf, s.events)
    {
      buf[1] := OpSampleSingle;
      buf[2] := ch;
      buf[3] := testSignal;
      assert buf[..] == SampleFrame(old(buf[..]), ch, testSignal);
      Comm(OpSampleSingle);
      result := [];
      if !IsConnected() {
        return;
      }
      ghost var s := Observe();
      ghost var first := buf[..ReplySize];
      result := DecodeBlockFirst();
      ghost var frames: seq<seq<Byte>> := [];
      var j := 1;
      while j < deviceInfo.bufferCount
        invariant 1 <= j && (j <= deviceInfo.bufferCount || j == 1)
        invariant FramesWellSized(first, frames) && |frames| == j - 1
        invariant Continuations(s.link, s.buf, j - 1) == Capture(hw.State(), buf[..], frames)
        invariant result == BlockSamples(first, frames)
        invariant events == s.events
      {
        var ignored := hw.Read(buf, buf.Length);
        frames := frames + [buf[..ReplySize]];
        assert frames[..|frames| - 1] == frames[..j - 1];
        result := DecodeBlockFrame(j, result);
        j := j + 1;
      }
    }

    /** The first loop of getADCBlock: bytes 1..63 of the reply, byte i at time i - 1. */
    method DecodeBlockFirst() returns (result: seq<Sample>)
      requires Valid()
      ensures result == BlockFirstRow(buf[..ReplySize])
    {
      result := [];
      for i := 1 to 64
        invariant result == BlockFirstRow(buf[..ReplySize])[..i - 1]
      {
        result := result + [Sample(i - 1, buf[i])];
      }
    }

    /** The inner loop of getADCBlock for continuation frame j: byte i at time i + 64j - 1. */
    method DecodeBlockFrame(j: int, acc: seq<Sample>) returns (result: seq<Sample>)
      requires Valid()
      ensures result == acc + BlockRow(buf[..ReplySize], j)
    {
      result := acc;
      for i := 0 to 64
        invariant result == acc + BlockRow(buf[..ReplySize], j)[..i]
      {
        result := result + [Sample(i + j * 64 - 1, buf[i])];
      }
    }

    /** getADCInterleaved: a SAMPLE_INTERLEAVED exchange; if the link did not
        survive, the two output sequences are returned as they came in.
        Otherwise both are rebuilt: even byte positions to channel 1, odd ones
        to channel 2, from byte 2 of the reply on, then bufferCount - 1
        further frames read whatever each read returns. */
    method GetADCInterleaved(ch1In: seq<Sample>, ch2In: seq<Sample>) returns (ch1: seq<Sample>, ch2: seq<Sample>)
      requires Valid()
      modifies this`events, hw, buf
      ensures Valid()
      ensures var s := Exchange.Comm(old(Observe()), OpSampleInterleaved);
        if !s.link.open then ch1 == ch1In && ch2 == ch2In && Observe() == s
        else
          var c := Continuations(s.link, s.buf, ContinuationCount(deviceInfo));
          ch1 == ChannelSamples(s.buf[..ReplySize], c.frames, 0) &&
          ch2 == ChannelSamples(s.buf[..ReplySize], c.frames, 1) &&
          Observe() == Observed(c.link, c.buf, s.events)
    {
      ch1, ch2 := ch1In, ch2In;
      Comm(OpSampleInterleaved);
      if !IsConnected() {
        return;
      }
      ghost var s := Observe();
      ghost var first := buf[..ReplySize];
      ch1, ch2 := DecodeInterleavedFirst();
      ghost var frames: seq<seq<Byte>> := [];
      var j := 1;
      while j < deviceInfo.bufferCount
        invariant 1 <= j && (j <= deviceInfo.bufferCount || j == 1)
        invariant FramesWellSized(first, frames) && |frames| == j - 1
        invariant Continuations(s.link, s.buf, j - 1) == Capture(hw.State(), buf[..], frames)
        invariant ch1 == ChannelSamples(first, frames, 0)
        invariant ch2 == ChannelSamples(first, frames, 1)
        invariant events == s.events
      {
        var ignored := hw.Read(buf, buf.Length);
        frames := frames + [buf[..ReplySize]];
        assert frames[..|frames| - 1] == frames[..j - 1];
        ch1, ch2 := DecodeInterleavedFrame(j, ch1, ch2);
        j := j + 1;
      }
    }

    /** The first loop of getADCInterleaved: bytes 2..63 of the reply, byte i
        at time i / 2 - 1, even positions to channel 1 and odd ones to channel 2. */
    method DecodeInterleavedFirst() returns (ch1: seq<Sample>, ch2: seq<Sample>)
      requires Valid()
      ensures ch1 == ChannelFirstRow(buf[..ReplySize], 0)
      ensures ch2 == ChannelFirstRow(buf[..ReplySize], 1)
    {
      ch1, ch2 := [], [];
      for i := 2 to 64
        invariant ch1 == ChannelFirstRow(buf[..ReplySize], 0)[..(i - 1) / 2]
        invariant ch2 == ChannelFirstRow(buf[..ReplySize], 1)[..(i - 2) / 2]
      {
        var point := Sample(i / 2 - 1, buf[i]);
        if i % 2 == 1 {
          ch2 := ch2 + [point];
        } else {
          ch1 := ch1 + [point];
        }
      }
    }

    /** The inner loop of getADCInterleaved for continuation frame j: byte i at
        time i / 2 + 32j - 2, even positions to channel 1 and odd ones to channel 2. */
    method DecodeInterleavedFrame(j: int, acc1: seq<Sample>, acc2: seq<Sample>) returns (ch1: seq<Sample>, ch2: seq<Sample>)
      requires Valid()
      ensures ch1 == acc1 + ChannelRow(buf[..ReplySize], j, 0)
      ensures ch2 == acc2 + ChannelRow(buf[..ReplySize], j, 1)
    {
      ch1, ch2 := acc1, acc2;
      for i := 0 to 64
        invariant ch1 == acc1 + ChannelRow(buf[..ReplySize], j, 0)[..(i + 1) / 2]
        invariant ch2 == acc2 + ChannelRow(buf[..ReplySize], j, 1)[..i / 2]
      {
        var point := Sample(i / 2 + j * 32 - 2, buf[i]);
        if i % 2 == 1 {
          ch2 := ch2 + [point];
        } else {
          ch1 := ch1 + [point];
        }
      }
    }
  }

  /** The label tables cover more steps than the calibration tables: every
      time/div step SetTdiv accepts has its delay code and a label, but
      with 11 time/div labels against 8 delay codes the steps from 8 on can
      be labelled and never set. Every settable volt/div step has a label. */
  lemma SettableStepsHaveLabels(d: Device)
    requires d.Valid()
    ensures d.delayCal.Length <= |Delays| < |TdivLabels|
    ensures forall t :: 0 <= t < d.delayCal.Length ==> d.delayCal[t] == Delays[t]
    ensures d.gainCh1Cal.Length == d.gainCh2Cal.Length <= |VdivLabels|
  {
  }
}
