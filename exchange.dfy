/** The protocol as pure functions over what the engine can observe: the
    transport's state, the 65-byte frame buffer and the event log. `Comm` is
    one command exchange, `ReceiveInfo` the info handshake and `Connect` the
    connection sequence; the Device methods are proved to follow them. */
module Exchange {
  import opened Wire
  import opened Transport

  /** The transport, the frame buffer and the signals emitted so far. */
  datatype Observed = Observed(link: Link, buf: seq<Byte>, events: seq<Event>)

  /** The value the next `write` will return (-1 once the script is spent). */
  function NextWriteRet(l: Link): int
  {
    if l.writeRets == [] then -1 else l.writeRets[0]
  }

  /** The frame a command goes out as: marker 0x00, the opcode, and whatever
      the buffer already holds after that (the argument bytes). */
  function CommandFrame(buf: seq<Byte>, command: Byte): (frame: seq<Byte>)
    requires |buf| >= 2
    ensures |frame| == |buf|
    ensures frame[0] == 0 && frame[1] == command
    ensures frame[2..] == buf[2..]
  {
    [0, command] + buf[2..]
  }

  /** One request/response exchange (Device::comm). */
  function Comm(s: Observed, command: Byte): (t: Observed)
    requires |s.buf| == MaxStr
    ensures |t.buf| == MaxStr && t.link.opens == s.link.opens
    // the event log is append-only
    ensures |t.events| >= |s.events| && t.events[..|s.events|] == s.events
    // not connected: one fatal, and no transport write or read
    ensures !s.link.open ==> t == s.(events := s.events + [Fatal(NotConnected)])
    // connected: exactly one write, of the whole buffer with marker and opcode in front
    ensures s.link.open ==> t.link.written == s.link.written + [CommandFrame(s.buf, command)]
    ensures s.link.open ==> |t.link.written[|s.link.written|]| == MaxStr
    // a read of 64 bytes follows exactly when the write did not return a negative value
    ensures s.link.open ==>
      t.link.requested == s.link.requested + (if NextWriteRet(s.link) < 0 then [] else [ReplySize])
    // the reply is accepted exactly when the write was not negative, the read
    // returned 64 and byte 0 of the reply is the acknowledgement
    ensures t.link.open <==>
      s.link.open && NextWriteRet(s.link) >= 0 && s.link.replies != [] &&
      s.link.replies[0].ret == ReplySize && t.buf[0] == Ack(command)
    ensures t.link.open ==> t.events == s.events
    // the buffer keeps the command frame when the write fails or no reply
    // arrives, and otherwise holds the reply over it, accepted or not
    ensures s.link.open && NextWriteRet(s.link) < 0 ==> t.buf == CommandFrame(s.buf, command)
    ensures s.link.open && NextWriteRet(s.link) >= 0 && s.link.replies == [] ==>
      t.buf == CommandFrame(s.buf, command)
    ensures s.link.open && NextWriteRet(s.link) >= 0 && s.link.replies != [] ==>
      t.buf == Overlay(CommandFrame(s.buf, command), s.link.replies[0].data, ReplySize)
    // any failure while connected closes the link, then raises exactly one fatal
    ensures s.link.open && !t.link.open ==>
      |t.events| == |s.events| + 2 && t.events[|s.events|] == Disconnected &&
      t.events[|s.events| + 1].Fatal? && t.events[|s.events| + 1].reason != NotConnected
  {
    if !s.link.open then
      s.(events := s.events + [Fatal(NotConnected)])
    else
      var frame := CommandFrame(s.buf, command);
      var w := WriteStep(s.link, frame);
      if w.ret < 0 then
        Observed(CloseStep(w.link), frame, s.events + [Disconnected, Fatal(WriteFailed(w.ret))])
      else
        var r := ReadStep(w.link, frame, ReplySize);
        if r.ret != ReplySize then
          Observed(CloseStep(r.link), r.buf, s.events + [Disconnected, Fatal(ReadFailed(r.ret))])
        else if r.buf[0] != Ack(command) then
          Observed(CloseStep(r.link), r.buf,
                   s.events + [Disconnected, Fatal(UnexpectedAnswer(Ack(command), r.buf[0], command))])
        else
          Observed(r.link, r.buf, s.events)
  }

  /** An exchange on an open link uses up one scripted write result, and one
      reply exactly when the write did not fail, so the next read gets the
      reply after it. */
  lemma CommUsesOneOfEach(s: Observed, command: Byte)
    requires |s.buf| == MaxStr && s.link.open
    ensures var t := Comm(s, command);
      t.link.writeRets == (if s.link.writeRets == [] then [] else s.link.writeRets[1..]) &&
      t.link.replies ==
        (if NextWriteRet(s.link) < 0 || s.link.replies == [] then s.link.replies else s.link.replies[1..])
  {
  }

  /** A failed exchange names the acknowledgement it expected and the byte it got. */
  lemma CommMismatchReport(s: Observed, command: Byte)
    requires |s.buf| == MaxStr && s.link.open
    requires NextWriteRet(s.link) >= 0 && s.link.replies != [] && s.link.replies[0].ret == ReplySize
    ensures var t := Comm(s, command);
      !t.link.open ==>
        t.events == s.events + [Disconnected, Fatal(UnexpectedAnswer(Ack(command), t.buf[0], command))] &&
        t.buf[0] != Ack(command)
  {
  }

  /** A write that returns any non-negative count, however short, passes. */
  lemma ShortWriteUndetected(s: Observed, command: Byte)
    requires |s.buf| == MaxStr && s.link.open
    requires s.link.writeRets != [] && 0 <= s.link.writeRets[0] < MaxStr
    requires s.link.replies != [] && s.link.replies[0].ret == ReplySize
    requires |s.link.replies[0].data| > 0 && s.link.replies[0].data[0] == Ack(command)
    ensures Comm(s, command).link.open && Comm(s, command).events == s.events
  {
  }

  /** The buffer of a SET_CONFIG command: the opcode in byte 1 and the whole
      configuration from byte 2 on (transmitConfig's encoder). */
  function ConfigFrame(buf: seq<Byte>, config: OsciConfig): (frame: seq<Byte>)
    requires |buf| == MaxStr
    ensures |frame| == MaxStr && frame[0] == buf[0] && frame[1] == OpSetConfig
    ensures frame[2..2 + ConfigSize] == EncodeConfig(config)
    ensures frame[2 + ConfigSize..] == buf[2 + ConfigSize..]
  {
    buf[..1] + [OpSetConfig] + EncodeConfig(config) + buf[2 + ConfigSize..]
  }

  /** While connected, a configuration setter writes exactly one frame, a
      SET_CONFIG frame from which the device recovers the full configuration. */
  lemma {:induction false} SetConfigCarriesConfig(s: Observed, config: OsciConfig)
    requires |s.buf| == MaxStr && s.link.open
    ensures var t := Comm(s.(buf := ConfigFrame(s.buf, config)), OpSetConfig);
      |t.link.written| == |s.link.written| + 1 &&
      t.link.written[..|s.link.written|] == s.link.written &&
      var frame := t.link.written[|s.link.written|];
      |frame| == MaxStr && frame[0] == 0 && frame[1] == OpSetConfig &&
      DecodeConfig(frame[2..2 + ConfigSize]) == config
  {
    var f := ConfigFrame(s.buf, config);
    var frame := CommandFrame(f, OpSetConfig);
    assert frame[2..2 + ConfigSize] == f[2..2 + ConfigSize] by {
      assert frame[2..] == f[2..];
    }
    ConfigRoundTrip(config);
  }

  /** The buffer of a block-capture command: opcode, input channel, test signal. */
  function SampleFrame(buf: seq<Byte>, ch: Byte, testSignal: Byte): (frame: seq<Byte>)
    requires |buf| == MaxStr
    ensures |frame| == MaxStr
    ensures frame[1] == OpSampleSingle && frame[2] == ch && frame[3] == testSignal
    ensures frame[0] == buf[0] && frame[4..] == buf[4..]
  {
    buf[..1] + [OpSampleSingle, ch, testSignal] + buf[4..]
  }

  /** Outcome of the handshake: what was observed and the info record stored. */
  datatype Handshake = Handshake(obs: Observed, info: DeviceInfo)

  /** Device::receiveInfo: a GET_INFO exchange, then the info record is taken
      from the buffer the exchange left, and its sizes checked. Neither step looks at whether
      the exchange succeeded, and a size mismatch raises a fatal without
      closing the link. */
  function ReceiveInfo(s: Observed): (h: Handshake)
    requires |s.buf| == MaxStr
    ensures h.obs.link == Comm(s, OpGetInfo).link && h.obs.buf == Comm(s, OpGetInfo).buf
    ensures |h.obs.buf| == MaxStr
    ensures h.info == DecodeInfo(h.obs.buf[1..1 + InfoSize])
    ensures h.obs.events ==
      Comm(s, OpGetInfo).events + (if SizesMatch(h.info) then [] else [Fatal(WrongConfigSize)])
  {
    var t := Comm(s, OpGetInfo);
    var info := DecodeInfo(t.buf[1..1 + InfoSize]);
    if SizesMatch(info) then Handshake(t, info)
    else Handshake(t.(events := t.events + [Fatal(WrongConfigSize)]), info)
  }

  /** Device::connect: open; if that worked, the handshake; if the link is
      still open after it, announce the device with its two strings. */
  function Connect(s: Observed, info: DeviceInfo, manufacturer: string, product: string): (h: Handshake)
    requires |s.buf| == MaxStr
    ensures |h.obs.buf| == MaxStr && |h.obs.events| >= |s.events| && h.obs.events[..|s.events|] == s.events
    // open fails: nothing is emitted, nothing is written, nothing is stored
    ensures !OpenStep(s.link).open ==>
      h == Handshake(s.(link := OpenStep(s.link)), info)
    // a Connected signal is emitted exactly when the link ends up open, and then it is the last one
    ensures h.obs.link.open <==> Connected(manufacturer, product) in h.obs.events[|s.events|..]
    ensures h.obs.link.open ==>
      h.obs.events == s.events + (if SizesMatch(h.info) then [] else [Fatal(WrongConfigSize)]) +
                      [Connected(manufacturer, product)]
    // an opened link runs the GET_INFO handshake: the stored record, the link
    // and the buffer are what ReceiveInfo leaves, and Connected follows exactly
    // when the handshake kept the link open
    ensures OpenStep(s.link).open ==>
      var r := ReceiveInfo(s.(link := OpenStep(s.link)));
      h.info == r.info && h.obs.link == r.obs.link && h.obs.buf == r.obs.buf &&
      h.obs.events == r.obs.events + (if r.obs.link.open then [Connected(manufacturer, product)] else [])
    // the handshake exchange failed: the link is closed and no Connected follows
    ensures OpenStep(s.link).open && !h.obs.link.open ==>
      var added := h.obs.events[|s.events|..];
      |added| >= 2 && added[0] == Disconnected && added[1].Fatal? &&
      added[2..] == (if SizesMatch(h.info) then [] else [Fatal(WrongConfigSize)])
  {
    var o := s.(link := OpenStep(s.link));
    if !o.link.open then Handshake(o, info)
    else
      var r := ReceiveInfo(o);
      if !r.obs.link.open then
        assert forall e :: e in r.obs.events[|s.events|..] ==> !e.Connected?;
        r
      else
        var events := r.obs.events + [Connected(manufacturer, product)];
        assert events[|s.events|..][|events| - |s.events| - 1] == Connected(manufacturer, product);
        Handshake(r.obs.(events := events), r.info)
  }

  /** The handshake can raise two fatals for one failure: a reply of 64 zero
      bytes fails the acknowledgement check, and the size check that follows
      reads the same zero bytes as the device-info record. */
  lemma {:induction false} FailedHandshakeRaisesTwoFatals(s: Observed, info: DeviceInfo, manufacturer: string, product: string)
    requires |s.buf| == MaxStr
    requires s.link.opens == [true] && s.link.writeRets == [MaxStr]
    requires s.link.replies == [Reply(ReplySize, seq(ReplySize, _ => 0))]
    ensures var h := Connect(s, info, manufacturer, product);
      !h.obs.link.open &&
      h.obs.events == s.events + [Disconnected, Fatal(UnexpectedAnswer(Ack(OpGetInfo), 0, OpGetInfo)), Fatal(WrongConfigSize)]
  {
  }
}
