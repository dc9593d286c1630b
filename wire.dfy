/** Wire-level vocabulary of the SampleScope protocol: bytes, the frame sizes,
    the opcodes, the configuration and device-info records with their packed
    form, and the events the engine reports to its observers. */
module Wire {

  type Byte = b: int | 0 <= b < 256
  type U16 = w: int | 0 <= w < 0x1_0000

  /** MAX_STR: length of the engine's frame buffer; a command write sends all of it. */
  const MaxStr: nat := 65
  /** Length of the reply read back in every command exchange. */
  const ReplySize: nat := 64

  // The opcode numbers, the enumerator TestSignal_Tri and the record layouts
  // are declared in shared/common.h, which is not part of this model. The
  // values below are stand-ins. Most results hold for any distinct bytes; the
  // failed-handshake example of module Exchange needs GET_INFO not to be 255,
  // so that its acknowledgement is not 0.
  const OpPing: Byte := 1
  const OpGetInfo: Byte := 2
  const OpSetConfig: Byte := 3
  const OpReadSingle: Byte := 4
  const OpSampleSingle: Byte := 5
  const OpSampleInterleaved: Byte := 6
  const TestSignalTri: Byte := 0

  /** The acknowledgement a reply must carry in byte 0: the opcode plus one,
      computed in `unsigned char`, so 255 acknowledges with 0. */
  function Ack(command: Byte): (a: Byte)
    ensures a != command
    ensures command < 255 ==> a == command + 1
    ensures command == 255 ==> a == 0
  {
    (command + 1) % 256
  }

  /** osci_config_t: the engine's mirror of the device configuration. */
  datatype OsciConfig = OsciConfig(
    gainCh1: U16,
    gainCh2: U16,
    sampleDelay: U16,
    triggerLevel: U16,
    triggerChannel: Byte,
    triggerMode: Byte,
    acdcCh1: Byte,
    acdcCh2: Byte)

  /** device_info_t: what the device reports in answer to OP_GET_INFO. */
  datatype DeviceInfo = DeviceInfo(
    sizeInfo: Byte,
    sizeConfig: Byte,
    bufferCount: Byte,
    bufferSize: Byte)

  /** sizeof(osci_config_t) and sizeof(device_info_t) for the packing below. */
  const ConfigSize: nat := 12
  const InfoSize: nat := 4

  function LowByte(w: U16): Byte { w % 256 }
  function HighByte(w: U16): Byte { w / 256 }
  function Word(lo: Byte, hi: Byte): U16 { lo + 256 * hi }

  /** The bytes of a configuration as they are copied into a SET_CONFIG
      frame: the fields in declaration order, 16-bit fields little-endian. */
  function EncodeConfig(c: OsciConfig): (bytes: seq<Byte>)
    ensures |bytes| == ConfigSize
  {
    [LowByte(c.gainCh1), HighByte(c.gainCh1),
     LowByte(c.gainCh2), HighByte(c.gainCh2),
     LowByte(c.sampleDelay), HighByte(c.sampleDelay),
     LowByte(c.triggerLevel), HighByte(c.triggerLevel),
     c.triggerChannel, c.triggerMode, c.acdcCh1, c.acdcCh2]
  }

  /** The configuration the device reads back out of a SET_CONFIG payload. */
  function DecodeConfig(bytes: seq<Byte>): OsciConfig
    requires |bytes| >= ConfigSize
  {
    OsciConfig(
      Word(bytes[0], bytes[1]), Word(bytes[2], bytes[3]),
      Word(bytes[4], bytes[5]), Word(bytes[6], bytes[7]),
      bytes[8], bytes[9], bytes[10], bytes[11])
  }

  /** The payload of a SET_CONFIG frame determines the whole configuration. */
  lemma ConfigRoundTrip(c: OsciConfig)
    ensures DecodeConfig(EncodeConfig(c)) == c
  {
  }

  /** Two configurations that travel as the same bytes are the same configuration. */
  lemma {:induction false} EncodeConfigInjective(c: OsciConfig, d: OsciConfig)
    requires EncodeConfig(c) == EncodeConfig(d)
    ensures c == d
  {
    ConfigRoundTrip(c);
    ConfigRoundTrip(d);
  }

  /** The device-info record as it lies in a reply, after the acknowledgement byte. */
  function DecodeInfo(payload: seq<Byte>): (info: DeviceInfo)
    requires |payload| >= InfoSize
    ensures info.bufferCount == payload[2] && info.bufferSize == payload[3]
  {
    DeviceInfo(payload[0], payload[1], payload[2], payload[3])
  }

  /** The handshake check of receiveInfo: the device's info record has the
      engine's size, and the device takes exactly as many configuration bytes
      as the engine sends. */
  predicate SizesMatch(info: DeviceInfo)
    ensures SizesMatch(info) <==>
      info.sizeInfo == InfoSize && forall c :: |EncodeConfig(c)| == info.sizeConfig
  {
    assert |EncodeConfig(OsciConfig(0, 0, 0, 0, 0, 0, 0, 0))| == ConfigSize;
    info.sizeInfo == InfoSize && info.sizeConfig == ConfigSize
  }

  /** Why a `fatal` signal was raised. */
  datatype FatalReason =
    | NotConnected
    | WriteFailed(ret: int)
    | ReadFailed(ret: int)
    | UnexpectedAnswer(expected: Byte, received: Byte, command: Byte)
    | WrongConfigSize

  /** The three signals of the engine, in the order they are emitted. */
  datatype Event =
    | Connected(manufacturer: string, product: string)
    | Disconnected
    | Fatal(reason: FatalReason)
}
