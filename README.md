# SampleScope device engine — a Dafny model

This project models `Device`, the host-side engine of the SampleScope USB oscilloscope
(`frontend/Osci/device.cpp`, `frontend/Osci/device.h`). The engine owns a transport handle
and a 65-byte frame buffer that every exchange shares. It keeps a mirror of the device
configuration, the device-info record reported at connection time, and three calibration
tables. It emits three signals: `connected(manufacturer, product)`, `disconnected()` and
`fatal(message)`.

Modules:

- `Wire` (wire.dfy): bytes, `MAX_STR` = 65 and the 64-byte reply size. Also the opcodes,
  the `osci_config_t` and `device_info_t` records, and the signal kinds (`Event`).
  A `FatalReason` records why each `fatal` was raised.
- `Transport` (transport.dfy): the `AbstractHardware` contract as a `Hardware` class. It has
  an open flag and scripted results for each `open`, `write` and `read`, consumed in order.
  It logs every frame written and the length of every read. `Link` is its value, and the
  pure steps `OpenStep`, `CloseStep`, `WriteStep` and `ReadStep` say what each call does.
- `Exchange` (exchange.dfy): the protocol as functions over what can be observed (the link,
  the buffer and the signal log). `Comm` is one exchange, `ReceiveInfo` the handshake and
  `Connect` the connection sequence. Their contracts state what the code guarantees.
- `Acquisition` (acquisition.dfy): the two decoders as functions from frames to samples.
  A sample is an integer time index plus a raw ADC byte. The plotted point is
  `(timestretch * time, NormalizeSample(raw))`. Layout lemmas fix which byte of which frame
  becomes which sample, and at which time index.
- `Calibration` (calibration.dfy): the literal `delays` and `dacvals` tables and the
  label, unit and name lookups.
- `Osci` (device.dfy): the `Device` class. Its fields are the source's fields: the handle,
  `buf` as an `array`, `config`, `deviceInfo`, the test-signal selector and the three
  calibration arrays, plus the signal log. Every method that exchanges frames with the
  device is proved equal to the matching `Exchange` or `Acquisition` function applied to the
  state before the call. `DisConnect`, `SetTestSignal` and `SelectHardwareImplementation`
  state their new state directly, in terms of the transport steps.

`isConnected()` (device.h:48) is the predicate `Device.IsConnected`, which reads the
transport's open flag. The flag changes only inside `Hardware.Open` and `Hardware.Close`.
A new handle starts closed, so the engine starts disconnected and is disconnected again
after its backend is swapped; only `connect` opens the transport.
`getTriggerSource()` (device.h:68) is `Device.GetTriggerSource`, and
`SelectTriggerSource` ensures that it then answers the selected source.

In these places the code does something a reader might not expect; the model follows the code:

- Only a negative `write` return counts as a failure; a short write passes
  (`Exchange.ShortWriteUndetected`).
- The continuation reads of both decoders ignore their return value. The loops always
  make `bufferCount - 1` reads, and a failed read decodes whatever the buffer still holds
  (`Acquisition.ContinuationsSpentScript`). Nothing stops early and no extra `fatal` is
  raised.
- `receiveInfo` decodes the info record and checks its sizes even after a failed exchange.
  So a failed handshake can raise two `fatal` signals, not one
  (`Exchange.FailedHandshakeRaisesTwoFatals`). A size mismatch raises `fatal` but leaves
  the transport open, so `connected` still follows it.
- `getTdivUnit` has no range check and is total.

## Model

| member | source | states |
|---|---|---|
| Wire.Ack | frontend/Osci/device.cpp:149-150 | the expected acknowledgement is the opcode plus one, wrapping to 0 after 255, and never equals the opcode |
| Wire.EncodeConfig | frontend/Osci/device.cpp:344-349 | the configuration travels as a fixed-size block of `sizeof(osci_config_t)` bytes |
| Wire.ConfigRoundTrip | frontend/Osci/device.cpp:344-349 | the device recovers exactly the configuration that was copied into the frame |
| Wire.EncodeConfigInjective | frontend/Osci/device.cpp:344-349 | different configurations never travel as the same bytes |
| Wire.DecodeInfo | frontend/Osci/device.cpp:353-354 | the stored record's buffer count and buffer size are the third and fourth bytes after the acknowledgement |
| Wire.SizesMatch | frontend/Osci/device.cpp:356-358 | the handshake passes exactly when the reported info size is the engine's and the reported config size equals the length of every configuration the engine sends |
| Exchange.CommandFrame | frontend/Osci/device.cpp:129-131 | the written frame is the buffer with 0x00 in byte 0 and the opcode in byte 1, every other byte kept |
| Exchange.Comm | frontend/Osci/device.cpp:121-156 | not connected: exactly one fatal, no write or read, buffer untouched. Connected: exactly one write of the whole 65-byte buffer with 0x00 and the opcode in front. A 64-byte read follows exactly when the write return is non-negative. The reply is accepted iff the write was non-negative, the read returned 64 and byte 0 is opcode+1. Any failure closes the link and appends Disconnected then exactly one Fatal. Success leaves the log unchanged. The buffer keeps the command frame after a failed write or a missing reply, and otherwise holds the reply laid over it, whether accepted or not |
| Exchange.CommUsesOneOfEach | frontend/Osci/device.cpp:131-139 | an exchange on an open link uses up one write result, and one reply exactly when the write did not fail, so the next read gets the following reply |
| Exchange.CommMismatchReport | frontend/Osci/device.cpp:149-155 | after a full read, a rejected reply raises a fatal naming the expected ack, the received byte and the command |
| Exchange.ShortWriteUndetected | frontend/Osci/device.cpp:131-137 | a write returning any count from 0 to 64 is not treated as a failure |
| Exchange.ConfigFrame | frontend/Osci/device.cpp:344-347 | the SET_CONFIG buffer has the opcode in byte 1 and the full encoded configuration in bytes 2..13; the rest of the buffer is kept |
| Exchange.SetConfigCarriesConfig | frontend/Osci/device.cpp:344-349 | while connected, one configuration transmission writes exactly one 65-byte frame: marker 0, opcode SET_CONFIG, and a payload that decodes to the full configuration |
| Exchange.SampleFrame | frontend/Osci/device.cpp:260-264 | the block-capture buffer carries opcode, input channel and test signal in bytes 1..3 |
| Exchange.ReceiveInfo | frontend/Osci/device.cpp:351-360 | the link and buffer are those the GET_INFO exchange leaves, and the info record is decoded from bytes 1..4 of that buffer whether or not the exchange succeeded; a size mismatch appends a fatal and never closes the link |
| Exchange.Connect | frontend/Osci/device.cpp:89-109 | log is append-only. Failed open: nothing emitted or stored. Connected is emitted iff the link ends open, and then exactly once, as the last event, after an optional size-mismatch fatal. An opened link runs the GET_INFO handshake: the stored record, link and buffer are exactly those `ReceiveInfo` leaves, and Connected is appended exactly when that handshake kept the link open. Failed handshake: Disconnected, one fatal, an optional size-mismatch fatal, and no Connected |
| Exchange.FailedHandshakeRaisesTwoFatals | frontend/Osci/device.cpp:95-98 | a handshake reply of 64 zero bytes yields Disconnected, an ack fatal and a wrong-size fatal |
| Acquisition.NormalizeSample | frontend/Osci/device.h:93-95 | the value is 0 exactly at 128, negative exactly below 128, -2.05 at 0, and lies in [-2.05, 2.05) |
| Acquisition.NormalizeSampleMonotonic | frontend/Osci/device.h:93-95 | normalisation strictly preserves the order of readings |
| Acquisition.Continuations | frontend/Osci/device.cpp:280-286 | exactly n continuation reads, each of the whole 65-byte buffer, whatever they return; they never open or close the link and never write; each yields one 64-byte frame, and the last frame is the front of the buffer after the last read |
| Acquisition.ContinuationsFullReplies | frontend/Osci/device.cpp:280-286 | when every read gets a reply of at least 64 bytes, frame j is the front of the j-th reply and exactly n replies are used up |
| Acquisition.CaptureFramesAreLaterReplies | frontend/Osci/device.cpp:266-286 | after an accepted capture command answered with full replies, the decoded reply is the front of the first reply and continuation frame j is the front of reply j+1 |
| Acquisition.ContinuationsSpentScript | frontend/Osci/device.cpp:280-286 | when every read fails with nothing delivered, the buffer is unchanged and every frame repeats the bytes it already held |
| Acquisition.ContinuationCount | frontend/Osci/device.cpp:280 | the reply plus the continuation frames make bufferCount frames, or the reply alone when bufferCount is 0 |
| Acquisition.BlockSamples | frontend/Osci/device.cpp:277-286 | a block capture holds 63 samples for the reply and 64 for each continuation frame |
| Acquisition.ChannelSamples | frontend/Osci/device.cpp:303-316 | each channel holds 31 samples for the reply and 32 for each continuation frame |
| Acquisition.BlockSamplesLayout | frontend/Osci/device.cpp:277-286 | a block capture holds 63 + 64·(frames) samples; sample k has time index k (no gaps) and is byte (k+1) mod 64 of frame (k+1) div 64 |
| Acquisition.ChannelSamplesLayout | frontend/Osci/device.cpp:303-316 | each channel holds 31 + 32·(frames) samples. Sample k < 31 is reply byte 2k+2+p with time k. Later samples are byte 2((k-31) mod 32)+p of continuation frame (k-31) div 32, with time k-1 |
| Acquisition.ChannelTimesNondecreasing | frontend/Osci/device.cpp:304-312 | channel time indices rise by one at every step except the first-to-second frame boundary, where index 30 appears twice |
| Acquisition.ChannelsShareTimes | frontend/Osci/device.cpp:303-316 | both channels have the same length and the same time index at every position |
| Acquisition.InterleavedCoversFrames | frontend/Osci/device.cpp:277-316 | the two channels together hold 62 + 64 per continuation frame, one sample fewer than a block capture of the same frames |
| Calibration.GetTdivUnit | frontend/Osci/device.cpp:162-164 | "usec/div" exactly below Tdiv_1, "msec/div" exactly from Tdiv_1 on |
| Calibration.GetTdivLabel | frontend/Osci/device.cpp:167-175 | defined exactly on steps 0..10; yields a non-empty label from the table |
| Calibration.GetVdivLabel | frontend/Osci/device.cpp:196-203 | defined exactly on steps 0..7; yields a non-empty label from the table |
| Calibration.GetChannelName | frontend/Osci/device.cpp:215-223 | defined exactly on selectors 0..2; yields a non-empty name from the table |
| Calibration.TdivLabelAndUnitIdentifyStep | frontend/Osci/device.cpp:162-175 | a time/div label together with its unit names exactly one step |
| Calibration.VdivLabelIdentifiesStep | frontend/Osci/device.cpp:196-203 | every volt/div step has its own label |
| Calibration.TablesStrictlyMonotonic | frontend/Osci/device.cpp:39-59 | the DAC codes fall strictly and the delay codes rise strictly along the steps |
| Osci.Device.constructor | frontend/Osci/device.cpp:31-65 | requires Tdiv_LAST and Vdiv_LAST within the 8-entry tables and a new, closed real-backend handle; the calibration arrays get Tdiv_LAST+1 and Vdiv_LAST+1 entries; both gain arrays hold the same dacvals entries and the delay array the delays entries; the test signal is TestSignal_Tri, no signal has been emitted and the engine is disconnected |
| Osci.Device.SelectHardwareImplementation | frontend/Osci/device.cpp:74-81 | same backend: nothing changes. Otherwise an open handle is closed with one Disconnected, a closed one emits nothing, the handle is replaced by the new closed one, untouched, and the engine is disconnected |
| Osci.Device.IsConnected | frontend/Osci/device.h:48 | connected exactly when the transport link is open |
| Osci.Device.GetTriggerSource | frontend/Osci/device.h:68 | the answer is the trigger channel of the configuration mirror |
| Osci.SettableStepsHaveLabels | frontend/Osci/device.cpp:39-63 | every time/div step that setTdiv accepts has its delay code and lies inside the label table; the 8 delay codes against 11 labels leave the last labelled steps unsettable; every settable volt/div step has a label and both gain tables have the same size |
| Osci.Device.Refresh | frontend/Osci/device.cpp:84-87 | connected: exactly one PING exchange; disconnected: no effect at all |
| Osci.Device.Connect | frontend/Osci/device.cpp:89-109 | the new state and stored info record are those of `Exchange.Connect` with the handle's two strings |
| Osci.Device.DisConnect | frontend/Osci/device.cpp:111-115 | the transport is closed and one Disconnected is appended, whatever the state |
| Osci.Device.SetTestSignal | frontend/Osci/device.cpp:117-119 | the test-signal selector becomes the argument |
| Osci.Device.Comm | frontend/Osci/device.cpp:121-156 | the observable state after the call is `Exchange.Comm` of the state before it |
| Osci.Device.Ping | frontend/Osci/device.cpp:158-160 | exactly one PING exchange |
| Osci.Device.SetVdivCh1 | frontend/Osci/device.cpp:225-228 | gainCh1 becomes dacvals[v] and no other field changes; then one SET_CONFIG exchange of the whole configuration; the field stays set even if the exchange fails or the link is closed |
| Osci.Device.SetVdivCh2 | frontend/Osci/device.cpp:230-233 | gainCh2 becomes dacvals[v], nothing else changes, then one SET_CONFIG exchange |
| Osci.Device.SetTdiv | frontend/Osci/device.cpp:235-241 | sampleDelay becomes delays[d], nothing else changes, then one SET_CONFIG exchange |
| Osci.Device.SetDelay | frontend/Osci/device.cpp:243-246 | sampleDelay becomes the argument, nothing else changes, then one SET_CONFIG exchange |
| Osci.Device.SetTriggerLevel | frontend/Osci/device.cpp:248-251 | triggerLevel becomes the argument, nothing else changes, then one SET_CONFIG exchange |
| Osci.Device.SetACDCCh1 | frontend/Osci/device.cpp:322-325 | acdcCh1 becomes the argument, nothing else changes, then one SET_CONFIG exchange |
| Osci.Device.SetACDCCh2 | frontend/Osci/device.cpp:327-330 | acdcCh2 becomes the argument, nothing else changes, then one SET_CONFIG exchange |
| Osci.Device.SelectTriggerSource | frontend/Osci/device.cpp:332-336 | triggerChannel becomes the argument, so getTriggerSource answers it; nothing else changes; then one SET_CONFIG exchange |
| Osci.Device.SelectTriggerMode | frontend/Osci/device.cpp:338-342 | triggerMode becomes the argument, nothing else changes, then one SET_CONFIG exchange |
| Osci.Device.TransmitConfig | frontend/Osci/device.cpp:344-349 | the buffer gets the SET_CONFIG opcode and the whole configuration, then exactly one exchange |
| Osci.Device.ReceiveInfo | frontend/Osci/device.cpp:351-360 | the new state and info record are those of `Exchange.ReceiveInfo` |
| Osci.Device.GetADCSingle | frontend/Osci/device.cpp:253-256 | exactly one READ_SINGLE exchange; the result is buffer byte 1 normalised, even after a failed exchange |
| Osci.Device.GetADCBlock | frontend/Osci/device.cpp:258-289 | if the SAMPLE_SINGLE exchange fails, the result is empty. Otherwise it is `BlockSamples` of the reply and the frames of `Continuations` (bufferCount-1 reads), and no signal is emitted after the exchange |
| Osci.Device.GetADCInterleaved | frontend/Osci/device.cpp:291-319 | if the SAMPLE_INTERLEAVED exchange fails, both outputs come back unchanged. Otherwise they are `ChannelSamples` of parity 0 and 1 over the reply and bufferCount-1 continuation frames |
| Osci.Device.DecodeBlockFirst | frontend/Osci/device.cpp:277-279 | the first loop yields the first 63 block samples |
| Osci.Device.DecodeBlockFrame | frontend/Osci/device.cpp:283-285 | the inner loop appends the 64 samples of continuation frame j |
| Osci.Device.DecodeInterleavedFirst | frontend/Osci/device.cpp:303-307 | the first loop yields 31 samples per channel, even bytes to channel 1 and odd bytes to channel 2 |
| Osci.Device.DecodeInterleavedFrame | frontend/Osci/device.cpp:311-315 | the inner loop appends 32 samples of continuation frame j to each channel |

## Left out

- The transport implementation (`AbstractHardware::create` and the real `open`, `read`,
  `write` and `close`) is not part of this model. `Hardware` stands in for its contract. An
  `open` with its script spent fails, and so do a `write` or `read` with theirs spent
  (return -1). A read delivers at most the requested length.
- The byte layouts of `osci_config_t`, `device_info_t` and the opcode and result encoders,
  the opcode numbers, `Tdiv_1`, `Tdiv_LAST`, `Vdiv_LAST`, `TestSignal_Tri` and
  `InitOsciConfig` are declared in shared/common.h, which is not part of this model.
  The model uses stand-ins:
  - the configuration is packed in field order, with the 16-bit fields little-endian, into 12 bytes;
  - the info record is four single bytes after the acknowledgement;
  - the opcodes are distinct bytes;
  - `Tdiv_1` is 3, the position of the "1" label;
  - `Tdiv_LAST` and `Vdiv_LAST` are constructor arguments, required to fit the 8-entry literal tables;
  - the initial configuration is a constructor argument.

  These results depend on the stand-ins and would have to be re-proved for the real values:
  - on the configuration layout: `Wire.EncodeConfig`, `Wire.ConfigRoundTrip`,
    `Wire.EncodeConfigInjective`, `Wire.SizesMatch`, `Exchange.ConfigFrame`,
    `Exchange.SetConfigCarriesConfig` and, through them, `Osci.Device.TransmitConfig` and
    the setters (the 12 bytes must fit in bytes 2..13 of the buffer);
  - on the info layout: `Wire.DecodeInfo`, `Exchange.ReceiveInfo`, `Osci.Device.ReceiveInfo`
    and the block and interleaved captures that read `bufferCount` from it;
  - on the sample-command layout: `Exchange.SampleFrame` and `Osci.Device.GetADCBlock`;
  - on `Tdiv_1` = 3: `Calibration.GetTdivUnit` and `Calibration.TdivLabelAndUnitIdentifyStep`;
  - on the opcode numbers: `Exchange.FailedHandshakeRaisesTwoFatals`, which needs the
    acknowledgement of GET_INFO to differ from 0, so GET_INFO must not be 255; it also needs
    the info size and the config size to be non-zero;
  - on `TestSignal_Tri`: the constructor's initial test signal only.
- Osci.Device.constructor: requiring `Tdiv_LAST < 8` excludes a `Tdiv_LAST` of 8 or more.
  Such a value is likely, since there are 11 time/div labels and the assertions at
  frontend/Osci/device.cpp:172 and device.cpp:193 allow steps up to 10. With it, the
  copy loop at device.cpp:63 would read past the 8 entries of `delays`; the model does not
  capture that out-of-bounds read (see the `calib` note below).
- The C++ object starts with `buf` and `deviceInfo` uninitialised; the model starts them at zero.
- Qt plumbing is left out: `QObject`, the `QString`/`tr` message texts, the `cout`/`cerr`/`wcout`
  logging and the `wchar_t` conversion of the identification strings. That conversion
  truncates them at 99 characters, which the model does not do. Signals are kept as
  kinds plus a reason.
- Floating point is left out. `getTdivTime` and `getVdivVoltate` are not modelled, and
  neither is the `timestretch` factor, including its division by zero when
  bufferCount·bufferSize = 1. Two source defects there are only noted:
  - the NaN guard in `getVdivVoltate` compares with `==` and is never true;
  - `calib` has 8 entries while the assertion admits 11 steps, so steps 8..10 read past it.
    The same 8-against-11 mismatch affects `delays` in the constructor (see the
    Osci.Device.constructor line above).
- Acquisition.NormalizeSample: computed over reals, so the `double` arithmetic and the
  rounding to `float` (`sample_t`) are not modelled.
- The destructor (close and delete the handle) is not modelled: Dafny has no deallocation.
- Concurrency is out of scope; the engine is single-threaded and every exchange blocks.
