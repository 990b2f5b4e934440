# audio-proxy relay core, in Dafny

`audio-proxy` is a small Windows relay. It captures audio from one device,
such as a virtual cable, and plays it on another. It can also relay a
microphone into a virtual input. A controller can redirect it at run time
through a named pipe, using JSON commands. This project models the relay's
core logic and proves properties about it:

- **`RingBuffer`** (`ring_buffer.rs`): the single-producer, single-consumer
  sample ring. Its slot count is rounded up to a power of two, positions
  wrap with a bit mask, and one slot always stays free. The class keeps the
  Rust fields: the backing array, the slot count and the two positions. Its
  invariant ties them to a ghost sequence of stored samples.
- **`CommandLine`** (`main.rs`, `parse_args`): the deprecated positional
  form and the named-flag loop. `u32` parsing, defaults, help and unknown
  arguments are modelled.
- **`Control`** (`main.rs`): the cells that `handle_ipc_command` updates,
  the per-command state machine over them, and the buffer sizing of
  `run_proxy`.
- **`Convert`** (`main.rs`, `convert_channels` and
  `formats_need_conversion`): upmix, downmix and pass-through of
  interleaved frames.
- **`Ipc`**, **`IpcJson`** and **`IpcPipe`** (`ipc.rs`):
  - `Ipc` holds the command and response types with their constructors.
  - `IpcJson` is the JSON text exchanged on the pipe: serde's adjacently
    tagged layout for commands, and `None` fields dropped from responses.
  - `IpcPipe` is the server's connect/read/respond/disconnect protocol,
    with the Win32 call outcomes as inputs.
- **`AudioStream`** (`audio_stream.rs`):
  - device lookup over three passes (exact id, then case-insensitive name,
    then partial name);
  - little-endian decoding in `bytes_to_f32`;
  - the `start`/`stop` bookkeeping of both stream kinds, including the
    32-bit format check;
  - the frame arithmetic of `RenderStream::write`.

The Rust code has loops and in-place updates in several places: the ring
buffer, argument parsing, channel conversion, byte decoding and the pipe
server. There the model uses methods with loop invariants, or classes with
`modifies` clauses. Each of these is proved against a specification
function or a predicate. The rest of the model is functions and lemmas.

Sample values are an opaque type parameter. The stereo-to-mono average and
`f32::from_bits` are function parameters (`mix` and `fromBits`). Every
WASAPI, COM and Win32 result is an argument of the operation that receives
it.

## Model

| member | source | states |
|---|---|---|
| RingBuffer.NextPowerOfTwo | src/audio-proxy/src/ring_buffer.rs:17 | `usize::next_power_of_two`: the result is a power of two, at least the request, and less than twice it (or 1) |
| RingBuffer.NextPowerOfTwoIsLeast | src/audio-proxy/src/ring_buffer.rs:17 | no power of two between the request and the result: the result is the least one |
| RingBuffer.MaskIsMod | src/audio-proxy/src/ring_buffer.rs:49 | for a power-of-two slot count `c`, `x & (c - 1)` is `x % c` |
| RingBuffer.SlotsDistinct | src/audio-proxy/src/ring_buffer.rs:48-53 | positions less than one turn apart land in different slots, so the copy loop never overwrites its own samples |
| RingBuffer.LengthFromPositions | src/audio-proxy/src/ring_buffer.rs:93-102 | the two-branch difference of the positions gives back the number of stored samples |
| RingBuffer.CopyIntoSlots | src/audio-proxy/src/ring_buffer.rs:48-53 | after the copy loop the ring holds the stored samples, then the first `count` new ones, and the write position is `count` slots on |
| RingBuffer.CopyOutOfSlots | src/audio-proxy/src/ring_buffer.rs:80-83 | the output starts with the oldest `count` stored samples; the rest of it is unchanged |
| RingBuffer.AudioRingBuffer.constructor | src/audio-proxy/src/ring_buffer.rs:15-25 | a valid, empty buffer with `next_power_of_two(requested)` slots |
| RingBuffer.AudioRingBuffer.Capacity | src/audio-proxy/src/ring_buffer.rs:110-112 | one less than the slot count, and never below the number stored |
| RingBuffer.AudioRingBuffer.Len | src/audio-proxy/src/ring_buffer.rs:93-102 | equals the number of stored samples, at most `capacity()` |
| RingBuffer.AudioRingBuffer.IsEmpty | src/audio-proxy/src/ring_buffer.rs:105-107 | true exactly when nothing is stored |
| RingBuffer.AudioRingBuffer.Write | src/audio-proxy/src/ring_buffer.rs:29-60 | writes `min(len, free space)` samples after the stored ones, in order, and never moves the read position; a full buffer takes none and keeps its positions; the invariant is kept |
| RingBuffer.AudioRingBuffer.Read | src/audio-proxy/src/ring_buffer.rs:64-90 | moves the oldest `min(out.len, stored)` samples into the front of `out`, leaves the rest of `out` alone, drops those samples from the buffer and never moves the write position |
| RingBuffer.AudioRingBuffer.Clear | src/audio-proxy/src/ring_buffer.rs:115-118 | both positions back to 0, so the buffer is empty and still valid |
| RingBuffer.WriteThenReadBack | src/audio-proxy/src/ring_buffer.rs:130-142 | `test_write_read`: 4 written, `len` 4, 4 read back equal to the input, empty again |
| RingBuffer.OverflowWritesThree | src/audio-proxy/src/ring_buffer.rs:144-151 | `test_overflow`: a ring made for 4 takes exactly 3 of 5 samples |
| RingBuffer.UnderflowReadsTwo | src/audio-proxy/src/ring_buffer.rs:153-162 | `test_underflow`: with 2 stored, a read into 4 slots returns 2 |
| CommandLine.ParseU32 | src/audio-proxy/src/main.rs:105 | `u32::from_str`: a value that parses fits in 32 bits |
| CommandLine.BufferOrDefault | src/audio-proxy/src/main.rs:144 | `parse().unwrap_or(DEFAULT_BUFFER_MS)`: the parsed value, or 10 when parsing fails |
| CommandLine.ParseU32Examples | src/audio-proxy/src/main.rs:105 | "10" and "+25" parse; "", "+", "-5" and "5ms" do not |
| CommandLine.Get | src/audio-proxy/src/main.rs:127 | `args.get(i)`: present exactly when `i` is in range, and then it is `args[i]` |
| CommandLine.Finish | src/audio-proxy/src/main.rs:158-167 | the result is parsed exactly when both speaker devices were given; otherwise it is the error naming the first missing one |
| CommandLine.ScanNamed | src/audio-proxy/src/main.rs:116-156 | the named-flag loop from a given index: the buffer length is the one it started with or a parsed `u32`, and every failure is a missing-device or unknown-argument message |
| CommandLine.ParseArgsSpec | src/audio-proxy/src/main.rs:100-168 | `parse_args` as a function: the positional form always parses, the buffer length is a `u32`, and every failure is one of the three error messages |
| CommandLine.ParseArgs | src/audio-proxy/src/main.rs:100-168 | the loop computes exactly `ParseArgsSpec`, the reference definition the lemmas below are about |
| CommandLine.ScanPairs | src/audio-proxy/src/main.rs:122-156 | walking complete flag/value pairs is assigning their values in order |
| CommandLine.AssignAllLastValue | src/audio-proxy/src/main.rs:125-146 | after the pairs, each local holds the last value given for its flag, or what it held before |
| CommandLine.NamedPairsParse | src/audio-proxy/src/main.rs:116-167 | for flag/value pairs: the last value of each flag wins, `--buffer` falls back to 10, the mic devices stay `None` unless given, and a missing speaker device is an error |
| CommandLine.FinishAfterPairs | src/audio-proxy/src/main.rs:158-167 | the required-argument checks on the locals the pairs leave give the last-value outcome |
| CommandLine.TrailingFlagHasNoValue | src/audio-proxy/src/main.rs:125-146 | a flag in last position overwrites its option with `None` (`--buffer` keeps its value); a trailing `--speaker-in` makes it missing |
| CommandLine.UnknownArgumentFails | src/audio-proxy/src/main.rs:151-153 | any other argument where a flag is expected fails with "Unknown argument: " plus that argument, whatever follows |
| CommandLine.HelpStopsParsing | src/audio-proxy/src/main.rs:147-150 | `--help` or `-h` where a flag is expected ends parsing with the usage text |
| CommandLine.LegacyForm | src/audio-proxy/src/main.rs:104-113 | three or more arguments whose first is not `--`: the speaker devices come from positions 1 and 2, there are no mic devices, and the buffer is position 3 if it parses, else 10 |
| CommandLine.LaterFlagOverrides | src/audio-proxy/src/main.rs:125-128 | a repeated `--speaker-in` keeps its later value |
| CommandLine.ShortHelpAsDevice | src/audio-proxy/src/main.rs:104 | `audio-proxy -h X` takes the positional form, with `-h` as the input device |
| Ipc.Success | src/audio-proxy/src/ipc.rs:55-64 | success set, the given message, all four optional fields `None` |
| Ipc.Error | src/audio-proxy/src/ipc.rs:66-75 | success cleared, the given message, all four optional fields `None` |
| Ipc.Status | src/audio-proxy/src/ipc.rs:77-86 | "Status retrieved", the running flag and output device present, both mic fields `None` |
| Ipc.StatusFull | src/audio-proxy/src/ipc.rs:88-102 | as `status`, plus the mic flag, with the mic device passed through |
| Ipc.StatusFullExtendsStatus | src/audio-proxy/src/ipc.rs:77-102 | `status_full` differs from `status` in the two mic fields only |
| IpcJson.HexRoundTrip | src/audio-proxy/src/ipc.rs:176 | a hex digit written in a `\u` escape reads back as its value |
| IpcJson.EscapeCharParses | src/audio-proxy/src/ipc.rs:176 | every escaped character (short escapes, `\u00XX` for other control characters, plain otherwise) reads back as that character, ahead of whatever the rest of the text reads as |
| IpcJson.StringRoundTrip | src/audio-proxy/src/ipc.rs:176 | an escaped string and its closing quote read back as the string, with the rest of the text untouched |
| IpcJson.ValueRoundTrip | src/audio-proxy/src/ipc.rs:176 | any serialized value reads back as itself, leaving whatever follows |
| IpcJson.MembersRoundTrip | src/audio-proxy/src/ipc.rs:176 | serialized object members read back as themselves, in order, up to the closing brace |
| IpcJson.ValueRoundTripAlone | src/audio-proxy/src/ipc.rs:176-177 | a serialized value with nothing after it decodes to itself |
| IpcJson.LookupAppend | src/audio-proxy/src/ipc.rs:40-52 | a field is looked up first in the earlier members, then in the later ones |
| IpcJson.CommandJsonRoundTrip | src/audio-proxy/src/ipc.rs:23-37 | every command's tagged object (`command`, with fields under `data`) decodes to the same command |
| IpcJson.CommandRoundTrip | src/audio-proxy/src/ipc.rs:320-332 | decoding the encoded text of any command gives that command back |
| IpcJson.ResponseMembers | src/audio-proxy/src/ipc.rs:40-52 | the encoded response holds each field under its serde name, each optional field only when it is `Some` |
| IpcJson.ResponseJsonRoundTrip | src/audio-proxy/src/ipc.rs:40-52 | every response's object decodes to the same response |
| IpcJson.ResponseRoundTrip | src/audio-proxy/src/ipc.rs:334-343 | decoding the encoded text of any response gives that response back |
| IpcJson.ResponseOmitsNone | src/audio-proxy/src/ipc.rs:44-51 | optional fields: present in the encoding exactly when `Some` |
| IpcJson.DataOnlyWithFields | src/audio-proxy/src/ipc.rs:25-37 | every command carries `command`; `data` is absent exactly for `GetStatus` and `Stop` |
| IpcPipe.IpcServer.constructor | src/audio-proxy/src/ipc.rs:133-136 | a new server starts disconnected, with no hang-ups |
| IpcPipe.Accept | src/audio-proxy/src/ipc.rs:140-181 | reference step of `accept_with_timeout`: a command is delivered only with the client still attached; a hang-up happens exactly when a client was attached and is gone afterwards, and yields nothing; the only error is a parse failure, which keeps the client |
| IpcPipe.Send | src/audio-proxy/src/ipc.rs:184-210 | reference step of `send_response`: always ends disconnected; writes and hangs up exactly when a client was connected; succeeds exactly when connected and the write worked |
| IpcPipe.IpcServer.New | src/audio-proxy/src/ipc.rs:113-137 | succeeds exactly when the pipe was created; otherwise "Failed to create named pipe" |
| IpcPipe.IpcServer.AcceptWithTimeout | src/audio-proxy/src/ipc.rs:140-181 | the result, the new `connected` flag and the hang-up count are those of the reference step `Accept` |
| IpcPipe.IpcServer.SendResponse | src/audio-proxy/src/ipc.rs:184-210 | the result, the text written, the new flag and the hang-up count are those of the reference step `Send` |
| IpcPipe.IpcServer.Disconnect | src/audio-proxy/src/ipc.rs:212-220 | ends disconnected; the pipe is hung up on only when a client was connected |
| IpcPipe.AcceptRefused | src/audio-proxy/src/ipc.rs:143-150 | a failed connect other than 535 yields nothing and stays disconnected, whatever the pipe holds |
| IpcPipe.EarlyClientIsAccepted | src/audio-proxy/src/ipc.rs:145-152 | error 535 (client already there) is treated as a connection |
| IpcPipe.AcceptLostClient | src/audio-proxy/src/ipc.rs:169-173 | a failed read (including one over 4096) or an empty one hangs up and yields nothing |
| IpcPipe.AcceptDelivers | src/audio-proxy/src/ipc.rs:175-180 | an encoded command within the buffer is delivered unchanged, and the client stays connected for the response |
| IpcPipe.MalformedKeepsClient | src/audio-proxy/src/ipc.rs:176-177 | text that is not a command gives "Failed to parse IPC command", and the client stays connected (no hang-up before `?`) |
| IpcPipe.SendAlwaysEnds | src/audio-proxy/src/ipc.rs:184-210 | after any send the server is disconnected; it hung up exactly when connected; success exactly when connected and the write worked |
| IpcPipe.SendDelivers | src/audio-proxy/src/ipc.rs:189-199 | when connected, the text handed to `WriteFile` decodes to the response |
| Control.SharedState.constructor | src/audio-proxy/src/main.rs:180-216 | the cells start with the given values |
| Control.Dispatch | src/audio-proxy/src/main.rs:842-891 | reference step of `handle_ipc_command`: `running` is cleared by `Stop` only; the output id changes only by `SetOutput`; a mic cell changes only by its own command and only when the handle exists; a refused command changes nothing |
| Control.SharedState.HandleIpcCommand | src/audio-proxy/src/main.rs:842-891 | the response and the new cell values are those of the reference step `Dispatch` |
| Control.SetOutputEffect | src/audio-proxy/src/main.rs:850-854 | `SetOutput` replaces the output id and nothing else, with "Output device updated" |
| Control.StopEffect | src/audio-proxy/src/main.rs:867-871 | `Stop` clears `running` and nothing else, with "Stopping proxy" |
| Control.GetStatusReports | src/audio-proxy/src/main.rs:855-866 | `GetStatus` changes nothing and reports the running flag and output; the mic fields are present exactly when both mic handles exist |
| Control.SetMicInputEffect | src/audio-proxy/src/main.rs:872-880 | without a mic input handle: "Mic proxy not configured" and no change; with one, the handle holds the new id |
| Control.EnableMicEffect | src/audio-proxy/src/main.rs:881-889 | without a mic flag: refused, no change; with one it is set, with "Mic proxy enabled"/"disabled" |
| Control.FailureChangesNothing | src/audio-proxy/src/main.rs:842-891 | a refused command changes nothing, and refusals are exactly the mic commands without mic handles |
| Control.OnlyStopStops | src/audio-proxy/src/main.rs:867-871 | `running` afterwards is `running && command != Stop`: only `Stop` changes it, and nothing sets it again |
| Control.MicHandlesStay | src/audio-proxy/src/main.rs:872-889 | no command creates or removes a mic handle, so the two stay paired |
| Control.StatusAfterSetOutput | src/audio-proxy/src/main.rs:850-866 | a status after `SetOutput(id)` reports `id` and the unchanged running flag |
| Control.InitialState | src/audio-proxy/src/main.rs:180-216 | running; output device from the command line; mic handles exactly when both mic devices were given, with the mic enabled |
| Control.BufferSamples | src/audio-proxy/src/main.rs:187 | 48 kHz stereo: 96 samples per millisecond |
| Control.BufferSamplesAsWritten | src/audio-proxy/src/main.rs:187 | `buffer_samples` with the wrapping `u32` product: whole stereo frames, and never more than 8589934 samples, whatever the buffer length |
| Control.RingSlots | src/audio-proxy/src/main.rs:190 | a power of two of at least four times the buffer |
| Control.RingSlotsAsWritten | src/audio-proxy/src/main.rs:187-200 | the rings `run_proxy` builds from the wrapping product: a power of two of at least four times that buffer |
| Control.RingSlotsAgreeBelowOverflow | src/audio-proxy/src/main.rs:187-200 | up to 89478 ms the corrected rings are the source's; at 89479 ms the source's rings are smaller |
| Control.AsWrittenAgreesBelowOverflow | src/audio-proxy/src/main.rs:187 | up to 89478 ms the `u32` formula as written equals the intended one |
| Control.AsWrittenWrapsAt89479 | src/audio-proxy/src/main.rs:187 | at 89479 ms the written formula gives 48 samples instead of 8589984, fewer than at 89478 |
| Control.DefaultSizing | src/audio-proxy/src/main.rs:28-34 | the default 10 ms gives 960 samples and rings of 4096 slots |
| Control.SetUp | src/audio-proxy/src/main.rs:186-210 | the initial control state, a fresh empty speaker ring, and a mic ring of the same size exactly when both mic devices were given |
| Convert.Converted | src/audio-proxy/src/main.rs:345-373 | reference conversion: one output frame per whole input frame, so length `(len / in_ch) * out_ch` |
| Convert.ConvertedFrame | src/audio-proxy/src/main.rs:352-371 | channel `ch` of output frame `f`: the mix of L and R for stereo to mono, the same input channel for other downmixes and for upmix channels that exist, channel 0 for added ones |
| Convert.PassThrough | src/audio-proxy/src/main.rs:352-361 | equal channel counts copy the input, less any partial last frame |
| Convert.UpmixThenDownmix | src/audio-proxy/src/main.rs:352-371 | downmixing an upmix gives the input back (less a partial frame), except for mono to stereo |
| Convert.CopyFrame | src/audio-proxy/src/main.rs:358-370 | the inner channel loop appends exactly the next output frame |
| Convert.ConvertChannels | src/audio-proxy/src/main.rs:345-373 | the frame loop produces exactly `Converted` |
| Convert.FormatsNeedConversion | src/audio-proxy/src/main.rs:405-407 | no conversion is needed exactly when the formats agree on everything except sample width and block size |
| Convert.ConversionSymmetric | src/audio-proxy/src/main.rs:405-407 | the test is symmetric, and a format never needs converting to itself |
| AudioStream.Lower | src/audio-proxy/src/audio_stream.rs:339 | ASCII lower-casing, character by character, same length |
| AudioStream.ContainsItself | src/audio-proxy/src/audio_stream.rs:339 | every string contains itself |
| AudioStream.ScanPass | src/audio-proxy/src/audio_stream.rs:308-317 | one pass finds the first matching device, or the first enumeration error before any match; it is exhausted exactly when nothing matches and all enumerate |
| AudioStream.FindDeviceById | src/audio-proxy/src/audio_stream.rs:303-364 | fails with the collection error exactly when there is no collection; a found index is an enumerated device in the list; an enumeration failure names an entry that failed to enumerate |
| AudioStream.FoundByTierOrder | src/audio-proxy/src/audio_stream.rs:303-345 | the chosen device is the first exact id match; failing any, the first case-insensitive name match; failing any, the first partial name match |
| AudioStream.LaterTiersFind | src/audio-proxy/src/audio_stream.rs:319-345 | the converse for the later passes: with every device enumerable, the first name match is chosen when no id matches, and the first partial match when neither matches |
| AudioStream.NotFoundMeansNoMatch | src/audio-proxy/src/audio_stream.rs:347-363 | "not found" exactly when no pass matches any device and every device enumerates |
| AudioStream.IdMatchWins | src/audio-proxy/src/audio_stream.rs:308-317 | when all devices enumerate, the first id match is chosen whatever the names say |
| AudioStream.NameMatchIsPartialMatch | src/audio-proxy/src/audio_stream.rs:319-345 | an exact name match is also a partial one |
| AudioStream.LittleEndian | src/audio-proxy/src/audio_stream.rs:372-377 | four bytes in little-endian order form a `u32` |
| AudioStream.LittleEndianRoundTrip | src/audio-proxy/src/audio_stream.rs:372-377 | the bytes of a word read back as that word |
| AudioStream.LittleEndianInjective | src/audio-proxy/src/audio_stream.rs:372-377 | different byte quadruples are different words |
| AudioStream.BytesToF32 | src/audio-proxy/src/audio_stream.rs:367-380 | decodes `min(len/4, out.len)` words, word `i` from bytes `4i..4i+4`; the rest of `out` is unchanged |
| AudioStream.StartOutcome | src/audio-proxy/src/audio_stream.rs:48-91 | a successful start has a 32-bit format, the mix format; any other width fails with that width, before initialisation |
| AudioStream.StartStep | src/audio-proxy/src/audio_stream.rs:43-91 | reference step of both `start`s (render at 180-232): a failure only from a stopped stream, leaving it unchanged; success leaves it started, and a first start takes the mix format, which is 32-bit; a capture start keeps the frame count |
| AudioStream.StopStep | src/audio-proxy/src/audio_stream.rs:94-107 | reference step of both `stop`s (render at 235-248): success leaves it stopped; failure only from a started stream whose `stop_stream` failed, leaving it unchanged; nothing but `started` ever changes |
| AudioStream.FreshIsConsistent | src/audio-proxy/src/audio_stream.rs:33-39 | a new stream is stopped, with no client and no format |
| AudioStream.StartStopKeepConsistent | src/audio-proxy/src/audio_stream.rs:43-107 | start and stop keep "started implies client and format", and a format is always 32-bit |
| AudioStream.StartStopIdempotent | src/audio-proxy/src/audio_stream.rs:44-46 | starting a started stream, or stopping a stopped one, is a successful no-op |
| AudioStream.StartFailureChangesNothing | src/audio-proxy/src/audio_stream.rs:64-69 | a failed start changes nothing; a width other than 32 bits always fails |
| AudioStream.StopKeepsFormat | src/audio-proxy/src/audio_stream.rs:94-107 | stopping never clears the format |
| AudioStream.CaptureStream.constructor | src/audio-proxy/src/audio_stream.rs:33-39 | the stream on the given device is stopped, with no client and no format |
| AudioStream.CaptureStream.New | src/audio-proxy/src/audio_stream.rs:27-40 | succeeds exactly when device lookup does, on the device it found; otherwise lookup's error |
| AudioStream.CaptureStream.Start | src/audio-proxy/src/audio_stream.rs:43-91 | result and new state are those of the reference step `StartStep` (capture) |
| AudioStream.CaptureStream.Stop | src/audio-proxy/src/audio_stream.rs:94-107 | result and new state are those of `StopStep`; a failing `stop_stream` leaves it started |
| AudioStream.CaptureStream.Format | src/audio-proxy/src/audio_stream.rs:110-112 | a fresh stream reports no format; a started, consistent one reports its 32-bit format |
| AudioStream.RenderStream.constructor | src/audio-proxy/src/audio_stream.rs:169-176 | the stream on the given device is stopped, with no client, no format and a zero frame count |
| AudioStream.RenderStream.New | src/audio-proxy/src/audio_stream.rs:163-177 | succeeds exactly when device lookup does, on the device it found; otherwise lookup's error |
| AudioStream.RenderStream.Start | src/audio-proxy/src/audio_stream.rs:180-232 | result and new state, including the buffer frame count, are those of `StartStep` (render) |
| AudioStream.RenderStream.Stop | src/audio-proxy/src/audio_stream.rs:235-248 | result and new state are those of `StopStep` |
| AudioStream.RenderStream.Format | src/audio-proxy/src/audio_stream.rs:251-253 | a fresh stream reports no format; a started, consistent one reports its 32-bit format |
| AudioStream.RenderStream.Write | src/audio-proxy/src/audio_stream.rs:257-293 | not initialised and padding errors come first; on success it returns `min(len / ch, buffer - padding) * ch` samples, whole frames and a prefix of the input, 0 when the device buffer is full; a failing device write is an error |
| AudioStream.WholeFramesFit | src/audio-proxy/src/audio_stream.rs:274-279 | a whole number of frames within the input fits in it and is a multiple of the channel count |

## Left out

- WASAPI, COM and the Win32 pipe calls are not modelled. Each call's outcome
  is an input of the operation that makes it. `timeout` is not used by the
  source either.
- Threads, atomics and memory orderings are not modelled. Each ring buffer
  operation and each IPC command is one atomic step on a single thread.
- RingBuffer.NextPowerOfTwo: does not model `usize` overflow of
  `next_power_of_two` for requests above 2^63.
- `resample`, `convert_audio`, the capture and render loops, stream
  recovery, and `run_ipc_server`'s polling loop and sleeps are not
  modelled. They are I/O loops around the modelled operations, with
  floating-point sample arithmetic.
- Convert.ConvertedFrame: the stereo-to-mono average `(l + r) * 0.5` is the
  opaque parameter `mix`, because `f32` arithmetic is not modelled.
- `CaptureStream::read`, `f32_as_bytes`, `IpcClient`, `print_usage`, the
  process exit and all logging are not modelled.
- AudioStream.BytesToF32: `f32::from_le_bytes` is `fromBits` applied to the
  little-endian word, and `fromBits` is opaque.
- AudioStream.FindDeviceById: every pass sees the same device list. An
  enumeration error is an index, not the message text. `to_lowercase` is
  ASCII lower-casing, and `get_id` or `get_friendlyname` failures are
  `None`. The device list printed in the "not found" message is left out.
- AudioStream.RenderStream.Write: requires that padding never exceeds the
  device buffer, and that the format has at least one channel whenever the
  buffer has room. WASAPI guarantees both; the Rust code would underflow or
  divide by zero otherwise.
- CommandLine.ParseArgs: `--help` yields `HelpRequested`; printing the usage
  and exiting with code 0 are not modelled.
- IpcJson:
  - The codec is a JSON subset written for the two message shapes. It has
    booleans, strings and objects, and no whitespace, numbers or `null`.
  - A duplicate key takes its first value; serde would reject the message.
  - UTF-8 byte encoding is not modelled: text is a sequence of characters.
- IpcPipe.IpcServer.AcceptWithTimeout: the 4096-byte read limit is counted
  in characters, not UTF-8 bytes.
- Control.SetUp: sizes both rings with the corrected `Control.BufferSamples` of the main.rs:187 finding. Above 89478 ms the source's rings are smaller (`Control.RingSlotsAgreeBelowOverflow`).
- Control.RingSlots: is the corrected ring size, not the one `run_proxy` computes above 89478 ms. `Control.RingSlotsAsWritten` is the as-written size.
- Control.BufferSamplesAsWritten: models a build without overflow checks,
  where the `u32` product wraps. A debug build would panic instead.

## Findings

| source | as written | input that shows it | evidently intended | confidence | as-written member | corrected member |
|---|---|---|---|---|---|---|
| src/audio-proxy/src/main.rs:187 | `DEFAULT_SAMPLE_RATE * args.buffer_ms` is a `u32` multiplication, which wraps once `buffer_ms` exceeds 89478 | `--buffer 89479`: the product wraps to 24704, so the buffer is 48 samples (a 256-slot ring) instead of 8589984 | 96 samples per millisecond for any accepted `buffer_ms` (compute in `usize` or `u64`) | not executed | Control.AsWrittenWrapsAt89479 | Control.BufferSamples |
