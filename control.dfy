/**
 * The relay's control state and what the run-time commands do to it
 * (`handle_ipc_command` and the set-up in `run_proxy`, `main.rs`).
 *
 * The state is shared between threads in the relay (an `AtomicBool` and
 * `RwLock`s); here each command is one atomic step on a `SharedState`
 * object.  The microphone handles exist only when a microphone proxy was
 * configured on the command line.
 */
module Control {
  import opened Wrappers
  import opened Ipc
  import opened CommandLine
  import opened RingBuffer

  const OUTPUT_UPDATED: string := "Output device updated"
  const STOPPING: string := "Stopping proxy"
  const MIC_INPUT_UPDATED: string := "Mic input device updated"
  const MIC_ENABLED: string := "Mic proxy enabled"
  const MIC_DISABLED: string := "Mic proxy disabled"
  const MIC_NOT_CONFIGURED: string := "Mic proxy not configured"

  /** The values behind the handles `handle_ipc_command` is given. */
  datatype ControlState = ControlState(
    running: bool,
    outputDeviceId: string,
    micInputId: Option<string>,
    micEnabled: Option<bool>)

  /** The two microphone handles come and go together, as `run_proxy` creates them. */
  predicate MicPaired(s: ControlState) {
    s.micInputId.Some? <==> s.micEnabled.Some?
  }

  /**
   * `handle_ipc_command`: the response, and the state after the command.
   * Each command touches only its own cell, no command creates or removes a
   * mic handle, and only `Stop` changes the running flag.
   */
  function Dispatch(s: ControlState, c: IpcCommand): (r: (IpcResponse, ControlState))
    ensures r.1.running == (s.running && !c.Stop?)
    ensures r.1.outputDeviceId == (if c.SetOutput? then c.deviceId else s.outputDeviceId)
    ensures r.1.micInputId == (if c.SetMicInput? && s.micInputId.Some? then Some(c.deviceId) else s.micInputId)
    ensures r.1.micEnabled == (if c.EnableMic? && s.micEnabled.Some? then Some(c.enabled) else s.micEnabled)
    ensures !r.0.success ==> r.1 == s
  {
    match c
    case SetOutput(id) => (Success(OUTPUT_UPDATED), s.(outputDeviceId := id))
    case GetStatus =>
      if s.micInputId.Some? && s.micEnabled.Some? then
        (StatusFull(s.running, s.outputDeviceId, s.micEnabled.value, Some(s.micInputId.value)), s)
      else
        (Status(s.running, s.outputDeviceId), s)
    case Stop => (Success(STOPPING), s.(running := false))
    case SetMicInput(id) =>
      if s.micInputId.Some? then (Success(MIC_INPUT_UPDATED), s.(micInputId := Some(id)))
      else (Error(MIC_NOT_CONFIGURED), s)
    case EnableMic(e) =>
      if s.micEnabled.Some? then (Success(if e then MIC_ENABLED else MIC_DISABLED), s.(micEnabled := Some(e)))
      else (Error(MIC_NOT_CONFIGURED), s)
  }

  /** The shared cells the IPC thread updates in place. */
  class SharedState {
    var running: bool
    var outputDeviceId: string
    var micInputId: Option<string>
    var micEnabled: Option<bool>

    function State(): ControlState
      reads this
    {
      ControlState(running, outputDeviceId, micInputId, micEnabled)
    }

    constructor (initial: ControlState)
      ensures State() == initial
    {
      running := initial.running;
      outputDeviceId := initial.outputDeviceId;
      micInputId := initial.micInputId;
      micEnabled := initial.micEnabled;
    }

    method HandleIpcCommand(c: IpcCommand) returns (r: IpcResponse)
      modifies this
      ensures (r, State()) == Dispatch(old(State()), c)
    {
      match c {
        case SetOutput(id) =>
          outputDeviceId := id;
          r := Success(OUTPUT_UPDATED);
        case GetStatus =>
          if micInputId.Some? && micEnabled.Some? {
            r := StatusFull(running, outputDeviceId, micEnabled.value, Some(micInputId.value));
          } else {
            r := Status(running, outputDeviceId);
          }
        case Stop =>
          running := false;
          r := Success(STOPPING);
        case SetMicInput(id) =>
          if micInputId.Some? {
            micInputId := Some(id);
            r := Success(MIC_INPUT_UPDATED);
          } else {
            r := Error(MIC_NOT_CONFIGURED);
          }
        case EnableMic(e) =>
          if micEnabled.Some? {
            micEnabled := Some(e);
            r := Success(if e then MIC_ENABLED else MIC_DISABLED);
          } else {
            r := Error(MIC_NOT_CONFIGURED);
          }
      }
    }
  }

  // ---------------------------------------------------------------------
  // What each command does

  /** `SetOutput` replaces the output id and nothing else, and succeeds. */
  lemma SetOutputEffect(s: ControlState, id: string)
    ensures Dispatch(s, SetOutput(id)).0 == Success(OUTPUT_UPDATED)
    ensures Dispatch(s, SetOutput(id)).1 == ControlState(s.running, id, s.micInputId, s.micEnabled)
  {
  }

  /** `Stop` clears the running flag and nothing else, and succeeds. */
  lemma StopEffect(s: ControlState)
    ensures Dispatch(s, Stop).0 == Success(STOPPING)
    ensures Dispatch(s, Stop).1 == ControlState(false, s.outputDeviceId, s.micInputId, s.micEnabled)
  {
  }

  /** `GetStatus` changes nothing and reports mic state exactly when both mic handles exist. */
  lemma GetStatusReports(s: ControlState)
    ensures Dispatch(s, GetStatus).1 == s
    ensures var r := Dispatch(s, GetStatus).0;
      r.success && r.message == STATUS_MESSAGE
      && r.running == Some(s.running) && r.outputDevice == Some(s.outputDeviceId)
      && (r.micEnabled.Some? <==> s.micInputId.Some? && s.micEnabled.Some?)
      && (r.micEnabled.Some? ==> r.micEnabled == s.micEnabled && r.micInputDevice == s.micInputId)
      && (r.micEnabled.None? ==> r.micInputDevice.None?)
  {
  }

  /** Without a mic input handle, `SetMicInput` is refused and changes nothing; with one, it replaces it. */
  lemma SetMicInputEffect(s: ControlState, id: string)
    ensures s.micInputId.None? ==> Dispatch(s, SetMicInput(id)) == (Error(MIC_NOT_CONFIGURED), s)
    ensures s.micInputId.Some? ==>
      Dispatch(s, SetMicInput(id)) == (Success(MIC_INPUT_UPDATED), ControlState(s.running, s.outputDeviceId, Some(id), s.micEnabled))
  {
  }

  /** Without a mic flag, `EnableMic` is refused and changes nothing; with one, it sets the flag. */
  lemma EnableMicEffect(s: ControlState, e: bool)
    ensures s.micEnabled.None? ==> Dispatch(s, EnableMic(e)) == (Error(MIC_NOT_CONFIGURED), s)
    ensures s.micEnabled.Some? ==>
      Dispatch(s, EnableMic(e)).1 == ControlState(s.running, s.outputDeviceId, s.micInputId, Some(e))
    ensures s.micEnabled.Some? ==> Dispatch(s, EnableMic(e)).0 == Success(if e then MIC_ENABLED else MIC_DISABLED)
  {
  }

  /** A refused command leaves the state as it was, and only the mic commands are ever refused. */
  lemma FailureChangesNothing(s: ControlState, c: IpcCommand)
    ensures !Dispatch(s, c).0.success ==> Dispatch(s, c).1 == s
    ensures !Dispatch(s, c).0.success <==>
      (c.SetMicInput? && s.micInputId.None?) || (c.EnableMic? && s.micEnabled.None?)
  {
  }

  /** Only `Stop` touches the running flag, and once cleared no command sets it again. */
  lemma OnlyStopStops(s: ControlState, c: IpcCommand)
    ensures Dispatch(s, c).1.running == (s.running && !c.Stop?)
  {
  }

  /** No command creates or removes a mic handle, so the pairing is kept. */
  lemma MicHandlesStay(s: ControlState, c: IpcCommand)
    ensures Dispatch(s, c).1.micInputId.Some? == s.micInputId.Some?
    ensures Dispatch(s, c).1.micEnabled.Some? == s.micEnabled.Some?
    ensures MicPaired(s) ==> MicPaired(Dispatch(s, c).1)
  {
  }

  /** A status request after `SetOutput(id)` reports `id` as the output device. */
  lemma StatusAfterSetOutput(s: ControlState, id: string)
    ensures Dispatch(Dispatch(s, SetOutput(id)).1, GetStatus).0.outputDevice == Some(id)
    ensures Dispatch(Dispatch(s, SetOutput(id)).1, GetStatus).0.running == Some(s.running)
  {
    SetOutputEffect(s, id);
    GetStatusReports(Dispatch(s, SetOutput(id)).1);
  }

  // ---------------------------------------------------------------------
  // Start-up: the control state and the ring sizes of `run_proxy`

  const DEFAULT_SAMPLE_RATE: nat := 48000
  const DEFAULT_CHANNELS: nat := 2

  /** The state `run_proxy` starts from: running, and a mic proxy only when both mic devices were given. */
  function InitialState(args: Args): (s: ControlState)
    ensures s.running && s.outputDeviceId == args.speakerOut
    ensures s.micInputId.Some? <==> args.micIn.Some? && args.micOut.Some?
    ensures s.micInputId.Some? ==> s.micInputId == args.micIn && s.micEnabled == Some(true)
    ensures MicPaired(s)
  {
    if args.micIn.Some? && args.micOut.Some? then
      ControlState(true, args.speakerOut, args.micIn, Some(true))
    else
      ControlState(true, args.speakerOut, None, None)
  }

  /**
   * `buffer_samples` as written: `DEFAULT_SAMPLE_RATE * buffer_ms` is a
   * `u32` product, which wraps (in a build without overflow checks) once
   * `buffer_ms` exceeds 89478.
   */
  function BufferSamplesAsWritten(bufferMs: nat): (n: nat)
    ensures n % DEFAULT_CHANNELS == 0
    ensures n <= 8589934
  {
    (DEFAULT_SAMPLE_RATE * bufferMs) % U32_LIMIT / 1000 * DEFAULT_CHANNELS
  }

  /** The ring sizes of `run_proxy` as written, from the wrapping product. */
  function RingSlotsAsWritten(bufferMs: nat): (slots: nat)
    ensures IsPowerOfTwo(slots) && 4 * BufferSamplesAsWritten(bufferMs) <= slots
  {
    NextPowerOfTwo(BufferSamplesAsWritten(bufferMs) * 4)
  }

  /** The samples of `bufferMs` milliseconds of 48 kHz stereo, without wrap-around. */
  function BufferSamples(bufferMs: nat): (n: nat)
    ensures n == 96 * bufferMs
  {
    var perChannel := DEFAULT_SAMPLE_RATE * bufferMs / 1000;
    ModUnique(DEFAULT_SAMPLE_RATE * bufferMs, 1000, 48 * bufferMs, 0);
    perChannel * DEFAULT_CHANNELS
  }

  /** Slots of each ring: four times the buffer, rounded up to a power of two. */
  function RingSlots(bufferMs: nat): (slots: nat)
    ensures IsPowerOfTwo(slots) && 4 * BufferSamples(bufferMs) <= slots
  {
    NextPowerOfTwo(BufferSamples(bufferMs) * 4)
  }

  /** While the product fits in 32 bits, the written formula is the intended one. */
  lemma AsWrittenAgreesBelowOverflow(bufferMs: nat)
    requires bufferMs <= 89478
    ensures BufferSamplesAsWritten(bufferMs) == BufferSamples(bufferMs)
  {
    assert DEFAULT_SAMPLE_RATE * bufferMs <= DEFAULT_SAMPLE_RATE * 89478 by {
      if bufferMs < 89478 {
        MulStep(DEFAULT_SAMPLE_RATE, bufferMs, 89478);
      }
    }
    ModUnique(DEFAULT_SAMPLE_RATE * bufferMs, U32_LIMIT, 0, DEFAULT_SAMPLE_RATE * bufferMs);
  }

  /** Up to 89478 ms the rings are as large as the source makes them; at 89479 ms the source's are smaller. */
  lemma RingSlotsAgreeBelowOverflow(bufferMs: nat)
    ensures bufferMs <= 89478 ==> RingSlots(bufferMs) == RingSlotsAsWritten(bufferMs)
    ensures RingSlotsAsWritten(89479) < RingSlots(89479)
  {
    if bufferMs <= 89478 {
      AsWrittenAgreesBelowOverflow(bufferMs);
    }
    AsWrittenWrapsAt89479();
    assert 192 <= 256 && IsPowerOfTwo(256) by {
      assert IsPowerOfTwo(2) && IsPowerOfTwo(4) && IsPowerOfTwo(8) && IsPowerOfTwo(16);
      assert IsPowerOfTwo(32) && IsPowerOfTwo(64) && IsPowerOfTwo(128);
    }
    NextPowerOfTwoIsLeast(192, 256);
  }

  /** At 89479 ms the product wraps to 24704, so the buffer shrinks to 48 samples. */
  lemma AsWrittenWrapsAt89479()
    ensures BufferSamplesAsWritten(89479) == 48
    ensures BufferSamples(89479) == 8589984
    ensures BufferSamplesAsWritten(89479) < BufferSamplesAsWritten(89478)
  {
    ModUnique(DEFAULT_SAMPLE_RATE * 89479, U32_LIMIT, 1, 24704);
    AsWrittenAgreesBelowOverflow(89478);
  }

  lemma PowerOfTwo4096()
    ensures IsPowerOfTwo(4096)
  {
    assert IsPowerOfTwo(2) && IsPowerOfTwo(4) && IsPowerOfTwo(8) && IsPowerOfTwo(16);
    assert IsPowerOfTwo(32) && IsPowerOfTwo(64) && IsPowerOfTwo(128) && IsPowerOfTwo(256);
    assert IsPowerOfTwo(512) && IsPowerOfTwo(1024) && IsPowerOfTwo(2048);
  }

  /** The default 10 ms gives 960 samples and rings of 4096 slots (4095 usable). */
  lemma DefaultSizing()
    ensures BufferSamples(DEFAULT_BUFFER_MS) == 960
    ensures RingSlots(DEFAULT_BUFFER_MS) == 4096
  {
    var p := RingSlots(DEFAULT_BUFFER_MS);
    PowerOfTwo4096();
    NextPowerOfTwoIsLeast(3840, 4096);
  }

  /**
   * The set-up part of `run_proxy`: the control state, the speaker ring,
   * and a mic ring of the same size when a mic proxy is configured.
   */
  method SetUp<T(0)>(args: Args) returns (control: SharedState, speaker: AudioRingBuffer<T>, mic: Option<AudioRingBuffer<T>>)
    ensures fresh(control) && control.State() == InitialState(args)
    ensures fresh(speaker) && fresh(speaker.buffer) && speaker.Valid() && speaker.Contents == []
    ensures speaker.capacity == RingSlots(args.bufferMs)
    ensures mic.Some? <==> args.micIn.Some? && args.micOut.Some?
    ensures mic.Some? ==> fresh(mic.value) && fresh(mic.value.buffer)
    ensures mic.Some? ==> mic.value.Valid() && mic.value.Contents == [] && mic.value.capacity == RingSlots(args.bufferMs)
  {
    var bufferSamples := BufferSamples(args.bufferMs);
    speaker := new AudioRingBuffer<T>(bufferSamples * 4);
    control := new SharedState(InitialState(args));
    if args.micIn.Some? && args.micOut.Some? {
      var micBuffer := new AudioRingBuffer<T>(bufferSamples * 4);
      mic := Some(micBuffer);
    } else {
      mic := None;
    }
  }
}
