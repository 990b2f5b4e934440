/**
 * Device selection and stream bookkeeping of the relay (`audio_stream.rs`).
 *
 * The WASAPI calls are inputs: the device list is a sequence of entries
 * (each either a device, with an id and a friendly name that may fail to
 * be read, or an enumeration error), the outcome of each start-up call is a
 * parameter, and sample values are opaque.
 */
module AudioStream {
  import opened Wrappers
  import opened RingBuffer

  /** `AudioFormat`: what the device's mix format reports. */
  datatype AudioFormat = AudioFormat(sampleRate: nat, channels: nat, bitsPerSample: nat, blockAlign: nat)

  /** The only sample width the relay handles (32-bit float, shared mode). */
  const SUPPORTED_BITS: nat := 32

  // ---------------------------------------------------------------------
  // find_device_by_id

  /** A device as enumeration shows it; `None` is a property that could not be read. */
  datatype Device = Device(id: Option<string>, name: Option<string>)

  /** One item of a device collection: a device, or an error enumerating it. */
  datatype Entry = Enumerated(device: Device) | EnumerationError

  datatype FindError = CollectionFailed | EnumerationFailed(index: nat) | NotFound

  /** The three passes, tried in this order. */
  datatype Tier = ById | ByName | ByPartialName

  function LowerChar(c: char): char {
    if 'A' <= c <= 'Z' then (c as int + 32) as char else c
  }

  /** ASCII lower-casing. */
  function Lower(s: string): (r: string)
    ensures |r| == |s| && forall i :: 0 <= i < |s| ==> r[i] == LowerChar(s[i])
  {
    seq(|s|, i requires 0 <= i < |s| => LowerChar(s[i]))
  }

  /** `str::eq_ignore_ascii_case`. */
  predicate EqIgnoreAsciiCase(a: string, b: string) {
    Lower(a) == Lower(b)
  }

  /** `str::contains`: `needle` occurs in `hay` (the empty string occurs everywhere). */
  predicate Contains(hay: string, needle: string)
    decreases |hay|
  {
    (|needle| <= |hay| && hay[..|needle|] == needle) || (|hay| > 0 && Contains(hay[1..], needle))
  }

  lemma ContainsItself(s: string)
    ensures Contains(s, s)
  {
    assert s[..|s|] == s;
  }

  predicate Matches(tier: Tier, d: Device, target: string) {
    match tier
    case ById => d.id == Some(target)
    case ByName => d.name.Some? && EqIgnoreAsciiCase(d.name.value, target)
    case ByPartialName => d.name.Some? && Contains(Lower(d.name.value), Lower(target))
  }

  datatype PassResult = Found(index: nat) | Failed(index: nat) | Exhausted

  /**
   * One pass over the collection from entry `i`: the first matching device,
   * or the first enumeration error met before any match.
   */
  function ScanPass(entries: seq<Entry>, tier: Tier, target: string, i: nat): (r: PassResult)
    requires i <= |entries|
    ensures r.Found? ==>
      i <= r.index < |entries| && entries[r.index].Enumerated? && Matches(tier, entries[r.index].device, target)
    ensures r.Failed? ==> i <= r.index < |entries| && entries[r.index].EnumerationError?
    ensures r.Found? || r.Failed? ==> forall j :: i <= j < r.index ==>
              entries[j].Enumerated? && !Matches(tier, entries[j].device, target)
    ensures r.Exhausted? <==> forall j :: i <= j < |entries| ==>
              entries[j].Enumerated? && !Matches(tier, entries[j].device, target)
    decreases |entries| - i
  {
    if i == |entries| then Exhausted
    else if entries[i].EnumerationError? then Failed(i)
    else if Matches(tier, entries[i].device, target) then Found(i)
    else ScanPass(entries, tier, target, i + 1)
  }

  /**
   * `find_device_by_id`: the index of the chosen device in the collection.
   * `None` for the collection is a failure to create it; the same list is
   * seen by every pass.
   */
  function FindDeviceById(collection: Option<seq<Entry>>, target: string): (r: Result<nat, FindError>)
    ensures r == Err(CollectionFailed) <==> collection.None?
    ensures r.Ok? ==> r.value < |collection.value| && collection.value[r.value].Enumerated?
    ensures r.Err? && r.error.EnumerationFailed? ==>
      r.error.index < |collection.value| && collection.value[r.error.index].EnumerationError?
  {
    match collection
    case None => Err(CollectionFailed)
    case Some(entries) =>
      match ScanPass(entries, ById, target, 0)
      case Found(k) => Ok(k)
      case Failed(k) => Err(EnumerationFailed(k))
      case Exhausted =>
        match ScanPass(entries, ByName, target, 0)
        case Found(k) => Ok(k)
        case Failed(k) => Err(EnumerationFailed(k))
        case Exhausted =>
          match ScanPass(entries, ByPartialName, target, 0)
          case Found(k) => Ok(k)
          case Failed(k) => Err(EnumerationFailed(k))
          case Exhausted => Err(NotFound)
  }

  /** No device in the list matches at `tier`. */
  predicate NoneMatch(entries: seq<Entry>, tier: Tier, target: string) {
    forall j :: 0 <= j < |entries| ==> entries[j].Enumerated? && !Matches(tier, entries[j].device, target)
  }

  /** `k` is the first device matching at `tier`, with only devices before it. */
  predicate FirstMatch(entries: seq<Entry>, tier: Tier, target: string, k: nat) {
    && k < |entries| && entries[k].Enumerated? && Matches(tier, entries[k].device, target)
    && forall j :: 0 <= j < k ==> entries[j].Enumerated? && !Matches(tier, entries[j].device, target)
  }

  /**
   * The chosen device is the first exact id match; failing any, the first
   * case-insensitive name match; failing any, the first partial name match.
   */
  lemma FoundByTierOrder(entries: seq<Entry>, target: string, k: nat)
    requires FindDeviceById(Some(entries), target) == Ok(k)
    ensures FirstMatch(entries, ById, target, k)
         || (NoneMatch(entries, ById, target) && FirstMatch(entries, ByName, target, k))
         || (NoneMatch(entries, ById, target) && NoneMatch(entries, ByName, target)
             && FirstMatch(entries, ByPartialName, target, k))
  {
  }

  /**
   * Conversely, with every device enumerable, the first name match is chosen
   * when no id matches, and the first partial match when neither does.
   */
  lemma LaterTiersFind(entries: seq<Entry>, target: string, k: nat)
    requires forall j :: 0 <= j < |entries| ==> entries[j].Enumerated?
    ensures NoneMatch(entries, ById, target) && FirstMatch(entries, ByName, target, k)
      ==> FindDeviceById(Some(entries), target) == Ok(k)
    ensures NoneMatch(entries, ById, target) && NoneMatch(entries, ByName, target)
        && FirstMatch(entries, ByPartialName, target, k)
      ==> FindDeviceById(Some(entries), target) == Ok(k)
  {
  }

  /** "Not found" means no tier matched any device, and every device enumerated. */
  lemma NotFoundMeansNoMatch(entries: seq<Entry>, target: string)
    ensures FindDeviceById(Some(entries), target) == Err(NotFound) <==>
      NoneMatch(entries, ById, target) && NoneMatch(entries, ByName, target) && NoneMatch(entries, ByPartialName, target)
  {
  }

  /** With every device enumerable, an id match is always the answer, whatever the names say. */
  lemma IdMatchWins(entries: seq<Entry>, target: string, k: nat)
    requires forall j :: 0 <= j < |entries| ==> entries[j].Enumerated?
    requires FirstMatch(entries, ById, target, k)
    ensures FindDeviceById(Some(entries), target) == Ok(k)
  {
  }

  /** Every exact name match is also a partial one, so the third pass finds whatever the second would. */
  lemma NameMatchIsPartialMatch(d: Device, target: string)
    requires Matches(ByName, d, target)
    ensures Matches(ByPartialName, d, target)
  {
    ContainsItself(Lower(target));
  }

  // ---------------------------------------------------------------------
  // bytes_to_f32

  newtype byte = b: int | 0 <= b < 256

  /** The `u32` of four bytes in little-endian order (`u32::from_le_bytes`). */
  function LittleEndian(b0: byte, b1: byte, b2: byte, b3: byte): (w: nat)
    ensures w < 0x1_0000_0000
  {
    b0 as nat + 0x100 * b1 as nat + 0x1_0000 * b2 as nat + 0x100_0000 * b3 as nat
  }

  /** `u32::to_le_bytes`. */
  function LittleEndianBytes(w: nat): (bs: (byte, byte, byte, byte))
    requires w < 0x1_0000_0000
  {
    var q0 := w / 0x100;
    var q1 := q0 / 0x100;
    ((w % 0x100) as byte, (q0 % 0x100) as byte, (q1 % 0x100) as byte, (q1 / 0x100) as byte)
  }

  /** Reading back the bytes of a word gives the word. */
  lemma LittleEndianRoundTrip(w: nat)
    requires w < 0x1_0000_0000
    ensures var bs := LittleEndianBytes(w); LittleEndian(bs.0, bs.1, bs.2, bs.3) == w
  {
    var q0, r0 := w / 0x100, w % 0x100;
    var q1, r1 := q0 / 0x100, q0 % 0x100;
    var q2, r2 := q1 / 0x100, q1 % 0x100;
    assert w == 0x100 * q0 + r0;
    assert q0 == 0x100 * q1 + r1;
    assert q1 == 0x100 * q2 + r2;
    assert w == r0 + 0x100 * r1 + 0x1_0000 * r2 + 0x100_0000 * q2;
  }

  /** Different byte quadruples are different words. */
  lemma LittleEndianInjective(a0: byte, a1: byte, a2: byte, a3: byte, b0: byte, b1: byte, b2: byte, b3: byte)
    requires LittleEndian(a0, a1, a2, a3) == LittleEndian(b0, b1, b2, b3)
    ensures a0 == b0 && a1 == b1 && a2 == b2 && a3 == b3
  {
    var w := LittleEndian(a0, a1, a2, a3);
    ModUnique(w, 0x100, a1 as nat + 0x100 * a2 as nat + 0x1_0000 * a3 as nat, a0 as nat);
    ModUnique(w, 0x100, b1 as nat + 0x100 * b2 as nat + 0x1_0000 * b3 as nat, b0 as nat);
    var v := w / 0x100;
    ModUnique(v, 0x100, a2 as nat + 0x100 * a3 as nat, a1 as nat);
    ModUnique(v, 0x100, b2 as nat + 0x100 * b3 as nat, b1 as nat);
    var u := v / 0x100;
    ModUnique(u, 0x100, a3 as nat, a2 as nat);
    ModUnique(u, 0x100, b3 as nat, b2 as nat);
  }

  /** The word stored in bytes `4i .. 4i+4`. */
  function WordAt(bytes: seq<byte>, i: nat): (w: nat)
    requires 4 * i + 4 <= |bytes|
    ensures w < 0x1_0000_0000
  {
    LittleEndian(bytes[4 * i], bytes[4 * i + 1], bytes[4 * i + 2], bytes[4 * i + 3])
  }

  /**
   * `bytes_to_f32`: decodes as many whole little-endian words as both the
   * bytes and `output` allow; `fromBits` is `f32::from_bits`.
   */
  method BytesToF32<F>(bytes: seq<byte>, output: array<F>, fromBits: nat -> F) returns (count: nat)
    modifies output
    ensures count == Min(|bytes| / 4, output.Length)
    ensures 4 * count <= |bytes|
    ensures forall i :: 0 <= i < count ==> output[i] == fromBits(WordAt(bytes, i))
    ensures forall i :: count <= i < output.Length ==> output[i] == old(output[i])
  {
    var numFloats := |bytes| / 4;
    count := Min(numFloats, output.Length);
    for i := 0 to count
      invariant forall j :: 0 <= j < i ==> output[j] == fromBits(WordAt(bytes, j))
      invariant forall j :: i <= j < output.Length ==> output[j] == old(output[j])
    {
      var offset := i * 4;
      output[i] := fromBits(LittleEndian(bytes[offset], bytes[offset + 1], bytes[offset + 2], bytes[offset + 3]));
    }
  }

  // ---------------------------------------------------------------------
  // Stream start/stop bookkeeping

  /**
   * The outcomes of the WASAPI calls `start` makes, in order: getting the
   * audio client, its mix format, initialising it, the buffer frame count
   * (render only), the capture or render service, and starting the stream.
   */
  datatype StartCalls = StartCalls(
    client: bool,
    mixFormat: Option<AudioFormat>,
    initialize: bool,
    bufferFrameCount: Option<nat>,
    service: bool,
    startStream: bool)

  datatype StreamError =
    | ClientFailed
    | MixFormatFailed
    | UnsupportedFormat(bits: nat)
    | InitializeFailed
    | BufferSizeFailed
    | ServiceFailed
    | StartFailed
    | StopFailed

  /**
   * What a first `start` yields: the format and (for a render stream) the
   * buffer frame count, or the first failing step.  Only 32-bit formats are
   * accepted, and that check precedes initialisation.
   */
  function StartOutcome(calls: StartCalls, render: bool): (r: Result<(AudioFormat, nat), StreamError>)
    ensures r.Ok? ==> r.value.0.bitsPerSample == SUPPORTED_BITS && Some(r.value.0) == calls.mixFormat
    ensures calls.mixFormat.Some? && calls.mixFormat.value.bitsPerSample != SUPPORTED_BITS && calls.client ==>
      r == Err(UnsupportedFormat(calls.mixFormat.value.bitsPerSample))
  {
    if !calls.client then Err(ClientFailed)
    else if calls.mixFormat.None? then Err(MixFormatFailed)
    else if calls.mixFormat.value.bitsPerSample != SUPPORTED_BITS then Err(UnsupportedFormat(calls.mixFormat.value.bitsPerSample))
    else if !calls.initialize then Err(InitializeFailed)
    else if render && calls.bufferFrameCount.None? then Err(BufferSizeFailed)
    else if !calls.service then Err(ServiceFailed)
    else if !calls.startStream then Err(StartFailed)
    else Ok((calls.mixFormat.value, if render then calls.bufferFrameCount.value else 0))
  }

  /** The fields `start` and `stop` manage, shared by both stream kinds. */
  datatype StreamState = StreamState(started: bool, clientReady: bool, format: Option<AudioFormat>, bufferFrameCount: nat)

  const FRESH: StreamState := StreamState(false, false, None, 0)

  /** A started stream has its client and a 32-bit format; a format is only ever one that start accepted. */
  predicate Consistent(s: StreamState) {
    && (s.started ==> s.clientReady && s.format.Some?)
    && (s.clientReady <==> s.format.Some?)
    && (s.format.Some? ==> s.format.value.bitsPerSample == SUPPORTED_BITS)
  }

  /**
   * `start`: a no-op when already started; otherwise started with the
   * accepted format, or unchanged on the first failing call.
   */
  function StartStep(s: StreamState, calls: StartCalls, render: bool): (r: (Result<(), StreamError>, StreamState))
    ensures r.0.Err? ==> r.1 == s && !s.started
    ensures r.0.Ok? ==> r.1.started
    ensures r.0.Ok? && !s.started ==> r.1.clientReady && calls.mixFormat.Some? && r.1.format == calls.mixFormat
    ensures r.0.Ok? && !s.started ==> calls.mixFormat.value.bitsPerSample == SUPPORTED_BITS
    ensures !render ==> r.1.bufferFrameCount == s.bufferFrameCount
  {
    if s.started then (Ok(()), s)
    else
      match StartOutcome(calls, render)
      case Err(e) => (Err(e), s)
      case Ok((format, frames)) =>
        (Ok(()), StreamState(true, true, Some(format), if render then frames else s.bufferFrameCount))
  }

  /** `stop`: only when started; a failing `stop_stream` leaves it started. */
  function StopStep(s: StreamState, stopOk: bool): (r: (Result<(), StreamError>, StreamState))
    ensures r.0.Ok? ==> !r.1.started
    ensures r.0.Err? ==> r.1 == s && s.started && !stopOk
    ensures r.1.(started := s.started) == s
  {
    if !s.started then (Ok(()), s)
    else if s.clientReady && !stopOk then (Err(StopFailed), s)
    else (Ok(()), s.(started := false))
  }

  lemma FreshIsConsistent()
    ensures Consistent(FRESH) && FRESH.format.None?
  {
  }

  /** Both operations keep the stream consistent. */
  lemma StartStopKeepConsistent(s: StreamState, calls: StartCalls, render: bool, stopOk: bool)
    requires Consistent(s)
    ensures Consistent(StartStep(s, calls, render).1)
    ensures Consistent(StopStep(s, stopOk).1)
  {
  }

  /** Starting a started stream, or stopping a stopped one, is a successful no-op. */
  lemma StartStopIdempotent(s: StreamState, calls: StartCalls, render: bool, stopOk: bool)
    ensures s.started ==> StartStep(s, calls, render) == (Ok(()), s)
    ensures !s.started ==> StopStep(s, stopOk) == (Ok(()), s)
    ensures var t := StartStep(s, calls, render).1; t.started ==> StartStep(t, calls, render) == (Ok(()), t)
  {
  }

  /** A failed start changes nothing, and a format other than 32-bit always fails it. */
  lemma StartFailureChangesNothing(s: StreamState, calls: StartCalls, render: bool)
    ensures StartStep(s, calls, render).0.Err? ==> StartStep(s, calls, render).1 == s
    ensures !s.started && calls.client && calls.mixFormat.Some? && calls.mixFormat.value.bitsPerSample != SUPPORTED_BITS
      ==> StartStep(s, calls, render) == (Err(UnsupportedFormat(calls.mixFormat.value.bitsPerSample)), s)
  {
  }

  /** A successful stop keeps the format, so `format()` still reports it. */
  lemma StopKeepsFormat(s: StreamState, stopOk: bool)
    ensures StopStep(s, stopOk).1.format == s.format
  {
  }

  /** `CaptureStream`: its device, client, format and `started` flag. */
  class CaptureStream {
    /** Index of the device in the collection it was found in. */
    var device: nat
    var started: bool
    var clientReady: bool
    var format: Option<AudioFormat>

    function State(): StreamState
      reads this
    {
      StreamState(started, clientReady, format, 0)
    }

    constructor (device: nat)
      ensures this.device == device && State() == FRESH
    {
      this.device := device;
      started := false;
      clientReady := false;
      format := None;
    }

    /** `CaptureStream::new`: a stopped stream on the device that lookup finds, or lookup's error. */
    static method New(collection: Option<seq<Entry>>, deviceId: string) returns (r: Result<CaptureStream, FindError>)
      ensures r.Ok? <==> FindDeviceById(collection, deviceId).Ok?
      ensures r.Ok? ==> fresh(r.value) && r.value.State() == FRESH
      ensures r.Ok? ==> r.value.device == FindDeviceById(collection, deviceId).value
      ensures r.Err? ==> r.error == FindDeviceById(collection, deviceId).error
    {
      var found := FindDeviceById(collection, deviceId);
      if found.Err? {
        return Err(found.error);
      }
      var stream := new CaptureStream(found.value);
      return Ok(stream);
    }

    method Start(calls: StartCalls) returns (r: Result<(), StreamError>)
      modifies this
      ensures (r, State()) == StartStep(old(State()), calls, false)
    {
      if started {
        return Ok(());
      }
      var outcome := StartOutcome(calls, false);
      if outcome.Err? {
        return Err(outcome.error);
      }
      clientReady := true;
      format := Some(outcome.value.0);
      started := true;
      r := Ok(());
    }

    method Stop(stopOk: bool) returns (r: Result<(), StreamError>)
      modifies this
      ensures (r, State()) == StopStep(old(State()), stopOk)
    {
      if !started {
        return Ok(());
      }
      if clientReady && !stopOk {
        return Err(StopFailed);
      }
      started := false;
      r := Ok(());
    }

    /** `format()`: `None` until a start succeeds; a started stream reports its 32-bit format. */
    function Format(): (f: Option<AudioFormat>)
      reads this
      ensures Consistent(State()) && started ==> f.Some? && f.value.bitsPerSample == SUPPORTED_BITS
      ensures State() == FRESH ==> f.None?
    {
      format
    }
  }

  datatype RenderError = NotInitialized | PaddingFailed | DeviceWriteFailed

  /** `RenderStream`: as a capture stream, plus the device buffer's frame count. */
  class RenderStream {
    var device: nat
    var started: bool
    var clientReady: bool
    var format: Option<AudioFormat>
    var bufferFrameCount: nat

    function State(): StreamState
      reads this
    {
      StreamState(started, clientReady, format, bufferFrameCount)
    }

    constructor (device: nat)
      ensures this.device == device && State() == FRESH
    {
      this.device := device;
      started := false;
      clientReady := false;
      format := None;
      bufferFrameCount := 0;
    }

    /** `RenderStream::new`: a stopped stream on the device that lookup finds, or lookup's error. */
    static method New(collection: Option<seq<Entry>>, deviceId: string) returns (r: Result<RenderStream, FindError>)
      ensures r.Ok? <==> FindDeviceById(collection, deviceId).Ok?
      ensures r.Ok? ==> fresh(r.value) && r.value.State() == FRESH
      ensures r.Ok? ==> r.value.device == FindDeviceById(collection, deviceId).value
      ensures r.Err? ==> r.error == FindDeviceById(collection, deviceId).error
    {
      var found := FindDeviceById(collection, deviceId);
      if found.Err? {
        return Err(found.error);
      }
      var stream := new RenderStream(found.value);
      return Ok(stream);
    }

    method Start(calls: StartCalls) returns (r: Result<(), StreamError>)
      modifies this
      ensures (r, State()) == StartStep(old(State()), calls, true)
    {
      if started {
        return Ok(());
      }
      var outcome := StartOutcome(calls, true);
      if outcome.Err? {
        return Err(outcome.error);
      }
      clientReady := true;
      bufferFrameCount := outcome.value.1;
      format := Some(outcome.value.0);
      started := true;
      r := Ok(());
    }

    method Stop(stopOk: bool) returns (r: Result<(), StreamError>)
      modifies this
      ensures (r, State()) == StopStep(old(State()), stopOk)
    {
      if !started {
        return Ok(());
      }
      if clientReady && !stopOk {
        return Err(StopFailed);
      }
      started := false;
      r := Ok(());
    }

    /** `format()`, as for a capture stream. */
    function Format(): (f: Option<AudioFormat>)
      reads this
      ensures Consistent(State()) && started ==> f.Some? && f.value.bitsPerSample == SUPPORTED_BITS
      ensures State() == FRESH ==> f.None?
    {
      format
    }

    /**
     * `write`: hands the device as many whole frames as it has room for and
     * returns the number of samples given.  `padding` is what
     * `get_current_padding` reports (never more than the buffer, as WASAPI
     * promises), and `writeOk` whether `write_to_device` succeeded.
     */
    method Write<S>(samples: seq<S>, padding: Option<nat>, writeOk: bool) returns (r: Result<nat, RenderError>, handed: seq<S>)
      requires Consistent(State())
      requires padding.Some? ==> padding.value <= bufferFrameCount
      requires format.Some? && padding.Some? && padding.value < bufferFrameCount ==> format.value.channels > 0
      ensures !clientReady ==> r == Err(NotInitialized) && handed == []
      ensures clientReady && padding.None? ==> r == Err(PaddingFailed) && handed == []
      ensures r.Ok? ==> format.Some? && padding.Some?
      ensures r.Ok? ==> var channels := format.value.channels;
        && r.value <= |samples| && r.value == |handed| && handed == samples[..r.value]
        && (channels > 0 ==> r.value % channels == 0)
        && (channels > 0 ==> r.value / channels <= bufferFrameCount - padding.value)
        && (padding.value == bufferFrameCount ==> r.value == 0)
      ensures r.Ok? && format.value.channels > 0 ==>
        r.value == Min(|samples| / format.value.channels, bufferFrameCount - padding.value) * format.value.channels
      ensures r.Err? && clientReady && padding.Some? ==> r == Err(DeviceWriteFailed) && !writeOk
    {
      handed := [];
      if !clientReady || format.None? {
        return Err(NotInitialized), [];
      }
      if padding.None? {
        return Err(PaddingFailed), [];
      }
      var available := bufferFrameCount - padding.value;
      if available == 0 {
        return Ok(0), [];
      }
      var channels := format.value.channels;
      var frames := Min(|samples| / channels, available);
      if frames == 0 {
        return Ok(0), [];
      }
      var count := frames * channels;
      WholeFramesFit(|samples|, channels, frames);
      handed := samples[..count];
      if !writeOk {
        return Err(DeviceWriteFailed), handed;
      }
      r := Ok(count);
    }
  }

  lemma WholeFramesFit(len: nat, channels: nat, frames: nat)
    requires channels > 0 && frames <= len / channels
    ensures frames * channels <= len
    ensures (frames * channels) % channels == 0 && (frames * channels) / channels == frames
  {
    ModUnique(frames * channels, channels, frames, 0);
    if frames < len / channels {
      MulStep(channels, frames, len / channels);
    }
  }
}
