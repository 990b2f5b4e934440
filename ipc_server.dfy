/**
 * The relay's end of the control pipe (`IpcServer` in `ipc.rs`): one client
 * at a time connects, sends one command, gets one response, and is
 * disconnected.  The Win32 calls are parameters: whether `CreateNamedPipeW`
 * succeeded, what `ConnectNamedPipe` and `ReadFile` returned, whether
 * `WriteFile` succeeded.  The only state is the `connected` flag, plus a
 * count of the `DisconnectNamedPipe` calls made so far.
 */
module IpcPipe {
  import opened Wrappers
  import opened Ipc
  import opened IpcJson

  /** `ERROR_PIPE_CONNECTED`: a client connected before `ConnectNamedPipe` was called. */
  const ERROR_PIPE_CONNECTED: int := 535

  /** Size of the read buffer; a longer message makes `ReadFile` fail with `ERROR_MORE_DATA`. */
  const READ_BUFFER_SIZE: nat := 4096

  const PIPE_CREATE_ERROR: string := "Failed to create named pipe"
  const PARSE_ERROR: string := "Failed to parse IPC command"
  const NOT_CONNECTED_ERROR: string := "Not connected to client"
  const WRITE_ERROR: string := "Failed to write to pipe"

  datatype ConnectResult = ConnectOk | ConnectErr(code: int)

  datatype ReadResult = ReadErr | ReadMessage(text: string)

  /**
   * One call of `accept_with_timeout`: what it returns, whether a client is
   * connected afterwards, and whether it called `DisconnectNamedPipe`.
   */
  datatype AcceptStep = AcceptStep(result: Result<Option<IpcCommand>, string>, connected: bool, hungUp: bool)

  /** One call of `send_response`, with the text handed to `WriteFile` if any. */
  datatype SendStep = SendStep(result: Result<(), string>, written: Option<string>, connected: bool, hungUp: bool)

  /** Whether the connect phase leaves a client attached. */
  predicate Attached(connected: bool, connect: ConnectResult) {
    connected || connect.ConnectOk? || connect.code == ERROR_PIPE_CONNECTED
  }

  /**
   * `accept_with_timeout`: a command is delivered only with the client still
   * attached; every hang-up leaves the server waiting for the next client
   * with nothing to act on; the only error is a message that does not parse.
   */
  function Accept(connected: bool, connect: ConnectResult, read: ReadResult): (r: AcceptStep)
    ensures r.result.Ok? && r.result.value.Some? ==> r.connected && !r.hungUp
    ensures r.hungUp ==> !r.connected && r.result == Ok(None)
    ensures r.hungUp <==> Attached(connected, connect) && !r.connected
    ensures r.result.Err? ==> r.result.error == PARSE_ERROR && r.connected
    ensures !Attached(connected, connect) ==> r == AcceptStep(Ok(None), false, false)
  {
    if !Attached(connected, connect) then AcceptStep(Ok(None), false, false)
    else
      match read
      case ReadErr => AcceptStep(Ok(None), false, true)
      case ReadMessage(text) =>
        if |text| == 0 || |text| > READ_BUFFER_SIZE then AcceptStep(Ok(None), false, true)
        else
          match DecodeCommand(text)
          case Some(c) => AcceptStep(Ok(Some(c)), true, false)
          case None => AcceptStep(Err(PARSE_ERROR), true, false)
  }

  /**
   * `send_response`: nothing is written without a client; with one, the
   * encoded response is written and the client is hung up on either way.
   */
  function Send(connected: bool, response: IpcResponse, writeOk: bool): (r: SendStep)
    ensures !r.connected
    ensures r.hungUp <==> connected
    ensures r.written.Some? <==> connected
    ensures r.result.Ok? <==> connected && writeOk
  {
    if !connected then SendStep(Err(NOT_CONNECTED_ERROR), None, false, false)
    else if !writeOk then SendStep(Err(WRITE_ERROR), Some(EncodeResponse(response)), false, true)
    else SendStep(Ok(()), Some(EncodeResponse(response)), false, true)
  }

  class IpcServer {
    var connected: bool
    /** How many times `DisconnectNamedPipe` has been called on the pipe. */
    var hangUps: nat

    constructor ()
      ensures !connected && hangUps == 0
    {
      connected := false;
      hangUps := 0;
    }

    /** `IpcServer::new`, given whether `CreateNamedPipeW` returned a valid handle. */
    static method New(pipeCreated: bool) returns (r: Result<IpcServer, string>)
      ensures r.Ok? <==> pipeCreated
      ensures r.Ok? ==> fresh(r.value) && !r.value.connected && r.value.hangUps == 0
      ensures r.Err? ==> r.error == PIPE_CREATE_ERROR
    {
      if !pipeCreated {
        return Err(PIPE_CREATE_ERROR);
      }
      var server := new IpcServer();
      return Ok(server);
    }

    method AcceptWithTimeout(connect: ConnectResult, read: ReadResult) returns (r: Result<Option<IpcCommand>, string>)
      modifies this
      ensures var step := Accept(old(connected), connect, read);
        r == step.result && connected == step.connected
        && hangUps == old(hangUps) + (if step.hungUp then 1 else 0)
    {
      if !connected {
        if connect.ConnectErr? && connect.code != ERROR_PIPE_CONNECTED {
          return Ok(None);
        }
        connected := true;
      }
      if read.ReadErr? || |read.text| == 0 || |read.text| > READ_BUFFER_SIZE {
        Disconnect();
        return Ok(None);
      }
      var command := DecodeCommand(read.text);
      if command.None? {
        return Err(PARSE_ERROR);
      }
      return Ok(command);
    }

    method SendResponse(response: IpcResponse, writeOk: bool) returns (r: Result<(), string>, written: Option<string>)
      modifies this
      ensures var step := Send(old(connected), response, writeOk);
        r == step.result && written == step.written && connected == step.connected
        && hangUps == old(hangUps) + (if step.hungUp then 1 else 0)
    {
      if !connected {
        return Err(NOT_CONNECTED_ERROR), None;
      }
      written := Some(EncodeResponse(response));
      if !writeOk {
        Disconnect();
        return Err(WRITE_ERROR), written;
      }
      Disconnect();
      r := Ok(());
    }

    /** Hangs up on the client; the pipe is only told when one is connected. */
    method Disconnect()
      modifies this
      ensures !connected
      ensures hangUps == old(hangUps) + (if old(connected) then 1 else 0)
    {
      if connected {
        hangUps := hangUps + 1;
        connected := false;
      }
    }
  }

  /** A refused connection yields nothing and leaves the server waiting, whatever the pipe holds. */
  lemma AcceptRefused(code: int, read: ReadResult)
    requires code != ERROR_PIPE_CONNECTED
    ensures Accept(false, ConnectErr(code), read) == AcceptStep(Ok(None), false, false)
  {
  }

  /** A client that connected before the call (error 535) is treated as connected. */
  lemma EarlyClientIsAccepted(wasConnected: bool, read: ReadResult)
    ensures Accept(wasConnected, ConnectErr(ERROR_PIPE_CONNECTED), read) == Accept(true, ConnectOk, read)
  {
  }

  /** A failed, empty or oversized read hangs up on the client and yields no command. */
  lemma AcceptLostClient(connected: bool, connect: ConnectResult, read: ReadResult)
    requires Attached(connected, connect)
    requires read.ReadErr? || |read.text| == 0 || |read.text| > READ_BUFFER_SIZE
    ensures Accept(connected, connect, read) == AcceptStep(Ok(None), false, true)
  {
  }

  /** Whatever command a client sends (within the buffer) is the command the relay acts on. */
  lemma AcceptDelivers(connected: bool, connect: ConnectResult, c: IpcCommand)
    requires Attached(connected, connect)
    requires |EncodeCommand(c)| <= READ_BUFFER_SIZE
    ensures Accept(connected, connect, ReadMessage(EncodeCommand(c))) == AcceptStep(Ok(Some(c)), true, false)
  {
    CommandRoundTrip(c);
  }

  /**
   * A message that is not a command is an error, and the client stays
   * connected: `?` returns before any hang-up.
   */
  lemma MalformedKeepsClient(connected: bool, connect: ConnectResult, text: string)
    requires Attached(connected, connect)
    requires 0 < |text| <= READ_BUFFER_SIZE && DecodeCommand(text).None?
    ensures Accept(connected, connect, ReadMessage(text)) == AcceptStep(Err(PARSE_ERROR), true, false)
  {
  }

  /** Every response ends the conversation: the server is disconnected afterwards. */
  lemma SendAlwaysEnds(connected: bool, response: IpcResponse, writeOk: bool)
    ensures !Send(connected, response, writeOk).connected
    ensures Send(connected, response, writeOk).hungUp <==> connected
    ensures Send(connected, response, writeOk).result.Ok? <==> connected && writeOk
  {
  }

  /** What a connected server writes is the response, as the client will read it. */
  lemma SendDelivers(response: IpcResponse, writeOk: bool)
    ensures Send(true, response, writeOk).written.Some?
    ensures DecodeResponse(Send(true, response, writeOk).written.value) == Some(response)
  {
    ResponseRoundTrip(response);
  }
}
