/**
 * The relay's control-plane messages (`ipc.rs`): the commands a controller
 * sends over the named pipe and the response the relay sends back.
 */
module Ipc {
  import opened Wrappers

  /** `IpcCommand`, tagged by `command` with its fields under `data` on the wire. */
  datatype IpcCommand =
    | SetOutput(deviceId: string)
    | GetStatus
    | Stop
    | SetMicInput(deviceId: string)
    | EnableMic(enabled: bool)

  /** `IpcResponse`; the four optional fields are left out of the encoding when `None`. */
  datatype IpcResponse = IpcResponse(
    success: bool,
    message: string,
    running: Option<bool>,
    outputDevice: Option<string>,
    micEnabled: Option<bool>,
    micInputDevice: Option<string>)

  /** The message of both status responses. */
  const STATUS_MESSAGE: string := "Status retrieved"

  /** No state is echoed: all four optional fields are `None`. */
  predicate EchoesNothing(r: IpcResponse) {
    r.running.None? && r.outputDevice.None? && r.micEnabled.None? && r.micInputDevice.None?
  }

  /** `IpcResponse::success`. */
  function Success(message: string): (r: IpcResponse)
    ensures r.success && r.message == message && EchoesNothing(r)
  {
    IpcResponse(true, message, None, None, None, None)
  }

  /** `IpcResponse::error`. */
  function Error(message: string): (r: IpcResponse)
    ensures !r.success && r.message == message && EchoesNothing(r)
  {
    IpcResponse(false, message, None, None, None, None)
  }

  /** `IpcResponse::status`: the running flag and the output device, no mic fields. */
  function Status(running: bool, outputDevice: string): (r: IpcResponse)
    ensures r.success && r.message == STATUS_MESSAGE
    ensures r.running == Some(running) && r.outputDevice == Some(outputDevice)
    ensures r.micEnabled.None? && r.micInputDevice.None?
  {
    IpcResponse(true, STATUS_MESSAGE, Some(running), Some(outputDevice), None, None)
  }

  /** `IpcResponse::status_full`: `status` plus the mic flag, with the mic device passed through. */
  function StatusFull(running: bool, outputDevice: string, micEnabled: bool, micInputDevice: Option<string>): (r: IpcResponse)
    ensures r.success && r.message == STATUS_MESSAGE
    ensures r.running == Some(running) && r.outputDevice == Some(outputDevice)
    ensures r.micEnabled == Some(micEnabled) && r.micInputDevice == micInputDevice
  {
    IpcResponse(true, STATUS_MESSAGE, Some(running), Some(outputDevice), Some(micEnabled), micInputDevice)
  }

  /** `status_full` differs from `status` only in the two mic fields. */
  lemma StatusFullExtendsStatus(running: bool, outputDevice: string, micEnabled: bool, micInputDevice: Option<string>)
    ensures StatusFull(running, outputDevice, micEnabled, micInputDevice)
         == Status(running, outputDevice).(micEnabled := Some(micEnabled), micInputDevice := micInputDevice)
  {
  }
}
