/** The vocabulary shared by every part of the system: machine integers, monitors
    and the thirteen messages that travel between server and client. */
module Wire {
  newtype byte = x: int | 0 <= x < 0x100
  newtype uint16 = x: int | 0 <= x < 0x1_0000
  newtype uint32 = x: int | 0 <= x < 0x1_0000_0000
  newtype uint64 = x: int | 0 <= x < 0x1_0000_0000_0000_0000
  newtype int16 = x: int | -0x8000 <= x < 0x8000
  newtype int32 = x: int | -0x8000_0000 <= x < 0x8000_0000
  newtype int64 = x: int | -0x8000_0000_0000_0000 <= x < 0x8000_0000_0000_0000

  const TWO16 := 0x1_0000
  const TWO31 := 0x8000_0000
  const TWO32 := 0x1_0000_0000
  const TWO64 := 0x1_0000_0000_0000_0000

  /** A 32-bit word read as a signed integer. */
  function Int32(n: int): int
    requires 0 <= n < TWO32
  {
    if n < TWO31 then n else n - TWO32
  }

  datatype Option<+T> = None | Some(value: T)

  datatype Result<+T, +E> = Ok(value: T) | Err(error: E)

  /** One physical display of a peer, in that peer's own desktop coordinates. */
  datatype Monitor = Monitor(
    id: byte, x: int32, y: int32, w: uint32, h: uint32, primary: bool, name: seq<byte>)

  datatype Message =
    | Hello(version: uint16, clientName: seq<byte>, monitors: seq<Monitor>, token: seq<byte>)
    | Welcome(assignedName: seq<byte>)
    | MouseMove(dx: int16, dy: int16)
    | MouseAbs(monitorId: byte, x: uint16, y: uint16)
    | MouseButton(button: byte, down: bool)
    | MouseWheel(dx: int16, dy: int16)
    | KeyEvent(code: uint16, down: bool)
    | Ping(nonce: uint32)
    | Pong(nonce: uint32)
    | Grab(on: bool)
    | Bye(reason: seq<byte>)
    | MonitorsChanged(monitors: seq<Monitor>)
    | ClipboardUpdate(origin: seq<byte>, counter: uint64, format: byte, data: seq<byte>)
}
