/** The vocabulary shared by the keystroke loop and the input-method session:
    raw terminal bytes, the gamescope_input_method requests the client sends,
    and the events the compositor delivers during a roundtrip. */
module ImeProtocol {

  /** One raw byte read from the terminal (`getch` returns 0..255). */
  type byte = x: int | 0 <= x < 0x100

  /** The protocol's `uint` serial. */
  type uint32 = x: int | 0 <= x < 0x1_0000_0000

  /** The editing actions of `gamescope_input_method.set_action` that the client uses. */
  datatype ActionKind = DeleteLeft | DeleteRight | MoveUp | MoveDown | MoveLeft | MoveRight | Submit

  /** A request as it reaches the compositor, in the order it is sent.
      `Roundtrip` stands for one `wl_display_roundtrip`, the point at which
      pending events are delivered. */
  datatype Request =
    | SetString(text: seq<byte>)
    | SetAction(kind: ActionKind)
    | Commit(serial: uint32)
    | Roundtrip

  /** Events of the input-method object: `done` carries a new serial,
      `unavailable` announces that another input method owns the seat. */
  datatype Event = Done(serial: uint32) | Unavailable

  const BACKSPACE: byte := 0x08
  const LINE_FEED: byte := 0x0a
  const CARRIAGE_RETURN: byte := 0x0d
  const ESCAPE: byte := 0x1b
  const DELETE: byte := 0x7f
  const LEFT_BRACKET: byte := 0x5b

  /** Final bytes recognised after ESC (and any number of '['). */
  const KEY_UP: byte := 0x41         // 'A'
  const KEY_DOWN: byte := 0x42       // 'B'
  const KEY_RIGHT: byte := 0x43      // 'C'
  const KEY_LEFT: byte := 0x44       // 'D'
  const KEY_DELETE: byte := 0x33     // '3', as in ESC [ 3 ~
  const KEY_PAGE_UP: byte := 0x35    // '5', as in ESC [ 5 ~
  const KEY_PAGE_DOWN: byte := 0x36  // '6', as in ESC [ 6 ~
  const KEY_HOME: byte := 0x48       // 'H'
  const KEY_END: byte := 0x46        // 'F'

  /** How many single moves stand in for one page or home/end gesture. */
  const JUMP_COUNT: nat := 128
}
