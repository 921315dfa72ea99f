/** Key codes read from the terminal and the action each one selects in the
    teleoperation loop. */
module Keys {

  /** One byte delivered by a one-byte terminal read. */
  newtype byte = x: int | 0 <= x < 256

  // The key codes the program defines (arrow keys arrive as the final byte
  // of their escape sequence).
  const KeyRight: byte := 0x43
  const KeyLeft: byte := 0x44
  const KeyUp: byte := 0x41
  const KeyDown: byte := 0x42
  const KeyB: byte := 0x62
  const KeyC: byte := 0x63
  const KeyD: byte := 0x64
  const KeyE: byte := 0x65
  const KeyF: byte := 0x66
  const KeyG: byte := 0x67
  const KeyQ: byte := 0x71
  const KeyR: byte := 0x72
  const KeyT: byte := 0x74
  const KeyV: byte := 0x76
  const KeyP: byte := 0x70
  const KeyM: byte := 0x6D
  const KeyS: byte := 0x73

  /** What one iteration of the loop does with a key. */
  datatype Action =
    | TurnLeft | TurnRight | Forward | Backward   // movement keys
    | SpeedUp | SpeedDown                          // 'p' and 'm'
    | Quit                                         // 'q'
    | Ignore                                       // every other byte

  predicate IsMovement(a: Action) {
    a.TurnLeft? || a.TurnRight? || a.Forward? || a.Backward?
  }

  /** The cases of the loop's switch statement. */
  function Classify(c: byte): (a: Action)
    ensures IsMovement(a) <==> c in {KeyLeft, KeyRight, KeyUp, KeyDown}
    ensures a == Quit <==> c == KeyQ
  {
    if c == KeyLeft then TurnLeft
    else if c == KeyRight then TurnRight
    else if c == KeyUp then Forward
    else if c == KeyDown then Backward
    else if c == KeyP then SpeedUp
    else if c == KeyM then SpeedDown
    else if c == KeyQ then Quit
    else Ignore
  }

  /** The key that selects a given action (every action but Ignore has one). */
  function CodeOf(a: Action): (c: byte)
    requires !a.Ignore?
    ensures Classify(c) == a
  {
    match a
    case TurnLeft => KeyLeft
    case TurnRight => KeyRight
    case Forward => KeyUp
    case Backward => KeyDown
    case SpeedUp => KeyP
    case SpeedDown => KeyM
    case Quit => KeyQ
  }

  /** The mapping is exact: a key that selects an action is that action's
      code, so no two keys share an action, and exactly seven bytes are not
      ignored. */
  lemma ClassifyExact(c: byte)
    ensures !Classify(c).Ignore? ==> CodeOf(Classify(c)) == c
    ensures Classify(c).Ignore? <==>
      c !in {KeyLeft, KeyRight, KeyUp, KeyDown, KeyP, KeyM, KeyQ}
  {
  }

  /** The letter keys the program defines but the loop does not handle
      ('s' included: its case is commented out) are ignored. */
  lemma UnhandledLettersIgnored(c: byte)
    requires c in {KeyB, KeyC, KeyD, KeyE, KeyF, KeyG, KeyR, KeyT, KeyV, KeyS}
    ensures Classify(c) == Ignore
  {
  }
}
