/** What the teleoperation loop consumes and produces: read outcomes in,
    publications on the two velocity channels out. */
module Messages {
  import opened Keys

  /** Scales applied to the command before publishing. */
  datatype Params = Params(lScale: real, aScale: real)

  /** Both scales default to 2.0 unless configured otherwise. */
  const DefaultParams: Params := Params(2.0, 2.0)

  /** The outcome of one blocking one-byte read. */
  datatype ReadOutcome =
    | Got(b: byte)   // one byte read
    | NoData         // the read returned 0 bytes
    | Failed         // the read reported an error

  /** One publication: the values sent on the two channels. */
  datatype Published = Published(linearX: real, angularZ: real)

  /** A publication drives at most one of the two channels. */
  predicate DrivesOneChannel(out: Published) {
    out.linearX == 0.0 || out.angularZ == 0.0
  }

  /** The value published for a raw command component: the command times
      the channel's scale. */
  function Scaled(scale: real, command: real): (r: real)
    ensures command == 0.0 ==> r == 0.0
    ensures scale == 1.0 ==> r == command
  {
    scale * command
  }

  datatype ExitReason = QuitKey | ReadError

  /** The key an iteration acts on: the byte read, or the previous key when
      the read delivered nothing (the key variable keeps its old value). */
  function KeyFor(prev: byte, ev: ReadOutcome): (key: byte)
    requires !ev.Failed?
    ensures ev == Got(key) || (ev.NoData? && key == prev)
  {
    match ev
    case Got(b) => b
    case NoData => prev
  }
}
