/**
 * The connection timeout a client uses towards the node
 * (libtenzir/src/node_control.cpp): the configured
 * `tenzir.connection-timeout`, with zero meaning no timeout at all.
 */
module NodeControl {
  import opened Wrappers

  /** `caf::timespan`: a signed 64-bit count of nanoseconds. */
  type Timespan = x: int | -0x8000_0000_0000_0000 <= x < 0x8000_0000_0000_0000

  /** `caf::infinite` as a timespan: the largest one. */
  const Infinite: Timespan := 0x7fff_ffff_ffff_ffff

  /** `node_connection_timeout`. `configured` is what reading the option
      gives (the built-in default when it is not set, an error message when
      it does not read as a duration); `default` is the built-in default. */
  function NodeConnectionTimeout(configured: Result<Timespan, string>, default: Timespan): (t: Timespan)
    ensures configured.Err? ==> t == default
    ensures configured == Ok(0) ==> t == Infinite
    ensures configured.Ok? && configured.value != 0 ==> t == configured.value
  {
    match configured
    case Err(_) => default
    case Ok(timeout) => if timeout == 0 then Infinite else timeout
  }

  /** The error path hands out the default as it is, without turning a zero
      default into an infinite timeout. */
  lemma ErrorSkipsZeroRule(message: string)
    ensures NodeConnectionTimeout(Err(message), 0) == 0
    ensures NodeConnectionTimeout(Ok(0), 0) == Infinite
  {
  }
}
