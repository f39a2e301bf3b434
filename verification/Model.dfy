/** Domain values shared by the engine's parts. */
module Model {
  import opened Base

  datatype Status = Unknown | Up | Down

  /** A device's settings after resolving device, group and global tiers; times are whole seconds. */
  datatype Effective = Effective(
    device: int,
    group: Option<int>,
    addr: string,
    interval: int,
    timeout: int,
    failureThreshold: int,
    recoveryThreshold: int,
    notify: bool,
    recipients: seq<string>,
    pausedUntil: Option<int>)
  {
    predicate Paused(now: int) {
      pausedUntil.Some? && pausedUntil.value > now
    }
  }

  /** One probe outcome. */
  datatype Result = Result(device: int, ok: bool, canceled: bool, at: int, error: string, latency: int)
}
