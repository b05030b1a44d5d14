/** Stock types, and how commands of the host turn out. */
module Common {
  datatype Option<+T> = None | Some(value: T)

  datatype Result<+T, +E> = Ok(value: T) | Err(error: E)

  /** How an external command ends. `Interrupted`: it took effect but reported
      failure, as a command may that a signal ends late, be it sent through a
      cancelled context or by the host. */
  datatype Outcome = Done | Refused | Interrupted

  /** How a system call, or the context, happens to turn out. */
  method Chance() returns (yes: bool)
  {
    yes := *;
  }
}
