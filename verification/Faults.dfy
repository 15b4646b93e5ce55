/** Failures of what lies below the service. */
module Faults {

  /** How calls of one kind fare: all succeed, any may fail, or all fail. */
  datatype Health = Sound | Flaky | Down

  /** Whether the next call fails; it never does where everything below is reliable. */
  method Breaks(reliable: bool) returns (broken: bool)
    ensures reliable ==> !broken
  {
    broken := *;
    broken := broken && !reliable;
  }
}
