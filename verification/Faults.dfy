/** How a call into the outside world may end. In a calm world none fails and the process lives. */
module Faults {

  /** Refused is the caller's own way out; Raised is a call that failed, Crashed the end of the
      process in it. */
  datatype Outcome = Done | Refused | Raised | Crashed

  /** One call. It takes effect if it is done, and may have taken effect if it is not. */
  method Attempt(calm: bool) returns (o: Outcome, takes: bool)
    ensures !o.Refused? && (calm ==> o.Done?)
    ensures o.Done? ==> takes
  {
    takes := true;
    o := Done;
    if !calm {
      if * {
        o := Raised;
      } else if * {
        o := Crashed;
      }
    }
    if !o.Done? {
      takes := *;
    }
  }

  /** One call that changes nothing. */
  method Chance(calm: bool) returns (o: Outcome)
    ensures !o.Refused? && (calm ==> o.Done?)
  {
    var takes;
    o, takes := Attempt(calm);
  }
}
