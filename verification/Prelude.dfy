/** Shared vocabulary: identifiers, instants, faults and results. */
module Prelude {

  /** Identifiers are opaque; 0 stands for Go's empty string. */
  type Id = nat
  const NO_ID: Id := 0

  /** Instants count from Go's zero time, which is 0 and is stored as NULL or "". */
  type Instant = int
  const ZERO_TIME: Instant := 0

  /** The fault kinds that the services branch on. */
  datatype Fault = Validation | Unauthorized | Forbidden | NotFound | Conflict | Precondition | Cancelled

  datatype Option<+T> = None | Some(value: T)

  datatype Result<+T> = Ok(value: T) | Err(fault: Fault) {
    predicate IsFailure() { Err? }

    function PropagateFailure<U>(): Result<U>
      requires Err?
    {
      Err(fault)
    }

    function Extract(): T
      requires Ok?
    {
      value
    }
  }

  function Kept<T>(r: Result<T>): Option<T> {
    match r
    case Ok(value) => Some(value)
    case Err(_) => None
  }

  lemma {:induction false} SubsetIsNotLarger<T>(a: set<T>, b: set<T>)
    requires a <= b
    ensures |a| <= |b|
    decreases a
  {
    if x :| x in a {
      SubsetIsNotLarger(a - {x}, b - {x});
    }
  }

  /** What a service finds out about its caller: complete actor context, a stored user, the role it
      asks for. */
  datatype Caller = Caller(complete: bool, known: bool, permitted: bool) {
    function Refusal(): Option<Fault> {
      if !complete then Some(Unauthorized) else if !known then Some(NotFound)
      else if !permitted then Some(Forbidden) else None
    }
  }

  /** A mutating Go method with an error result met its specification: on success the receiver
      holds the specified value, on failure it is as before and the fault is the specified one. */
  ghost predicate Meets<T>(spec: Result<T>, before: T, after: T, err: Option<Fault>) {
    match spec
    case Ok(value) => err == None && after == value
    case Err(fault) => err == Some(fault) && after == before
  }
}
