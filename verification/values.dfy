/** Types shared by the engine, the registry and the run loop. */
module Values {

  datatype Option<+T> = None | Some(value: T)

  /** A dynamically typed value, standing in for Go's `interface{}` arguments and results. */
  datatype Value =
    | IntV(i: int)        // a Go `int`
    | FloatV(f: real)     // a Go floating-point value
    | StrV(s: string)     // a Go `string`
    | BoolV(b: bool)      // a Go `bool`
    | DurV(ns: int)       // a `time.Duration`, in nanoseconds
    | OtherV(tag: nat)    // any value of another dynamic type

  /** The parameter kinds the binder distinguishes; every other reflect kind is `OtherK`. */
  datatype Kind = IntK | Float32K | Float64K | StringK | BoolK | OtherK

  /** The error values the system returns, one per distinct message. */
  datatype Error =
    | LoadFault          // a missing argument of a kind with no default
    | TimeParamFault     // TimeOut without a Duration argument
    | TickParamFault     // Tick without a (Duration, int) argument pair
    | NotFound           // a returner lookup outside the recorded indices
    | NameTaken          // registering a name twice
    | TargetNotFound     // Get or Delete of an unknown name
    | NoTarget           // Execute of an unknown name
    | BeyondMembers      // Flow index past the member count
    | WrongFirstParam    // BackReturn without an int or string selector

  /** The result of a call that may succeed, return an error, or panic at run time. */
  datatype Reply<+T> = Ok(value: T) | Fail(err: Error) | Panic
}
