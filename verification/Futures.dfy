/** The three-state future behind every CoAP request. */
module Futures {
  import opened Wrappers

  datatype Stage<+T> = New | Registered | Resolved(value: Option<T>)

  /** A poll of a request: it registers, or takes the result, and panics in between and after. */
  function Polled<T>(s: Stage<T>): Outcome<(Stage<T>, Option<T>)> {
    match s
    case New => Ok((Registered, None))
    case Registered => Panic
    case Resolved(None) => Panic
    case Resolved(Some(v)) => Ok((Resolved(None), Some(v)))
  }

  function Resolving<T>(s: Stage<T>, v: T): Outcome<Stage<T>> {
    if s.Registered? then Ok(Resolved(Some(v))) else Panic
  }

  /** Each operation panics outside its own stage. */
  class FutureState<T> {
    var stage: Stage<T>
    var waker: Option<nat>

    constructor ()
      ensures stage.New? && waker.None?
    {
      stage, waker := New, None;
    }

    method Register(task: nat) returns (ok: bool)
      modifies this
      ensures ok <==> old(stage).New?
      ensures ok ==> Polled(old(stage)) == Ok((stage, None)) && waker == Some(task)
      ensures !ok ==> stage == old(stage) && waker == old(waker)
    {
      ok := stage.New?;
      if ok {
        stage, waker := Registered, Some(task);
      }
    }

    /** Resolving hands back which task to wake. */
    method Resolve(v: T) returns (ok: bool, wake: Option<nat>)
      modifies this
      ensures ok <==> old(stage).Registered?
      ensures ok ==> Resolving(old(stage), v) == Ok(stage) && wake == old(waker) && waker.None?
      ensures !ok ==> stage == old(stage) && waker == old(waker) && wake.None?
    {
      ok, wake := stage.Registered?, None;
      if ok {
        stage, wake, waker := Resolved(Some(v)), waker, None;
      }
    }

    method Take() returns (ok: bool, v: Option<T>)
      modifies this
      ensures ok <==> old(stage).Resolved? && old(stage).value.Some?
      ensures ok ==> v.Some? && Polled(old(stage)) == Ok((stage, v))
      ensures !ok ==> stage == old(stage) && v.None?
    {
      ok, v := stage.Resolved? && stage.value.Some?, None;
      if ok {
        v := stage.value;
        stage := Resolved(None);
      }
    }
  }
}
