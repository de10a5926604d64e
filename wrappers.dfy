/** Option and Result, the two failure-compatible wrappers the model uses for Go's nil values and
    (value, error) returns. */
module Wrappers {

  datatype Option<+T> = None | Some(value: T) {
    predicate IsFailure() { None? }

    function PropagateFailure<U>(): Option<U>
      requires None?
    {
      None
    }

    function Extract(): T
      requires Some?
    {
      value
    }
  }

  datatype Result<+T, +E> = Success(value: T) | Failure(error: E) {
    predicate IsFailure() { Failure? }

    function PropagateFailure<U>(): Result<U, E>
      requires Failure?
    {
      Failure(error)
    }

    function Extract(): T
      requires Success?
    {
      value
    }

    /** The value, or nil when the conversion failed (Go's `v, _ := f()` idiom). */
    function ToOption(): (r: Option<T>)
      ensures r.Some? <==> Success?
      ensures Success? ==> r.value == value
    {
      match this
      case Success(v) => Some(v)
      case Failure(_) => None
    }
  }
}

/** What crosses the boundary to the remote service: the errors an operation can end with, and the
    record of one exchange with the server. */
module Rpc {
  import opened Wrappers

  /** A gRPC status the server (or the transport) answered with instead of a response. */
  datatype Status = Status(code: int, message: string)

  datatype Error =
    | Remote(status: Status)    // the server's error, handed back unchanged
    | UnsupportedType(kind: string) // a value that encoding/json or structpb cannot represent
    | Invalid(message: string)  // a required field is missing; found before any remote call
    | Panic(reason: PanicReason) // the Go code panics

  /** One client operation: the request it handed to the server (None when it stopped before the
      remote call) and what it returned to its caller. */
  datatype Exchange<Q, T> = Exchange(sent: Option<Q>, result: Result<T, Error>)

  /** Why the Go code panics. */
  datatype PanicReason =
    | NilDereference            // a read through a nil pointer (Go's "invalid memory address or nil pointer dereference")
    | InvalidUuid(text: string) // `uuid.MustParse` given text that is not a UUID

  /** Converts each element in turn, front to back; the first conversion that fails (a Go panic
      inside the loop) ends the whole operation. */
  function MapAll<A, B>(xs: seq<A>, f: A -> Result<B, Error>): (r: Result<seq<B>, Error>)
    ensures r.Success? <==> forall i :: 0 <= i < |xs| ==> f(xs[i]).Success?
    ensures r.Success? ==> |r.value| == |xs| && forall i :: 0 <= i < |xs| ==> r.value[i] == f(xs[i]).value
  {
    if xs == [] then Success([])
    else
      var init := xs[..|xs| - 1];
      match MapAll(init, f)
      case Failure(e) => Failure(e)
      case Success(ys) =>
        match f(xs[|xs| - 1])
        case Failure(e) => Failure(e)
        case Success(y) => Success(ys + [y])
  }

  /** One more converted element extends a successful prefix. */
  lemma MapAllStep<A, B>(xs: seq<A>, f: A -> Result<B, Error>, i: int, ys: seq<B>, y: B)
    requires 0 <= i < |xs|
    requires MapAll(xs[..i], f) == Success(ys) && f(xs[i]) == Success(y)
    ensures MapAll(xs[..i + 1], f) == Success(ys + [y])
  {
    assert xs[..i + 1][..i] == xs[..i];
  }

  /** Once a prefix fails, the whole sequence fails the same way. */
  lemma {:induction false} MapAllFailure<A, B>(xs: seq<A>, f: A -> Result<B, Error>, i: int)
    requires 0 <= i <= |xs|
    requires MapAll(xs[..i], f).Failure?
    ensures MapAll(xs, f) == MapAll(xs[..i], f)
    decreases |xs| - i
  {
    if i < |xs| {
      assert xs[..i + 1][..i] == xs[..i];
      MapAllFailure(xs, f, i + 1);
    } else {
      assert xs[..i] == xs;
    }
  }
}
