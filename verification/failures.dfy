/**
 The failures that travel through Luke's desktop exception handler: a closed
 taxonomy of Java throwables, their messages as `getMessage()` reports them,
 and the `ExceptionWrapper` carrier with its `wrap`/`unwrap` pair.
 */
module Failures {

  /** A Java reference that may be null; `None` plays the role of `null`. */
  datatype Option<+T> = None | Some(value: T)

  /** Binary class name of the carrier class. */
  const WrapperClass: string := "org.apache.lucene.luke.app.desktop.util.ExceptionHandler$ExceptionWrapper"

  /**
   A Java throwable, as far as the handler can tell them apart.
   - `Luke`: an instance of `org.apache.lucene.luke.models.LukeException` or of
     one of its subclasses, `className` being its run-time class, with its detail
     message and optional cause.
   - `Wrapper`: an `ExceptionWrapper`; `boxed` is its cause, which is never null.
   - `Other`: any other throwable, `className` being its run-time class;
     `isException` says whether it is an `Exception` (checked or runtime)
     rather than an `Error` or another throwable that is not an `Exception`.
   Which case a value is in decides `instanceof LukeException`; `className`
   only shows up in the text of `toString()`.
   */
  datatype Throwable =
    | Luke(className: string, message: Option<string>, cause: Option<Throwable>)
    | Wrapper(boxed: Throwable)
    | Other(className: string, detail: Option<string>, isException: bool)

  /** Whether `t instanceof Exception` holds. `LukeException` and
      `ExceptionWrapper` both extend `RuntimeException`. */
  predicate IsException(t: Throwable) {
    match t
    case Luke(_, _, _) => true
    case Wrapper(_) => true
    case Other(_, _, isException) => isException
  }

  function ClassName(t: Throwable): string {
    match t
    case Luke(name, _, _) => name
    case Wrapper(_) => WrapperClass
    case Other(name, _, _) => name
  }

  /** `t.getMessage()`. A carrier built from a cause gets that cause's
      `toString()` as its detail message, as `RuntimeException(Throwable)` does. */
  function Message(t: Throwable): Option<string>
    decreases t, 0
  {
    match t
    case Luke(_, message, _) => message
    case Wrapper(boxed) => Some(Describe(boxed))
    case Other(_, detail, _) => detail
  }

  /** `t.toString()`: the class name, then `": "` and the message when there is one. */
  function Describe(t: Throwable): string
    decreases t, 1
  {
    match Message(t)
    case None => ClassName(t)
    case Some(m) => ClassName(t) + ": " + m
  }

  /** Java string concatenation renders a null reference as `"null"`. */
  function Render(m: Option<string>): string
  {
    match m
    case None => "null"
    case Some(v) => v
  }

  /** `unwrap` undoes `wrap`, and `wrap` rebuilds every carrier `wrap` can build
      from what `unwrap` returns: a loss-free round trip in both directions. */
  lemma WrapUnwrapInverse(e: Throwable, w: Throwable)
    requires IsException(e)
    requires w.Wrapper? && IsException(w.boxed)
    ensures Unwrap(Wrap(e)) == e
    ensures Wrap(Unwrap(w)) == w
  {
  }

  /** `wrap(Exception cause)`: box an exception in a fresh `ExceptionWrapper`.
      The carrier is itself an unchecked exception and gives back exactly its cause. */
  function Wrap(e: Throwable): (w: Throwable)
    requires IsException(e)
    ensures w.Wrapper? && IsException(w)
    ensures Unwrap(w) == e
    ensures w != e
  {
    Wrapper(e)
  }

  /** `unwrap(ExceptionWrapper wrapper)`: the cause the carrier was built from. */
  function Unwrap(w: Throwable): (e: Throwable)
    requires w.Wrapper?
    ensures e < w
    ensures Message(w) == Some(Describe(e))
  {
    w.boxed
  }
}
