/**
 The adaptation combinators `consumerWrapper` and `runnableWrapper`.

 Java evaluation is made explicit: an `Exec` records which wrapped operations
 ran during an evaluation (in order) and how the evaluation ended, either by
 returning a value or by throwing. What the wrapped operations do beyond
 completing or throwing is opaque and is not modelled.
 */
module Combinators {
  import opened Failures

  /** How one run of a wrapped operation ends. */
  datatype Outcome = Completes | Throws(failure: Throwable)

  /** A `ConsumerWithException<T, E>`: what `accept(t)` does, reduced to how it ends. */
  type ThrowingConsumer<-T> = T -> Outcome

  /** A `RunnableWithException<E>`: what `run()` does, reduced to how it ends. */
  type ThrowingRunnable = () -> Outcome

  /** A call made into a wrapped operation: `accept(arg)` or `run()`. */
  datatype Call<T> = Accept(arg: T) | Run

  /** How a Java evaluation ends: a returned value or a thrown failure. */
  datatype Completion<V> = Returned(value: V) | Raised(failure: Throwable)

  /** One Java evaluation: the wrapped calls it made, then how it ended. */
  datatype Exec<T, V> = Exec(calls: seq<Call<T>>, completion: Completion<V>)

  /** A `java.util.function.Consumer<T>`: a call that declares no checked failure. */
  type Consumer<!T> = T -> Exec<T, ()>

  /** A `java.lang.Runnable` that is never invoked in this model. */
  type Runnable = () -> Exec<(), ()>

  /** The recovery a caller performs on a completion: a carrier gives back its
      cause, any other failure stands for itself. It is the inverse of `Box`. */
  function Unbox(c: Completion<()>): Outcome {
    match c
    case Returned(_) => Completes
    case Raised(f) => if f.Wrapper? then Throws(Unwrap(f)) else Throws(f)
  }

  /**
   The body shared by both wrappers: `try { op } catch (Exception e) { throw wrap(e); }`.
   Any `Exception`, checked or unchecked, leaves boxed; an `Error` is not caught
   and leaves unboxed; normal completion passes through. Nothing is lost.
   */
  function Box(o: Outcome): (c: Completion<()>)
    ensures c.Returned? <==> o.Completes?
    ensures c.Raised? ==> (c.failure.Wrapper? <==> IsException(o.failure))
    ensures c.Raised? && IsException(o.failure) ==> Unwrap(c.failure) == o.failure
    ensures c.Raised? && !IsException(o.failure) ==> c.failure == o.failure
    ensures Unbox(c) == o
  {
    match o
    case Completes => Returned(())
    case Throws(e) => if IsException(e) then Raised(Wrap(e)) else Raised(e)
  }

  /**
   `consumerWrapper(consumer)`: building the wrapper runs nothing and returns a
   `Consumer`. Applying that consumer to `t` calls `consumer.accept(t)` exactly
   once, on that same `t`, and ends as `accept` did, with an `Exception` boxed.
   */
  function ConsumerWrapper<T(!new)>(consumer: ThrowingConsumer<T>): (r: Exec<(), Consumer<T>>)
    ensures r.calls == [] && r.completion.Returned?
    ensures forall t :: r.completion.value(t).calls == [Accept(t)]
    ensures forall t :: Unbox(r.completion.value(t).completion) == consumer(t)
    ensures forall t :: r.completion.value(t).completion.Returned? <==> consumer(t).Completes?
    ensures forall t :: consumer(t).Throws? && IsException(consumer(t).failure) ==>
              r.completion.value(t).completion == Raised(Wrap(consumer(t).failure))
    ensures forall t :: consumer(t).Throws? && !IsException(consumer(t).failure) ==>
              r.completion.value(t).completion == Raised(consumer(t).failure)
  {
    Exec([], Returned(t => Exec([Accept(t)], Box(consumer(t)))))
  }

  /**
   `runnableWrapper(runnable)`: despite its name this runs `runnable.run()`
   immediately, once, while the wrapper is being built. On normal completion
   it returns `null`; on an `Exception` it throws the boxed carrier instead of
   returning; an `Error` escapes unboxed.
   */
  function RunnableWrapper(runnable: ThrowingRunnable): (r: Exec<(), Option<Runnable>>)
    ensures r.calls == [Run]
    ensures r.completion.Returned? <==> runnable().Completes?
    ensures r.completion.Returned? ==> r.completion.value.None?
    ensures r.completion.Raised? ==> Unbox(Raised(r.completion.failure)) == runnable()
    ensures r.completion.Raised? ==> (r.completion.failure.Wrapper? <==> IsException(runnable().failure))
  {
    match Box(runnable())
    case Returned(_) => Exec([Run], Returned(None))
    case Raised(f) => Exec([Run], Raised(f))
  }
}
