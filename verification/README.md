# Luke desktop exception handler — a Dafny model

This project models `ExceptionHandler`, the failure-handling utility of Luke's
desktop application (the Lucene index browser). It has three parts:

- **The carrier.** `ExceptionWrapper` is an unchecked exception that boxes a
  cause. The private `wrap` creates it and the private `unwrap` gives the cause back.
- **The adaptation combinators.** `consumerWrapper` turns a consumer that may
  throw a checked exception into a plain `java.util.function.Consumer`.
  `runnableWrapper` takes a runnable that may throw a checked exception.
- **The dispatcher.** `handle` classifies a caught throwable. It then calls
  exactly one method of the `MessageBroker`, and sometimes writes an error log
  record first.

How Java is modelled:

- Throwables form a closed datatype, `Failures.Throwable`, with three cases:
  `Luke` (a `LukeException` or an instance of a subclass), `Wrapper` (an
  `ExceptionWrapper`) and `Other`. `Luke` and `Other` carry their run-time class
  name, which `toString()` prints. `Other` carries a flag that says whether it
  is an `Exception`, rather than an `Error` or another throwable that is not an
  `Exception`.
- A `null` message is `None`. Java string concatenation turns `null` into
  `"null"`, and `Failures.Render` does the same.
- `getMessage()` of a carrier is its cause's `toString()`, because that is what
  `RuntimeException(Throwable)` sets.
- Throwing is an explicit value. `Combinators.Exec` records which wrapped
  operations an evaluation called, in order. It also records whether the
  evaluation returned a value or raised a failure.
- The logger and the broker are sinks. `Dispatcher.Handle` returns the effects
  it has on them as a list of `Dispatcher.Effect` values, in order.
- `Boundary` models the caller that the combinators and `handle` are built for.
  That caller invokes a wrapped listener once per event and passes every failure
  it raises to `handle`. This module shows a consequence of the code: a
  `LukeException` thrown inside `consumerWrapper` reaches `handle` boxed.
  `handle` never unwraps, so the user sees an unknown-error report, never the
  status message.

Three behaviours of the code that its names or a first reading suggest otherwise:

- `runnableWrapper` does not return a deferred action. It runs the runnable
  at once, while the wrapper is being built. On normal completion it returns
  `null`, and on an `Exception` it throws the carrier.
- Both combinators catch only `Exception`, not every throwable. An `Error`, or
  any other throwable that is not an `Exception`, escapes unboxed.
- `handle` does not unwrap a carrier before it classifies the throwable.

## Model

| member | source | states |
|---|---|---|
| Failures.Wrap | src/main/java/org/apache/lucene/luke/app/desktop/util/ExceptionHandler.java:79-81 | wrapping accepts only an `Exception`; the carrier is a distinct unchecked exception, and unwrapping it gives back exactly the original cause |
| Failures.WrapUnwrapInverse | src/main/java/org/apache/lucene/luke/app/desktop/util/ExceptionHandler.java:79-85 | `unwrap(wrap(e))` is `e` for every `Exception` `e`, and `wrap(unwrap(w))` is `w` for every carrier around an `Exception` |
| Failures.Unwrap | src/main/java/org/apache/lucene/luke/app/desktop/util/ExceptionHandler.java:83-85 | the cause comes out of the carrier it was boxed in, and the carrier's message is that cause's `toString()` (`RuntimeException(Throwable)`, line 33) |
| Combinators.Box | src/main/java/org/apache/lucene/luke/app/desktop/util/ExceptionHandler.java:49-53 | the try/catch of the wrappers: normal completion passes through; a failure is boxed exactly when it is an `Exception`, so an `Error` escapes unboxed; `Unbox` recovers the original outcome, so nothing is lost |
| Combinators.ConsumerWrapper | src/main/java/org/apache/lucene/luke/app/desktop/util/ExceptionHandler.java:47-55 | building the wrapper calls nothing; applying it to `t` calls `accept(t)` exactly once on that same `t`; it completes iff `accept` completes, throws `ExceptionWrapper(e)` for an `Exception` `e`, and rethrows an `Error` as is |
| Combinators.RunnableWrapper | src/main/java/org/apache/lucene/luke/app/desktop/util/ExceptionHandler.java:57-66 | the runnable runs once, eagerly, at wrap time; on success the result is `null`; on an `Exception` the call throws the carrier instead of returning, and an `Error` escapes unboxed |
| Dispatcher.Handle | src/main/java/org/apache/lucene/luke/app/desktop/util/ExceptionHandler.java:68-77 | exactly one broker call, and it is the last effect; a `LukeException` without a cause shows its message, one with a cause shows message, space and the cause's message, and nothing is logged; any other throwable gives one error record with its message and itself, then the unknown-error call |
| Dispatcher.HandleChannels | src/main/java/org/apache/lucene/luke/app/desktop/util/ExceptionHandler.java:69-76 | the status channel is used iff the throwable is a `LukeException`, and the unknown-error channel iff it is not |
| Dispatcher.CarrierHidesDomainFailure | src/main/java/org/apache/lucene/luke/app/desktop/util/ExceptionHandler.java:68-77 | a carrier around a `LukeException` goes down the unknown-error path with the carrier logged, while its unwrapped cause would have been shown as a status message |
| Boundary.DeliverAll | src/main/java/org/apache/lucene/luke/app/desktop/util/ExceptionHandler.java:47-55 | when failures from a `consumerWrapper` listener are passed to `handle`, no status message is ever shown, whatever the consumer throws |
| Boundary.DeliverAllCounts | src/main/java/org/apache/lucene/luke/app/desktop/util/ExceptionHandler.java:68-77 | over a series of events, the broker calls and the error log records each equal the number of events on which the consumer failed |
| Boundary.BoxedDomainFailureIsUnknown | src/main/java/org/apache/lucene/luke/app/desktop/util/ExceptionHandler.java:51-52 | a `LukeException` thrown by a wrapped consumer is logged under the carrier, with the domain failure's `toString()` as the message, and is reported as an unknown error |
| Boundary.DiskFullExample | src/main/java/org/apache/lucene/luke/app/desktop/util/ExceptionHandler.java:47-55 | a consumer that throws `IOException("disk full")` on 42 makes the wrapped consumer raise a carrier whose cause's message is `"disk full"` |

## Left out

- The slf4j logger (line 29) and its configuration. A log write is a `LogError` effect with the message and the throwable. Levels other than error are never used.
- How the `MessageBroker` renders messages, and all other UI behaviour. The broker is a sink that records `ShowStatus` and `ShowUnknown` calls.
- Java generics and checked-exception typing (`E extends Exception`, lines 37-45). Whether a throwable is an `Exception` is the predicate `Failures.IsException`.
- Stack traces, `getLocalizedMessage` overrides, and `getMessage` overrides in subclasses. A message is the detail message, and a carrier's message is its cause's `toString()`.
- `LukeException.java` is not part of this model. `LukeException` is taken to extend `RuntimeException`, so it is always an `Exception`, and it carries a detail message and an optional cause.
- Object identity. The model compares failures by value, so "the same instance" becomes "an equal value".
- What wrapped consumers and runnables actually do. They are opaque and are reduced to whether they complete or throw, plus a record of the call.
- The `Runnable` type that `runnableWrapper` declares. The method only ever returns `null`, so no runnable is ever invoked.
- Java `null` arguments. A null throwable, consumer, runnable or message broker is not modelled. In the code, `handle(null, …)` fails the `instanceof` test and then throws a `NullPointerException` at `t.getMessage()` (line 74) without calling the broker. Applying `consumerWrapper(null)`, or calling `runnableWrapper(null)`, throws a carrier around a `NullPointerException`.
- The class hierarchy. `Other` may carry any class name, including a subclass of `LukeException`. The case of a value decides the `instanceof` test, and the name only appears in `toString()` text.
- Concurrency. The code has none.
