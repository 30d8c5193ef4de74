/**
 The event-handler boundary the two halves of the handler are built for: a
 listener registered as `consumerWrapper(consumer)` is invoked on a series of
 events, and each failure it raises is caught by the caller and passed to
 `handle`. The caller's loop is not part of the handler; it is modelled only to
 state what the composition shows to the user.
 */
module Boundary {
  import opened Failures
  import opened Combinators
  import opened Dispatcher

  /** The caller's `catch (Throwable t) { handle(t, messageBroker); }` around one invocation. */
  function Catch(c: Completion<()>): (r: seq<Effect>)
    ensures c.Returned? <==> r == []
    ensures c.Raised? ==> |SinkCalls(r)| == 1
  {
    match c
    case Returned(_) => []
    case Raised(f) => Handle(f)
  }

  /** How many of `events` make `consumer` fail. */
  function FailingEvents<T>(consumer: ThrowingConsumer<T>, events: seq<T>): nat
    decreases |events|
  {
    if events == [] then 0
    else (if consumer(events[0]).Throws? then 1 else 0) + FailingEvents(consumer, events[1..])
  }

  /**
   Deliver `events` one by one to the listener `consumerWrapper(consumer)`,
   handing every raised failure to `handle`. No failure that leaves the wrapped
   consumer is a `LukeException`, so no status message is ever shown through
   this boundary: every failure, domain failures included, reaches the user as
   an unknown error.
   */
  function DeliverAll<T(!new)>(consumer: ThrowingConsumer<T>, events: seq<T>): (r: seq<Effect>)
    decreases |events|
    ensures forall i :: 0 <= i < |r| ==> !r[i].ShowStatus?
  {
    if events == [] then []
    else
      var listener := ConsumerWrapper(consumer).completion.value;
      Catch(listener(events[0]).completion) + DeliverAll(consumer, events[1..])
  }

  /**
   Over a series of events, the user sees exactly one unknown-error report and
   the log receives exactly one error record per event on which the consumer
   failed; successful events leave no trace.
   */
  lemma {:induction false} DeliverAllCounts<T(!new)>(consumer: ThrowingConsumer<T>, events: seq<T>)
    decreases |events|
    ensures |SinkCalls(DeliverAll(consumer, events))| == FailingEvents(consumer, events)
    ensures |LogRecords(DeliverAll(consumer, events))| == FailingEvents(consumer, events)
  {
    if events != [] {
      var listener := ConsumerWrapper(consumer).completion.value;
      var head := Catch(listener(events[0]).completion);
      var tail := DeliverAll(consumer, events[1..]);
      SinkCallsAppend(head, tail);
      LogRecordsAppend(head, tail);
      DeliverAllCounts(consumer, events[1..]);
      if consumer(events[0]).Throws? {
        assert !listener(events[0]).completion.failure.Luke?;
      }
    }
  }

  /**
   A `LukeException` thrown by a wrapped consumer reaches `handle` boxed, is
   logged under the carrier's message, which is the domain failure's
   `toString()`, and is reported as an unknown error.
   */
  lemma BoxedDomainFailureIsUnknown<T(!new)>(consumer: ThrowingConsumer<T>, t: T)
    requires consumer(t).Throws? && consumer(t).failure.Luke?
    ensures Catch(ConsumerWrapper(consumer).completion.value(t).completion)
         == [LogError(Some(Describe(consumer(t).failure)), Wrap(consumer(t).failure)),
             ShowUnknown]
  {
    var l := consumer(t).failure;
    assert Message(Wrap(l)) == Some(Describe(l));
  }

  /** An `IOException("disk full")` thrown by a consumer on input 42 leaves the
      wrapped consumer as a carrier whose cause has the message "disk full". */
  lemma DiskFullExample()
    ensures var io := Other("java.io.IOException", Some("disk full"), true);
            var consumer: ThrowingConsumer<int> := n => if n == 42 then Throws(io) else Completes;
            var c := ConsumerWrapper(consumer).completion.value(42).completion;
            c.Raised? && c.failure.Wrapper? && Message(Unwrap(c.failure)) == Some("disk full")
  {
  }
}
