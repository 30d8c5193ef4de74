/**
 The failure dispatcher `handle(t, messageBroker)`.

 The logger and the message broker are sinks: instead of calling them, the
 model returns the list of effects one call of `handle` has on them, in order.
 */
module Dispatcher {
  import opened Failures

  /** One effect on the handler's collaborators. */
  datatype Effect =
    | LogError(message: Option<string>, failure: Throwable)  // logger.error(message, failure)
    | ShowStatus(text: Option<string>)                        // messageBroker.showStatusMessage(text)
    | ShowUnknown                                             // messageBroker.showUnknownErrorMessage()
  {
    /** Whether this effect is a call on the message broker. */
    predicate IsSinkCall() {
      ShowStatus? || ShowUnknown?
    }
  }

  /** The message-broker calls among `effects`, in order. */
  function SinkCalls(effects: seq<Effect>): (r: seq<Effect>)
    ensures |r| <= |effects|
    ensures forall e :: e in r <==> e in effects && e.IsSinkCall()
  {
    if effects == [] then []
    else if effects[0].IsSinkCall() then [effects[0]] + SinkCalls(effects[1..])
    else SinkCalls(effects[1..])
  }

  /** The log records among `effects`, in order. */
  function LogRecords(effects: seq<Effect>): (r: seq<Effect>)
    ensures |r| <= |effects|
    ensures forall e :: e in r <==> e in effects && e.LogError?
  {
    if effects == [] then []
    else if effects[0].LogError? then [effects[0]] + LogRecords(effects[1..])
    else LogRecords(effects[1..])
  }

  /** The status text for a `LukeException`: its own message, followed by a
      space and its cause's message when it has a cause. */
  function StatusText(t: Throwable): Option<string>
    requires t.Luke?
  {
    match t.cause
    case None => t.message
    case Some(c) => Some(Render(t.message) + " " + Render(Message(c)))
  }

  /**
   `handle(t, messageBroker)`: a `LukeException` becomes a status message and
   nothing is logged; anything else, a carrier included (it is not unwrapped),
   is logged once at error level with its message and then reported as an
   unknown error. Exactly one broker call is made either way.
   */
  function Handle(t: Throwable): (r: seq<Effect>)
    ensures |SinkCalls(r)| == 1
    ensures |LogRecords(r)| == (if t.Luke? then 0 else 1)
    ensures r[|r| - 1].IsSinkCall()
    ensures t.Luke? && t.cause.None? ==> r == [ShowStatus(t.message)]
    ensures t.Luke? && t.cause.Some? ==>
              r == [ShowStatus(Some(Render(t.message) + " " + Render(Message(t.cause.value))))]
    ensures !t.Luke? ==> r == [LogError(Message(t), t), ShowUnknown]
  {
    if t.Luke? then
      [ShowStatus(StatusText(t))]
    else
      var r := [LogError(Message(t), t), ShowUnknown];
      assert SinkCalls(r) == [ShowUnknown] by {
        assert r[1..] == [ShowUnknown];
        assert r[1..][1..] == [];
      }
      assert LogRecords(r) == [r[0]] by {
        assert r[1..] == [ShowUnknown];
        assert r[1..][1..] == [];
      }
      r
  }

  /** Concatenating effect lists concatenates their broker calls. */
  lemma {:induction false} SinkCallsAppend(a: seq<Effect>, b: seq<Effect>)
    ensures SinkCalls(a + b) == SinkCalls(a) + SinkCalls(b)
  {
    if a == [] {
      assert a + b == b;
    } else {
      assert (a + b)[1..] == a[1..] + b;
      SinkCallsAppend(a[1..], b);
    }
  }

  /** Concatenating effect lists concatenates their log records. */
  lemma {:induction false} LogRecordsAppend(a: seq<Effect>, b: seq<Effect>)
    ensures LogRecords(a + b) == LogRecords(a) + LogRecords(b)
  {
    if a == [] {
      assert a + b == b;
    } else {
      assert (a + b)[1..] == a[1..] + b;
      LogRecordsAppend(a[1..], b);
    }
  }

  /**
   The two broker channels are exclusive and exhaustive: `handle` shows a status
   message exactly when `t` is a `LukeException`, and reports an unknown error
   exactly when it is not.
   */
  lemma HandleChannels(t: Throwable)
    ensures ShowUnknown in Handle(t) <==> !t.Luke?
    ensures (exists m :: ShowStatus(m) in Handle(t)) <==> t.Luke?
  {
    if t.Luke? {
      assert ShowStatus(StatusText(t)) in Handle(t);
    }
  }

  /**
   `handle` classifies `t` itself and never unwraps a carrier: a boxed
   `LukeException` is logged and reported as an unknown error, while the
   cause the carrier gives back would have been shown as a status message.
   */
  lemma CarrierHidesDomainFailure(l: Throwable)
    requires l.Luke?
    ensures Handle(Wrap(l)) == [LogError(Some(Describe(l)), Wrap(l)), ShowUnknown]
    ensures Handle(Unwrap(Wrap(l))) == [ShowStatus(StatusText(l))]
  {
  }
}
