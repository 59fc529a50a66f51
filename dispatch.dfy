/** What happens on an accepted connection: the connection callback that handler(...)
    registers, and the chain of such callbacks when several handlers were registered.

    The callback applies the handler to the connection (as request and response). When
    apply returns, the returned publisher is subscribed with the connection's dispose
    subscriber; when apply throws, the error is logged and the channel is closed. The
    dispose subscriber serves one publisher per connection: the first registered
    handler subscribes, later ones are cancelled at once. That rule lives in the
    connection, outside this model, and is carried here by the connection's `claimed`
    flag. */
module Dispatch {
  import opened Common
  import opened Tcp
  import HttpServer

  /** The Publisher<Void> a handler returns. */
  datatype Publisher = Publisher(id: nat)

  /** How handler.apply(connection, connection) ended. */
  datatype ApplyOutcome = Returned(publisher: Publisher) | Threw(cause: Cause)

  datatype ConnectionEvent =
    | Subscribed(handler: IoHandler, publisher: Publisher) // its completion disposes the connection
    | Cancelled(handler: IoHandler, publisher: Publisher)  // dispose subscriber already taken
    | ErrorLogged(cause: Cause)
    | ChannelClosed

  /** The effects of one connection callback, given whether the dispose subscriber was
      already taken. */
  function CallbackEvents(handler: IoHandler, outcome: ApplyOutcome, claimed: bool): seq<ConnectionEvent> {
    match outcome
    case Returned(p) => if claimed then [Cancelled(handler, p)] else [Subscribed(handler, p)]
    case Threw(t) => [ErrorLogged(t), ChannelClosed]
  }

  /** The effects of the callbacks of `handlers`, run in registration order. */
  function ChainEvents(handlers: seq<IoHandler>, outcomes: seq<ApplyOutcome>, claimed: bool): seq<ConnectionEvent>
    requires |handlers| == |outcomes|
    decreases |handlers|
  {
    if handlers == [] then []
    else CallbackEvents(handlers[0], outcomes[0], claimed)
         + ChainEvents(handlers[1..], outcomes[1..], claimed || outcomes[0].Returned?)
  }

  /** The subscriptions among a sequence of connection events. */
  function Subscriptions(events: seq<ConnectionEvent>): seq<ConnectionEvent>
    decreases |events|
  {
    if events == [] then []
    else (if events[0].Subscribed? then [events[0]] else []) + Subscriptions(events[1..])
  }

  lemma {:induction false} SubscriptionsAppend(a: seq<ConnectionEvent>, b: seq<ConnectionEvent>)
    ensures Subscriptions(a + b) == Subscriptions(a) + Subscriptions(b)
    decreases |a|
  {
    if a == [] {
      assert a + b == b;
    } else {
      assert (a + b)[1..] == a[1..] + b;
      SubscriptionsAppend(a[1..], b);
    }
  }

  /** The index of the first handler whose apply returned, if any. */
  function FirstReturned(outcomes: seq<ApplyOutcome>): (i: Option<nat>)
    ensures i.Some? ==> i.value < |outcomes| && outcomes[i.value].Returned?
    ensures i.Some? ==> forall j :: 0 <= j < i.value ==> outcomes[j].Threw?
    ensures i.None? ==> forall j :: 0 <= j < |outcomes| ==> outcomes[j].Threw?
    decreases |outcomes|
  {
    if outcomes == [] then None
    else if outcomes[0].Returned? then Some(0)
    else match FirstReturned(outcomes[1..])
      case None => None
      case Some(k) => Some(k + 1)
  }

  /** Single subscriber per connection: on a connection whose dispose subscriber is
      still free, exactly the first handler whose apply returns subscribes, and no other;
      on one whose subscriber is taken, nobody subscribes. */
  lemma {:induction false} OnlyFirstReturnedSubscribes(handlers: seq<IoHandler>, outcomes: seq<ApplyOutcome>, claimed: bool)
    requires |handlers| == |outcomes|
    ensures var subs := Subscriptions(ChainEvents(handlers, outcomes, claimed));
      if !claimed && FirstReturned(outcomes).Some?
      then subs == [Subscribed(handlers[FirstReturned(outcomes).value], outcomes[FirstReturned(outcomes).value].publisher)]
      else subs == []
    decreases |handlers|
  {
    if handlers != [] {
      var head := CallbackEvents(handlers[0], outcomes[0], claimed);
      var tail := ChainEvents(handlers[1..], outcomes[1..], claimed || outcomes[0].Returned?);
      SubscriptionsAppend(head, tail);
      OnlyFirstReturnedSubscribes(handlers[1..], outcomes[1..], claimed || outcomes[0].Returned?);
      if outcomes[0].Threw? {
        assert Subscriptions(head) == [];
      }
    }
  }

  /** Every handler whose apply returns after the dispose subscriber was taken (by an
      earlier handler, or before the chain ran) has its publisher cancelled. */
  lemma {:induction false} OthersCancelled(handlers: seq<IoHandler>, outcomes: seq<ApplyOutcome>, claimed: bool, j: nat)
    requires |handlers| == |outcomes| && j < |outcomes| && outcomes[j].Returned?
    requires claimed || FirstReturned(outcomes) != Some(j)
    ensures Cancelled(handlers[j], outcomes[j].publisher) in ChainEvents(handlers, outcomes, claimed)
    decreases j
  {
    var head := CallbackEvents(handlers[0], outcomes[0], claimed);
    var tail := ChainEvents(handlers[1..], outcomes[1..], claimed || outcomes[0].Returned?);
    if j == 0 {
      assert head[0] == Cancelled(handlers[0], outcomes[0].publisher);
    } else {
      OthersCancelled(handlers[1..], outcomes[1..], claimed || outcomes[0].Returned?, j - 1);
      assert ChainEvents(handlers, outcomes, claimed) == head + tail;
    }
  }

  /** A handler that throws closes the channel; the channel is closed by the chain
      exactly when some handler's apply threw. */
  lemma {:induction false} ClosedIffSomeHandlerThrew(handlers: seq<IoHandler>, outcomes: seq<ApplyOutcome>, claimed: bool)
    requires |handlers| == |outcomes|
    ensures ChannelClosed in ChainEvents(handlers, outcomes, claimed)
      <==> exists j :: 0 <= j < |outcomes| && outcomes[j].Threw?
    decreases |handlers|
  {
    if handlers != [] {
      ClosedIffSomeHandlerThrew(handlers[1..], outcomes[1..], claimed || outcomes[0].Returned?);
      if outcomes[0].Returned? {
        assert (exists j :: 0 <= j < |outcomes| && outcomes[j].Threw?)
           <==> (exists j :: 0 <= j < |outcomes[1..]| && outcomes[1..][j].Threw?) by {
          forall j | 0 < j < |outcomes| ensures outcomes[j] == outcomes[1..][j - 1] { }
        }
      }
    }
  }

  /** The accepted connection, as far as the handler callback sees it. */
  class Connection {
    var claimed: bool                  // the dispose subscriber has been given to a publisher
    var open: bool                     // the channel is open
    var events: seq<ConnectionEvent>   // what the callbacks did to it, in order

    constructor ()
      ensures !claimed && open && events == []
    {
      claimed, open, events := false, true, [];
    }
  }

  /** The callback of handler(...): apply the handler; subscribe its publisher, or
      log the error and close the channel. */
  method OnConnection(c: Connection, handler: IoHandler, outcome: ApplyOutcome)
    modifies c
    ensures c.events == old(c.events) + CallbackEvents(handler, outcome, old(c.claimed))
    ensures c.claimed == (old(c.claimed) || outcome.Returned?)
    ensures c.open == (old(c.open) && outcome.Returned?)
  {
    match outcome
    case Returned(p) =>
      if c.claimed {
        c.events := c.events + [Cancelled(handler, p)];
      } else {
        c.claimed := true;
        c.events := c.events + [Subscribed(handler, p)];
      }
    case Threw(t) =>
      c.events := c.events + [ErrorLogged(t)];
      c.open := false;
      c.events := c.events + [ChannelClosed];
  }

  /** Every registered callback runs on the connection, in registration order. */
  method RunCallbacks(c: Connection, handlers: seq<IoHandler>, outcomes: seq<ApplyOutcome>)
    requires |handlers| == |outcomes|
    modifies c
    ensures c.events == old(c.events) + ChainEvents(handlers, outcomes, old(c.claimed))
    ensures c.claimed == (old(c.claimed) || FirstReturned(outcomes).Some?)
    ensures c.open == (old(c.open) && forall j :: 0 <= j < |outcomes| ==> outcomes[j].Returned?)
  {
    var i := 0;
    while i < |handlers|
      invariant 0 <= i <= |handlers|
      invariant c.events + ChainEvents(handlers[i..], outcomes[i..], c.claimed)
             == old(c.events) + ChainEvents(handlers, outcomes, old(c.claimed))
      invariant c.claimed == (old(c.claimed) || exists j :: 0 <= j < i && outcomes[j].Returned?)
      invariant c.open == (old(c.open) && forall j :: 0 <= j < i ==> outcomes[j].Returned?)
    {
      assert handlers[i..][1..] == handlers[i + 1..] && outcomes[i..][1..] == outcomes[i + 1..];
      OnConnection(c, handlers[i], outcomes[i]);
      i := i + 1;
    }
    assert handlers[i..] == [];
  }

  /** On a connection of a server built from HttpServer's own calls, the callbacks that
      run are the handlers registered by handler()/router(), oldest first, and the
      dispose subscriber goes to the first of them whose apply returns. */
  lemma RegisteredHandlersRun(s: HttpServer.Server, env: Option<int32>, outcomes: seq<ApplyOutcome>)
    requires HttpServer.BuiltIn(s) && |outcomes| == |HttpServer.RegisteredHandlers(s)|
    ensures HttpServer.TcpConfiguration(s, env).onConnection == HttpServer.RegisteredHandlers(s)
    ensures var subs := Subscriptions(ChainEvents(HttpServer.TcpConfiguration(s, env).onConnection, outcomes, false));
      var first := FirstReturned(outcomes);
      subs == if first.Some?
              then [Subscribed(HttpServer.RegisteredHandlers(s)[first.value], outcomes[first.value].publisher)]
              else []
  {
    HttpServer.ResolvedByLastWriter(s, env);
    OnlyFirstReturnedSubscribes(HttpServer.RegisteredHandlers(s), outcomes, false);
  }
}
