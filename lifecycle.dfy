/** Binding a configured HttpServer: bindNow, and bindUntilJavaShutdown for running a
    server as a long-lived process.

    Reactor's asynchrony, the socket bind and the JVM stay outside the model: each
    method receives how the collaborators behave (how the blocking read ended, whether
    onStart, the hook installation or the final wait throws) and returns, besides its
    result, the ordered trace of the effects it performed. */
module Lifecycle {
  import opened Common
  import opened Tcp
  import opened HttpServer

  /** A java.time.Duration, in nanoseconds. */
  datatype Duration = Duration(nanos: int)

  /** The startup timeout of bindNow(): Duration.ofSeconds(45). */
  const DefaultBindTimeout: Duration := Duration(45 * 1_000_000_000)

  /** The running server handed back by a successful bind. */
  datatype DisposableServer = DisposableServer(id: nat)

  /** How bind().block(timeout) ended: with a server, empty, or by throwing (a bind
      failure, or the timeout running out). */
  datatype BlockOutcome = Emitted(server: DisposableServer) | EmptyCompletion | Raised(cause: Cause)

  /** A non-null onStart consumer, described by whether calling it throws. */
  datatype OnStart = OnStart(throws: Option<Cause>)

  datatype Event =
    | BindRequested(tcp: TcpServer)         // bind(tcpConfiguration()), with the resolved chain
    | AwaitedBind(timeout: Duration)        // block(timeout) on the bind
    | OnStartInvoked(server: DisposableServer)
    | ShutdownHookAdded(server: DisposableServer, disposeTimeout: Duration) // hook runs disposeNow(disposeTimeout)
    | AwaitedDispose(server: DisposableServer) // onDispose().block()

  /** The complete run of bindUntilJavaShutdown when nothing throws. */
  function FullRun(tcp: TcpServer, server: DisposableServer, disposeTimeout: Duration, withOnStart: bool): seq<Event> {
    [BindRequested(tcp), AwaitedBind(DefaultBindTimeout)]
    + (if withOnStart then [OnStartInvoked(server)] else [])
    + [ShutdownHookAdded(server, disposeTimeout), AwaitedDispose(server)]
  }

  /** The exception bindNow throws for a block that did not yield a server. */
  function BindError(outcome: BlockOutcome): Exception
    requires !outcome.Emitted?
  {
    if outcome.EmptyCompletion? then NullPointer("aborted") else Rethrown(outcome.cause)
  }

  /** bindNow(Duration): a null timeout is refused before anything happens; otherwise
      the fully resolved chain is bound, the caller blocks for at most `timeout`, and an
      empty result becomes the "aborted" error. */
  method BindNow(s: Server, env: Option<int32>, timeout: Option<Duration>, outcome: BlockOutcome)
    returns (r: Result<DisposableServer, Exception>, trace: seq<Event>)
    ensures timeout.None? ==> r == Failure(NullPointer("timeout")) && trace == []
    ensures timeout.Some? ==> trace == [BindRequested(TcpConfiguration(s, env)), AwaitedBind(timeout.value)]
    ensures r.Success? <==> timeout.Some? && outcome.Emitted?
    ensures r.Success? ==> r.value == outcome.server
    ensures timeout.Some? && outcome.EmptyCompletion? ==> r == Failure(NullPointer("aborted"))
    ensures timeout.Some? && outcome.Raised? ==> r == Failure(Rethrown(outcome.cause))
  {
    if timeout.None? {
      return Failure(NullPointer("timeout")), [];
    }
    var tcp := TcpConfiguration(s, env);
    trace := [BindRequested(tcp)];
    trace := trace + [AwaitedBind(timeout.value)];
    match outcome
    case Emitted(server) => r := Success(server);
    case EmptyCompletion => r := Failure(NullPointer("aborted"));
    case Raised(cause) => r := Failure(Rethrown(cause));
  }

  /** bindNow(): the same with a 45-second startup timeout; its trace is the start of
      every full run. */
  method BindNowDefault(s: Server, env: Option<int32>, outcome: BlockOutcome)
    returns (r: Result<DisposableServer, Exception>, trace: seq<Event>)
    ensures trace == [BindRequested(TcpConfiguration(s, env)), AwaitedBind(DefaultBindTimeout)]
    ensures forall server, d, o :: trace <= FullRun(TcpConfiguration(s, env), server, d, o)
    ensures r.Success? <==> outcome.Emitted?
    ensures r.Success? ==> r.value == outcome.server
    ensures r.Failure? ==> r.error == BindError(outcome)
  {
    r, trace := BindNow(s, env, Some(DefaultBindTimeout), outcome);
  }

  /** bindUntilJavaShutdown(timeout, onStart): a null timeout is refused first; then
      the server is bound with bindNow() (45 s, not `timeout`), onStart runs only when
      it is non-null, a shutdown hook that disposes the server within `timeout` is
      installed, and the caller waits until the server is disposed. Whatever throws
      stops the sequence there: the trace is always a prefix of the full run, the hook
      is installed exactly when every earlier step and the installation itself went
      through, and the caller waits exactly when the hook is installed.

      `addHook` says whether Runtime.addShutdownHook throws (an IllegalStateException
      once the JVM is already shutting down); `awaitDispose` whether
      onDispose().block() throws (when the waiting thread is interrupted). */
  method BindUntilJavaShutdown(s: Server, env: Option<int32>, timeout: Option<Duration>,
                               onStart: Option<OnStart>, outcome: BlockOutcome,
                               addHook: Option<Cause>, awaitDispose: Option<Cause>)
    returns (r: Result<(), Exception>, trace: seq<Event>)
    ensures timeout.None? ==> r == Failure(NullPointer("timeout")) && trace == []
    ensures timeout.Some? && !outcome.Emitted? ==>
      r == Failure(BindError(outcome)) && trace == [BindRequested(TcpConfiguration(s, env)), AwaitedBind(DefaultBindTimeout)]
    ensures timeout.Some? && outcome.Emitted? ==>
      trace <= FullRun(TcpConfiguration(s, env), outcome.server, timeout.value, onStart.Some?)
    ensures r.Failure? && onStart.Some? && onStart.value.throws.Some? && timeout.Some? && outcome.Emitted? ==>
      r.error == Rethrown(onStart.value.throws.value) && |trace| > 0 && trace[|trace| - 1] == OnStartInvoked(outcome.server)
    ensures (exists e :: e in trace && e.ShutdownHookAdded?)
      <==> timeout.Some? && outcome.Emitted? && (onStart.None? || onStart.value.throws.None?) && addHook.None?
    ensures timeout.Some? && outcome.Emitted? && (onStart.None? || onStart.value.throws.None?) && addHook.Some? ==>
      && r == Failure(Rethrown(addHook.value))
      && trace == [BindRequested(TcpConfiguration(s, env)), AwaitedBind(DefaultBindTimeout)]
                  + (if onStart.Some? then [OnStartInvoked(outcome.server)] else [])
    ensures (exists e :: e in trace && e.AwaitedDispose?) <==> (exists e :: e in trace && e.ShutdownHookAdded?)
    ensures (exists e :: e in trace && e.AwaitedDispose?) ==>
      && trace == FullRun(TcpConfiguration(s, env), outcome.server, timeout.value, onStart.Some?)
      && r == (if awaitDispose.Some? then Failure(Rethrown(awaitDispose.value)) else Success(()))
    ensures r.Success? <==>
      timeout.Some? && outcome.Emitted? && (onStart.None? || onStart.value.throws.None?) && addHook.None? && awaitDispose.None?
  {
    if timeout.None? {
      return Failure(NullPointer("timeout")), [];
    }
    var facade;
    facade, trace := BindNowDefault(s, env, outcome);
    if facade.Failure? {
      return Failure(facade.error), trace;
    }
    // requireNonNull(facade, "facade") cannot fail: bindNow() never returns null.
    var server := facade.value;
    if onStart.Some? {
      trace := trace + [OnStartInvoked(server)];
      if onStart.value.throws.Some? {
        return Failure(Rethrown(onStart.value.throws.value)), trace;
      }
    }
    if addHook.Some? {
      return Failure(Rethrown(addHook.value)), trace;
    }
    trace := trace + [ShutdownHookAdded(server, timeout.value)];
    trace := trace + [AwaitedDispose(server)];
    assert trace[|trace| - 2].ShutdownHookAdded? && trace[|trace| - 1].AwaitedDispose?;
    if awaitDispose.Some? {
      return Failure(Rethrown(awaitDispose.value)), trace;
    }
    r := Success(());
  }
}
