/** The resolved TCP server descriptor the HTTP builder produces, and the few
    TcpServer operations the builder uses on it. TcpServer itself lives outside this
    model; each operation overwrites one field, except doOnConnection, which appends
    to the list of connection callbacks. */
module Tcp {
  import opened Common

  /** A compression predicate `BiPredicate<HttpServerRequest, HttpServerResponse>`. */
  datatype GzipPredicate = GzipPredicate(id: nat)

  /** A `Consumer<? super HttpServerRoutes>` given to router(...). */
  datatype RoutesBuilder = RoutesBuilder(id: nat)

  /** A request handler: one supplied by the user, or the routes a router(...) call built. */
  datatype IoHandler = UserHandler(id: nat) | Routes(builder: RoutesBuilder)

  /** The configured TcpServer that bind(TcpServer) receives. */
  datatype TcpServer = TcpServer(
    port: int32,
    httpOps: bool,                             // HTTP_OPS installed as channel-operations factory
    wiretap: bool,                             // LOGGING_HANDLER installed through updateLogSupport
    gzipThreshold: Option<int32>,              // selector attribute PRODUCE_GZIP
    selectorGzipPredicate: Option<GzipPredicate>, // selector attribute PRODUCE_GZIP_PREDICATE
    gzipPredicate: Option<GzipPredicate>,      // child (per-connection) attribute PRODUCE_GZIP_PREDICATE
    onConnection: seq<IoHandler>)              // doOnConnection callbacks, in registration order

  /** tcpServer.port(port) */
  function SetPort(t: TcpServer, port: int32): TcpServer {
    t.(port := port)
  }

  /** bootstrap(b -> BootstrapHandlers.updateLogSupport(b, LOGGING_HANDLER)) */
  function UpdateLogSupport(t: TcpServer): TcpServer {
    t.(wiretap := true)
  }

  /** selectorAttr(PRODUCE_GZIP, value); a null value removes the attribute. */
  function SelectorAttrGzip(t: TcpServer, value: Option<int32>): TcpServer {
    t.(gzipThreshold := value)
  }

  /** selectorAttr(PRODUCE_GZIP_PREDICATE, value); a null value removes the attribute. */
  function SelectorAttrGzipPredicate(t: TcpServer, value: Option<GzipPredicate>): TcpServer {
    t.(selectorGzipPredicate := value)
  }

  /** attr(PRODUCE_GZIP_PREDICATE, value): an attribute of every accepted connection. */
  function AttrGzipPredicate(t: TcpServer, value: Option<GzipPredicate>): TcpServer {
    t.(gzipPredicate := value)
  }

  /** doOnConnection(callback): the callback runs after the ones registered before it. */
  function DoOnConnection(t: TcpServer, handler: IoHandler): TcpServer {
    t.(onConnection := t.onConnection + [handler])
  }
}
