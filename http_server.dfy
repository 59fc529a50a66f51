/** The persistent configuration chain of HttpServer.

    Every configuring call wraps its receiver in a new node together with a TCP mapper
    (HttpServerTcpConfig(this, mapper)); the receiver is never changed. Resolving a
    chain (tcpConfiguration()) resolves the parent first and then applies the newest
    mapper to the "currently configured" TcpServer. */
module HttpServer {
  import opened Common
  import opened Tcp

  /** The mapper a configuring call hands to tcpConfiguration(mapper). */
  datatype Mapper =
    | SetPortMapper(port: int32)                  // port(int)
    | LogSupport                                  // wiretap()
    | GzipThreshold(minResponseSize: int32)       // compress() and compress(int)
    | GzipPredicateAttr(gzipPredicate: GzipPredicate) // compress(BiPredicate)
    | CompressAttrDisable                         // noCompression(), as intended: clears every compression attribute
    | CompressAttrDisableAsWritten                // noCompression(), as written: COMPRESS_ATTR_DISABLE
    | OnConnection(handler: IoHandler)            // handler(...) and router(...)
    | Custom(f: TcpServer -> TcpServer)           // tcpConfiguration(mapper) with a caller's mapper

  /** An HttpServer: the shared base instance of create(), or a node wrapping its parent. */
  datatype Server = Created | Configured(parent: Server, mapper: Mapper)

  /** COMPRESS_ATTR_CONFIG: compression with a zero-byte threshold. */
  const CompressAttrConfig: Mapper := GzipThreshold(0)

  /** The port used when the PORT environment variable is not set. */
  const FallbackPort: int32 := 8080

  /** DEFAULT_PORT: the PORT environment variable when it is set, else 8080. */
  function DefaultPort(env: Option<int32>): (port: int32)
    ensures env.Some? ==> port == env.value
    ensures env.None? ==> port == FallbackPort
  {
    env.GetOr(FallbackPort)
  }

  /** DEFAULT_TCP_SERVER: HTTP_OPS installed and the default port; nothing else configured. */
  function DefaultTcpServer(env: Option<int32>): TcpServer {
    TcpServer(DefaultPort(env), true, false, None, None, None, [])
  }

  /** COMPRESS_ATTR_DISABLE as written: it clears the selector attributes PRODUCE_GZIP
      and PRODUCE_GZIP_PREDICATE, but compress(BiPredicate) stores its predicate in the
      per-connection attribute, which this leaves in place. */
  function DisableAsWritten(t: TcpServer): TcpServer {
    SelectorAttrGzipPredicate(SelectorAttrGzip(t, None), None)
  }

  /** COMPRESS_ATTR_DISABLE as intended: also clears the per-connection predicate. */
  function Disable(t: TcpServer): TcpServer {
    AttrGzipPredicate(DisableAsWritten(t), None)
  }

  /** What applying a mapper does to the currently configured TcpServer: every field
      outside the mapper's footprint is left as it was. */
  function Apply(m: Mapper, t: TcpServer): (r: TcpServer)
    ensures forall f :: f !in Footprint(m) ==> SameField(r, t, f)
  {
    match m
    case SetPortMapper(port) => SetPort(t, port)
    case LogSupport => UpdateLogSupport(t)
    case GzipThreshold(n) => SelectorAttrGzip(t, Some(n))
    case GzipPredicateAttr(p) => AttrGzipPredicate(t, Some(p))
    case CompressAttrDisable => Disable(t)
    case CompressAttrDisableAsWritten => DisableAsWritten(t)
    case OnConnection(h) => DoOnConnection(t, h)
    case Custom(f) => f(t)
  }

  /** tcpConfiguration(): materialise the chain into the TcpServer given to bind. The
      builder's own calls never remove HTTP_OPS and never set the selector predicate. */
  function TcpConfiguration(s: Server, env: Option<int32>): (t: TcpServer)
    ensures BuiltIn(s) ==> t.httpOps && t.selectorGzipPredicate.None?
  {
    match s
    case Created => DefaultTcpServer(env)
    case Configured(parent, m) => Apply(m, TcpConfiguration(parent, env))
  }

  // ---------------------------------------------------------------------------
  // HTTP_OPS: the compression predicate handed to the HTTP operations

  /** io.netty.util.Attribute: a holder whose get() may be null. */
  datatype Attribute = Attribute(get: Option<GzipPredicate>)

  /** HTTP_OPS.create: the predicate is the attribute's value only when both the
      attribute and its value are non-null. */
  function HttpOpsPredicate(attribute: Option<Attribute>): (p: Option<GzipPredicate>)
    ensures p.Some? <==> attribute.Some? && attribute.value.get.Some?
    ensures p.Some? ==> p.value == attribute.value.get.value
  {
    if attribute.Some? && attribute.value.get.Some? then attribute.value.get else None
  }

  /** The PRODUCE_GZIP_PREDICATE attribute of a connection accepted by server `t`:
      an accepted channel starts out with the server's per-connection attributes. */
  function ChannelAttr(t: TcpServer): Option<Attribute> {
    Some(Attribute(t.gzipPredicate))
  }

  /** The predicate HTTP_OPS passes on for a connection of server `t`. */
  function ConnectionPredicate(t: TcpServer): (p: Option<GzipPredicate>)
    ensures p == t.gzipPredicate
  {
    HttpOpsPredicate(ChannelAttr(t))
  }

  // ---------------------------------------------------------------------------
  // Configuring calls

  /** tcpConfiguration(mapper): a new node whose parent is the receiver; resolving it
      applies the mapper to whatever the receiver resolves to. */
  function Configure(s: Server, m: Mapper): (r: Server)
    ensures r.Configured? && r.parent == s
    ensures forall env :: TcpConfiguration(r, env) == Apply(m, TcpConfiguration(s, env))
  {
    Configured(s, m)
  }

  /** port(int): only the port changes. */
  function Port(s: Server, port: int32): (r: Server)
    ensures r.Configured? && r.parent == s
    ensures forall env :: TcpConfiguration(r, env) == TcpConfiguration(s, env).(port := port)
  {
    Configure(s, SetPortMapper(port))
  }

  /** wiretap(): only the wire logger is switched on. */
  function Wiretap(s: Server): (r: Server)
    ensures r.Configured? && r.parent == s
    ensures forall env :: TcpConfiguration(r, env) == TcpConfiguration(s, env).(wiretap := true)
  {
    Configure(s, LogSupport)
  }

  /** compress(): a gzip threshold of 0; nothing else changes. */
  function Compress(s: Server): (r: Server)
    ensures r.Configured? && r.parent == s
    ensures forall env :: TcpConfiguration(r, env) == TcpConfiguration(s, env).(gzipThreshold := Some(0))
  {
    Configure(s, CompressAttrConfig)
  }

  /** compress(int): a negative size is refused before any node is built; otherwise
      the gzip threshold becomes that size and nothing else changes. */
  function CompressMinSize(s: Server, minResponseSize: int32): (r: Result<Server, Exception>)
    ensures r.Failure? <==> minResponseSize < 0
    ensures r.Failure? ==> r.error == IllegalArgument("minResponseSize must be positive")
    ensures r.Success? ==> r.value.Configured? && r.value.parent == s
    ensures r.Success? ==> forall env ::
      TcpConfiguration(r.value, env) == TcpConfiguration(s, env).(gzipThreshold := Some(minResponseSize))
  {
    if minResponseSize < 0 then Failure(IllegalArgument("minResponseSize must be positive"))
    else Success(Configure(s, GzipThreshold(minResponseSize)))
  }

  /** compress(BiPredicate): a null predicate is refused up front; otherwise every
      connection carries the predicate and HTTP_OPS hands it on. */
  function CompressWhen(s: Server, compressionPredicate: Option<GzipPredicate>): (r: Result<Server, Exception>)
    ensures r.Failure? <==> compressionPredicate.None?
    ensures r.Failure? ==> r.error == NullPointer("compressionPredicate")
    ensures r.Success? ==> r.value.Configured? && r.value.parent == s
    ensures r.Success? ==> forall env ::
      TcpConfiguration(r.value, env) == TcpConfiguration(s, env).(gzipPredicate := compressionPredicate)
    ensures r.Success? ==> forall env :: ConnectionPredicate(TcpConfiguration(r.value, env)) == compressionPredicate
  {
    if compressionPredicate.None? then Failure(NullPointer("compressionPredicate"))
    else Success(Configure(s, GzipPredicateAttr(compressionPredicate.value)))
  }

  /** noCompression(): whatever compression calls came before, neither a gzip threshold
      nor a compression predicate survives; port, logging and handlers are untouched.
      (This is the intended behaviour; see DisableAsWritten.) */
  function NoCompression(s: Server): (r: Server)
    ensures r.Configured? && r.parent == s
    ensures forall env :: TcpConfiguration(r, env).gzipThreshold.None?
    ensures forall env :: ConnectionPredicate(TcpConfiguration(r, env)).None?
    ensures forall env :: TcpConfiguration(r, env) == TcpConfiguration(s, env).(
      gzipThreshold := None, selectorGzipPredicate := None, gzipPredicate := None)
  {
    Configure(s, CompressAttrDisable)
  }

  /** noCompression() as written: the gzip threshold and the selector predicate are
      cleared, but the predicate every connection carries is the receiver's, so a
      compress(BiPredicate) made earlier stays in force. */
  function NoCompressionAsWritten(s: Server): (r: Server)
    ensures r.Configured? && r.parent == s
    ensures forall env :: TcpConfiguration(r, env).gzipThreshold.None?
    ensures forall env :: ConnectionPredicate(TcpConfiguration(r, env)) == ConnectionPredicate(TcpConfiguration(s, env))
    ensures forall env :: TcpConfiguration(r, env) == TcpConfiguration(s, env).(
      gzipThreshold := None, selectorGzipPredicate := None)
  {
    Configure(s, CompressAttrDisableAsWritten)
  }

  /** handler(BiFunction): a null handler is refused up front; otherwise the handler's
      connection callback is registered after every earlier one. */
  function Handler(s: Server, handler: Option<IoHandler>): (r: Result<Server, Exception>)
    ensures r.Failure? <==> handler.None?
    ensures r.Failure? ==> r.error == NullPointer("handler")
    ensures r.Success? ==> r.value.Configured? && r.value.parent == s
    ensures r.Success? ==> forall env ::
      TcpConfiguration(r.value, env) == TcpConfiguration(s, env).(onConnection := TcpConfiguration(s, env).onConnection + [handler.value])
  {
    if handler.None? then Failure(NullPointer("handler"))
    else Success(Configure(s, OnConnection(handler.value)))
  }

  /** router(Consumer): a null builder is refused up front; otherwise the routes it
      builds are registered as a handler, after every earlier one. */
  function Router(s: Server, routesBuilder: Option<RoutesBuilder>): (r: Result<Server, Exception>)
    ensures r.Failure? <==> routesBuilder.None?
    ensures r.Failure? ==> r.error == NullPointer("routeBuilder")
    ensures r.Success? ==> r.value.Configured? && r.value.parent == s
    ensures r.Success? ==> forall env ::
      TcpConfiguration(r.value, env) == TcpConfiguration(s, env).(onConnection := TcpConfiguration(s, env).onConnection + [Routes(routesBuilder.value)])
  {
    if routesBuilder.None? then Failure(NullPointer("routeBuilder"))
    else Handler(s, Some(Routes(routesBuilder.value)))
  }

  // ---------------------------------------------------------------------------
  // Properties of resolution

  /** The default descriptor: an unconfigured server listens on PORT or 8080, with the
      HTTP operations installed and nothing else configured. */
  lemma UnconfiguredIsDefault(env: Option<int32>)
    ensures var t := TcpConfiguration(Created, env);
      && t.port == (if env.Some? then env.value else 8080)
      && t.httpOps && !t.wiretap
      && t.gzipThreshold.None? && t.selectorGzipPredicate.None? && ConnectionPredicate(t).None?
      && t.onConnection == []
  {
  }

  /** Configuring calls applied one after the other, oldest first. */
  function ConfigureAll(s: Server, ms: seq<Mapper>): Server
    decreases |ms|
  {
    if ms == [] then s else ConfigureAll(Configure(s, ms[0]), ms[1..])
  }

  /** Mappers applied to a TcpServer one after the other, oldest first. */
  function ApplyAll(t: TcpServer, ms: seq<Mapper>): TcpServer
    decreases |ms|
  {
    if ms == [] then t else ApplyAll(Apply(ms[0], t), ms[1..])
  }

  /** Resolution applies the receiver's chain first and then the newer mappers in the
      order they were added. */
  lemma {:induction false} ResolveConfigureAll(s: Server, ms: seq<Mapper>, env: Option<int32>)
    ensures TcpConfiguration(ConfigureAll(s, ms), env) == ApplyAll(TcpConfiguration(s, env), ms)
    decreases |ms|
  {
    if ms != [] {
      ResolveConfigureAll(Configure(s, ms[0]), ms[1..], env);
    }
  }

  /** Of two port calls, the later one decides: the earlier leaves no trace. */
  lemma LaterPortWins(s: Server, first: int32, second: int32, env: Option<int32>)
    ensures TcpConfiguration(Port(Port(s, first), second), env) == TcpConfiguration(Port(s, second), env)
    ensures TcpConfiguration(Port(Port(s, first), second), env).port == second
  {
  }

  /** The fields a mapper may write. */
  datatype Field = PortField | HttpOpsField | WiretapField | ThresholdField
                 | SelectorPredicateField | PredicateField | HandlersField

  /** Descriptors `a` and `b` hold the same value in field `f`. */
  predicate SameField(a: TcpServer, b: TcpServer, f: Field) {
    match f
    case PortField => a.port == b.port
    case HttpOpsField => a.httpOps == b.httpOps
    case WiretapField => a.wiretap == b.wiretap
    case ThresholdField => a.gzipThreshold == b.gzipThreshold
    case SelectorPredicateField => a.selectorGzipPredicate == b.selectorGzipPredicate
    case PredicateField => a.gzipPredicate == b.gzipPredicate
    case HandlersField => a.onConnection == b.onConnection
  }

  function Footprint(m: Mapper): set<Field> {
    match m
    case SetPortMapper(_) => {PortField}
    case LogSupport => {WiretapField}
    case GzipThreshold(_) => {ThresholdField}
    case GzipPredicateAttr(_) => {PredicateField}
    case CompressAttrDisable => {ThresholdField, SelectorPredicateField, PredicateField}
    case CompressAttrDisableAsWritten => {ThresholdField, SelectorPredicateField}
    case OnConnection(_) => {HandlersField}
    case Custom(_) =>
      {PortField, HttpOpsField, WiretapField, ThresholdField, SelectorPredicateField, PredicateField, HandlersField}
  }

  /** Mappers that write different fields commute, so e.g. port(80).compress() and
      compress().port(80) resolve to the same descriptor; mappers that write the same
      field do not (the later one wins). */
  lemma DisjointMappersCommute(m1: Mapper, m2: Mapper, t: TcpServer)
    requires Footprint(m1) !! Footprint(m2)
    ensures Apply(m1, Apply(m2, t)) == Apply(m2, Apply(m1, t))
  {
  }

  lemma PortAndCompressCommute(s: Server, port: int32, env: Option<int32>)
    ensures TcpConfiguration(Compress(Port(s, port)), env) == TcpConfiguration(Port(Compress(s), port), env)
    ensures TcpConfiguration(Compress(Port(s, port)), env).port == port
    ensures TcpConfiguration(Compress(Port(s, port)), env).gzipThreshold == Some(0)
  {
    DisjointMappersCommute(CompressAttrConfig, SetPortMapper(port), TcpConfiguration(s, env));
  }

  // ---------------------------------------------------------------------------
  // A last-writer description of the resolved descriptor

  /** Every step of the chain comes from one of HttpServer's own configuring calls. */
  predicate BuiltIn(s: Server) {
    match s
    case Created => true
    case Configured(parent, m) => !m.Custom? && BuiltIn(parent)
  }

  /** The argument of the newest port call, if any. */
  function LastPort(s: Server): Option<int32> {
    match s
    case Created => None
    case Configured(parent, m) => if m.SetPortMapper? then Some(m.port) else LastPort(parent)
  }

  /** The threshold left by the newest compress()/compress(int)/noCompression() call. */
  function LatestThreshold(s: Server): Option<int32> {
    match s
    case Created => None
    case Configured(parent, m) =>
      if m.GzipThreshold? then Some(m.minResponseSize)
      else if m.CompressAttrDisable? || m.CompressAttrDisableAsWritten? then None
      else LatestThreshold(parent)
  }

  /** The predicate left by the newest compress(BiPredicate) or intended noCompression()
      call; noCompression() as written does not touch it. */
  function LatestPredicate(s: Server): Option<GzipPredicate> {
    match s
    case Created => None
    case Configured(parent, m) =>
      if m.GzipPredicateAttr? then Some(m.gzipPredicate)
      else if m.CompressAttrDisable? then None
      else LatestPredicate(parent)
  }

  /** Some step of the chain is a wiretap() call. */
  predicate WiretapRequested(s: Server) {
    match s
    case Created => false
    case Configured(parent, m) => m.LogSupport? || WiretapRequested(parent)
  }

  /** The handlers of the chain's handler()/router() calls, oldest first. */
  function RegisteredHandlers(s: Server): seq<IoHandler> {
    match s
    case Created => []
    case Configured(parent, m) =>
      if m.OnConnection? then RegisteredHandlers(parent) + [m.handler] else RegisteredHandlers(parent)
  }

  /** For a chain of HttpServer's own calls, each field of the resolved descriptor is
      decided by the newest call that writes it, the default filling the rest, and the
      handlers are kept in registration order. */
  lemma {:induction false} ResolvedByLastWriter(s: Server, env: Option<int32>)
    requires BuiltIn(s)
    ensures var t := TcpConfiguration(s, env);
      && t.port == LastPort(s).GetOr(DefaultPort(env))
      && t.httpOps
      && t.wiretap == WiretapRequested(s)
      && t.gzipThreshold == LatestThreshold(s)
      && t.selectorGzipPredicate.None?
      && ConnectionPredicate(t) == LatestPredicate(s)
      && t.onConnection == RegisteredHandlers(s)
  {
    match s
    case Created =>
    case Configured(parent, m) =>
      ResolvedByLastWriter(parent, env);
  }

  /** What noCompression() leaves as written: after compress(p).noCompression() every
      connection still carries the predicate p, because the predicate was stored as a
      per-connection attribute and only the selector attribute is cleared. The intended
      noCompression() leaves no predicate behind. */
  lemma NoCompressionAsWrittenKeepsPredicate(s: Server, p: GzipPredicate, env: Option<int32>)
    ensures var t := TcpConfiguration(NoCompressionAsWritten(Configured(s, GzipPredicateAttr(p))), env);
      t.gzipThreshold.None? && ConnectionPredicate(t) == Some(p)
    ensures ConnectionPredicate(TcpConfiguration(NoCompression(Configured(s, GzipPredicateAttr(p))), env)).None?
  {
  }
}
