# HttpServer configuration and bind core, modelled in Dafny

This project models the core of reactor-netty's `HttpServer` builder
(`src/main/java/reactor/ipc/netty/http/server/HttpServer.java`). It proves properties of
that model.

- **Configuration chain** (`http_server.dfy`, module `HttpServer`). An `HttpServer` is an
  immutable value: either the shared instance of `create()` (`Created`), or a node that
  wraps its parent together with a TCP mapper (`Configured(parent, mapper)`). Every
  configuring call goes through `tcpConfiguration(mapper)`. These calls are `port`,
  `wiretap`, `compress()`, `compress(int)`, `compress(BiPredicate)`, `noCompression`,
  `handler` and `router`. Each returns a new node whose parent is the receiver.
  `TcpConfiguration` resolves a chain into the `TcpServer` descriptor handed to bind. It
  resolves the parent first, then applies the newest mapper. An unconfigured chain
  resolves to `DEFAULT_TCP_SERVER`. Its port comes from the `PORT` environment variable,
  or is 8080 when that is unset. The environment is a parameter (`env`).
  `noCompression()` has two mappers. `CompressAttrDisableAsWritten` is
  `COMPRESS_ATTR_DISABLE` as the code has it, built by `NoCompressionAsWritten`.
  `CompressAttrDisable` is the corrected form, built by `NoCompression` (see Findings).
  `TcpConfiguration`, `Footprint` and `ResolvedByLastWriter` cover both. A chain built
  with `NoCompression` therefore describes the corrected program, not the one the code
  hands to bind.
- **Descriptor** (`tcp.dfy`, module `Tcp`). This is the resolved `TcpServer`: the port,
  the HTTP operations flag, the wire-logging flag, the selector attributes
  `PRODUCE_GZIP` and `PRODUCE_GZIP_PREDICATE`, the per-connection attribute
  `PRODUCE_GZIP_PREDICATE`, and the connection callbacks in registration order. Each
  TcpServer operation the builder uses overwrites one field, except `doOnConnection`,
  which appends a callback to the list.
- **HTTP_OPS predicate lookup** (`HttpServer.HttpOpsPredicate`). A connection's
  compression predicate is the attribute's value only when both the attribute and its
  value are non-null.
- **Bind lifecycle** (`lifecycle.dfy`, module `Lifecycle`). `bindNow`, `bindNow()` and
  `bindUntilJavaShutdown` are methods. Each receives as abstract values how the
  blocking read of the bind ended, and whether `onStart`, `addShutdownHook` and the final
  `onDispose().block()` throw. Each returns its result and
  the ordered trace of its effects: bind requested with the resolved descriptor, wait
  for the bind, `onStart`, shutdown hook installed, wait for disposal.
- **Connection dispatch** (`dispatch.dfy`, module `Dispatch`). The connection callback
  that `handler(...)` registers is a method on a `Connection` object. When `apply`
  returns, the callback subscribes the returned publisher with the connection's dispose
  subscriber. When `apply` throws, it logs the error and closes the channel. The
  connection's `claimed` flag carries the documented rule that only the first
  registered handler subscribes.
- **Shared values** (`common.dfy`, module `Common`). Java `int` is the newtype `int32`.
  `Option` stands for a nullable value. `Result` stands for a call that may throw.

Two points where the code differs from what a reader of the builder might expect:

- A later `handler(...)` does not replace an earlier one. Each call appends its own
  connection callback. On a connection, the first handler whose `apply` returns takes the
  dispose subscriber (`Dispatch.OnlyFirstReturnedSubscribes`). Later handlers whose
  `apply` returns are cancelled (`Dispatch.OthersCancelled`). Any handler whose
  `apply` throws logs its error and closes the channel.
- `compress()` and `compress(int)` overwrite the same threshold attribute, so the later
  call wins. `compress(BiPredicate)` writes a separate per-connection attribute, so a
  threshold and a predicate can both be in force. The corrected `noCompression()`
  (`HttpServer.NoCompression`) clears both. The code's version
  (`HttpServer.NoCompressionAsWritten`) clears only the threshold and the selector
  predicate, leaving the per-connection predicate in place (see Findings).

## Model

| member | source | states |
|---|---|---|
| `HttpServer.TcpConfiguration` | src/main/java/reactor/ipc/netty/http/server/HttpServer.java:287-295 | Materialises the chain: the parent is resolved first, then the node's mapper is applied, and `Created` resolves to `DEFAULT_TCP_SERVER`. For a chain of the builder's own calls, HTTP_OPS is always installed and the selector predicate is never set. Further properties are stated by `UnconfiguredIsDefault`, `ResolveConfigureAll` and `ResolvedByLastWriter`. |
| `HttpServer.Apply` | src/main/java/reactor/ipc/netty/http/server/HttpServer.java:250-263 | Applies a mapper to the currently configured TcpServer. Every field outside the mapper's footprint keeps its value; `DisjointMappersCommute` builds on this. |
| `HttpServer.DefaultTcpServer` | src/main/java/reactor/ipc/netty/http/server/HttpServer.java:329-331 | Definition of `DEFAULT_TCP_SERVER`: HTTP_OPS installed and the default port. Its properties are stated by `UnconfiguredIsDefault`. |
| `HttpServer.Configure` | src/main/java/reactor/ipc/netty/http/server/HttpServer.java:251-263 | The new node's parent is the receiver. Resolving it applies the mapper to the receiver's currently configured TcpServer. |
| `HttpServer.Port` | src/main/java/reactor/ipc/netty/http/server/HttpServer.java:158-160 | Returns a new node over the receiver. It resolves to the receiver's descriptor with only the port replaced, so compression, logging and handlers are untouched. |
| `HttpServer.Wiretap` | src/main/java/reactor/ipc/netty/http/server/HttpServer.java:167-170 | Returns a new node over the receiver. It resolves to the receiver's descriptor with only wire logging switched on. |
| `HttpServer.Compress` | src/main/java/reactor/ipc/netty/http/server/HttpServer.java:178-180 | Returns a new node over the receiver. It resolves to the receiver's descriptor with the gzip threshold set to 0 (`COMPRESS_ATTR_CONFIG`) and nothing else changed. |
| `HttpServer.CompressMinSize` | src/main/java/reactor/ipc/netty/http/server/HttpServer.java:192-197 | Fails with IllegalArgumentException exactly when the size is negative, and then builds no node. Otherwise the resolved gzip threshold is that size and nothing else changes. |
| `HttpServer.CompressWhen` | src/main/java/reactor/ipc/netty/http/server/HttpServer.java:211-214 | A null predicate is refused with NullPointerException("compressionPredicate"), and only a null one. Otherwise every connection carries the predicate and HTTP_OPS passes it on. |
| `HttpServer.NoCompression` | src/main/java/reactor/ipc/netty/http/server/HttpServer.java:247-249 | Whatever compression calls came before, the resolved descriptor has no gzip threshold and no connection predicate. Port, logging and handlers are unchanged. This is the corrected form; see Findings. |
| `HttpServer.NoCompressionAsWritten` | src/main/java/reactor/ipc/netty/http/server/HttpServer.java:339-341 | `noCompression()` as the code has it, with `COMPRESS_ATTR_DISABLE`. The resolved descriptor has no gzip threshold and no selector predicate. The predicate each connection carries is the receiver's, unchanged. Everything else is unchanged. |
| `HttpServer.Handler` | src/main/java/reactor/ipc/netty/http/server/HttpServer.java:226-240 | A null handler is refused with NullPointerException("handler"), and only a null one. Otherwise the handler's connection callback is registered after all earlier ones and nothing else changes. |
| `HttpServer.Router` | src/main/java/reactor/ipc/netty/http/server/HttpServer.java:271-276 | A null builder is refused with NullPointerException("routeBuilder"). Otherwise the built routes are registered as a handler after all earlier ones. |
| `HttpServer.DefaultPort` | src/main/java/reactor/ipc/netty/http/server/HttpServer.java:321-322 | The default port is the PORT environment value when it is set, and 8080 otherwise. |
| `HttpServer.UnconfiguredIsDefault` | src/main/java/reactor/ipc/netty/http/server/HttpServer.java:329-331 | An unconfigured server resolves to the default descriptor: PORT or 8080, HTTP operations installed, no wiretap, no gzip threshold, no selector or per-connection predicate, no handlers. |
| `HttpServer.HttpOpsPredicate` | src/main/java/reactor/ipc/netty/http/server/HttpServer.java:303-312 | The predicate is present exactly when the attribute and its value are both non-null, and then it is that value. |
| `HttpServer.ConnectionPredicate` | src/main/java/reactor/ipc/netty/http/server/HttpServer.java:303-307 | The predicate HTTP_OPS finds on a connection is the server's per-connection PRODUCE_GZIP_PREDICATE attribute. |
| `HttpServer.ResolveConfigureAll` | src/main/java/reactor/ipc/netty/http/server/HttpServer.java:252-263 | Resolving a chain extended by several calls gives the receiver's resolution with the new mappers applied oldest first. |
| `HttpServer.LaterPortWins` | src/main/java/reactor/ipc/netty/http/server/HttpServer.java:158-160 | Of two port calls the later one decides, and the earlier one leaves no trace. |
| `HttpServer.DisjointMappersCommute` | src/main/java/reactor/ipc/netty/http/server/HttpServer.java:261-263 | Two mappers that write disjoint fields give the same descriptor in either order. |
| `HttpServer.PortAndCompressCommute` | src/main/java/reactor/ipc/netty/http/server/HttpServer.java:158-180 | `port(p).compress()` and `compress().port(p)` resolve to the same descriptor, with port p and gzip threshold 0. |
| `HttpServer.ResolvedByLastWriter` | src/main/java/reactor/ipc/netty/http/server/HttpServer.java:252-263 | For a chain of the builder's own calls, each resolved field comes from the newest call that writes it, and the default fills the rest. Handlers are kept in registration order. The as-written `noCompression()` does not write the connection predicate; the corrected one clears it. |
| `HttpServer.NoCompressionAsWrittenKeepsPredicate` | src/main/java/reactor/ipc/netty/http/server/HttpServer.java:339-341 | With COMPRESS_ATTR_DISABLE as written, `compress(p).noCompression()` resolves with no gzip threshold but still gives every connection the predicate p. With the corrected form, no predicate is left. |
| `Lifecycle.BindNow` | src/main/java/reactor/ipc/netty/http/server/HttpServer.java:115-118 | A null timeout is refused before anything happens. Otherwise it binds the resolved chain and waits for at most the timeout. It succeeds exactly when the wait yields a server. An empty result fails with "aborted", and a thrown error is propagated. |
| `Lifecycle.BindNowDefault` | src/main/java/reactor/ipc/netty/http/server/HttpServer.java:101-103 | Waits 45 seconds. Otherwise behaves like bindNow, and its trace is the start of every full run. |
| `Lifecycle.BindUntilJavaShutdown` | src/main/java/reactor/ipc/netty/http/server/HttpServer.java:133-149 | A null timeout is refused first. Then the steps run in order: bind (45 s), onStart only if non-null, a hook disposing within the timeout, then the wait for dispose. Each of bind, onStart, `addShutdownHook` and the wait may throw, and its error ends the run. The trace is always a prefix of the full run. The hook is installed exactly when every earlier step and the installation succeeded. The wait happens exactly when the hook is installed. The method returns normally exactly when nothing threw. |
| `Dispatch.OnConnection` | src/main/java/reactor/ipc/netty/http/server/HttpServer.java:228-239 | If apply returns, the publisher is subscribed, or cancelled when the dispose subscriber is already taken. If apply throws, the error is logged and then the channel is closed. |
| `Dispatch.RunCallbacks` | src/main/java/reactor/ipc/netty/http/server/HttpServer.java:219-222 | The registered callbacks run in order. The subscriber is taken exactly when some apply returned. The channel stays open exactly when no apply threw. |
| `Dispatch.FirstReturned` | src/main/java/reactor/ipc/netty/http/server/HttpServer.java:219-222 | The first handler whose apply returned: every handler before it threw. None is found only when every one threw. |
| `Dispatch.OnlyFirstReturnedSubscribes` | src/main/java/reactor/ipc/netty/http/server/HttpServer.java:219-222 | On a connection with a free dispose subscriber, exactly one handler subscribes: the first whose apply returns. If the subscriber is already taken, none does. |
| `Dispatch.OthersCancelled` | src/main/java/reactor/ipc/netty/http/server/HttpServer.java:219-221 | A handler whose apply returns has its publisher cancelled when the dispose subscriber was taken before it: by an earlier handler, or before the chain ran. |
| `Dispatch.RegisteredHandlersRun` | src/main/java/reactor/ipc/netty/http/server/HttpServer.java:219-240 | On a connection of a server built from the builder's own calls, the callbacks run are the handlers registered by `handler`/`router`, oldest first. The dispose subscriber goes to the first of them whose apply returns. |
| `Dispatch.ClosedIffSomeHandlerThrew` | src/main/java/reactor/ipc/netty/http/server/HttpServer.java:232-238 | The callbacks close the channel exactly when some handler's apply threw. |

## Left out

- `HttpServer.NoCompression` resolves `noCompression()` with the corrected
  `COMPRESS_ATTR_DISABLE`, not the code's. `HttpServer.NoCompressionAsWritten` builds the
  code's version (see Findings).
- `HttpServer.Configure`: a caller's mapper (`Custom`) is a total function, so a mapper
  that throws or returns null is not modelled. In the code such a mapper runs inside
  `tcpConfiguration()`, which `bind()` calls before anything is bound. `bindNow` would
  then throw before any bind is requested, while the model always records the bind.
  Modelling it would make every resolution a possible failure.
- `bind()` and `bind(TcpServer)`: the socket bind, Reactor's asynchrony, and cancelling
  an in-flight bind are left out. The result of `block(timeout)` is an abstract outcome:
  a server, an empty completion, or a thrown error. A timeout is one kind of thrown error.
- `HttpServerBind` and `HttpServerTcpConfig` are not part of this model.
  - `create()` is taken to resolve through the default `tcpConfiguration()`.
  - A node is taken to resolve by applying its mapper to its parent's resolution, as the
    documentation of `tcpConfiguration(mapper)` describes.
  - `from(TcpServer)` is not modelled.
  - A null mapper passed to `tcpConfiguration(mapper)` is not modelled.
- How compression is decided per response (accept-encoding, response size, evaluating
  the predicate) happens in `HttpServerOperations`, which is not part of this model.
- TcpServer, ServerBootstrap, BootstrapHandlers and LoggingHandler are outside the model.
  Their operations overwrite descriptor fields, except `doOnConnection`, which appends.
  Wire logging is a flag. `TcpServer.create()`'s own defaults are not visible. The default descriptor
  therefore sets only what `DEFAULT_TCP_SERVER` sets.
- `HTTP_OPS.createOnConnected()` and the rest of `bindHttp` are left out. HTTP_OPS is
  modelled only through the predicate it passes on.
- `Integer.parseInt` of the PORT variable is left out. The environment is an optional
  `int32`, and a malformed value is not modelled.
- Debug logging and the content of error logs are left out. Only the logged cause is
  recorded.
- The JVM shutdown-hook thread and what `disposeNow` does are left out. The hook shows
  up only as the event that installs it.
- The order in which TcpServer runs chained `doOnConnection` callbacks is not visible.
  The model takes it to be registration order.
- How the dispose subscriber enforces one subscriber per connection is not visible. It
  is carried by the connection's `claimed` flag.
- A handler that returns a null publisher is left out. `Mono.fromDirect` is not part of
  this model.
- In `router`, the route definitions and route matching are left out, and so is a
  builder that throws. The routes become one abstract handler.

## Findings

| source | as written | input that shows it | evidently intended | confidence | as-written member | corrected member |
|---|---|---|---|---|---|---|
| src/main/java/reactor/ipc/netty/http/server/HttpServer.java:339-341 | `COMPRESS_ATTR_DISABLE` clears the selector attribute `PRODUCE_GZIP_PREDICATE`. But `compress(BiPredicate)` (line 213) stores the predicate with `attr`, as a per-connection attribute, and HTTP_OPS (line 304) reads it from the connection's channel. | `create().compress(p).noCompression()`: every connection still hands predicate p to the HTTP operations. | `noCompression()` disables compression whatever came before, so it also clears the per-connection predicate. | medium, not executed; this assumes `attr` writes child-channel attributes and `selectorAttr` writes server-channel attributes, as their names say | `HttpServer.NoCompressionAsWrittenKeepsPredicate` | `HttpServer.NoCompression` |
