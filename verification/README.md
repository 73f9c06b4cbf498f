# Graceful-shutdown connection accounting (manners), in Dafny

This project models the shutdown-coordination core of the `manners` package. `manners` wraps Go's
`net/http` server so that closing the server waits for in-flight requests to finish. The model has these parts:

- **Connection states** (`ConnStates`): the five states the HTTP engine reports for a connection,
  New, Active, Idle, Closed and Hijacked. It also gives the order the engine reports them in
  (`Legal`) and which states keep shutdown waiting (`Busy`).
- **Busy counter** (`BusyCounter`): the server's `sync.WaitGroup`, driven by `StartRoutine`
  (`Add(1)`) and `FinishRoutine` (`Done`). A counter that would go negative is Go's
  WaitGroup panic and is modelled as `None`.
- **Drain gate** (`DrainGate`): `gracefulHandler`. Its `int32` flag is 0 when open and 1
  when closed. The flag decides whether `ServeHTTP` invokes the wrapped handler or only
  drains the request body.
- **Connection tracker** (`Tracker`): the `ConnState` callback that `Serve` installs. It is
  a pure step that takes the per-connection record (`lastHTTPState`, `forceClosed`), the gate
  and the new state. It returns the new record, the counter delta (-1, 0 or +1), whether the
  callback force-closed the connection, and the old state handed to the user's state observer.
- **Lifecycles** (`Lifecycle`): one connection's sequence of reported states, with the gate
  as the callback saw it at each report. One fold (`Deltas`) turns it into counter deltas
  under either accounting, the source's or the corrected one, and `RecAfter` gives the record
  it leaves behind. The main theorem characterises exactly which valid lifecycles leave the
  counter balanced, in both directions. While no request arrives after the gate closed, the
  connection's share of the counter is at every point its busyness.
- **Corrected tracker** (`CorrectedTracker`, `CorrectedLifecycle`): the same callback with
  a force-close accounting under which every increment made for a connection is matched by
  exactly one decrement (see Findings). It is proved balanced for every valid lifecycle, and
  at every point the connection's share of the counter is the share it holds: one exactly
  while it is New or Active and not force-closed.
- **Server** (`Server`): many connections interleaving their reports on one shared counter
  and one gate. The drain theorem says that if every connection's own deltas are balanced,
  the interleaved run never panics and ends at zero. That is the condition for `wg.Wait()`
  in `Serve` to return.
- **Counter shares** (`ServerShares`): under the corrected accounting, at every point of an
  interleaved run the counter is the sum of the shares the reported connections hold. So
  while any connection not force-closed is New or Active, the counter is at least one and
  `wg.Wait()` cannot return. This is the package's promise (server.go:1-4, 108-111) that
  shutdown waits until in-flight requests have completed.
- **Serve's result** (`ServeResult`): the listener's "already closed" sentinel becomes a nil
  error. Every other error is returned unchanged.

A valid lifecycle is `New (Active Idle)* [Active] (Closed | Hijacked)`. It is written as a
successor relation: New→Active, Idle→Active, Active→Idle, and any live state→Closed/Hijacked.
For such a lifecycle, with a gate that never reopens, the deltas sum to zero and no running
total is negative if and only if the lifecycle has no *hazard*. A hazard is an Active
reported while the gate is closed (a force close) that matches one of these two patterns:

- It sits between Idle and Idle. The counter is decremented twice for one increment, which
  makes the WaitGroup panic.
- It sits between New and Closed/Hijacked. The increment made for New is never matched, so
  `wg.Wait()` never returns.

So a gate that closes while the connection is Idle is not enough on its own. The
force-closed connection must end next, and not report Idle again.

The per-connection record begins as the zero value of its Go struct, whose state field is
`StateNew`. That struct (`gracefulConn`) is defined in `listener.go`, which is not part of
this model.

## Model

| member | source | states |
|---|---|---|
| `Tracker.Step` | server.go:238-267 | Every report overwrites the last state and hands the old state to the observer. The connection is force-closed (and marked so for good) exactly when Active arrives while the gate is closed. The counter rises exactly for New, and for Active with the gate open after Idle. It falls exactly for Idle, and for Closed/Hijacked when the previous state was not Idle and there was no force close. It moves by at most one. On a legal transition of a connection that was never force-closed, it moves by the change in busyness. |
| `BusyCounter.Add` | server.go:300-307 | Moving the WaitGroup counter panics exactly when it would go negative. Otherwise it moves by exactly the delta. |
| `BusyCounter.StartRoutine` | server.go:300-302 | StartRoutine never panics. It raises the counter by exactly one. |
| `BusyCounter.FinishRoutine` | server.go:305-307 | FinishRoutine panics exactly when the counter is zero. Otherwise it lowers the counter by exactly one. |
| `BusyCounter.FinishUndoesStart` | server.go:297-307 | FinishRoutine is the inverse of StartRoutine. |
| `BusyCounter.Apply` | server.go:238-267 | Applying a sequence of callback deltas survives exactly when every running total stays non-negative. It then ends at the start value plus the sum of the deltas. |
| `BusyCounter.ApplyBalanced` | server.go:288-293 | A counter that starts at zero survives and returns to zero (so Wait can return) exactly when the deltas are balanced. |
| `DrainGate.NewGate` | server.go:358-362 | A new gate is well-formed and open, and its first request is dispatched to the handler. |
| `DrainGate.IsClosed` | server.go:379-381 | A gate that reports closed is well-formed. On a well-formed gate, IsClosed holds exactly when the flag is not 0, which is the test ServeHTTP makes, so the two never disagree. |
| `DrainGate.Close` | server.go:375-377 | Close leaves the gate closed. Closing a closed gate changes nothing. |
| `DrainGate.ServeHTTP` | server.go:364-373 | On a well-formed gate, the wrapped handler is invoked exactly when IsClosed is false. Otherwise the request body is only drained. |
| `DrainGate.Perform` | server.go:364-381 | Only Close writes the flag. Dispatching and querying leave the gate as it was. |
| `DrainGate.Run` | server.go:353-381 | Over any history of gate operations, the gate stays well-formed. It ends closed exactly when it started closed or some Close occurred. |
| `DrainGate.NeverReopens` | server.go:375-381 | Once the gate is closed, every later state is closed and every later request is drained. |
| `DrainGate.ClosedIsMonotone` | server.go:375-381 | If the gate is closed after i operations, it is closed after every j ≥ i operations. |
| `Lifecycle.Deltas` | server.go:238-267 | Under either accounting, the callback produces one delta per reported state, each in -1..1. |
| `Lifecycle.RecAfter` | server.go:238-267 | After the events, the record's last state is the last reported state, and the record is unchanged when there are none. It is force-closed exactly when it already was or some event was an Active reported with the gate closed. |
| `Lifecycle.AsWrittenShareIsBusy` | server.go:238-267 | Take a record never force-closed, followed by legal transitions with no Active reported while the gate is closed. Under the source's accounting its share starts at its busyness, never goes negative, and ends at the busyness of the final state: one for New or Active, zero for Idle or ended. |
| `Lifecycle.AsWrittenShareFromNew` | server.go:238-267 | Take the beginning of a lifecycle with no Active reported while the gate is closed. Under the source's accounting the counter share is zero before the first report and afterwards the busyness of the last reported state. |
| `Lifecycle.RestBalanced` | server.go:238-267 | From any reachable point of a valid lifecycle, the remaining deltas return this connection's share to zero without a panic exactly when no hazard lies ahead. |
| `Lifecycle.LifecycleBalanced` | server.go:238-267 | For a valid lifecycle with a monotone gate, the deltas are balanced (sum zero, no negative running total) exactly when there is no hazard. |
| `Lifecycle.BalancedWhileGateOpen` | server.go:238-267 | If the gate is open at every Active, every valid lifecycle drains its share to zero without a panic. |
| `Lifecycle.BalancedWhenGateClosesWhileIdle` | server.go:238-267 | Suppose every force-closing Active follows Idle and is followed by Closed/Hijacked. Then the lifecycle drains its share to zero without a panic. |
| `Lifecycle.ResidueAfterForceCloseFromNew` | server.go:247-266 | New, then Active with the gate closed, then Closed, is a valid lifecycle with deltas 1, 0, 0. It leaves the counter at one. |
| `Lifecycle.NegativeAfterForceCloseThenIdle` | server.go:247-260 | New, Active, Idle, then Active with the gate closed, then Idle, drives the counter negative, so the WaitGroup panics. |
| `CorrectedTracker.CorrectedStep` | server.go:238-267 | This is the corrected callback. It agrees with the source whenever the gate is open on a connection never force-closed. On every legal transition while the gate never reopens (a force-closed connection only ever sees a closed gate), it moves the counter by the change in the connection's held share. |
| `CorrectedLifecycle.CorrectedRestBalanced` | server.go:238-267 | Under the corrected accounting, from any point of a valid lifecycle, the held share returns to zero without a panic. |
| `CorrectedLifecycle.CorrectedLifecycleBalanced` | server.go:238-267 | Under the corrected accounting, every valid lifecycle with a monotone gate is balanced. |
| `CorrectedLifecycle.CorrectedForceCloseFromNew` | server.go:247-266 | The lifecycle that leaves a residue in the source yields deltas 1, -1, 0 once corrected. |
| `CorrectedLifecycle.CorrectedShareIsHeld` | server.go:238-267 | Take legal transitions with a gate that never reopens, where a force-closed record sees the gate closed. Under the corrected accounting the share starts at the held share, never goes negative, and ends at the held share of the final record: one exactly while New or Active and not force-closed. |
| `CorrectedLifecycle.CorrectedShareFromNew` | server.go:238-267 | Take the beginning of a lifecycle with a gate that never reopens. Under the corrected accounting the counter share is zero before the first report and afterwards the held share of the record left behind. |
| `ServeResult.ServeError` | server.go:283-286 | Serve returns nil exactly when the accept loop ended with nil or with the listener-closed sentinel. Any other error is returned unchanged, so the sentinel never escapes. |
| `Server.Initial` | server.go:226-227 | A server with n connections starts with n records, every one of them the fresh record (state New, not force-closed), a zero counter and an open, well-formed gate. |
| `Server.OnEvent` | server.go:238-267 | A report runs the callback on the reporting connection's record only. It moves the shared counter by the callback's delta and panics exactly when the counter would go negative. Other connections' records and the gate are unchanged. Closing the gate touches neither records nor counter. |
| `Server.Run` | server.go:238-276 | A run of reports and gate closes keeps the set of tracked connections. The gate ends closed if it started closed or was closed during the run. |
| `Server.ReportKeepsInvariant` | server.go:238-267 | After one report, the counter is still the sum of the connections' shares, and each connection's remaining events still drain its share. |
| `Server.RunDrains` | server.go:288-293 | Suppose the counter is the sum of per-connection shares, and each connection's remaining events drain its share. Then the interleaved run never panics and ends at zero. |
| `Server.ServerDrains` | server.go:288-293 | Suppose each connection's own deltas are balanced. Then the interleaved run from a fresh server never panics and leaves the counter at zero, so Wait returns. |
| `Server.ProjectMonotone` | server.go:375-381 | Each connection sees the gate monotonically: once closed, every later report of it sees it closed. |
| `Server.AsWrittenServerDrains` | server.go:238-294 | With the source's accounting, the server drains when every connection's lifecycle is complete and hazard-free. |
| `Server.CorrectedServerDrains` | server.go:238-294 | With the corrected accounting, the server drains whenever every connection's lifecycle is complete. |
| `Server.AsWrittenServerHangs` | server.go:238-293 | With the source's accounting, this sequence leaves the counter at one, so Wait never returns: a connection reports New, the gate closes, and the connection reports Active and then Closed. |
| `ServerShares.RunKeepsHeld` | server.go:238-293 | Suppose the counter is the sum of the shares and every connection is ready for its remaining events. Then a corrected run never panics and ends with the counter equal to the sum of the shares, where a connection counts once it has been reported before or during the run. |
| `ServerShares.CorrectedCounterIsHeld` | server.go:238-293 | For a corrected run from a fresh server in which every connection reports the beginning of a lifecycle, the run never panics. At its end the counter equals the sum of the shares held by the connections reported so far. |
| `ServerShares.PrefixStillStarts` | server.go:238-293 | Every prefix of a run in which each connection reports the beginning of a lifecycle is again such a run. So the counter theorems hold at every point of the run, not only at its end. |
| `ServerShares.CounterCoversInFlight` | server.go:238-293 | At the end of such a corrected run, and so at every point of one, while a reported connection is New or Active and not force-closed, the counter is at least one. So `wg.Wait()` cannot return while that request is in flight. |

## Left out

- `BusyCounter.Add`, `BusyCounter.StartRoutine`: the counter is an unbounded natural number. Go's `sync.WaitGroup` keeps it in 32 bits, so `Add(1)` at 2^31-1 panics, and it also panics when `Add` is called concurrently with `Wait`. Neither panic is modelled: a realistic count of live connections and goroutines stays far below the bound, and the misuse panic is a concurrency effect that a sequential model cannot express.
- `ListenAndServe`, `ListenAndServeTLS` and `ListenAndServeTLSWithConfig` (server.go:135-187) are left out. They bind sockets and load TLS certificates, which is operating-system and cryptographic I/O.
- `GetFile`, `HijackListener`, `NewListener`, `Clone` and `retrieveGracefulConn` are left out. They duplicate file descriptors and wrap listeners, and their code (`listener.go`) is not part of this model.
- The shutdown watcher goroutine, the `shutdown` channel and the `up` test hook (server.go:232-235, 278-281) are left out. They are concurrency plumbing. In the server model the gate closing is simply an event.
- `GracefulServer.Close` (server.go:130-132) is left out. It closes a channel, so a second call panics in Go.
- The blocking of `wg.Wait()` and `SetKeepAlivesEnabled(false)` (server.go:292-293) are left out. Only the counter arithmetic is modelled: Wait returns exactly when the counter is zero.
- The process-wide registry and the package-level `ListenAndServe`, `Serve` and `Close` (server.go:309-349) are left out. They are a thin convenience layer behind a mutex.
- `r.Body.Close()`, the wrapped handler's execution, and the calls to the user's `StateHandler` and the original `ConnState` (server.go:269-275) are left out. They are foreign calls. The model keeps only the handler-invoked-or-not decision and the old state passed to the observer. That the observer is called after the bookkeeping is an ordering, which a pure step cannot express.
- `StartRoutine` and `FinishRoutine` called by handlers for goroutines that outlive a request (server.go:297-307) are not events of the server model. Its counter holds only the connections' shares. Those calls are modelled on their own in `BusyCounter`, where FinishRoutine is proved to undo StartRoutine, so balanced handler calls add nothing to the sum.
- Atomicity of the gate flag and of the counter is left out. The model treats each callback as one indivisible step. The engine serialises the reports for one connection, and the server model interleaves different connections' reports in any order.
- The source comment at server.go:224-225 promises a 503 response for late requests. The code sends no response at all, and the model follows the code: the handler is skipped and the body drained.

## Findings

| source | as written | input that shows it | evidently intended | confidence | as-written member | corrected member |
|---|---|---|---|---|---|---|
| server.go:247-266 | A connection force-closed on its first request (New then Active while the gate is closed) keeps the increment made for New. The following Closed skips the decrement because `forceClosed` is set. | A connection accepted before shutdown whose first request arrives after the gate closed: New, Active (gate closed), Closed. The counter stays at 1 and `wg.Wait()` never returns. | A force close resolves what the connection still holds: FinishRoutine when the previous state was not Idle. Idle after a force close does not decrement again. | medium; not executed | `Lifecycle.ResidueAfterForceCloseFromNew` | `CorrectedLifecycle.CorrectedLifecycleBalanced` |
