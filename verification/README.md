# localup: a verified model of its stateful core

localup exposes local servers through relays. This project models, in Dafny, the parts of it that keep
state under concurrency or put bytes on a wire, and proves what those parts keep over every input, every
run or every interleaving:

- **TCP port allocator** (`PortSpec`, `PortAllocation`, `PortRuns`, `PortLocks`): a free set and a
  tunnel-to-port table under two mutexes, with reservations, a hash-preferred port and a nearest-port
  search; ports that the operating system reports busy leave the pool. The class follows the source; whole
  runs and any number of threads are treated on the table values that its methods are proved against.
- **Tunnel daemon** (`TunnelTask`, `Daemon`, `DaemonTasks`, `DaemonStatus`, `DaemonReload`, `DaemonCommands`,
  `Backoff`): the command loop, cut at its awaits and interleaved with the reconnect loop of every tunnel.
- **Reverse tunnel** (`TunnelMessages`, `Framing`, `Forwarder`, `AgentStreams`, `Heartbeat`): the bincode
  form of the messages, the length-prefixed frames and their chunk-by-chunk reader, the byte forwarder, the
  agent's concurrent data streams with their connection table, and the ping/pong session on the control
  stream.
- **Client proxy** (`HttpResponse`, `ConnectionPool`): the printed HTTP response against a reader for
  sections 4, 5 and 6.3 of RFC 9112, and the bounded connection pool.
- **Project configuration** (`EnvExpansion`, `EnvLimits`, `ProjectConfig`): sequential environment expansion
  against simultaneous substitution, and validation that makes the later conversion total.

What comes from outside is a parameter of the statements: the answers of the operating system to each bind
attempt (a new one per probe), the clock, the hash, hash-map iteration order (an arbitrary ordering or an
arbitrary choice), outcomes of reads, writes, connects and readiness checks, token validity, Unicode case
tables and the environment. `abort` of a tunnel's task takes effect at once.

## Where the code and its promise part

Each of these is stated as an if-and-only-if, with the code kept as it is.

- The reconnect delay min(2^(n-1), 30) holds exactly for n <= 64 consecutive failures
  (`Backoff.DelayIsCappedPowerIff`). In a release build `2u64.pow` then wraps to 0, the delay is 0, and the
  loop reconnects without waiting; a build with overflow checks panics instead.
- The hash-preferred port exists exactly when end + 1 does not wrap onto start (`PortSpec.HashPortDefined`);
  for 0-65535, and for a range that ends right before its start, the 16-bit range size is 0. There the first
  allocation that needs the hash panics inside both locks, and every later call panics
  (`PortRuns.FaultIsForever`).
- The printed HTTP response is framed correctly exactly when it carries no body in the cases where the
  protocol forbids one (`HttpResponse.ResponseRoundTrip`); the 502 answer is misread exactly in answer to
  HEAD (`HttpResponse.ErrorResponseFramed`).
- A tunnel message survives encoding exactly when it is not a `ReverseClose` without a reason
  (`TunnelMessages.SurvivesIff`): the absent field is skipped by the writer and expected by the reader. That
  is the close the forwarder sends, so over the wire all data arrives and the receiving half then ends in a
  transport error without shutting its write side down (`Forwarder.WireRoundTrip`).
- Environment expansion of an input is simultaneous substitution in every environment exactly when the input
  holds at most one reference, whatever its names contain (`EnvLimits.SafeInEveryEnvironmentIff`). When
  neither names nor values hold a `$`, it is exactly when no literal `$` stands directly before a reference
  that is captured before the last capture (`EnvLimits.SafeInPlainEnvironmentsIff`). A counterexample family
  for each of the three parts (a `$` in a value, in a name, before a reference) shows what goes wrong.

## Model

| member | source | states |
|---|---|---|
| PortSpec.HashPortDefined | crates/localup-cli/src/main.rs:3522-3533 | the preferred port is defined iff end + 1 does not wrap onto start (so neither for 0-65535 nor for a range ending right before its start); for every hash it is the port where counting the hash off round and round over the range (over the wrapped one when inverted) ends, so every port is preferred by some hash |
| PortSpec.StepKeepsPartition | crates/localup-cli/src/main.rs:3536-3763 | every operation, with any probe answers and clock, keeps the range partitioned into free, held and dropped ports with an injective tunnel-to-port map |
| PortSpec.PartitionSizes | crates/localup-cli/src/main.rs:3496-3508 | the sizes of the three parts add up to the size of the range, which is 0 for an inverted one |
| PortAllocation.PortAllocator.constructor | crates/localup-cli/src/main.rs:3496-3509 | for every pair of bounds, a new allocator holds exactly the ports of the range, nothing leased and nothing dropped |
| PortAllocation.PortAllocator.Allocate | crates/localup-cli/src/main.rs:3587-3730 | the call panics iff the locks are poisoned or it needs a hash in a range that has none, and then poisons them; otherwise the tables change exactly by the lease it answers with (the same port for a known tunnel; failure without a request only with the pool left empty), and under a stable operating system the answer and the ports left are the specified ones for requested and unrequested ports, counted from the hash-preferred port |
| PortAllocation.PortAllocator.TryNearby | crates/localup-cli/src/main.rs:3668-3700 | the search by increasing offset finds the nearest usable port within 10, upward on ties, and removes exactly the busy ports before it |
| PortAllocation.PortAllocator.TryAny | crates/localup-cli/src/main.rs:3702-3727 | the fallback returns some usable remaining port in any iteration order, and fails only after emptying the pool |
| PortAllocation.CandidateRank | crates/localup-cli/src/main.rs:3669-3674 | saturation at 0 and 65535 is harmless: a clamped candidate was passed already |
| PortAllocation.FoundNearest | crates/localup-cli/src/main.rs:3644-3700 | a usable port found after all lower-ranked ports proved busy satisfies the nearest-port specification |
| PortAllocation.RankMeaning | crates/localup-cli/src/main.rs:3668-3674 | the order of the search: nearer first, upward on ties, and near is at most 10 away |
| PortAllocation.NearestSpecDetermines | crates/localup-cli/src/main.rs:3644-3700 | when a usable port lies within 10 of the preferred one, the specification leaves one answer and one remaining pool |
| PortAllocation.PortAllocator.Deallocate | crates/localup-cli/src/main.rs:3732-3763 | an active lease becomes reserved until now plus the reservation time; any other call changes nothing, and it panics iff the locks are poisoned |
| PortAllocation.PortAllocator.CleanupExpired | crates/localup-cli/src/main.rs:3536-3583 | exactly the reservations whose deadline lies strictly before now are removed and their ports are free again, unless the locks are poisoned |
| PortAllocation.PortAllocator.GetAllocatedPort | crates/localup-cli/src/main.rs:3765-3771 | reports the tunnel's port iff it holds one; such a port is in the range, not free and not dropped; panics iff the locks are poisoned |
| PortRuns.RunKeepsPartition | crates/localup-cli/src/main.rs:3496-3763 | partition and size equation in every state of every run |
| PortRuns.NoSharedPort | crates/localup-cli/src/main.rs:3587-3763 | two tunnels never hold the same port at any point of any run |
| PortRuns.DroppedNeverIssued | crates/localup-cli/src/main.rs:3628-3635 | a port dropped as busy is never free, held, issued or reported again |
| PortRuns.HoldFollowsHistory | crates/localup-cli/src/main.rs:3732-3763 | a lease is reserved until its first release since the last allocation plus the reservation time; repeated releases do not move the deadline |
| PortRuns.PortSticks | crates/localup-cli/src/main.rs:3536-3609 | a tunnel keeps its port from step i to step j iff no cleanup in between came strictly after its deadline |
| PortRuns.OneStepSticks | crates/localup-cli/src/main.rs:3541-3567 | a cleanup after the deadline frees the port, and no other operation takes a lease away |
| PortRuns.ReallocationReturnsSamePort | crates/localup-cli/src/main.rs:3591-3609 | a later allocation returns the same port whatever is requested and whatever other tunnels do, unless an expiring cleanup came in between |
| PortRuns.FaultIsForever | crates/localup-cli/src/main.rs:3522-3533 | a hashable range never faults; in any other, no allocation that needs the hash ever completes, and after the first one every call panics and no lease changes |
| PortLocks.ConcurrentIsSequential | crates/localup-cli/src/main.rs:3537-3538 | with any number of threads, and with panics that poison the locks, whenever the allocated ports are unlocked the tables are the last state of a sequential run of the completed calls, so the partition holds |
| PortLocks.NoDeadlock | crates/localup-cli/src/main.rs:3588-3589 | in every reachable state with an unfinished call some thread in a call can step, also after a panic |
| Backoff.DelayIsCappedPowerIff | crates/localup-cli/src/daemon.rs:736-741 | the delay is min(2^(n-1), 30) iff n <= 64, and 0 beyond |
| Backoff.PowerFitsIff | crates/localup-cli/src/daemon.rs:736-741 | the power fits 64 bits iff n <= 64 |
| Backoff.DelayMonotone | crates/localup-cli/src/daemon.rs:736-741 | for 1 <= n <= 64 the delay is at least 1, at most 30 and nondecreasing |
| TunnelTask.ActKeepsGood | crates/localup-cli/src/daemon.rs:727-882 | every step of a tunnel keeps the cancel, failure-count and fatal-error invariants; a task is done only with its cancel message consumed or after a fatal error, and not both |
| TunnelTask.ActKeepsFits | crates/localup-cli/src/daemon.rs:727-901 | the status left in the handle is one that fits where the loop stands, with the URL or the error of the last connect; Reconnecting is only ever set over Failed |
| TunnelTask.ReconnectingCountsFailures | crates/localup-cli/src/daemon.rs:733-882 | at each of the seven points where the handle can show Reconnecting(n), n is the number of connects that had failed in a row, between 1 and 64, and the wait was min(2^(n-1), 30) |
| TunnelTask.AtMostOneLateConnect | crates/localup-cli/src/daemon.rs:762-879 | over any run at most one connect begins after the cancel message was queued |
| TunnelTask.NoConnectAfterEnd | crates/localup-cli/src/daemon.rs:762-879 | no connect begins after a consumed cancel message or a non-recoverable error |
| TunnelTask.NoConnectAfterFatalError | crates/localup-cli/src/daemon.rs:849-879 | no connect begins after one that ended in an authentication or configuration error |
| TunnelTask.EndsOnlyIf | crates/localup-cli/src/daemon.rs:762-879 | over any run a task ends only if a cancel message was queued or a connect ended in an authentication or configuration error |
| TunnelTask.RecoverableErrorReconnects | crates/localup-cli/src/daemon.rs:735-879 | after any other connect error with nothing queued the tunnel reaches its next connect with the failure counted, sleeping before it iff 1 to 64 connects have failed in a row |
| TunnelTask.LostReconnects | crates/localup-cli/src/daemon.rs:800-847 | after a lost connection with nothing queued the tunnel reaches its next connect without sleeping and with the count at 0 |
| TunnelTask.FatalErrorEnds | crates/localup-cli/src/daemon.rs:849-869 | an authentication or configuration error is stored as Failed and ends the tunnel in two steps |
| TunnelTask.QueuedCancelIsTaken | crates/localup-cli/src/daemon.rs:762-879 | at each of the three places where a tunnel looks for a cancel message, a queued one is taken |
| TunnelTask.ConsumedCancelEnds | crates/localup-cli/src/daemon.rs:818-847 | after a consumed cancel message the only steps left lead to the end |
| DaemonTasks.TasksConserved | crates/localup-cli/src/daemon.rs:229-449 | between commands the spawned tunnel tasks are the disjoint union of those in the map and those aborted, with no placeholder left; after the loop exits the map is empty and all were aborted |
| DaemonTasks.NoHandleOverwritten | crates/localup-cli/src/daemon.rs:630-691 | a handle is inserted only under a name that is not in the map, with a new task |
| DaemonTasks.LiveTaskOwnsItsHandle | crates/localup-cli/src/daemon.rs:885-901 | a tunnel task that can still update a status owns the handle it updates |
| DaemonStatus.OneCancelPerTask | crates/localup-cli/src/daemon.rs:694-715 | over any run a cancel channel receives at most one message and at most one connect follows it |
| DaemonStatus.AbortedWereTold | crates/localup-cli/src/daemon.rs:694-715 | in every reachable state an aborted task had been sent exactly one cancel message |
| DaemonStatus.EndedTaskConnectsNoMore | crates/localup-cli/src/daemon.rs:762-879 | in every run of the daemon, a tunnel task that took its cancel message or met a non-recoverable error begins no connect at any later point |
| DaemonStatus.CommandLoopNeverWaits | crates/localup-cli/src/daemon.rs:334-337 | the send under the map's lock always finds room: the command loop waits iff it is between commands or a client has not taken its GetStatus answer, and never with the lock held |
| DaemonStatus.CommandEnds | crates/localup-cli/src/daemon.rs:243-442 | every step of the loop strictly decreases the work left of a command |
| DaemonStatus.CommandIsBounded | crates/localup-cli/src/daemon.rs:243-442 | over any interleaving inside a command, the steps of the loop plus the work left are at most the work at the start, and after that many steps the loop is done |
| DaemonStatus.ReportsAreConsistent | crates/localup-cli/src/daemon.rs:500-540 | in every reachable state uptime is reported iff Connected, an error iff Failed, and a public URL only when Connected; URL and error are those of the last connect whose outcome was stored |
| DaemonStatus.ReportIs | crates/localup-cli/src/daemon.rs:500-540 | which status is shown as which, and the uptime is the time since `connected_at` |
| DaemonStatus.UptimeStart | crates/localup-cli/src/daemon.rs:885-901 | in every run the reported uptime counts from the clock reading of the step in which the tunnel's own task stored that it was connected |
| DaemonStatus.ReportedAttemptCountsFailures | crates/localup-cli/src/daemon.rs:510-514 | in every reachable state a reported reconnect number is the number of connects that had failed in a row, wherever the tunnel task stands, and is between 1 and 64 |
| DaemonReload.ReloadConverges | crates/localup-cli/src/daemon.rs:338-437 | after a Reload, under any interleaving, the running names are those of the file, kept tunnels keep their task, removed ones are aborted, new ones run a new task showing the file's protocol and port |
| DaemonReload.SecondReloadChangesNoTask | crates/localup-cli/src/daemon.rs:389-433 | a second Reload with the same enabled names starts, stops and aborts nothing, whatever they convert to now |
| DaemonReload.ReloadCachesFile | crates/localup-cli/src/daemon.rs:398-407 | after a Reload the cache holds the file's configuration for each of its tunnels |
| DaemonReload.ValidatedReloadConverges | crates/localup-cli/src/project_config.rs:211-244 | for every validated configuration the running tunnels after a Reload are exactly its enabled tunnels, and a new one shows the port and the lower-cased protocol of the file |
| DaemonCommands.StartTunnelEnds | crates/localup-cli/src/daemon.rs:244-273 | under any interleaving, a tunnel that is not running runs a new task showing the cached configuration, or the stored one if none is cached; a running one and all others keep their tasks |
| DaemonCommands.StopTunnelEnds | crates/localup-cli/src/daemon.rs:274-278 | under any interleaving, exactly that tunnel is gone and its task aborted |
| DaemonCommands.ReloadTunnelEnds | crates/localup-cli/src/daemon.rs:279-333 | under any interleaving, a tunnel of the file runs a new task showing the file's configuration, which is cached, its old task is aborted, and all others keep theirs; otherwise nothing changes |
| ProjectConfig.Validate | crates/localup-cli/src/project_config.rs:211-239 | accepts iff names are unique and well formed and protocols known; otherwise reports the first offender with the right error |
| ProjectConfig.AsciiNames | crates/localup-cli/src/project_config.rs:389-395 | among ASCII names exactly the nonempty ones of letters, digits, hyphens and underscores are valid |
| ProjectConfig.ValidatedConfigConverts | crates/localup-cli/src/project_config.rs:297-386 | the names converted are exactly those of the enabled tunnels of a validated configuration, and each converts, under its own name and port |
| ProjectConfig.ConvertsIff | crates/localup-cli/src/project_config.rs:337-361 | a tunnel converts iff its lower-cased protocol is one of the four, to that protocol with its own settings |
| ProjectConfig.TokenConverted | crates/localup-cli/src/project_config.rs:306-330 | a token without `${` is passed on, a clean one is expanded in one pass, and an empty result gives the saved token |
| ProjectConfig.TransportConverted | crates/localup-cli/src/project_config.rs:363-373 | which spellings give which transport |
| ProjectConfig.SettingsConverted | crates/localup-cli/src/project_config.rs:298-336 | relay and host come from the tunnel, else the defaults, else the fallback; timeout and allow list are passed on |
| ProjectConfig.DefaultsOnlyFillIn | crates/localup-cli/src/project_config.rs:297-386 | the tunnel with its open settings filled in converts alike under other defaults iff these keep the timeout and name no transport for one left open |
| EnvExpansion.ExpandEnvVars | crates/localup-cli/src/project_config.rs:400-411 | the loop computes replacement of every captured name, in order, in the whole text |
| EnvExpansion.SequentialIsSimultaneous | crates/localup-cli/src/project_config.rs:400-411 | sequential replacement equals one-pass substitution when no name or value contains `$` and no literal `$` stands directly before a reference that is captured before the last capture |
| EnvExpansion.LexIsLexed | crates/localup-cli/src/project_config.rs:402 | an opening `${` that the regular expression passes over is followed by `}` or by no closing brace at all, so no later replacement starts there |
| EnvExpansion.SingleReference | crates/localup-cli/src/project_config.rs:400-411 | with one reference they agree in every environment and for any other text |
| EnvExpansion.OneReferenceExpands | crates/localup-cli/src/project_config.rs:397-411 | one reference in text without `$` becomes the variable's value, or nothing if it is not set |
| EnvLimits.SafeInEveryEnvironmentIff | crates/localup-cli/src/project_config.rs:397-411 | every input, whatever its names contain, expands simultaneously in every environment iff it holds at most one reference |
| EnvLimits.TwoReferencesFail | crates/localup-cli/src/project_config.rs:404-408 | with two or more references there is an environment in which the results differ |
| EnvLimits.SafeInPlainEnvironmentsIff | crates/localup-cli/src/project_config.rs:397-411 | for names without `$`, an input expands simultaneously in every environment whose values hold no `$` iff no literal `$` stands directly before a reference that is captured before the last capture |
| EnvLimits.StrayDollarFails | crates/localup-cli/src/project_config.rs:404-408 | otherwise there is such an environment in which the results differ |
| EnvLimits.ValueIsExpandedAgain | crates/localup-cli/src/project_config.rs:404-408 | a value that contains a later reference is expanded again |
| EnvLimits.StrayDollarCompletes | crates/localup-cli/src/project_config.rs:404-408 | a stray `$` in front of a reference can complete another one |
| EnvLimits.NameWithDollarIsLost | crates/localup-cli/src/project_config.rs:402-408 | a reference whose name contains another reference is broken by it |
| HttpResponse.SerializeResponse | crates/localup-client/src/http_proxy.rs:165-229 | the printed fields are the server's headers without the two framing headers, in order, with repetitions and with their values (emptied if not visible text), and the content-length; the bytes and the captured body are as specified |
| HttpResponse.ResponseRoundTrip | crates/localup-client/src/http_proxy.rs:165-229 | a peer reading the response followed by any bytes recovers status, reason, body and remainder iff a response that must have no body has none; its headers are the server's, and under every name but the framing ones it reads the server's values in order |
| HttpResponse.FramingHeaders | crates/localup-client/src/http_proxy.rs:171-204 | the peer sees exactly one content-length, the body's length, and no transfer-encoding |
| HttpResponse.HeaderValuesKept | crates/localup-client/src/http_proxy.rs:175-193 | under every name but the framing ones the peer reads the server's values in order and with repetitions |
| HttpResponse.TrimMeaning | crates/localup-client/src/http_proxy.rs:213-216 | what the peer drops from a printed value is only spaces and tabs at its ends |
| HttpResponse.TextBodyIff | crates/localup-client/src/http_proxy.rs:188-190 | the last content-type header decides whether the body is text |
| HttpResponse.ParseInverts | crates/localup-client/src/http_proxy.rs:206-219 | status line and header lines are read back whatever follows them |
| HttpResponse.ErrorResponseFramed | crates/localup-client/src/http_proxy.rs:336-346 | the 502 answer is read back for every error text iff it is not a nonempty answer to HEAD |
| HttpResponse.ErrorHeaders | crates/localup-client/src/http_proxy.rs:336-346 | the reason and the two headers of the 502 answer, spelled out |
| ConnectionPool.HttpProxy.TakePooled | crates/localup-client/src/http_proxy.rs:71-83 | the newest ready connection is taken and the stale ones above it are discarded |
| ConnectionPool.HttpProxy.ReturnConnection | crates/localup-client/src/http_proxy.rs:108-122 | only a ready connection is pooled, and only below 10 entries |
| ConnectionPool.PoolSafe | crates/localup-client/src/http_proxy.rs:71-122 | in every interleaving the pool has at most 10 entries and no connection is pooled twice, shared, or both pooled and in use |
| ConnectionPool.FailedNeverReturns | crates/localup-client/src/http_proxy.rs:282-291 | a connection whose send failed never re-enters the pool and is never handed out again |
| ConnectionPool.ReusedWasReady | crates/localup-client/src/http_proxy.rs:74-83 | a reused connection was ready when popped and has one user |
| ConnectionPool.ReturnedWasReady | crates/localup-client/src/http_proxy.rs:108-113 | a connection on its way to the pool was found ready after its response |
| ConnectionPool.ReturnedIsReused | crates/localup-client/src/http_proxy.rs:71-122 | in every run a connection returned below 10 entries is the one the next take gets, if it is still ready |
| ConnectionPool.DialsOnlyIfNoneReady | crates/localup-client/src/http_proxy.rs:74-86 | a new connection is dialled only if no pooled one is ready |
| TunnelMessages.SurvivesIff | crates/localup-proto/src/messages.rs:182-187 | a message survives serialization iff it is not a ReverseClose without a reason |
| TunnelMessages.WireLayout | crates/localup-proto/src/messages.rs:182-187 | the octets of pings, pongs, accepts, data and closes, written out |
| Framing.DecodeEncodedIff | crates/localup-proto/src/codec.rs:30-79 | an encoded message followed by anything decodes to itself and the rest, with the same exception |
| Framing.DecodeStable | crates/localup-proto/src/codec.rs:49-79 | once a frame is complete, later bytes do not change its result |
| Framing.EncodeIff | crates/localup-proto/src/codec.rs:30-46 | a message is refused iff it is longer than 16777216 octets, and otherwise follows its big-endian length |
| Framing.OversizedIsAnError | crates/localup-proto/src/codec.rs:56-63 | a longer announced length is an error at once |
| Framing.RecvHalf.RecvMessage | crates/localup-transport-quic/src/stream.rs:216-260 | the answer and the bytes left depend only on the byte stream and not on its chunks |
| Framing.ReceiveAll | crates/localup-transport-quic/src/stream.rs:216-260 | repeated calls answer exactly the messages decoded from the concatenated bytes, then what the end of the stream gives |
| Framing.ReceiveFresh | crates/localup-transport-quic/src/stream.rs:216-260 | a new receiver answers as the round-trip statements say, for any chunks |
| Framing.StreamRoundTrip | crates/localup-transport-quic/src/stream.rs:216-260 | for every cut into chunks of the frames followed by anything, every message sent is received once and in order |
| Framing.WholeStreamRoundTrip | crates/localup-transport-quic/src/stream.rs:216-260 | a finished stream of frames, in any chunks, is received as its messages and the end |
| Framing.CutStream | crates/localup-transport-quic/src/stream.rs:216-260 | a stream that ends inside a frame gives the messages before it, then an end without an error if it was finished, an error if it was lost, and no answer while it is open |
| Framing.BareCloseIsAnError | crates/localup-proto/src/codec.rs:75-78 | for every cut into chunks and whatever follows, a close without a reason is received as an error after everything before it |
| Forwarder.PumpToRemote | crates/localup-agent/src/forwarder.rs:109-150 | the receive loop computes the iteration that InboundDelivers speaks of |
| Forwarder.PumpToTunnel | crates/localup-agent/src/forwarder.rs:153-195 | the read loop with its reused buffer computes the iteration that OutboundSends speaks of |
| Forwarder.InboundDelivers | crates/localup-agent/src/forwarder.rs:109-150 | the remote gets exactly the data up to the end of the messages, or a prefix of it on errors; the count is its length, and shutdown happens iff the end was clean |
| Forwarder.OutboundSends | crates/localup-agent/src/forwarder.rs:153-195 | for every chunking the messages are the chunks in order and one close, and the count is the stream's length |
| Forwarder.OutboundStops | crates/localup-agent/src/forwarder.rs:153-195 | when a send or a read fails, exactly the chunks before the failure were sent, and the result is the transport or I/O error; a close that cannot be sent changes nothing |
| Forwarder.InboundStops | crates/localup-agent/src/forwarder.rs:114-129 | a failed write ends the half in an I/O error with exactly the data before it and a part of its own written |
| Forwarder.EndingMeans | crates/localup-agent/src/forwarder.rs:118-141 | a close, empty data and the end of the stream end the data cleanly, an error does not, and other messages are passed over |
| Forwarder.OneCloseComesLast | crates/localup-agent/src/forwarder.rs:164-189 | the messages are the chunks as nonempty data of at most 16384 octets, and exactly one close without a reason, last |
| Forwarder.InterleavingIrrelevant | crates/localup-agent/src/forwarder.rs:197-203 | under any schedule each half ends as it would alone |
| Forwarder.BidirectionalCopy | crates/localup-agent/src/forwarder.rs:97-204 | for every schedule after which both halves are done and with no I/O error: the remote got the delivered data, the tunnel got the data messages and one close, and the result is the pair of the two lengths, or the transport error when the messages ended in one |
| Forwarder.BidirectionalFailure | crates/localup-agent/src/forwarder.rs:197-203 | with failing reads or sends the result is the error of the inbound half, else that of the outbound half, else both lengths |
| Forwarder.CopyFinishes | crates/localup-agent/src/forwarder.rs:197-203 | every schedule that gives each half a turn per item ends both |
| Forwarder.MessageRoundTrip | crates/localup-agent/src/forwarder.rs:97-204 | under any schedules, the messages of one forwarder handed to another reproduce the byte stream and its length |
| Forwarder.WireRoundTrip | crates/localup-agent/src/forwarder.rs:183-192 | under any schedules, for every cut of the QUIC stream into chunks and whatever follows, the data is exact over the wire, and the close then ends the receiving half in a transport error |
| AgentStreams.RunKeepsStreams | crates/localup-agent/src/agent.rs:810-981 | for any number of streams, every address dialled is the target and follows an Accept, and a stream answers at most once |
| AgentStreams.OnlyEntitledServed | crates/localup-agent/src/agent.rs:850-950 | in every run a stream that dialled or sent an Accept had received a request for the target with, if a secret is configured, a valid token; any other request that was answered got a Reject with its ids |
| AgentStreams.EntitledNeverRejected | crates/localup-agent/src/agent.rs:850-950 | a stream that received such a request is never about to reject it and answers only with its Accept |
| AgentStreams.RequestIsAnswered | crates/localup-agent/src/agent.rs:830-940 | a received request is checked and goes on to the Accept or the Reject it is due |
| AgentStreams.AcceptedIsForwarded | crates/localup-agent/src/agent.rs:935-961 | an accepted request is registered, dialled at the target, forwarded and unregistered |
| AgentStreams.TableWithinLive | crates/localup-agent/src/connection.rs:38-112 | table keys are always numbers of live streams with the target as address |
| AgentStreams.AllClosedTableEmpty | crates/localup-agent/src/agent.rs:944-961 | when all streams have finished the table is empty, also after forward errors and clears |
| AgentStreams.TableIsExact | crates/localup-agent/src/agent.rs:944-961 | with distinct numbers and no clear the table holds exactly the live streams |
| AgentStreams.ManagerKnowsLiveStreams | crates/localup-agent/src/connection.rs:17-112 | a connection manager that served the calls of any run holds that run's table, so it knows only live streams with the target as address, and none once all have finished |
| AgentStreams.ConnectionManager.Get | crates/localup-agent/src/connection.rs:88-91 | answers what the last call for that number left |
| AgentStreams.ConnectionManager.Count | crates/localup-agent/src/connection.rs:94-97 | counts the numbers whose last call left an entry |
| AgentStreams.ConnectionManager.Unregister | crates/localup-agent/src/connection.rs:59-79 | keeps the table equal, number by number, to what the last call for that number left, known number or not |
| AgentStreams.ConnectionManager.Register | crates/localup-agent/src/connection.rs:38-53 | keeps the same invariant: the newest registration of a number wins and all other numbers keep theirs |
| AgentStreams.ConnectionManager.Clear | crates/localup-agent/src/connection.rs:106-112 | keeps the same invariant: no earlier registration of any number is seen any more |
| Heartbeat.EchoIsExact | crates/localup-agent/src/agent.rs:577-738 | while both ends are up, pongs received, pongs in flight and pings in flight concatenate to the pings sent |
| Heartbeat.EchoConserves | crates/localup-agent-server/src/server.rs:298-326 | the server's echo, successful or failed, keeps that concatenation |
| Heartbeat.PongsArePrefix | crates/localup-agent/src/agent.rs:632-638 | whatever breaks, the pongs received are a prefix of the pings sent |
| Heartbeat.NothingUnexpected | crates/localup-agent-server/src/server.rs:230-326 | neither end meets a message that it would report as unexpected |
| Heartbeat.UpOnlyIfAllowed | crates/localup-agent-server/src/server.rs:230-275 | either end comes up only after the server allowed the registration and could answer it |
| Heartbeat.RefusedNeverUp | crates/localup-agent-server/src/server.rs:230-285 | a registration that is not allowed never brings either end up |
| Heartbeat.AllowedComesUp | crates/localup-agent-server/src/server.rs:230-262 | an allowed registration is answered with its own id and brings both ends up |
| Heartbeat.TickSendsPing | crates/localup-agent/src/agent.rs:577-600 | each tick of a running agent sends one ping with its time |

## Left out

- Daemon: modelled on values as steps rather than as a class, because tunnel tasks act between any two awaits; the in-place update of the shared map is a step of that machine.
- Daemon: Reload is not claimed to restart a tunnel whose configuration changed (it checks the name only), and the cache is never pruned; both follow the code.
- Daemon: an abort that takes effect only at the next await, which could let an old tunnel task update a new handle of the same name.
- EnvExpansion.SequentialIsSimultaneous: for one given environment the condition is sufficient and not necessary, since values and text can agree by accident; the exact conditions over all environments, and over those without `$`, are in EnvLimits.
- EnvLimits.SafeInPlainEnvironmentsIff: speaks of names without `$`; with such names, whether a literal `$` is completed depends on the text that follows it, and only the condition over all environments is stated.
- EnvLimits.SafeInEveryEnvironmentIff: any name can be set in the model; a process environment cannot hold a name with a NUL or `=`, so references to those always expand to nothing.
- PortSpec.HashPortDefined: follows a build with wrapping arithmetic; in one with overflow checks the range 0-65535 and every inverted range panic already when the range size is computed.
- TunnelMessages.SurvivesIff: covers the reverse-tunnel messages; UTF-8 checks of texts, the remaining message kinds and bincode's internals beyond its layout are not modelled.
- Forwarder.InboundDelivers: byte counts are unbounded, the source's are 64-bit.
- Heartbeat: reasons in reject messages and the content of token rejections are blank in the model.
- AgentStreams: reasons in reject messages are blank; the agent's start/stop flags, local listener and reconnect backoff are easy and left out.
- ConnectionPool: hyper's notion of readiness while a response body is still being read.
- HttpResponse: the request parser (httparse) and the text test of content types; the reader treats transfer codings and close-delimited bodies only as outcomes.
- parse_port_range, access control, allowlists, JWT and Argon2, certificates, the HTTP API and its database, IPC sockets and JSON, the relay's control handlers, routers and the other transports.
- TLS, QUIC, hyper, tokio and operating-system internals, which appear only through their outcomes.
