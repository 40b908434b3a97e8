# The tunnel controller, modelled

The controller turns Kubernetes Gateways into SSH remote forwardings: a route attached to a
listener becomes one `tcpip-forward` request on an SSH session, and channels the server opens
for it are handed to the route's backend. "Which forwarding exists" is kept three times: as
`route` in a listener, in the two maps of a tunnel manager, and by the SSH server. Connections
drop at any moment and the server may answer anything. This project models the controller and
proves what keeps the three copies together, for every run and every behaviour of the server.

The model has one module per component. State that the program updates in place is a class
whose methods are proved equal to a functional state machine; the theorems are about the state
machine and its runs. What the network, the server, the clock and other goroutines do is a
parameter (the `IO` datatypes and event lists), so each theorem holds for all of it.

| modules | what they model |
|---|---|
| `Text`, `HostMatch` | keys, host:port strings, and which reported URIs satisfy a request |
| `Tunnel`, `TunnelManager` | one SSH tunnel manager and the server's side of its connection |
| `Waiters`, `Notification` | the waiter's channel, and how reported URIs reach it in every interleaving |
| `Reports` | whose report a forwarding's stored addresses come from |
| `DialErrors` | the rate limiter of backend dial errors |
| `Sessions`, `SessionPool` | the pool of up to three managers and its reconciliation |
| `Listeners`, `Registry`, `GatewayController` | listeners, routes and the operations on gateways |
| `Coherence`, `Attachment`, `Exits`, `GatewayUpdate`, `GatewayDeletion`, `Stranded` | the theorems about them |
| `Reachability` | runs that end in the states where a route cannot be set or deleted, never settles, or is not its own |
| `Addresses`, `RouteStatus` | the reported addresses and the route status entry |
| `Finalizers`, `Deletion` | the finalizer protocol over a stale cache and failing updates, and when a deletion gets stuck |
| `LockOrder` | the lock programs of all goroutines, and deadlock freedom |

## Main results

1. **Ownership.** Whenever the registry is unlocked, each forwarding of a live manager belongs
   to a listener whose route it serves, or was abandoned by a listener dropped from its spec
   (`Coherence.RunsKeepCoherence`). Connection drops, reconfiguration, dials, orphan cancels
   and late server effects may come between any two pool calls of one operation.
2. **Verified pairing and no silent leak.** A registered forwarding that needs checking has
   stored addresses that pass its own check, and the server binds nothing that is neither
   registered nor in doubt (`Tunnel.RunsKeepInv`). The pairs in doubt are exactly those some
   request of the current connection left unclear (`Tunnel.DoubtIsExplained`).
3. **What nil means.** Whatever happens between its steps, a SetRoute that returns nil leaves
   the listener served by its own forwarding, with channels reaching the route's backend, if
   and only if it did not take over somebody else's that is still there
   (`Attachment.NilMeansServed`); for a call left to itself this can be told beforehand
   (`Attachment.NilServesUnlessTakenOver`). No false adoption, one-call convergence and
   idempotence come each with the exact condition.
4. **Notifications are not lost**, and exactly which runs can send on a closed channel
   (`Notification.PanicsIffClosedInFlight`).
5. **Gateway updates follow the spec** and stop exactly what changed (`GatewayUpdate`), and
   deletions stop exactly what had a route (`GatewayDeletion.DeleteIsExact`).
6. **Pool reconciliation** is exact and idempotent; live and stopped managers partition the
   managers ever created (`Sessions`, `SessionPool`).
7. **Finalizer safety** under a stale cache and optimistic locking (`Finalizers`), and exactly
   when a route comes off (`Deletion.RemovalIsExact`). A deletion whose forwarding is gone
   stays stuck through every run in which Gateway updates, the periodic ones included, keep
   its listener (`Deletion.StuckStays`), and is released by those that do not
   (`Deletion.GatewayChangeReleases`).
8. **Deadlock freedom**, whole and partial: from every unfinished goroutine a chain of waits
   leads to one that can go on, and no set of goroutines waits within itself, counting
   readers as waiting behind waiting writers (`LockOrder.ControllerDeadlockFree`).

## Where the code does not keep its own promise

The model follows the code. These are proved, with the condition under which they happen:

- A URI reader copies the waiters' channels and sends to them outside the lock, while the
  waiter deregisters and closes its channel: a send on a closed channel, which panics, is
  possible in exactly those runs in which a channel is closed while a reader still holds it
  (`Notification.PanicsIffClosedInFlight`, `Notification.PanicIsReachable`).
- The comment in `sendForwarding` says that registering before the request avoids an endless
  "already exists, adopting it" loop. The loop remains for unverified listeners whose report
  came too late: the forwarding is kept without addresses, and every identical SetRoute adopts
  it again (`Attachment.WithoutAddressesAdoptsForever`, `Attachment.SettledIffAddressesStored`,
  reached by `Reachability.WithoutAddressesIsReachable`).
- A listener dropped from its Gateway's spec is not stopped. A later listener with the same
  key is told its route is set while channels still go to the old backend
  (`GatewayUpdate.UpdateAbandonsExactlyTheDropped`, `Attachment.AbandonedIsAdopted`,
  `Attachment.NilServesUnlessTakenOver`, reached by `Reachability.InheritedIsReachable`).
- Two listeners with one key, such as hostname-less HTTP listeners on port 80 of two Gateways,
  stand for one forwarding: SetRoute for the second returns nil while channels go to the first
  route's backend (`Attachment.NilServesUnlessTakenOver`, reached by
  `Reachability.SharedKeyIsReachable`).
- A replacement stops the old route's forwarding first. If the start of the new one then
  fails, the listener goes on showing the old route without a forwarding
  (`Exits.FailedReplacementBlocks`, reached by `Reachability.FailedReplacementIsReachable`).
- A listener that shows another route whose forwarding is gone refuses every new route
  (`Attachment.OtherRouteBlocks`), through every run that neither sets the shown route again
  nor changes the listener in its Gateway's spec (`Stranded.StrandedRefuses`, reached by
  `Reachability.BlockedIsReachable`).
- A route whose forwarding is gone cannot be removed: after a connection loss its deletion
  fails on every retry. The finalizer stays until an update of its Gateway changes or drops
  the listener or the Gateway is deleted, or until another listener with the same key gets a
  forwarding (`Deletion.RemovalIsExact`, `Deletion.StuckStays`,
  `Deletion.GatewayChangeReleases`, reached by `Reachability.StuckDeletionIsReachable`). If
  the listener shows another route, the finalizer comes off.
- A report names no request, and the waiter takes the first one printed: a forwarding that
  needs no checking can store, and a Gateway report, the addresses of an earlier start that
  gave up waiting. This is excluded exactly if the request is checked or no other report is
  outstanding (`Reports.SuitsIffNothingOutstanding`, reached by
  `Reports.MisattributionIsReachable`).
- An updated listener is compared by port, hostname and session kind: an HTTP listener edited
  to an unsupported protocol stays programmed (`GatewayUpdate.UpdatedAsSpecified`,
  `GatewayUpdate.RejectionCanBeMissed`).
- A TCP request for a named host is checked by substring: longer names and longer ports pass
  (`HostMatch.NamedTCPMatchIsExact`, `HostMatch.NamedTCPMatchOverreaches`).
- `gatewayAddressesEqual` is right for every old list if and only if the new one repeats no
  value; the lists the controller builds never do (`Addresses.ExactIffDistinct`).
- `isForwardingValid` does not treat the empty hostname as a wildcard, `MatchesRequestedHost`
  does; it matters only for URIs of a foreign scheme, which the extractor never produces
  (`HostMatch.DisagreementNeedsForeignScheme`).
- An orphan cancel does not look the forwarding up again: on a reliable server it is the one
  step that can make manager and server disagree (`Tunnel.ReliableStepAgrees`, reached by
  `Tunnel.DisagreementIsReachable`).

## Assumptions

- Uniqueness of owners, absence of adoption, and that one call attaches a verified listener
  assume that distinct listeners, the rejected ones aside, have distinct (session kind,
  hostname, port): `Attachment.DistinctKeys`. A stuck deletion, and a stranded listener,
  assume it of their own listener. Ownership and what nil means do not.
- Listener names in one Gateway are distinct where a lemma says `DistinctNames`.
- `Finalizers`: the first parentRef of a route never changes, (namespace, name) is unique
  across route kinds, nobody else removes the controller's finalizer, and the reconciles of
  one route do not overlap.

## Model

| member | source | states |
|---|---|---|
| Text.AtoiDecimal | ssh/ssh_tunnel_manager.go:531-541 | the port a URI was printed with is the port read back, for every 64-bit integer |
| Text.AtoiIsExact | ssh/ssh_tunnel_manager.go:531-541 | a port is read iff it is an optional sign and digits within 64 bits, and it is the integer those digits print |
| Text.ForwardingKeyInjective | ssh/ssh_tunnel_manager.go:160-163 | two forwardings share a key iff they are the same (host, port) pair, colons in the host included |
| Text.SplitHostPortRoundTrip | ssh/ssh_tunnel_manager.go:531-541 | a printed host:port splits into the pair it was printed from |
| Text.SplitHostPortIsExact | ssh/ssh_tunnel_manager.go:531-541 | a string splits into host and port iff it is written in the plain or the bracketed form of that pair |
| Text.JoinHostPortRoundTrip | ssh/ssh_tunnel_manager.go:401 | the backend address of the dial statistics determines host and port, bracketed hosts included |
| HostMatch.HTTPHostMatchIsExact | ssh/ssh_tunnel_manager.go:501-525 | an HTTP URI has the host iff its longest boundary-free prefix after the scheme is that host |
| HostMatch.NamedHTTPListIsExact | ssh/ssh_tunnel_manager.go:458-470 | for a named host a list of HTTP URIs is accepted iff the host component of one is the host |
| HostMatch.AssignedHTTPHostIsExact | ssh/ssh_tunnel_manager.go:462-525 | a URI of scheme, assigned host and path or port is accepted for a named host iff the two hosts are equal |
| HostMatch.HTTPURIMatchesOneHost | ssh/ssh_tunnel_manager.go:462-525 | no HTTP URI is accepted for two different named hosts |
| HostMatch.WildcardAccepts | ssh/ssh_tunnel_manager.go:459-487 | a wildcard host accepts every HTTP URI, pinned or not, and unpinned every TCP URI |
| HostMatch.ForeignNeverAccepted | ssh/ssh_tunnel_manager.go:461-494 | URIs of other schemes are never accepted |
| HostMatch.TCPURIPortRoundTrip | ssh/ssh_tunnel_manager.go:529-541 | the port of a tcp:// URI is read back exactly |
| HostMatch.PinnedPortIsExact | ssh/ssh_tunnel_manager.go:485-491 | a wildcard host with a pinned port accepts exactly the URIs assigned that port |
| HostMatch.ExactTCPURIAccepted | ssh/ssh_tunnel_manager.go:475-483 | a named host accepts the URI with exactly the requested pair |
| HostMatch.NamedTCPMatchIsExact | ssh/ssh_tunnel_manager.go:475-483 | exactly which assigned pairs a named host accepts: name a suffix, port a prefix |
| HostMatch.NamedTCPMatchOverreaches | ssh/ssh_tunnel_manager.go:475-483 | a concrete wrong assignment that is accepted |
| HostMatch.MatchesIffSome | ssh/ssh_tunnel_manager.go:458-494 | the loop with its early returns accepts a list iff some URI in it is acceptable |
| HostMatch.MatchesIffSomeAlone | ssh/ssh_tunnel_manager.go:458-494 | a list is accepted iff some URI in it is accepted alone |
| HostMatch.MatchesMonotone | ssh/ssh_tunnel_manager.go:458-494 | reporting more URIs never turns an accepted list into a rejected one |
| HostMatch.AcceptValidateAgree | controllers/gateway_controller.go:163-177 | on extractor URIs the controller validates a list iff it is non-empty and the manager keeps it |
| HostMatch.DisagreementNeedsForeignScheme | controllers/gateway_controller.go:163-177 | without the scheme guarantee the two decisions differ iff host is empty, port free and all schemes foreign |
| DialErrors.FailuresConserved | ssh/ssh_tunnel_manager.go:797-841 | between resets, failures are warnings plus reported suppressed ones plus pending ones |
| DialErrors.WarningsSpaced | ssh/ssh_tunnel_manager.go:803-818 | consecutive warnings for a backend are at least a cooldown apart |
| DialErrors.WarnedExactlyWhenDue | ssh/ssh_tunnel_manager.go:812 | a failure is warned about iff none was since the reset or the last is a cooldown ago |
| DialErrors.WarningsBounded | ssh/ssh_tunnel_manager.go:122-128 | any window holds at most one warning more than the cooldowns that fit in it |
| Tunnel.StartCases | ssh/ssh_tunnel_manager.go:346-374 | when a start succeeds and when its guards refuse; per exit both maps, what the server may bind and what may be in doubt |
| Tunnel.StartOutcomes | ssh/ssh_tunnel_manager.go:550-773 | which error a start ends with, in terms of what was asked, answered and reported |
| Tunnel.StopIsExact | ssh/ssh_tunnel_manager.go:377-412 | every exit of a stop, both maps, and when the pair is released |
| Tunnel.CancelOrphanIsExact | ssh/ssh_tunnel_manager.go:961-979 | an orphan cancel releases its pair as the server carries it out, and nothing else |
| Tunnel.ConnectIsExact | ssh/ssh_tunnel_manager.go:219-240 | connected afterwards iff before or the dial succeeded, maps as they were |
| Tunnel.DropIsExact | ssh/ssh_tunnel_manager.go:305-331 | a lost connection takes everything with it |
| Tunnel.StartKeepsInv | ssh/ssh_tunnel_manager.go:550-687 | a start keeps pairing, keys and leak freedom through every exit |
| Tunnel.StopKeepsInv | ssh/ssh_tunnel_manager.go:377-412 | a stop keeps them too, and the key is gone from both maps whatever the server answers |
| Tunnel.StepKeepsInv | ssh/ssh_tunnel_manager.go:307-412 | every event keeps the manager's invariant |
| Tunnel.RunsKeepInv | ssh/ssh_tunnel_manager.go:307-412 | in every run: verified pairing, no silent leak, empty when disconnected |
| Tunnel.DoubtStep | ssh/ssh_tunnel_manager.go:704-773 | a pair is in doubt after an event iff it was before or a request of the event blurred it |
| Tunnel.DoubtIsExplained | ssh/ssh_tunnel_manager.go:642-773 | in every run the doubtful pairs are exactly those blurred on the current connection |
| Tunnel.PreemptiveCancelReleases | ssh/ssh_tunnel_manager.go:589-602 | a pinned pair, also one left over from an earlier connection, is free when its pre-emptive cancel is accepted and the fresh request refused |
| Tunnel.LeftoverStays | ssh/ssh_tunnel_manager.go:589-602 | a left-over binding outlives a refused request iff no pre-emptive cancel was sent or it was not carried out |
| Tunnel.ReliableStepAgrees | ssh/ssh_tunnel_manager.go:961-979 | on a reliable server a step keeps manager and server equal iff it is no orphan cancel of a registered pair |
| Tunnel.CleanRunsAgree | ssh/ssh_tunnel_manager.go:346-412 | after every clean run the server binds exactly the registered pairs |
| Tunnel.DisagreementIsReachable | ssh/ssh_tunnel_manager.go:961-979 | a clean run and an orphan cancel after which they differ |
| Tunnel.DispatchIsExact | ssh/ssh_tunnel_manager.go:873-885 | a channel goes to a backend iff exactly its pair is registered, and to that registration's backend |
| TunnelManager.SSHTunnelManager.constructor | ssh/ssh_tunnel_manager.go:167-217 | a new manager is disconnected and empty |
| TunnelManager.SSHTunnelManager.Connect | ssh/ssh_tunnel_manager.go:219-240 | nil when already connected; otherwise as the dial goes, maps untouched |
| TunnelManager.SSHTunnelManager.CloseClient | ssh/ssh_tunnel_manager.go:305-331 | an open connection is forgotten with everything on it, a closed one stays as it is |
| TunnelManager.SSHTunnelManager.KeepaliveFailed | ssh/ssh_tunnel_manager.go:278-299 | a failed keepalive is the drop step of the state machine |
| TunnelManager.SSHTunnelManager.SendForwardingOnce | ssh/ssh_tunnel_manager.go:704-773 | one request: port range check, and the server's new bindings per reply |
| TunnelManager.SSHTunnelManager.NotifyURIWaiters | ssh/ssh_tunnel_manager.go:1190-1209 | every registered waiter gets the batch unless its buffer is full |
| TunnelManager.SSHTunnelManager.ServerOutput | ssh/ssh_tunnel_manager.go:1168-1189 | after any output the waiter's buffer holds the first five batches |
| TunnelManager.SSHTunnelManager.AwaitAssignedAddresses | ssh/ssh_tunnel_manager.go:622-687 | timeout or first batch: cancel and fail, or store, as the state machine says |
| TunnelManager.SSHTunnelManager.SendStart | ssh/ssh_tunnel_manager.go:550-614 | register waiter, cancel first when pinned, request, await, deregister on every exit |
| TunnelManager.SSHTunnelManager.StartForwarding | ssh/ssh_tunnel_manager.go:346-374 | the new state and the outcome are those of the state machine; the invariant stays |
| TunnelManager.SSHTunnelManager.StopForwarding | ssh/ssh_tunnel_manager.go:377-412 | likewise; the backend's dial statistics are reset iff the forwarding existed |
| TunnelManager.SSHTunnelManager.Stop | ssh/ssh_tunnel_manager.go:776-795 | ends disconnected and empty whatever the cancels' replies |
| TunnelManager.SSHTunnelManager.CancelOrphan | ssh/ssh_tunnel_manager.go:961-979 | asks the server to release the pair if still connected, without looking it up |
| TunnelManager.SSHTunnelManager.HandleChannel | ssh/ssh_tunnel_manager.go:873-885 | the lookup of an incoming channel |
| TunnelManager.SSHTunnelManager.GetAssignedAddresses | ssh/ssh_tunnel_manager.go:414-428 | the stored URIs of exactly that pair |
| TunnelManager.SSHTunnelManager.RecordBackendDialSuccess | ssh/ssh_tunnel_manager.go:797-801 | forgets the backend's statistics |
| TunnelManager.SSHTunnelManager.LogBackendDialError | ssh/ssh_tunnel_manager.go:803-841 | new statistics and log line as in the rate limiter's function |
| Notification.StepKeepsInv | ssh/ssh_tunnel_manager.go:572-585 | every step of every goroutine keeps: one waiter, its buffer the first five batches sent, nothing lost |
| Notification.RunsKeepInv | ssh/ssh_tunnel_manager.go:1190-1209 | the same over every interleaving |
| Notification.AtMostOneWaiter | ssh/ssh_tunnel_manager.go:346-348 | two registered waiters are one, and its owner holds clientMu |
| Notification.NotificationNotLost | ssh/ssh_tunnel_manager.go:563-585 | once a reader that saw the waiter has sent, the waiter reads the first batch sent since it registered |
| Notification.SnapshotReachesAll | ssh/ssh_tunnel_manager.go:1191-1198 | a snapshot takes in exactly the waiters registered at that moment |
| Waiters.FirstFewIsFirstFive | ssh/ssh_tunnel_manager.go:446-449 | a waiter that does not read keeps the first five batches sent, in order |
| Notification.OnlyClosingInFlightDooms | ssh/ssh_tunnel_manager.go:579-585 | a step makes a send on a closed channel possible iff it closes a channel a reader still holds |
| Notification.PanicsIffClosedInFlight | ssh/ssh_tunnel_manager.go:579-585 | a run panicked or can panic by one more send iff some step of it closed a channel a reader held |
| Notification.DoomedPanics | ssh/ssh_tunnel_manager.go:1200-1208 | from there one step of that reader panics |
| Notification.GivingUpInFlightPanics | ssh/ssh_tunnel_manager.go:626-635 | a waiter that gives up while a reader holds its channel lets that reader panic |
| Notification.PanicIsReachable | ssh/ssh_tunnel_manager.go:1190-1209 | a run of one waiter and one reader that panics |
| Reports.SuitsIffNothingOutstanding | ssh/ssh_tunnel_manager.go:622-687 | whatever is printed, stored addresses are the forwarding's own or pass its check iff it is checked or no other report is outstanding |
| Reports.PatientRunsKeepInv | ssh/ssh_tunnel_manager.go:622-687 | in every run that starts unchecked forwardings only then, all stored addresses are own or checked |
| Reports.MisattributionIsReachable | ssh/ssh_tunnel_manager.go:1190-1209 | a run after which a forwarding shows the addresses reported for another |
| Sessions.ReconcileIsExact | ssh/ssh_session_pool.go:101-131 | one kind after its reconciliation, all exits; every other kind unchanged |
| Sessions.ConfigureIsExact | ssh/ssh_session_pool.go:89-118 | after success the open kinds and flags are those wanted; unchanged flags keep the manager |
| Sessions.ConfigureOpensFresh | ssh/ssh_session_pool.go:120-131 | each newly opened manager is empty and connected as its own dial went |
| Sessions.ConnectIsExact | ssh/ssh_session_pool.go:173-186 | every open manager that is down dials, the others stay as they are |
| Sessions.ConfigureFailure | ssh/ssh_session_pool.go:91-118 | a call fails iff a manager it must build cannot be built; then that session is missing, the plain one and every one with unchanged flags untouched |
| Sessions.ConfigureIdempotent | ssh/ssh_session_pool.go:91-118 | configuring what is configured builds, stops and changes nothing |
| Sessions.OccurKeepsInv | ssh/ssh_session_pool.go:91-196 | any outside event keeps the pool's invariant and per kind keeps both maps or empties both |
| Sessions.InterfereKeepsInv | ssh/ssh_session_pool.go:91-196 | the same for any sequence of outside events |
| Sessions.StartForwardingKeepsInv | ssh/ssh_session_pool.go:133-141 | a start through the pool keeps the invariant of every manager |
| Sessions.StopForwardingKeepsInv | ssh/ssh_session_pool.go:143-151 | a stop through the pool does too, and the key is gone from both maps |
| SessionPool.SSHSessionPool.constructor | ssh/ssh_session_pool.go:70-87 | the plain manager alone, connected as its first dial went; nothing if it was not built |
| SessionPool.SSHSessionPool.OpenManager | ssh/ssh_session_pool.go:120-131 | on success a fresh manager under the kind, all others the same objects |
| SessionPool.SSHSessionPool.CloseManager | ssh/ssh_session_pool.go:107-110 | the manager moves from live to stopped |
| SessionPool.SSHSessionPool.ReconcileKind | ssh/ssh_session_pool.go:101-118 | state and outcome as in the function; unchanged flags keep the same object |
| SessionPool.SSHSessionPool.ConfigureSessions | ssh/ssh_session_pool.go:89-99 | created = live + stopped, disjoint; a repeated call creates and stops no manager |
| SessionPool.SSHSessionPool.StartForwarding | ssh/ssh_session_pool.go:133-141 | the manager of the kind starts, or session not enabled |
| SessionPool.SSHSessionPool.StopForwarding | ssh/ssh_session_pool.go:143-151 | the manager of the kind stops, or session not enabled |
| SessionPool.SSHSessionPool.GetAssignedAddresses | ssh/ssh_session_pool.go:153-161 | the URIs of the kind's manager, none for a missing kind |
| SessionPool.SSHSessionPool.IsConnected | ssh/ssh_session_pool.go:163-171 | false for a missing kind |
| SessionPool.SSHSessionPool.Connect | ssh/ssh_session_pool.go:173-186 | every open manager dials if it is down, in any order |
| SessionPool.SSHSessionPool.Stop | ssh/ssh_session_pool.go:188-196 | every manager ever created is stopped, both maps are empty |
| GatewayController.ListenerObject.constructor | controllers/common.go:184-198 | the listener derived from the spec, hostname defaulting to localhost |
| GatewayController.ListenerObject.DeriveSession | controllers/common.go:200-222 | session kind by protocol, annotation and TLS mode, or rejection with its reason |
| Listeners.SessionIsExact | controllers/common.go:200-222 | proxy-protocol session iff TCP in any case with the annotation true in any case; SNI session iff TLS with passthrough |
| Listeners.RejectionIsExact | controllers/common.go:210-221 | rejected iff TLS in another mode or none of the three protocols, each with its reason |
| Listeners.SpecTakenOver | controllers/common.go:184-198 | protocol, port and hostname as given, localhost by default |
| Listeners.ConfigIsExact | controllers/gateway_controller.go:222-231 | the forwarding asked for, its port pinned iff protocol TCP and positive |
| Listeners.ForwardingValidIsExact | controllers/gateway_controller.go:163-177 | stored addresses serve iff there are some and, unless wildcard and unpinned, one matches |
| GatewayController.GatewayReconciler.IsForwardingValid | controllers/gateway_controller.go:163-177 | whether stored addresses still serve the listener |
| GatewayController.GatewayReconciler.Prepare | controllers/gateway_controller.go:181-220 | stop an existing route, reconnect if down, or the error that ends the call |
| GatewayController.GatewayReconciler.StartRoute | controllers/gateway_controller.go:222-274 | start, and what each answer means for the listener's route |
| GatewayController.GatewayReconciler.SetupRouteForwarding | controllers/gateway_controller.go:181-243 | both parts together, with outside events between all pool calls |
| GatewayController.GatewayReconciler.SetRoute | controllers/gateway_controller.go:277-363 | registry, pool and result as in the function; ownership kept |
| GatewayController.GatewayReconciler.RemoveRoute | controllers/gateway_controller.go:365-411 | likewise; a failed stop leaves the route attached |
| GatewayController.GatewayReconciler.UpdateOne | controllers/gateway_controller.go:868-898 | an unchanged listener stays the same object, a changed one is stopped and replaced |
| GatewayController.GatewayReconciler.UpdateListeners | controllers/gateway_controller.go:865-900 | the loop over the spec |
| GatewayController.GatewayReconciler.AddOrUpdateGateway | controllers/gateway_controller.go:843-904 | registry as in the function, ownership kept, unchanged listeners the same objects |
| GatewayController.GatewayReconciler.DeleteGateway | controllers/gateway_controller.go:906-937 | registry and pool as in the function, ownership kept; what that means is GatewayDeletion.DeleteIsExact |
| Coherence.StartForwardingEffect | controllers/gateway_controller.go:222-243 | a start registers its own key or nothing, and its outcome says which |
| Coherence.SetRouteKeepsInv | controllers/gateway_controller.go:181-363 | SetRoute keeps ownership through every exit and interference |
| Coherence.RemoveRouteKeepsInv | controllers/gateway_controller.go:365-411 | RemoveRoute keeps ownership |
| Coherence.UpdateKeepsInv | controllers/gateway_controller.go:843-904 | a gateway update keeps ownership, dropped listeners accounted for |
| Coherence.DeleteKeepsInv | controllers/gateway_controller.go:906-937 | a gateway deletion keeps ownership for any visiting order |
| Coherence.StepKeepsInv | controllers/gateway_controller.go:277-411 | every operation and outside event keeps ownership |
| Coherence.RunsKeepCoherence | controllers/gateway_controller.go:181-937 | in every run each registered forwarding is its listener's, or was abandoned |
| GatewayDeletion.DeleteIsExact | controllers/gateway_controller.go:906-937 | every routed listener's forwarding and addresses are gone, nothing becomes abandoned, no other forwarding is touched |
| GatewayDeletion.DeleteUnknown | controllers/gateway_controller.go:913-914 | deleting an unknown Gateway changes nothing |
| GatewayDeletion.RemovalIsLocal | controllers/gateway_controller.go:365-411 | the shown route's forwarding is gone whatever is answered, nothing becomes abandoned, nothing else is touched |
| Exits.EarlyExits | controllers/gateway_controller.go:277-308 | unknown Gateway, unknown listener, rejected listener: each answer iff, and nothing changes |
| Exits.LateExits | controllers/gateway_controller.go:181-363 | every other answer iff, in every environment, and the route shown after it |
| Exits.QuietExits | controllers/gateway_controller.go:181-363 | all answers of a call left to itself, told from the state before it |
| Exits.SetRouteIsLocal | controllers/gateway_controller.go:181-363 | such a call touches no forwarding but the listener's own |
| Exits.FailedReplacementBlocks | controllers/gateway_controller.go:183-243 | a replacement whose start fails leaves the old route shown without forwarding |
| Exits.PinnedListenerGetsItsPort | controllers/gateway_controller.go:222-231 | an owned TCP listener on a wildcard host has an address with its port, or a web address |
| Attachment.OwnerIsUnique | controllers/gateway_controller.go:181-411 | with distinct keys the listener with the key of a forwarding owns it |
| Attachment.RegisteredIsValid | controllers/gateway_controller.go:163-177 | a registered forwarding that needs checking passes the controller's check |
| Attachment.VerifiedListenerNeverAdopts | controllers/gateway_controller.go:258-267 | a verified listener never ends by adopting a forwarding that was not abandoned |
| Attachment.OneCallConverges | controllers/gateway_controller.go:277-347 | on a connected session and good server one call returns nil iff no other route is in the way or it is released; then a verified listener is attached |
| Attachment.OneCallReconnects | controllers/gateway_controller.go:205-220 | the same after a lost connection, iff the listener shows no other route |
| Attachment.OtherRouteBlocks | controllers/gateway_controller.go:183-197 | another route without forwarding makes every call fail and changes no gateway |
| Attachment.OtherRouteBlocksForever | controllers/gateway_controller.go:183-197 | the same after any number of calls |
| Attachment.SettledIffAddressesStored | controllers/gateway_controller.go:311-330 | a repeated call changes nothing and sends nothing iff some address is stored |
| Attachment.FreshStartSettles | controllers/gateway_controller.go:311-330 | after a start that stored reported addresses no later identical call changes anything |
| Attachment.WithoutAddressesAdoptsForever | controllers/gateway_controller.go:258-267 | a forwarding kept without addresses is adopted again by every identical call |
| Attachment.NilMeansServed | controllers/gateway_controller.go:277-347 | a nil result, under any interference, leaves the listener's own forwarding and backend iff it did not take over a forwarding that is still there |
| Attachment.NilServesUnlessTakenOver | controllers/gateway_controller.go:181-274 | in a quiet call nil means served iff no other forwarding is under the key of a listener without another route |
| Attachment.OnlyAbandonedTakenOver | controllers/gateway_controller.go:868-899 | with distinct keys only an abandoned forwarding can be taken over |
| Attachment.AbandonedIsAdopted | controllers/gateway_controller.go:258-267 | a listener with an abandoned key is attached, channels go to the old forwarding's backend, and the route is served iff both ask for the same |
| Reachability.BlockedIsReachable | controllers/gateway_controller.go:183-197 | a run after which a listener refuses another route: attach, then drop |
| Reachability.FailedReplacementIsReachable | controllers/gateway_controller.go:183-243 | a run to such a listener on a connected session: replace the route, and the start is refused |
| Reachability.WithoutAddressesIsReachable | ssh/ssh_tunnel_manager.go:642-655 | a run after which a route is attached without addresses: the report came too late |
| Reachability.InheritedIsReachable | controllers/gateway_controller.go:868-899 | a run after which a new listener stands on an abandoned forwarding, to the dropped route's backend |
| Reachability.SharedKeyIsReachable | controllers/gateway_controller.go:258-267 | a run of two Gateways after which the second route is set with nil and served by the first one's backend |
| Reachability.StuckDeletionIsReachable | controllers/httproute_controller.go:124-153 | a run after which a deleted route is stuck: attach, drop, delete |
| Deletion.RemovalIsExact | controllers/gateway_controller.go:365-411 | every exit of RemoveRoute, and exactly when the route comes off |
| Deletion.UnremovableStays | controllers/gateway_controller.go:378-387 | a shown route without forwarding fails to be removed and stays so, in every environment |
| Deletion.DeletionEndsIff | controllers/httproute_controller.go:124-153 | after a deletion attempt the finalizer is off iff the update is written and the route is not shown, or its forwarding is registered and released |
| Deletion.AttachFollowsFinalizer | controllers/httproute_controller.go:83-101 | SetRoute is called with the fetched backend iff the finalizer was there or was added for certain |
| Deletion.StuckStays | controllers/httproute_controller.go:124-153 | through every run whose Gateway updates and deletions leave the listener and its key alone, a stuck route stays in the API with our finalizer |
| Deletion.ReleasedWhenNotShown | controllers/httproute_controller.go:132-149 | once the listener does not show the route the next attempt takes the finalizer off |
| Deletion.GatewayChangeReleases | controllers/gateway_controller.go:843-937 | after a deletion or update of its Gateway the next attempt takes the finalizer off iff the update did not keep the listener |
| Stranded.SetRouteTouches | controllers/gateway_controller.go:277-363 | SetRoute changes at most its listener's route and registers at most its key |
| Stranded.UpdateKeepsStranded | controllers/gateway_controller.go:843-904 | an update that keeps the listener and asks for no other with its key leaves it as it is, without forwarding |
| Stranded.OpKeepsStranded | controllers/gateway_controller.go:277-937 | so does every operation that neither sets the shown route nor changes the listener |
| Stranded.StaysStranded | controllers/gateway_controller.go:277-937 | the same through every such run |
| Stranded.StrandedRefuses | controllers/gateway_controller.go:183-197 | at its end every other route is refused and the shown one cannot be removed, in every environment |
| Stranded.UpdateShowsIffKept | controllers/gateway_controller.go:868-900 | after an update of its Gateway the listener shows a route iff the spec keeps it |
| Stranded.ShownRouteReattaches | controllers/gateway_controller.go:311-322 | setting the shown route again on a good server attaches it |
| GatewayUpdate.StopForwardingIsLocal | ssh/ssh_tunnel_manager.go:377-412 | the key is gone from both maps, every other forwarding of every session untouched |
| GatewayUpdate.UpdateLoopFollowsSpec | controllers/gateway_controller.go:865-900 | the loop's result has the spec's names, each with the kept or created listener |
| GatewayUpdate.CreateAllFollowsSpec | controllers/gateway_controller.go:849-858 | a new gateway has exactly the spec's names, each with the derived listener |
| GatewayUpdate.UpdateFollowsSpec | controllers/gateway_controller.go:843-904 | after an add or update names and listeners are those of the spec, other gateways unchanged |
| GatewayUpdate.ChangedListenersGone | controllers/gateway_controller.go:872-888 | a changed listener's old forwarding is gone whatever the stop returned |
| GatewayUpdate.OthersUntouched | controllers/gateway_controller.go:865-900 | no other forwarding is touched |
| GatewayUpdate.UpdateStopsExactlyTheChanged | controllers/gateway_controller.go:843-904 | per listener: gone if changed, untouched otherwise; a rejected one's key only as that of a changed one |
| GatewayUpdate.UpdateAbandonsExactlyTheDropped | controllers/gateway_controller.go:868-899 | a forwarding is abandoned iff registered for a routed listener the spec no longer names |
| GatewayUpdate.UpdateAbandonsOnlyDropped | controllers/gateway_controller.go:865-900 | whatever happens meanwhile, nothing but dropped listeners' forwardings becomes abandoned |
| GatewayUpdate.RejectedNeverRouted | controllers/gateway_controller.go:306-308 | in every run no rejected listener has a route or owns a forwarding |
| GatewayUpdate.UpdatedAsSpecified | controllers/gateway_controller.go:872-892 | an updated listener is as specified iff replaced or equal in protocol and rejection |
| GatewayUpdate.RejectionCanBeMissed | controllers/gateway_controller.go:872-892 | an HTTP listener edited to UDP keeps running |
| Addresses.GatewayAddressesEqual | controllers/gateway_controller.go:561-588 | same length, and each new address is what the old list says last about its value |
| Addresses.EqualIffPermutation | controllers/gateway_controller.go:559-588 | against a list without repeated values the comparison is being a permutation |
| Addresses.ExactIffDistinct | controllers/gateway_controller.go:559-588 | the comparison with a list is exact for every other list iff it repeats no value |
| Addresses.MissingTypeIsHostname | controllers/gateway_controller.go:568-580 | an address without a type counts as Hostname and as nothing else |
| Addresses.UpdateGatewayAddresses | controllers/gateway_controller.go:592-651 | distinct values, exactly the hosts of all non-rejected listeners, in any visiting order, each typed by whether it holds a colon |
| Addresses.AddHosts | controllers/gateway_controller.go:617-647 | the hosts of one listener are added once each |
| Addresses.SameHostsSameAddresses | controllers/gateway_controller.go:592-651 | two such lists are the same addresses iff they name the same hosts |
| Addresses.AddressesChanged | controllers/gateway_controller.go:822-828 | a change is detected iff the reported hosts differ from the current ones |
| RouteStatus.Status.SetOurRouteParentStatus | controllers/route_status.go:66-104 | the new list, and true iff it changed |
| RouteStatus.ParentRefEqualIsEquality | controllers/route_status.go:17-32 | the field-by-field comparison is equality |
| RouteStatus.OthersUntouched | controllers/route_status.go:66-68 | all other entries keep place and content |
| RouteStatus.StaysUnique | controllers/route_status.go:72-78 | at most one entry per controller and parent is kept, and exactly that pair is present |
| RouteStatus.SetConditionIsExact | controllers/route_status.go:84-87 | one condition update in full: content, time, and nothing else changed |
| RouteStatus.WrittenEntryIsExact | controllers/route_status.go:80-103 | the written entry carries each condition with its content and the generation of the call |
| RouteStatus.PassSettles | controllers/route_status.go:84-87 | after the pass each named condition has the content of the last one of its type |
| RouteStatus.SecondPass | controllers/route_status.go:84-87 | a second pass later is idle iff no type is given two statuses |
| RouteStatus.SecondCallIsIdle | controllers/route_status.go:69-104 | a second call writes nothing iff the conditions do not contradict each other |
| RouteStatus.WrittenConditionsConsistent | controllers/route_status.go:36-64 | the conditions the controller writes never do |
| Finalizers.SetRouteIsLocal | controllers/gateway_controller.go:277-363 | SetRoute attaches its own route to its own listener, nothing else |
| Finalizers.RemoveRouteDetaches | controllers/gateway_controller.go:365-411 | unless a stop failed the route is off the listener, also when reported missing |
| Finalizers.OtherOpsAttachNothing | controllers/gateway_controller.go:843-937 | gateway updates, deletions and connection events attach nothing |
| Finalizers.StepKeepsInv | controllers/httproute_controller.go:83-153 | every step of users, cache, reconciler and gateways keeps attached routes protected |
| Finalizers.RunKeepsInv | controllers/httproute_controller.go:28-153 | the same over every run |
| Finalizers.AttachedRoutesExist | controllers/httproute_controller.go:83-153 | an attached route exists in the API with our finalizer, also when updates fail or their answers get lost |
| LockOrder.StepKeepsInv | controllers/gateway_controller.go:278-363 | a step keeps lock ranks increasing and writers exclusive |
| LockOrder.ExecutionKeepsInv | controllers/gateway_controller.go:278-363 | the same over every execution of ordered programs |
| LockOrder.WaitingDescends | controllers/gateway_controller.go:278-363 | whoever waits waits for a goroutine that is nearer to the end of all waiting |
| LockOrder.SomeoneCanGoOn | ssh/ssh_session_pool.go:91-196 | from every unfinished goroutine a chain of waits leads to one that can take a step |
| LockOrder.NoDeadlockedSet | ssh/ssh_session_pool.go:91-196 | in every set of goroutines one waits for no other of the set |
| LockOrder.DeadlockFree | ssh/ssh_session_pool.go:91-196 | both hold in every state of every execution of ordered programs |
| LockOrder.RolesOrdered | controllers/gateway_controller.go:277-411 | the program of each kind of goroutine takes its locks in the one order |
| LockOrder.ControllerDeadlockFree | controllers/gateway_controller.go:277-411 | both hold for any number of the controller's goroutines in any roles and any interleaving |

## Left out

- SSH handshake, authentication, host-key check and the wire encoding of requests: library code.
- Byte copying between channels and backends, the capture session and its reads: kept are the channel lookup and the batches of URIs reported.
- The regular expressions of `getRemoteAddress`: URI lists are arbitrary; only the guarantee of the three schemes is used, where a lemma says `Schemed`.
- `extractHostnameFromURI` (URL parsing): an arbitrary function in `Addresses`.
- Clocks and contexts: timeouts are nondeterministic outcomes; the rate limiter takes the time as a parameter.
- Reconnect races of the monitor and capture goroutines with a newer connection: a drop is one atomic step of the current connection.
- StartForwarding and the other manager operations are atomic under `clientMu` in `Tunnel` and `TunnelManager`, and reading and notifying are one step there; `Notification` takes exactly that part apart.
- A forwarding request waits for the capture session while it holds `clientMu`: deadlock freedom is about locks only, not about that channel or slow networks.
- The gateway record and its mutex: a gateway is the map of its listener objects, so replacing it while SetRoute re-acquires the old record's mutex is covered only by `LockOrder`.
- An update of a route whose answer got lost is carried out at once or never, not later.
- Controller restart: the registry starts empty and no forwarding survives it.
- Kubernetes client, requeueing, status writes and conditions of Gateways and GatewayClasses, class annotations, route detail extraction, finalizers on Gateways, environment parsing: plumbing, or single-branch facts that would only add easy members.
- `SetStatusCondition` is a library call; its functional meaning (replace by type or append, time moves only with the status) is modelled, and the zero time stands for "none given".
- `strings.ToUpper` on protocol names covers the characters whose upper case is a basic Latin letter of those names.
- Gateway keys are given as strings; `getGwKey` itself is not modelled, as Kubernetes names hold no slash.
- Convergence where another route blocks a listener, and deletion of a route whose forwarding is gone: false of the code, proved above.
- URIs the server prints before a waiter registers reach nobody, in the code as in the model.
