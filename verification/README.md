# AnonBird: verified models of its reconcilers and codecs

A Dafny 4.11 project that models the parts of AnonBird that keep one table in step with another, move state
transactionally, or translate between exact formats, and proves what those parts promise. `dafny verify dfyconfig.toml`
checks everything.

Code that changes state step by step is modelled as classes and loops. Each class has a value, `View()` or the like,
and each method is proved to take that value through a step of a specification function. The theorems are about those
functions: about every input, every sequence of steps, every interleaving. What the outside decides (a bind that
fails, the iteration order of a hash map, how a socket splits bytes, what a join token says) is a parameter that the
theorems quantify over.

| area | files |
|---|---|
| Reverse proxy: SNI router, port listeners, CrowdSec holds, snapshots | `SniRouter`, `ProxyMappings`, `ProxyPorts`, `ProxyInstalls`, `ProxyHolds`, `ProxyRuns`, `ProxyDiscipline`, `ProxySnapshot`, `ProxyEffects`, `ProxyServer` |
| Per-account inbound listeners with deferred routes | `Inbound` |
| Lazy connections and the connection manager | `LazyConn`, `ConnManager` |
| Engine: reconciling peers with a network map | `PeerLists`, `PeerSync`, `PeerUpdates`, `EngineObject` |
| Client migration and rollback | `FileTree`, `FileDisk`, `Migration`, `MigrationConfigs`, `MigrationApply`, `MigrationTheorems`, `MigrationFailure`, `MigrationPlan`, `MigrationOutcome`, `MigrationSuccess`, `MigrationBackups`, `Migrator` |
| Interface watcher against the poller it replaces | `IfaceWatcher` |
| Packet-capture slot | `CaptureSlot` |
| Codecs and allocators | `ReverseDns`, `ReverseZones`, `Anonymizer`, `WebSocket`, `Base62` |
| Anonymous-mode check | `AnonymousCheck` |

## Where the code does not do what one would expect

Each of these is a lemma about a family of inputs, next to a theorem that says exactly when the code is right.

- A TCP service with a domain leaves its port listener open after removal (`ProxyDiscipline.TcpDomainLeaks`).
  Management requires a domain on TCP services
  (management/internals/modules/reverseproxy/service/service.go, line 821). Removing one of two TCP services on a
  port, or a TLS mapping without domain beside a TCP service, closes the port under the other
  (`SharedTcpPortCloses`, `TlsWithoutDomainCloses`). `ProxyPorts.CleanupExactIff` says when a clean-up is right.
- A repeated CREATED that moves a TCP service to another port, or a TLS or HTTP service to another host, leaves the
  old listener or route behind (`ProxyDiscipline.MovedByCreateStrands`, `RenamedByCreateStays`, `RenamedHttpStays`).
  `ProxyInstalls.CreateTcpExactIff`, `CreateTlsExactIff` and `CreateOtherExactIff` say when a set-up is right,
  `ProxyRuns.StepExactIff`, `StepInvIff`, `AlwaysExactIff` and `AlwaysInvIff` when an update of any kind and a whole
  run are.
- While a listener is not up, the queue compares hosts as spelled although the router lower-cases them. Removals under
  another spelling are lost, and of additions under two spellings the wrong one can win
  (`Inbound.RemovalUnderOtherSpelling`, `TwoSpellingsOfAnAddition`; exact conditions `DeferredRemoveIff`,
  `DeferredAddIff`, `DeferredEqualsDirectIff`).
- A route change between publishing an entry and taking its queue, or between taking and replaying it, can be
  overwritten by an older queued route (`Inbound.ReplacedComesBack`, `RemovedComesBack`; exact conditions
  `WindowRaceIff`, `FlushRaceIff`). A listener that comes up again starts without the routes it had
  (`Inbound.BroughtUpAgain`, `LifeEnds`).
- An excluded peer that leaves the network and returns after the next exclude list can no longer be woken by traffic
  or signals (`LazyConn.ReturningPeerStranded`, `StaysStrandedIff`; exact condition `RunReachableIff`).
- The optional compatibility link is recorded in the manifest even when it is skipped because a regular file stands in
  its path; rollback then fails and restores nothing (`MigrationPlan.SkippedLinkBlocksRollback`,
  `UsrFileBlocksRollback`; exact condition `PlanRollbackIff`).
- A migration that stops at an action leaves the targets before it replaced and writes no manifest, so that rollback
  has nothing to go by (`MigrationFailure.ExistingTargetStops`, `StoppedHalfway`, `HaltedRollback`).
- An interface that is lost at the subscription and repaired before the re-check goes unnoticed if every change since
  the subscription was quiet (`IfaceWatcher.RepairedUnnoticed`), and is noticed if the misnamed link reports anything
  before that (`RepairedNoticed`). `WatcherWaitsIff` is the exact condition.
- A debug bundle taken without stopping its capture first leaves the capture slot taken for good
  (`CaptureSlot.DebugWithoutStopWedges`; exact conditions `WedgesIff`, `RecoverableIff`). The comment on the lifecycle in client/server/capture.go
  does not mention it.
- The reverse zone of a prefix that is empty or off a label boundary does not match the prefix
  (`ReverseDns.UnalignedDisagrees`; exact condition `AgreesIff`).
- The anonymizer answers an input differently once its range has grown past it (`Anonymizer.AnswerChanges`; exact
  condition `SameAnswerIff`), and passes its next replacement through before handing it out (`NextAddressReused`; exact
  condition `CollidesIff`).
- In the anonymous-mode check under I2P, white space passes beside a marker (`AnonymousCheck.BlankBesideMarker`; exact
  condition `ScanAllClean`). Under Tor the peer fields of a clean report are empty (`AnonymousCheck.PassedPeers`).

## Model

| member | source | states |
|---|---|---|
| `SniRouter.FindAddRoute` | proxy/internal/tcp/router.go:195-213 | a lookup after adding a route finds that route under the lower-cased host and that service, and everything else as before; an empty host adds nothing |
| `SniRouter.FindRemoveRoute` | proxy/internal/tcp/router.go:218-231 | a lookup after a removal misses exactly the removed service at that host |
| `SniRouter.EmptyIffNothingFound` | proxy/internal/tcp/router.go:273-277 | a well-formed table has no routes if and only if no service can be found at any host |
| `SniRouter.Router.Add` | proxy/internal/tcp/router.go:195-213 | the router replaces the service's own route in place or appends it, and touches no other host |
| `SniRouter.Router.Upserted` | proxy/internal/tcp/router.go:195-213 | the list after the in-place update |
| `SniRouter.Router.Remove` | proxy/internal/tcp/router.go:218-231 | the router drops the service's route and forgets a host without routes |
| `SniRouter.Router.InstallFallback` | proxy/internal/tcp/router.go:236-240 | the fallback is replaced, the routes stay |
| `SniRouter.Router.ClearFallback` | proxy/internal/tcp/router.go:244-249 | the fallback is cleared, whoever owns it; the routes stay |
| `ProxyPorts.CleanupExactIff` | proxy/server.go:1974-2022 | cleaning up a listed service with any mapping keeps 'each port router holds exactly the routes and fallback of the services listed on it' if and only if the service is listed as TLS under the mapping's host, or as the only TCP service of its port and the mapping has no domain, or as a TCP service that does not own the fallback of its port and the mapping has a domain |
| `ProxyPorts.EmptyIffUnlisted` | proxy/server.go:1120-1146 | a port router is empty, and so closed, exactly when no service lists its port |
| `ProxyInstalls.InstallTcpExact` | proxy/server.go:1593-1639 | setting up a TCP service makes its port exact whatever its fallback was and whoever else uses the port, if the service was unlisted or listed as TCP on that port |
| `ProxyInstalls.InstallTlsExact` | proxy/server.go:1668-1723 | setting up a TLS service with a domain on a side port keeps every port exact, if the service was unlisted or listed as TLS with that port and host |
| `ProxyInstalls.InstallExact` | proxy/server.go:1593-1723 | a new listing is exact on every port once it is exact on its own |
| `ProxyInstalls.CreateTcpExactIff` | proxy/server.go:1593-1639 | setting up a TCP mapping, first or repeated, keeps every port exact if and only if the service is unlisted, or listed as TCP on the same port, or as TCP without owning the fallback of its port |
| `ProxyInstalls.CreateTlsExactIff` | proxy/server.go:1668-1723 | setting up a TLS mapping on a side port keeps every port exact if and only if it has a domain and the service is unlisted, or the service is listed as TLS with the same port and host, or it has a domain and the service is listed as TCP without owning the fallback of its port |
| `ProxyInstalls.CreateOtherExactIff` | proxy/server.go:1542-1590 | a set-up that lists no port keeps every port exact if and only if the service lists none |
| `ProxyInstalls.SetupExactIff` | proxy/server.go:1542-1723 | the three together: a set-up of any mode that succeeds keeps every port exact if and only if it fits what the service still has |
| `ProxyPorts.ExactFrame` | proxy/server.go:1499-1553 | exactness depends only on the routers, the listings, the main fallback and the listed mappings |
| `ProxyRuns.StepExactIff` | proxy/server.go:1458-1553 | an update of any kind, failed or not, keeps every port exact if and only if it fits: its clean-up is tidy and its set-up replaces or leaves nothing of the service |
| `ProxyRuns.AlwaysExactIff` | proxy/server.go:1458-1553 | throughout any run, with any bind, dial and peer failures, every port is exact if and only if every update fits when it arrives |
| `ProxyRuns.InstalledSoundIff` | proxy/server.go:1542-1723 | a set-up that succeeds leaves the service's main routes and relay in agreement with its stored mapping if and only if it replaces what an earlier set-up left |
| `ProxyRuns.StepInvIff` | proxy/server.go:1458-1553 | an update, failed or not, keeps routers, listings, main routes, relays, holds and stored mappings in agreement if and only if it fits and, if it is a CREATED that succeeds, replaces the service's main route and relay |
| `ProxyRuns.AlwaysInvIff` | proxy/server.go:1458-1553 | throughout any run everything is in agreement if and only if every update meets that condition when it arrives |
| `ProxyRuns.RunInv` | proxy/server.go:1458-1553 | so it is at the end of every such run |
| `ProxyRuns.PortsExactFromStart` | proxy/server.go:1052-1146 | a fresh proxy keeps its open per-port routers exactly the listed side ports, with exactly their services' routes and fallback, throughout a run if and only if every update of the run fits |
| `ProxyDiscipline.DisciplinedRunExact` | proxy/server.go:1458-1553 | TCP mappings without domain, TLS mappings with one, TCP ports used by one service and repeated CREATED of the same shape always meet the conditions: such runs keep every port exact and everything in agreement throughout |
| `ProxyDiscipline.DisciplinedFromStart` | proxy/server.go:1052-1146 | the same from a fresh proxy |
| `ProxyDiscipline.TcpDomainLeaks` | proxy/server.go:2007-2011 | every TCP service with a domain leaves its listener open and forwarding after removal |
| `ProxyDiscipline.SharedTcpPortCloses` | proxy/server.go:1974-2022 | removing one of two TCP services on a port closes the port under the other |
| `ProxyDiscipline.MovedByCreateStrands` | proxy/server.go:1632-1634 | a repeated CREATED of a TCP service with another port strands the first listener |
| `ProxyDiscipline.RenamedByCreateStays` | proxy/server.go:1668-1723 | a repeated CREATED of a TLS service on the same port under another host leaves the old route in the router |
| `ProxyDiscipline.RenamedHttpStays` | proxy/server.go:1556-1590 | a repeated CREATED of an HTTP service under another host leaves its old route in the main router |
| `ProxyDiscipline.TlsWithoutDomainCloses` | proxy/server.go:1974-2022 | removing a TLS mapping without domain clears the fallback of a TCP service on its port and closes the port under it |
| `ProxyHolds.StepStored` | proxy/server.go:1499-1538 | a mapping is stored exactly by a successful create or modify, dropped by a removal, and kept by a failure |
| `ProxyHolds.StepHolds` | proxy/server.go:1738-1783 | one update keeps tracked services, registry references and the history of holds in agreement |
| `ProxyHolds.RunHolds` | proxy/server.go:1499-1538 | in every run whatever, the tracked set is the set of unreleased holds, no hold is taken or released twice, and every hold belongs to a stored service |
| `ProxyHolds.ReleaseAllEmpties` | proxy/server.go:991-1003 | releasing every tracked service, in any order, leaves no reference |
| `ProxyHolds.NoHoldAfterShutdown` | proxy/server.go:991-1003 | after any run and a shutdown nothing is held or tracked |
| `ProxyHolds.LastInstalled` | proxy/server.go:1499-1538 | a service whose last update succeeded is stored with that update's mapping |
| `ProxySnapshot.BeforeComplete` | proxy/server.go:1340-1367 | before the completing batch a stream only runs its updates and collects names |
| `ProxySnapshot.SnapshotReconciles` | proxy/server.go:1402-1426 | the completing batch leaves exactly those stored mappings that some batch of the stream named |
| `ProxySnapshot.SnapshotContents` | proxy/server.go:1340-1426 | after it every stored service was named, and every service whose last update succeeded is stored with it |
| `ProxySnapshot.AfterComplete` | proxy/server.go:1340-1367 | no later batch of the stream reconciles again |
| `ProxySnapshot.RemoveListedInv` | proxy/server.go:1402-1426 | throughout a reconciliation, in any iteration order, all tables are in agreement if and only if every removal is tidy when its turn comes |
| `ProxyEffects.SetupOkIff` | proxy/server.go:1542-1723 | a set-up succeeds if and only if: for HTTP with a path the auth set-up does; for UDP the mapping can be offered and bind and dial succeed; for TCP and TLS the mapping can be offered and its port has a router already or the bind succeeds |
| `ProxyEffects.CreatedOkIff` | proxy/server.go:1499-1518 | a CREATED succeeds if and only if the peer could be added and that condition holds |
| `ProxyEffects.PeerFailure` | proxy/server.go:1499-1518 | a CREATED whose peer could not be added changes nothing |
| `ProxyEffects.UpdateInstalls` | proxy/server.go:1542-1723 | a CREATED or MODIFIED that succeeds leaves, written out: a TCP route with account, protocol and target as the fallback of its port; a TLS route with domain and target under the lower-cased host on its port; an HTTP route under the host on the main router; a UDP relay on its port; and the mapping stored |
| `ProxyEffects.OthersUntouched` | proxy/server.go:1458-1553 | an update, failed or not, leaves every other service its routes at every host of every port, its listing, its relay, its stored mapping and its hold |
| `ProxyEffects.RemovalTakesDown` | proxy/server.go:1950-2022 | after a removal the service is not stored, not listed, without relay and hold, and its route under the stored domain is gone from the main router and every port it was listed on, or without a domain the fallback of each such port |
| `ProxyEffects.HoldTaken` | proxy/server.go:1738-1770 | after an update that succeeds the service holds the bouncer if and only if it held it before, a MODIFIED giving it up first, or asks for CrowdSec where it is available and the bouncer runs or starts; an HTTP mapping without path asks for nothing |
| `ProxyEffects.FailureReleases` | proxy/server.go:1499-1538 | a set-up that fails leaves the service neither hold nor relay |
| `ProxyServer.Registry.Acquire` | proxy/internal/crowdsec/registry.go:43-66 | a reference is taken exactly when the registry is available and its bouncer runs or starts |
| `ProxyServer.Registry.Release` | proxy/internal/crowdsec/registry.go:70-79 | the reference goes, and the bouncer stops with the last one |
| `ProxyServer.Server.RouterForPort` | proxy/server.go:1052-1115 | main router, open router, or a new one if the bind succeeds; nothing changes otherwise |
| `ProxyServer.Server.ParseRestrictions` | proxy/server.go:1738-1770 | takes a hold and tracks it exactly when CrowdSec is asked for and available |
| `ProxyServer.Server.ReleaseCrowdSec` | proxy/server.go:1774-1783 | a tracked hold is released once, an untracked one never |
| `ProxyServer.Server.SetupHttpMapping` | proxy/server.go:1556-1590 | the step of an HTTP mapping |
| `ProxyServer.Server.SetupTcpMapping` | proxy/server.go:1593-1639 | the step of a TCP mapping, with every failure exit |
| `ProxyServer.Server.SetupTlsMapping` | proxy/server.go:1668-1723 | the step of a TLS mapping, with every failure exit |
| `ProxyServer.Server.SetupUdpMapping` | proxy/server.go:1854-1909 | the step of a UDP relay, with every failure exit |
| `ProxyServer.Server.SetupMappingRoutes` | proxy/server.go:1542-1553 | dispatch on the mode |
| `ProxyServer.Server.CloseEntryAt` | proxy/server.go:1120-1146 | one tracked port is stripped of the service and closed if it became empty |
| `ProxyServer.Server.CleanupMappingRoutes` | proxy/server.go:1974-2022 | all that a service has in the proxy is taken down |
| `ProxyServer.Server.AddMapping` | proxy/server.go:1499-1518 | create, with clean-up after a failed set-up |
| `ProxyServer.Server.ModifyMapping` | proxy/server.go:1523-1538 | modify: the previous mapping is cleaned up, then the new one set up |
| `ProxyServer.Server.RemoveMapping` | proxy/server.go:1950-1969 | remove: clean-up with the stored mapping if there is one |
| `ProxyServer.Server.ProcessMappings` | proxy/server.go:1458-1496 | a batch of updates takes the object through the run of the specification |
| `ProxyServer.Server.ReconcileSnapshot` | proxy/server.go:1402-1426 | removes the stored mappings outside the snapshot, in some order |
| `ProxyServer.Server.ShutdownCrowdSec` | proxy/server.go:991-1003 | releases every tracked hold |
| `ProxyServer.Server.Shutdown` | proxy/server.go:948-989 | relays, per-port routers, listings and stored mappings go, the main routes stay, and every tracked hold is released |
| `ProxyServer.Tracker.RecordBatch` | proxy/server.go:1340-1367 | collects names until the completing batch, then reconciles once |
| `ProxyServer.Tracker.HandleBatch` | proxy/server.go:1285-1330 | processes a batch and then records it |
| `Inbound.DeferAllKeys` | proxy/inbound.go:282-313 | in every run the pending queue holds at most one entry per host and service |
| `Inbound.DeferredAddIff` | proxy/inbound.go:245-292 | an addition while queued acts like an addition afterwards if and only if its slot is new, or no slot behind it for that host in any spelling and that service ends with another route |
| `Inbound.TwoSpellingsOfAnAddition` | proxy/inbound.go:282-292 | for three additions of one service under two spellings of a host, direct application ends with the last route and deferred replay with the second |
| `Inbound.DeferredEqualsDirectIff` | proxy/inbound.go:245-325 | for any queue and route changes: whenever the listener comes up, replay ends with the very table, order included, of direct application, if and only if each change meets its condition when it arrives |
| `Inbound.DeferredEqualsDirect` | proxy/inbound.go:245-325 | changes that meet their conditions, a listener that comes up, and any further changes end with the very table of direct application |
| `Inbound.SpelledOnceRight` | proxy/inbound.go:245-325 | changes whose hosts have one spelling each always meet the conditions |
| `Inbound.AccountEndsAlike` | proxy/inbound.go:89-111 | the same for the account as the manager keeps it: queueing, bring-up with flush, and direct changes |
| `Inbound.LifeEnds` | proxy/inbound.go:89-325 | whatever changes, bring-ups and tear-downs an account sees, its routes are the changes queued while it was down before it came up last, replayed, and those made since |
| `Inbound.BroughtUpAgain` | proxy/inbound.go:89-211 | a listener that comes up again, torn down before or not, has lost every route it had |
| `Inbound.DeferredRemoveIff` | proxy/inbound.go:264-313 | a removal while queued acts like a removal afterwards if and only if the service is not queued under another spelling of the host |
| `Inbound.RemovalUnderOtherSpelling` | proxy/inbound.go:296-313 | a queued route removed under another spelling of its host is there after the replay, and gone after direct application |
| `Inbound.WindowRaceIff` | proxy/inbound.go:206-208 | after changes between publishing the entry and taking the queue, a service ends with the right route at a host if and only if none of them concerns it, or every slot queued for it is removed under its own spelling, or the last slot left has the route that the last of the changes left |
| `Inbound.ReplacedComesBack` | proxy/inbound.go:206-208 | a route replaced between publishing the entry and taking the queue is overwritten by the older queued one |
| `Inbound.FlushRaceIff` | proxy/inbound.go:316-325 | changes may also arrive while the taken queue is replayed: a queued service ends with the right route at a host if and only if a change after its last slot concerns it, or the changes until then left the very route of that slot |
| `Inbound.RemovedComesBack` | proxy/inbound.go:316-325 | a route removed between taking the queue and replaying it comes back |
| `Inbound.CurrentIsLatest` | proxy/inbound.go:214-220 | the current entry is the last that came up unless that very one was torn down: a stale tear-down removes nothing newer |
| `Inbound.Manager.QueuePending` | proxy/inbound.go:282-292 | queues or updates the slot of the same host and service |
| `Inbound.Manager.DropPending` | proxy/inbound.go:296-313 | drops the slot, and the queue with its last slot |
| `Inbound.Manager.AddRouteFor` | proxy/inbound.go:245-260 | queue or apply, for this account only |
| `Inbound.Manager.RemoveRouteFor` | proxy/inbound.go:264-279 | drop from the queue and from the router, for this account only |
| `Inbound.Manager.Publish` | proxy/inbound.go:127-210 | a fresh entry without routes becomes the account's; its queue stays |
| `Inbound.Manager.TakePending` | proxy/inbound.go:316-321 | the queue is handed out and forgotten, under the lock |
| `Inbound.Manager.ReplayInto` | proxy/inbound.go:322-325 | the handed-out routes are added in order, outside the lock |
| `Inbound.Manager.OnClientReady` | proxy/inbound.go:92-111 | the three in a row, with nothing in between; a failed listen changes nothing |
| `Inbound.Manager.TearDown` | proxy/inbound.go:214-240 | only the current entry can take the account down |
| `LazyConn.RunCovers` | client/internal/conn_mgr.go:55-306 | in every run of starts, flags, additions, removals, exclude lists, signals, traffic and silence, every stored peer is connected or registered with a running lazy manager, which never runs with Rosenpass on |
| `LazyConn.FlagOff` | client/internal/conn_mgr.go:78-108 | the remote flag never stops a locally enabled manager; otherwise turning it off connects every stored peer |
| `LazyConn.AddPeerReachableIff` | client/internal/conn_mgr.go:161-206 | adding a peer leaves everyone reachable if and only if the running manager does not already believe that peer open |
| `LazyConn.StepReachableIff` | client/internal/conn_mgr.go:121-306 | a step of any kind leaves every stored peer connected or waiting for traffic if and only if it does not add, unopened, a peer that a leftover entry of the running manager takes to be open |
| `LazyConn.RunReachableIff` | client/internal/conn_mgr.go:121-306 | throughout any run every stored peer is connected or waiting for traffic if and only if no step strands the peer it adds in that way |
| `LazyConn.RunReachable` | client/internal/conn_mgr.go:121-306 | every stored peer stays connected or waiting for traffic in every run in which every peer on an exclude list is still stored when the list is replaced |
| `LazyConn.MissingExcludeBelievedOpen` | client/internal/lazyconn/manager/manager.go:147-186 | replacing the exclude list makes the manager believe open a listed peer that is no longer stored |
| `LazyConn.ReturningPeerStranded` | client/internal/conn_mgr.go:121-206 | every excluded peer that leaves and returns after the next exclude list is neither connected nor waiting for traffic, and its signals change nothing |
| `LazyConn.StrandedStep` | client/internal/conn_mgr.go:121-306 | a stranded peer stays so in every step but its removal, its exclusion, an idle report under the leftover entry, or switching the manager off; traffic and signals change nothing |
| `LazyConn.StaysStrandedIff` | client/internal/conn_mgr.go:121-306 | over every run a stranded peer stays stranded if and only if no such step comes |
| `LazyConn.SignalWakes` | client/internal/conn_mgr.go:223-233 | a signal from a peer whose entry waits for traffic opens its connection and marks the entry active, and changes nothing else; any other signal changes nothing at all |
| `LazyConn.TrafficWakes` | client/internal/lazyconn/manager/manager.go:516-540 | so does traffic on the very connection that an entry waits for |
| `LazyConn.IdleCloses` | client/internal/lazyconn/manager/manager.go:270-295 | an idle report on an active connection closes the peer and marks its entry waiting, and changes nothing else; any other report changes nothing |
| `LazyConn.SilenceCloses` | client/internal/lazyconn/manager/manager.go:542-575 | so does silence of a peer whose entry is active |
| `LazyConn.SleepAndWake` | client/internal/conn_mgr.go:223-306 | silence followed by a signal or by traffic gives the very state before |
| `LazyConn.AddedPeer` | client/internal/conn_mgr.go:161-206 | a new peer is stored; it is opened unless a running manager takes it over, which it does exactly for a supported peer that is not excluded and is known to it or can be listened for; only a peer unknown to the manager is registered, as waiting |
| `LazyConn.KnownPeerStays` | client/internal/conn_mgr.go:161-206 | adding a known peer changes nothing |
| `LazyConn.RemovedPeer` | client/internal/conn_mgr.go:208-221 | a removed peer is closed and gone from store and manager, and everybody else stays as they were |
| `LazyConn.ExcludeListReplaced` | client/internal/conn_mgr.go:121-159 | on the new list are exactly the stored peers asked for; those new to it are opened and leave the manager, those taken off it return to it as active, and all others stay as they were |
| `LazyConn.FlagSwitches` | client/internal/conn_mgr.go:78-108 | the remote flag starts a manager that holds every stored peer as active, or stops it and opens every stored peer; enabled locally, unchanged, or switched on under Rosenpass it does nothing |
| `LazyConn.StartsEmpty` | client/internal/conn_mgr.go:55-73 | at start a manager without peers runs exactly if it is enabled locally and Rosenpass is off |
| `ConnManager.PeerStore.PeerConnOpen` | client/internal/peerstore/store.go:83-96 | opens the stored connection of the peer, if any |
| `ConnManager.PeerStore.PeerConnClose` | client/internal/peerstore/store.go:109-118 | closes the stored connection of the peer, if any |
| `ConnManager.LazyManager.AddPeer` | client/internal/lazyconn/manager/manager.go:188-221 | registers a peer for traffic unless it is excluded, already managed, or has no listener |
| `ConnManager.LazyManager.AddActivePeer` | client/internal/lazyconn/manager/manager.go:419-433 | registers a peer that is taken to be open |
| `ConnManager.LazyManager.RemoveManaged` | client/internal/lazyconn/manager/manager.go:435-447 | forgets a peer in both indexes |
| `ConnManager.LazyManager.ExcludePeer` | client/internal/lazyconn/manager/manager.go:147-186 | newly excluded peers leave, no longer excluded ones return as open, in any iteration order |
| `ConnManager.LazyManager.ActivatePeer` | client/internal/lazyconn/manager/manager.go:252-268 | a signal switches a waiting peer to active |
| `ConnManager.LazyManager.DeactivatePeer` | client/internal/lazyconn/manager/manager.go:270-295 | an active connection goes back to waiting and is closed |
| `ConnManager.ConnMgr.StartMgr` | client/internal/conn_mgr.go:55-73 | starts the manager only when enabled locally and without Rosenpass; nobody is forgotten |
| `ConnManager.ConnMgr.UpdatedRemoteFeatureFlag` | client/internal/conn_mgr.go:78-108 | starts or stops the manager as the flag says; nobody is forgotten |
| `ConnManager.ConnMgr.SetExcludeList` | client/internal/conn_mgr.go:121-159 | replaces the exclude list and opens the newly excluded peers; nobody is forgotten |
| `ConnManager.ConnMgr.AddPeerConn` | client/internal/conn_mgr.go:161-206 | stores the peer and opens or registers it; nobody is forgotten |
| `ConnManager.ConnMgr.RemovePeerConn` | client/internal/conn_mgr.go:208-221 | closes and forgets the peer; nobody else is forgotten |
| `ConnManager.ConnMgr.ActivatePeer` | client/internal/conn_mgr.go:223-233 | a signal opens a waiting peer |
| `ConnManager.ConnMgr.DeactivatePeer` | client/internal/conn_mgr.go:237-244 | an idle remote closes an active peer |
| `ConnManager.ConnMgr.AddPeersToLazyConnManager` | client/internal/conn_mgr.go:271-292 | a freshly started manager takes over every stored peer as open |
| `PeerLists.CompareNetIPLists` | client/internal/engine.go:2600-2629 | decides exactly whether the two lists agree as multisets of printed prefixes, a string that does not parse making them differ |
| `PeerLists.CountShown` | client/internal/engine.go:2600-2629 | the frequency map counts every printed prefix of the left list |
| `PeerLists.CountOff` | client/internal/engine.go:2600-2629 | counting off stops exactly when the right list cannot match |
| `PeerLists.FilterAllowedIPs` | client/internal/engine.go:2584-2596 | drops exactly the IPv6 prefixes when the interface has no IPv6 |
| `PeerLists.FilterAlike` | client/internal/engine.go:1619-1659 | filtering strings before parsing and filtering prefixes after parsing come to the same |
| `PeerLists.FilterKeepsBad` | client/internal/engine.go:2584-2596 | filtering never hides a string that does not parse |
| `PeerLists.SliceDiff` | util/common.go:19-31 | the elements of the first list missing from the second, in order |
| `PeerLists.MinusMembers` | util/common.go:19-31 | as sets this is the difference |
| `PeerSync.ChangedIffStale` | client/internal/engine.go:752-797 | a known peer is replaced exactly when its version or usable addresses differ from the map's |
| `PeerSync.SyncPeersStore` | client/internal/engine.go:1299-1429 | the three passes leave exactly the map's other peers, each up to date, and keep the connection of every peer that was |
| `PeerSync.Converges` | client/internal/engine.go:1299-1429 | after every successful update that is not outdated the store holds exactly the map's peers but our own key, or nobody on a clean-up, each with the map's version and, as a multiset, its filtered addresses, and up-to-date peers keep the same connection object |
| `PeerSync.NoChurn` | client/internal/engine.go:1299-1429 | applying the same map again succeeds, removes nobody and creates no connection |
| `PeerSync.SerialNeverDrops` | client/internal/engine.go:1299-1429 | no update lowers the serial, and an outdated map changes nothing |
| `PeerSync.SerialGrows` | client/internal/engine.go:1299-1429 | in every run of maps, applied, failed or outdated, the serial only grows |
| `PeerSync.LatestWins` | client/internal/engine.go:1299-1429 | in every run, once a map was applied, however many older maps come in late, the store is the one that map settled |
| `PeerSync.UpdateCovers` | client/internal/engine.go:1299-1429 | wherever an update stops, every stored peer is connected or known to a running manager |
| `PeerUpdates.UpdateOkIff` | client/internal/engine.go:1299-1429 | a current map is applied in full if and only if it asks for everybody's removal, or every other peer of it that has no connection, or one of another version or with other usable addresses, has parseable addresses, at least one usable one, and a connection that can be made |
| `PeerUpdates.OutdatedOk` | client/internal/engine.go:1308-1312 | an outdated map is answered with success and changes nothing |
| `PeerUpdates.NewPeer` | client/internal/engine.go:1619-1659 | a new peer gets a connection of its own with the map's version and its usable addresses, and is opened unless a running lazy manager takes it over |
| `PeerUpdates.UpdateSwitchesLazy` | client/internal/engine.go:1299-1429 | a current map switches lazy connections on and off unless they are enabled locally, and Rosenpass keeps them off |
| `PeerUpdates.ForwardedStayConnected` | client/internal/engine.go:1299-1429 | after a map was applied, every peer that a forwarding rule points at by one of its addresses is connected, and with a lazy manager running exactly these peers are excluded from it |
| `EngineObject.PeerEngine.UsableIPs` | client/internal/engine.go:1619-1659 | parsing fails exactly on a bad address, otherwise gives the usable prefixes in order |
| `EngineObject.PeerEngine.AddNew` | client/internal/engine.go:1619-1659 | adds an unknown usable peer, skips a known one, fails on an unusable one |
| `EngineObject.PeerEngine.AddNewPeers` | client/internal/engine.go:1608-1616 | adds in order and stops at the first failure |
| `EngineObject.PeerEngine.FindModified` | client/internal/engine.go:752-797 | finds exactly the known peers that changed, in order |
| `EngineObject.PeerEngine.Modify` | client/internal/engine.go:752-797 | removes the changed peers, then adds them anew |
| `EngineObject.PeerEngine.RemoveListed` | client/internal/engine.go:801-841 | removes the listed peers one by one |
| `EngineObject.PeerEngine.Sync` | client/internal/engine.go:1299-1429 | the remove, modify and add passes with their early exits |
| `EngineObject.PeerEngine.UpdateNetworkMap` | client/internal/engine.go:1299-1429 | the whole update takes the engine object through the step of the specification and forgets nobody |
| `FileTree.CopyTree` | client/cmd/migrate.go:1065-1135 | the tree in which the target's subtree is the source's, missing parents are directories, and everything else is as before |
| `FileDisk.Disk.CopyPath` | client/cmd/migrate.go:1065-1096 | the recursive copy succeeds exactly when the source exists and only directories lead to the target, and then has the effect of one whole-subtree copy; otherwise nothing changes |
| `FileDisk.Disk.CopyDir` | client/cmd/migrate.go:1098-1114 | copying entry by entry, in any order, amounts to the whole subtree |
| `Migration.StepRecords` | client/cmd/migrate.go:728-744 | one action records truthfully whether its target existed, with a backup of what was there |
| `Migration.StepsRecord` | client/cmd/migrate.go:378-404 | after all actions every entry of the manifest is a faithful record of its target before the migration |
| `Migration.StepsFrame` | client/cmd/migrate.go:378-404 | what is apart from targets and backups is untouched |
| `Migration.StepsCopy` | client/cmd/migrate.go:746-764 | every copied target holds its source as it was before the migration |
| `Migration.StepsValid` | client/cmd/migrate.go:348-441 | the tree stays a tree |
| `MigrationApply.AppliedRecords` | client/cmd/migrate.go:406-421 | a successful migration leaves the manifest with faithful records on the disk |
| `MigrationApply.RestoreStepBack` | client/cmd/migrate.go:791-831 | undoing one entry gives its target the recorded subtree |
| `MigrationApply.RestoreBack` | client/cmd/migrate.go:791-831 | undoing all entries, last first, gives every target its recorded subtree |
| `MigrationApply.RollbackInvertsApply` | client/cmd/migrate.go:791-831 | for any tree, any later state of the targets, and a backup directory apart from them, a rollback that succeeds restores the subtree at every target |
| `MigrationTheorems.RollbackSucceedsIff` | client/cmd/migrate.go:791-831 | if only targets changed since, rollback succeeds if and only if before the migration no regular file stood on the way to a target |
| `MigrationTheorems.BlockedRollback` | client/cmd/migrate.go:791-831 | with a regular file on the way to the last target, rollback fails at once and restores nothing |
| `MigrationTheorems.AppliedValid` | client/cmd/migrate.go:348-441 | the tree after a successful migration is a tree again |
| `MigrationTheorems.RollbackOfCopiesSucceeds` | client/cmd/migrate.go:791-831 | a plan without compatibility link can always be rolled back, if only its targets changed |
| `MigrationTheorems.ApplySafe` | client/cmd/migrate.go:443-511 | without both unsafe flags, a migration that succeeds leaves no client configuration with a management URL and without anonymous mode below a configuration target |
| `MigrationTheorems.AutoConnectOnlyAnonymous` | client/cmd/migrate.go:624-686 | auto-connect is switched on in anonymous client configurations below the two targets only, and nothing else in them changes |
| `MigrationConfigs.Harden` | client/cmd/migrate.go:587-622 | a hardened client configuration is anonymous, keeps a URL and keeps every other field; other files are untouched |
| `MigrationConfigs.AutoConnect` | client/cmd/migrate.go:660-686 | changes exactly the anonymous client configurations that have auto-connect off |
| `MigrationConfigs.HardenPlanSafe` | client/cmd/migrate.go:531-585 | after hardening no copied configuration is unsafe |
| `MigrationPlan.PlanSeparated` | client/cmd/migrate.go:229-317 | any plan built from any disk keeps its targets, its sources and an outside backup directory apart |
| `MigrationPlan.DefaultBackupOutside` | client/cmd/migrate.go:230-233 | the default backup directory lies outside everything a plan touches |
| `MigrationPlan.PlanRollsBack` | client/cmd/migrate.go:791-831 | rollback of the built plan restores every target |
| `MigrationPlan.PlanRollbackIff` | client/cmd/migrate.go:791-831 | if only targets changed since, the built plan can be rolled back if and only if no compatibility link was asked for or no regular file stood on the way to it |
| `MigrationPlan.SkippedLinkApplies` | client/cmd/migrate.go:391-404 | with a regular file on the way to the compatibility link the migration succeeds exactly as it would without the link |
| `MigrationPlan.SkippedLinkBlocksRollback` | client/cmd/migrate.go:791-831 | it then leaves that file, and rollback fails without restoring a single target |
| `MigrationPlan.UsrFileBlocksRollback` | client/cmd/migrate.go:791-831 | on a disk that holds a regular file /usr and nothing else, the migration with the compatibility link requested and otherwise default options succeeds and its rollback fails |
| `MigrationPlan.PlanSafe` | client/cmd/migrate.go:443-511 | the built plan is safe |
| `MigrationPlan.PlanSafeWithoutBackups` | client/cmd/migrate.go:348-441 | and as safe with backups switched off, wherever the backup directory would have been |
| `MigrationOutcome.PlanIs` | client/cmd/migrate.go:229-317 | the plan, written out: seven optional actions in their order, each there exactly when its source exists, the unit file from the first of three places, and the link last if asked for |
| `MigrationOutcome.PlannedIff` | client/cmd/migrate.go:229-317 | an action is in the plan if and only if it is one of the seven and its source exists or the link was asked for |
| `MigrationOutcome.CopiesHold` | client/cmd/migrate.go:348-441 | a migration that succeeds leaves at every path below a plain target what was at that path below its source; with a join token every client configuration among the JSON files of the two configuration directories has the five fields of anonymous mode set, and in /etc the helper files that exist hold the token's URL and key |
| `MigrationOutcome.RewritesHold` | client/cmd/migrate.go:746-764 | unit and environment files are regular files, and their targets hold the rewritten text |
| `MigrationOutcome.LinkHolds` | client/cmd/migrate.go:766-789 | the compatibility link is made if and only if what it points at exists or becomes a directory on the way to the backups, its place is free or force is given, and only directories lead there; otherwise its place is left alone |
| `MigrationSuccess.StepsOkIff` | client/cmd/migrate.go:378-404 | the actions all succeed if and only if each of them alone could be carried out on the disk as it was before the first: its source exists, its target is free or force is given, only directories lead to the target and to its backups, and a file to be rewritten is a regular file |
| `MigrationSuccess.HardenOkIff` | client/cmd/migrate.go:531-585 | hardening succeeds if and only if in the copied /etc directory the two helper files are regular files or absent |
| `MigrationSuccess.ApplyOkIff` | client/cmd/migrate.go:348-459 | from any disk, the built plan succeeds if and only if it is empty or: the JSON files of both configuration directories can be read; no configuration among them is in the clear, or the client rejoins, or both unsafe flags are given; the join token is good; the manifest can be written; every action fits the disk; and, rejoining, so do the helper files |
| `MigrationBackups.SourcesBackedUp` | client/cmd/migrate.go:716-726 | a migration that succeeds with backups leaves at every path below each source's place in the backup directory what was at that path below the source, and a client manifest that lists exactly these copies in order |
| `MigrationBackups.NoClientManifest` | client/cmd/migrate.go:833-846 | without a readable manifest of scope client, rollback fails and changes nothing |
| `MigrationBackups.UndoOkIff` | client/cmd/migrate.go:791-831 | an entry of any manifest can be undone if and only if no regular file stands on the way to its target and, where the target existed, its backup is recorded and exists outside the target and only directories lead to the target |
| `MigrationSuccess.UnsafeIff` | client/cmd/migrate.go:495-529 | a configuration is unsafe if and only if the first of the three spellings of the management URL that it has is not null, an empty object or blank, and anonymous mode is not true |
| `MigrationSuccess.ConfigsIff` | client/cmd/migrate.go:461-493 | readable and safe directories, in terms of their paths and file contents |
| `Migrator.Client.BuildPlan` | client/cmd/migrate.go:229-317 | builds that plan, and fails exactly where a client configuration cannot be read |
| `Migrator.Client.FindUnsafe` | client/cmd/migrate.go:461-493 | finds exactly the unsafe configurations, or fails on an unreadable one |
| `Migrator.Client.Validate` | client/cmd/migrate.go:443-459 | refuses exactly the migrations that would leave a configuration in the clear |
| `Migrator.Client.SaveSource` | client/cmd/migrate.go:716-726 | backs up the source, or fails and changes nothing |
| `Migrator.Client.SaveTarget` | client/cmd/migrate.go:728-744 | backs up and records the target, or fails and changes nothing |
| `Migrator.Client.RunCopy` | client/cmd/migrate.go:746-764 | replaces the target with the copy or the rewritten copy; a failure changes nothing or, given force, removes the target |
| `Migrator.Client.CopyRewritten` | client/cmd/migrate.go:1034-1044 | copies one file with its text rewritten |
| `Migrator.Client.RunLink` | client/cmd/migrate.go:766-789 | replaces the target with the link, or changes nothing |
| `Migrator.Client.RunActions` | client/cmd/migrate.go:378-404 | the action loop with its failure and optional-skip exits; on failure the completed actions stand, the failing one touched its backups at most or, given force, removed a target that is saved, and everything outside targets and backups stays as it was |
| `Migrator.Client.RewriteBelow` | client/cmd/migrate.go:546-569 | a walk that rewrites every JSON file, stopping at an unreadable entry, never touches anything outside its root |
| `Migrator.Client.HardenConfigs` | client/cmd/migrate.go:531-585 | hardens the copied configurations |
| `Migrator.Client.RewriteHelpers` | client/cmd/migrate.go:688-714 | rewrites the two helper files if they exist |
| `Migrator.Client.WriteManifest` | client/cmd/migrate.go:848-854 | writes the manifest into the backup directory |
| `Migrator.Client.Apply` | client/cmd/migrate.go:348-441 | the whole migration succeeds exactly under the stated conditions with the stated tree; failing, it was refused, stopped at an action or stopped after all, and wrote no manifest; either way it touches nothing outside targets and backups |
| `MigrationFailure.StoppedHalfway` | client/cmd/migrate.go:378-404 | a migration that stops at an action has replaced the targets before it and not those behind it; the failing action left its own target as it was or, given force, removed it with a backup in place; and where no manifest was before, rollback restores nothing |
| `MigrationFailure.ExistingTargetStops` | client/cmd/migrate.go:746-764 | without force, an existing target stops the migration at its action, whatever the actions before it did |
| `MigrationFailure.HaltedRollback` | client/cmd/migrate.go:348-441 | wherever a migration fails, rollback finds the manifest that was there before it, or fails |
| `Migrator.Client.RollbackMigration` | client/cmd/migrate.go:791-831 | the whole rollback, failure exits included |
| `Migrator.AppliedRestorable` | client/cmd/migrate.go:833-846 | what a migration left behind can be handed to rollback |
| `Migrator.Client.EnableAutoConnect` | client/cmd/migrate.go:624-658 | walks the two configuration targets |
| `IfaceWatcher.EventSound` | client/internal/wg_iface_monitor_linux.go:84-134 | an event that makes the watcher restart leaves the name without the expected index |
| `IfaceWatcher.EventComplete` | client/internal/wg_iface_monitor_linux.go:84-134 | the change that ends a match publishes an event that makes the watcher restart, as a deletion or a rename |
| `IfaceWatcher.WatcherSeesMismatch` | client/internal/wg_iface_monitor_linux.go:27-76 | any mismatch at or after the re-check makes the watcher restart, whatever the kernel's history |
| `IfaceWatcher.WatcherRestartsForCause` | client/internal/wg_iface_monitor_linux.go:27-76 | an uninterrupted watcher restarts only if there was a mismatch since the subscription |
| `IfaceWatcher.WatcherWaitsIff` | client/internal/wg_iface_monitor_linux.go:27-134 | for every history and whatever the state at the subscription, the watcher stays waiting if and only if the name leads to the expected index at the re-check and no change since the subscription deletes that link, reports it under another name or reports our name at another index |
| `IfaceWatcher.WatcherExact` | client/internal/wg_iface_monitor_linux.go:27-76 | if the interface was in place at the subscription, the watcher restarts if and only if it was lost at some time since |
| `IfaceWatcher.RepairedUnnoticed` | client/internal/wg_iface_monitor_linux.go:35-49 | an interface that is misnamed at the subscription and renamed back before the re-check goes unnoticed, however many quiet changes follow |
| `IfaceWatcher.RenameLegal` | client/internal/wg_iface_monitor_linux.go:35-49 | the rename alone is such a history |
| `IfaceWatcher.RepairedNoticed` | client/internal/wg_iface_monitor_linux.go:84-134 | the same interface is noticed if the misnamed link reports anything before it is renamed back |
| `IfaceWatcher.WatcherRefinesPoller` | client/internal/wg_iface_monitor_other.go:31-56 | if a poller on any schedule from the re-check on restarts, so does the watcher |
| `IfaceWatcher.OnMessageIs` | client/internal/wg_iface_monitor_linux.go:84-134 | the watcher objects to exactly those messages that delete the expected link, report it under another name or report our name at another index, or that end the subscription, and says which |
| `IfaceWatcher.AwaitIs` | client/internal/wg_iface_monitor_linux.go:51-76 | its answer is that of the first such message, and it waits as long as there is none |
| `IfaceWatcher.RecheckIs` | client/internal/wg_iface_monitor_linux.go:35-49 | the re-check waits exactly if the name leads to the expected index, says deleted exactly if no link has the name, and otherwise names the index that has it |
| `IfaceWatcher.PollIs` | client/internal/wg_iface_monitor_other.go:31-56 | the poller's answer is that of the first tick at which the name does not lead to the expected index, unless it is cancelled before |
| `IfaceWatcher.TableFollows` | client/internal/wg_iface_monitor.go:65-74 | in the link table a link added or renamed under a free name is found by that name, a deleted one is gone, and every other link stays |
| `IfaceWatcher.PollerWouldSee` | client/internal/wg_iface_monitor_other.go:31-56 | if the watcher restarts, a poller looking at the right time would have |
| `IfaceWatcher.WatchInterface` | client/internal/wg_iface_monitor_linux.go:27-76 | the event loop: subscription failure, re-check, then the first deciding message |
| `IfaceWatcher.PollInterface` | client/internal/wg_iface_monitor_other.go:31-56 | the polling loop |
| `CaptureSlot.StepInv` | client/server/capture.go:79-344 | every critical section, engine call, timeout and engine change keeps the ownership invariant |
| `CaptureSlot.RunInv` | client/server/capture.go:79-344 | so does every interleaving |
| `CaptureSlot.SingleOwner` | client/server/capture.go:79-344 | in every interleaving, a lost slot included, an installed session is the recorded owner, in one engine at most, no two captures are under way, and the only temporary file is the current bundle's |
| `CaptureSlot.OthersLeaveOwnerAlone` | client/server/capture.go:228-252 | no release, late timeout, repeated stop or start of another capture clears, uninstalls or stops the owner's |
| `CaptureSlot.WedgesIff` | client/server/capture.go:289-296 | the slot is lost exactly by a debug bundle taken while its capture still holds the slot |
| `CaptureSlot.WedgedForever` | client/server/capture.go:309-323 | a lost slot is refused to everyone in every continuation |
| `CaptureSlot.RecoverableIff` | client/server/capture.go:79-344 | the slot can become free again if and only if its owner is still there |
| `CaptureSlot.DebugWithoutStopWedges` | client/server/capture.go:289-306 | starting a bundle capture and taking the debug bundle without a stop loses the slot for good |
| `CaptureSlot.EngineFeeds` | client/internal/engine.go:2367-2403 | an engine that is up feeds the session it was given, and none once its device refused or the session was withdrawn; an engine that is down, and every other engine, goes on as it was |
| `CaptureSlot.NotOwnerGivesUpNothing` | client/server/capture.go:325-344 | in any state whatever, a session that is not the recorded owner gives up nothing but itself |
| `CaptureSlot.ClaimTakes` | client/server/capture.go:309-323 | a claim takes the slot exactly if it is free and the client connected; otherwise it only stops the new session |
| `CaptureSlot.InstallFeeds` | client/server/capture.go:121-126 | the claimed session is fed by its engine and no other exactly if that engine is up and its device accepts it |
| `CaptureSlot.ReleaseFrees` | client/server/capture.go:325-331 | a refused stream capture gives up the slot, and no engine feeds anything |
| `CaptureSlot.ClearFrees` | client/server/capture.go:334-344 | a stream capture that ends gives up the slot and is fed no more |
| `CaptureSlot.StreamLeavesNothing` | client/server/capture.go:79-163 | a stream capture from claim to end, fed or refused, leaves the very state before it but for a used and stopped session |
| `CaptureSlot.StopBundleFrees` | client/server/capture.go:268-284 | stopping a bundle capture stops its session, and gives up the slot and takes the session off the engine exactly if it owns the slot |
| `CaptureSlot.StartBundleTakes` | client/server/capture.go:187-255 | starting a bundle capture ends the previous one; slot, file, timeout and feeding engine are the new session's exactly if the slot was free or the previous bundle's, the client connected, file and session could be made and the engine accepted it, and otherwise none of them |
| `CaptureSlot.TimeoutStops` | client/server/capture.go:243-252 | a timeout stops its own session, and gives up the slot exactly if that session's bundle is still current and owns it |
| `CaptureSlot.DebugBundleTakes` | client/server/capture.go:289-306 | taking the debug bundle stops the session and takes the file, and leaves slot and engine alone |
| `CaptureSlot.EnginesChange` | client/server/capture.go:346-357 | engines come up feeding what they fed, go down feeding nothing, and connecting a client changes none of them |
| `CaptureSlot.CaptureServer.ClaimCapture` | client/server/capture.go:309-323 | claims the slot if it is free and there is an engine |
| `CaptureSlot.CaptureServer.InstallStream` | client/server/capture.go:121-126 | installs the claimed session, or leaves it to be released |
| `CaptureSlot.CaptureServer.ReleaseCapture` | client/server/capture.go:325-331 | gives the slot up only if it is the caller's |
| `CaptureSlot.CaptureServer.ClearCaptureIfOwner` | client/server/capture.go:334-344 | uninstalls and gives up only if the slot is the caller's |
| `CaptureSlot.CaptureServer.StopBundleLocked` | client/server/capture.go:268-284 | stops the bundle capture, and clears the slot only if it is the bundle's |
| `CaptureSlot.CaptureServer.StartBundleCapture` | client/server/capture.go:187-255 | replaces the bundle capture, with every failure exit |
| `CaptureSlot.CaptureServer.OnTimeout` | client/server/capture.go:243-252 | a timeout stops its own capture only |
| `CaptureSlot.CaptureServer.TakeDebugBundle` | client/server/capture.go:289-306 | stops the session and cleans up, leaving the slot alone |
| `CaptureSlot.CaptureServer.SetEngineCapture` | client/internal/engine.go:2367-2403 | installs or removes a session on an engine |
| `ReverseDns.AgreesIff` | client/internal/dns.go:54-92 | for every prefix: the zone holds the names of exactly the addresses in the prefix if and only if the length is nonzero and on a byte (IPv4) or nibble (IPv6) boundary, or the prefix is the one 95-bit prefix whose other half is IPv4-mapped; IPv4-mapped networks get no zone |
| `ReverseDns.MappedRefused` | client/internal/dns.go:54-66 | a network of IPv4-mapped addresses is refused |
| `ReverseDns.UnalignedDisagrees` | client/internal/dns.go:58-76 | every unaligned or empty prefix contains an address whose name lies outside its zone |
| `ReverseDns.PtrInjective` | client/internal/dns.go:26-42 | different addresses have different PTR labels |
| `ReverseZones.PtrTextInjective` | client/internal/dns.go:26-42 | and different PTR names as written |
| `ReverseZones.PtrName` | client/internal/dns.go:26-42 | the index loop fills the labels in reverse and the written name is theirs |
| `ReverseZones.ReverseZoneName` | client/internal/dns.go:54-92 | the written zone name, or a refusal |
| `ReverseZones.AllNibbles` | client/internal/dns.go:79-83 | the byte loop yields the nibble labels |
| `ReverseZones.CreatePtrRecord` | client/internal/dns.go:15-49 | a PTR record exactly for a parseable address in the prefix |
| `ReverseZones.CollectPtrRecords` | client/internal/dns.go:106-125 | the records in order |
| `ReverseZones.CollectedIff` | client/internal/dns.go:106-125 | collected are the PTR records of A and AAAA records of authoritative zones in the prefix, and no others |
| `ReverseZones.CollectedAre` | client/internal/dns.go:15-49 | the same with the record written out: a record is collected if and only if some A or AAAA record of an authoritative zone has a parseable address whose leading bits are the prefix's, and it leads from that address's PTR name to the record's fully qualified name, with the record's class and time to live |
| `ReverseZones.CollectedInOrder` | client/internal/dns.go:106-125 | collected records follow the order of the zones and of the records in them |
| `ReverseZones.AddedIs` | client/internal/dns.go:128-150 | adding a reverse zone appends, exactly if there is a zone name that no zone has yet, one authoritative zone kept out of the search domains with the collected records |
| `ReverseZones.FqdnIs` | client/internal/dns.go:39-48 | a trailing dot is added unless there is one that an odd number of backslashes does not take away |
| `ReverseZones.CollectedInZone` | client/internal/dns.go:106-150 | in a prefix on a label boundary every collected name lies in the zone that gets it |
| `ReverseZones.Config.AddReverseZone` | client/internal/dns.go:128-150 | appends the zone unless it exists or is refused |
| `ReverseZones.AddedTwice` | client/internal/dns.go:128-150 | adding the zone twice adds it once |
| `Anonymizer.RunAllocated` | client/anonymize/anonymize.go:48-72 | over any run replacements are pairwise distinct, keep the family, and fill exactly the range from the start to the current address |
| `Anonymizer.FirstAnswers` | client/anonymize/anonymize.go:48-72 | the first two inputs of a family outside its range get the first two addresses of that range |
| `Anonymizer.RunAnswers` | client/anonymize/anonymize.go:48-72 | after a run every input is special, in the range, or has its replacement in the table |
| `Anonymizer.Idempotent` | client/anonymize/anonymize.go:48-72 | a replacement is answered by itself ever after |
| `Anonymizer.SameAnswerIff` | client/anonymize/anonymize.go:48-72 | an input is answered alike at two times if and only if it is never replaced or the range check says the same both times |
| `Anonymizer.AnswerChanges` | client/anonymize/anonymize.go:48-72 | the address right behind the next one is replaced the first time it is asked for and passes unchanged the second time |
| `Anonymizer.OutsideAnsweredAlike` | client/anonymize/anonymize.go:91-98 | an input outside the final range gets one answer throughout |
| `Anonymizer.CollidesIff` | client/anonymize/anonymize.go:48-72 | another input shares a replaced input's answer exactly when it is that replacement passed through |
| `Anonymizer.NextAddressReused` | client/anonymize/anonymize.go:91-98 | the inclusive check lets the next address pass unchanged and hands it out again afterwards |
| `Anonymizer.Anonymizer.AnonymizeIP` | client/anonymize/anonymize.go:48-72 | one call |
| `Anonymizer.Anonymizer.IsInAnonymizedRange` | client/anonymize/anonymize.go:91-98 | start and current address included |
| `WebSocket.FrameRoundTrip` | scripts/anonbird-overlay-smoke-server.py:141-150 | a written frame is read back, in all three length forms, and nothing more is consumed |
| `WebSocket.StreamRoundTrip` | scripts/anonbird-overlay-smoke-server.py:104-150 | any sequence of written frames is read back frame by frame |
| `WebSocket.MaskedRoundTrip` | scripts/anonbird-overlay-smoke-server.py:104-138 | a masked frame is read back without its mask, whatever its upper header bits |
| `WebSocket.WrittenBytes` | scripts/anonbird-overlay-smoke-server.py:141-150 | a written frame byte by byte: final bit and opcode, the length in one, three or nine bytes, the payload |
| `WebSocket.ReadsMasked` | scripts/anonbird-overlay-smoke-server.py:104-138 | from the bytes of a short masked frame, whatever follows them, the payload is read with the mask's bytes removed in turn, exclusive-or bit by bit |
| `WebSocket.ReadsPlain` | scripts/anonbird-overlay-smoke-server.py:104-138 | the bytes of a short frame without mask are read as they are |
| `WebSocket.ReadsNothing` | scripts/anonbird-overlay-smoke-server.py:104-108 | fewer than two bytes make no frame |
| `WebSocket.BytesValue` | scripts/anonbird-overlay-smoke-server.py:114-123 | length bytes count from the most significant |
| `WebSocket.XorAt` | scripts/anonbird-overlay-smoke-server.py:104-138 | the mask acts on each bit alone |
| `WebSocket.ReplyIs` | scripts/anonbird-overlay-smoke-server.py:77-89 | a text comes back with a prefix, a ping as a pong, a close as an empty close, and nothing else is answered |
| `WebSocket.RepliesIs` | scripts/anonbird-overlay-smoke-server.py:77-89 | frame by frame up to the first close, which ends the session |
| `WebSocket.Socket.ReadExact` | scripts/anonbird-overlay-smoke-server.py:92-101 | exactly the bytes asked for, however the socket splits them; an early end uses everything up |
| `WebSocket.Socket.ReadWsFrame` | scripts/anonbird-overlay-smoke-server.py:104-138 | the next frame of the byte stream, or nothing with the stream used up |
| `WebSocket.Socket.WriteWsFrame` | scripts/anonbird-overlay-smoke-server.py:141-150 | appends the frame's bytes |
| `WebSocket.Session.Serve` | scripts/anonbird-overlay-smoke-server.py:77-89 | the bytes written are those of the replies to the frames received, up to the first close |
| `WebSocket.EchoSession` | scripts/anonbird-overlay-smoke-server.py:77-89 | whatever frames a client sends under whatever masks, it reads back exactly their replies |
| `Base62.Encode` | base62/base62.go:15-32 | the digits of the number |
| `Base62.Reverse` | base62/base62.go:52-58 | the string reversed, by swapping in place |
| `Base62.Decode` | base62/base62.go:35-49 | fails exactly on a character outside the alphabet, otherwise the 32-bit sum |
| `Base62.ValueOfDigits` | base62/base62.go:15-32 | the digits stand for the number |
| `Base62.NoLeadingZero` | base62/base62.go:15-32 | a leading zero only for zero |
| `Base62.EncodeInjective` | base62/base62.go:15-32 | different numbers have different digits |
| `Base62.SixDigits` | base62/base62.go:35-49 | at most six valid digits decode to their value modulo 2^32 |
| `Base62.LeadingDigit` | base62/base62.go:35-49 | beyond six digits the leading digit is weighed by what the language makes of its power |
| `Base62.RoundTrip` | base62/base62.go:15-49 | every 32-bit number decodes back from its digits, and no partial sum overflows |
| `Base62.WrapsAround` | base62/base62.go:35-49 | six digits beyond 32 bits decode to what is left of their value |
| `AnonymousCheck.CheckReport` | client/cmd/debug_anonymous.go:119-300 | for every configuration, status and resolver: each violation is recorded if and only if its reason holds, written out over what the resolver says of management URL, signal URL, relays and peer fields, and every flag likewise; the check passes if and only if configuration and live status are clean, and then STUN, ICE, direct UDP and clearnet fallback read disabled and no endpoint is published |
| `AnonymousCheck.ConfigReasonIff` | client/cmd/debug_anonymous.go:119-192 | which violations the configuration gives |
| `AnonymousCheck.StatusReasonIff` | client/cmd/debug_anonymous.go:193-300 | which violations the live status gives |
| `AnonymousCheck.BuildReport` | client/cmd/debug_anonymous.go:119-300 | all violations in order and every printed flag, from the scans |
| `AnonymousCheck.ScanPeers` | client/cmd/debug_anonymous.go:241-276 | the peer loop with its early continues |
| `AnonymousCheck.ScanAllClean` | client/cmd/debug_anonymous.go:241-276 | no peer violation if and only if every peer is clean, and then no flag is raised |
| `AnonymousCheck.ScanRelays` | client/cmd/debug_anonymous.go:214-231 | the relay loop |
| `AnonymousCheck.RelaysClean` | client/cmd/debug_anonymous.go:214-231 | no relay violation if and only if every relay is blank or of the configured transport and none is STUN |
| `AnonymousCheck.ClassifyRelays` | client/cmd/debug_anonymous.go:354-375 | unknown, mixed, or the one kind seen |
| `AnonymousCheck.PeerUsesDatagram` | client/cmd/debug_anonymous.go:324-347 | all fields that are not blank are I2P markers, and there is one |
| `AnonymousCheck.PassedEndpoints` | client/cmd/debug_anonymous.go:119-240 | under a known transport, a pass means that the management URL resolves to that network, or the client is not in anonymous mode yet and it resolves to none, and that the signal URL and every relay that is not blank resolve to that network |
| `AnonymousCheck.PassedRelays` | client/cmd/debug_anonymous.go:214-231 | a pass means that every relay that is not blank resolves to an anonymous network, under a known transport to that one, and that none is a STUN server |
| `AnonymousCheck.PassedPeers` | client/cmd/debug_anonymous.go:241-276 | a pass means that under Tor every peer field is empty, that under I2P each is empty or the peer shows I2P markers and otherwise white space only, and that every connected peer is relayed or I2P |
| `AnonymousCheck.BlankBesideMarker` | client/cmd/debug_anonymous.go:324-347 | under I2P a peer with a marker for its local type is clean whatever white space its other fields hold, relayed or not |
| `AnonymousCheck.SpaceBesideMarker` | client/cmd/debug_anonymous.go:324-347 | one such peer: connected, not relayed, and with a space for a type |

## Left out

- Sockets, listeners, gRPC, TLS, HTTP, back-off, goroutine life cycles and logging: only whether an operation succeeds is kept, as a parameter.
- Parts of the proxy that do not touch listeners, holds or stored mappings: access logging, geo look-up, the L4 gauge, the HTTP proxy, auth and certificate tables and their clean-up by domain.
- Host names are lower-cased in ASCII only.
- Parts of the engine outside peers: firewall, routes, DNS server and SSH.
- UpdateNetworkMap: does not model the configuration block of a network map, which runs and can fail ahead of the serial test.
- AddPeer: does not model high-availability groups, so a new peer of an active group is not activated at once.
- ActivatePeer: does not model high-availability groups, so the other peers of the group stay as they are; nor errors of opening a connection.
- DeactivatePeer: does not model that creating the activity monitor can fail, which changes nothing in the manager's tables but leaves the peer to be woken by a signal only.
- OnClientReady: states the three phases in a row; changes that arrive between them are the subject of `WindowRaceIff` and `FlushRaceIff`.
- `SyncPeersStore`, `Converges`, `NoChurn`, `UpdateOkIff` and `ForwardedStayConnected` suppose, as management guarantees, that the peer keys of a map are distinct.
- `CompareNetIPLists` and everything built on it suppose that printing a prefix and parsing it back is faithful.
- Migration: file modes, time stamps, I/O faults, systemd calls, the join command and the server script; the text replacement in unit files is an uninterpreted function, a JSON file is its top-level fields.
- Migration: symbolic links are leaves that lead nowhere. A path through a link does not exist, and reading or writing through one fails.
- CopyPath: supposes that source and target are apart, as does `CopyDir`, because copying a directory into itself does not terminate in the original.
- Apply: supposes that sources, targets and the backup directory are apart, as does `RunActions`; `PlanSeparated` proves it of every built plan with an outside backup directory.
- RollbackMigration: supposes that each recorded backup is apart from its target, which `Migrator.AppliedRestorable` proves of every manifest a migration writes.
- AnonymizeIP: does not model running past the last address of a family, because the original then yields an invalid address.
- Decode: what a power from 62^6 on becomes in 32 bits is left open by the language, so strings of more than six digits decode through a parameter.
- Serve: supposes that a reply fits the 64-bit length field.
- Reverse DNS: how the library parses addresses is a parameter; zones of IPv6 addresses are not modelled.
- Capture: request validation, the packet stream itself and the debug bundle's other contents.
- Anonymous-mode check: the report's informational lines, transport validation and the I2P bridge probe are parameters or absent.
- Domain and string anonymization, because they rest on randomness and regular expressions.
- Cryptography, STUN, WireGuard, firewall back ends, command-line plumbing and platform shims, because they are thin wrappers over foreign code.
