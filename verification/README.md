# Panel and node: agreement, ports, accounting

A control panel (`go-backend`) keeps rows for nodes, tunnels and forwards and drives remote nodes (`go-node`) by
command messages. This project models how the two sides are kept in agreement and how the panel accounts for
traffic, and proves what that code is there to guarantee.

## What is modelled

| modules | what they cover |
|---|---|
| `Text`, `Rows`, `Filters`, `SetSums` | the Go string helpers, the database rows, what a filtering loop keeps, sums over sets taken in any order |
| `Names`, `ServiceShapes`, `ConfigCheck`, `ConfigCleanUp` | service and chain names of a forward, their decoding, the configurations behind them, the clean-up of reported configurations and what it leaves on the node |
| `NodeServices`, `NodeEffects`, `NodeCommands` | the node's service registry and configuration list under the six batch commands |
| `Reconcile`, `ReconcileFrames`, `ReconcileGroups`, `ReconcileRuns`, `ReconcileTheorems`, `ReconcilePlaces`, `ReconcileRoutes`, `PanelReconcile` | `ReconcileNode`: add first, hot-update what exists, pause what is paused, delete orphans; where services listen and chains lead |
| `XrayConfig`, `XrayClients`, `XrayProperties`, `XrayRuns`, `XrayServing`, `XrayManager` | the Xray configuration file and process under the hot commands with their roll-backs, and the panel's from-scratch merge |
| `Ports`, `PortRows` | port allocation and the handlers that write forwards and tunnels |
| `Traffic`, `TrafficReports` | the dashboard's charts, totals and ranking |
| `Quota`, `QuotaPauses` | charging of uploads and enforcement of flow limits |
| `Matching`, `RateLimit`, `Scheduler` | replies matched to requests, the per-address limiter, the reset cycles |
| `Routes`, `Weighted`, `Suffixes`, `Address` | nested multiplexed routes, the weighted draw, suffix lookup, `host:port` printing and parsing |

Each part that the program runs as loops over changing state appears twice: once as functions on plain states, about
which the theorems are proved, and once as a class (`Node`, `Panel`, XrayManager's `Manager`, `Store`, `Ledger`,
Matching's `Manager`, `Limiter`, `Clients`, `Chain`, `RandomWeighted`, `HostMapper`, `Ingress`) whose methods change
their fields step by step and are proved to compute those functions. Answers of external commands, clocks and random
draws are parameters; a function parameter such as `parses` or `opens` stands for every pattern of outcomes, and each
command of a reconciliation may be carried out and answered, be lost, or be carried out and its answer lost. Loops over
Go maps and database sets take their elements in an arbitrary order.

One handler call, or one operation on the shared map or on a channel, is one atomic step. Integers are unbounded, except
that parsed numbers are limited to 64 bits.

## Where the code does less than its documentation or names suggest

Each of these is stated by a lemma or contract in the table below.

- A forward that inherits a tunnel address with several addresses registers suffixed services, but pausing, resuming and
  deleting it address the plain names (`Names.OperatedNamesAgree`, `ReconcileTheorems.UngovernedNotPaused`).
- A port forward on several addresses that exists already is never hot-updated, since the hot update uses plain names
  (`ReconcileTheorems.ReconcileAims`, `ReconcileTheorems.MultiAddressNotUpdated`); if it has an old plain listener left over,
  that one is redirected instead, so a second run can still change something (`ReconcileTheorems.ReconcileIdempotent`).
- A reconciliation never moves a service or a chain that is there: one that listens on an old port, or leads to one, is
  refused as "already exists" and stays (`ReconcileRoutes.RunMovesNothing`, `ReconcileRoutes.ReconcileListens`,
  `ReconcileRoutes.MovedForwardStays`).
- A forward of which some listeners are registered and some are not, as a failed update leaves it, is never repaired: the
  add is refused as "already exists", and the hot update adds nothing, however often the node is reconciled
  (`ReconcileTheorems.ReconcileConverges`, `ReconcileTheorems.PartIsNeverRepaired`).
- Creating services looks at the registry alone. One that a failed update or resume left configured is configured twice
  when it is created again (`NodeServices.CreateKeepsUnique`, `NodeServices.RecreatedTwice`), and its old entry stays in
  front, so a new group can be off target in the configuration (`ReconcileGroups.SyncAims`).
- A run pauses a paused forward on the reconciled node only; listeners it adds at the other end run until that node is
  reconciled too (`ReconcileTheorems.ReconcilePauses`, `ReconcileTheorems.BothEndsPaused`).
- The configuration clean-up deletes listeners in pairs and the node deletes all or nothing, so it
  never removes a lone orphaned listener (`ConfigCleanUp.OrphanLeaves`, `ConfigCleanUp.LoneOrphanStays`).
- The names kept by the configuration clean-up come from splitting the list at every comma, blank parts included
  (`Names.KeptNamesCover`).
- A failed `HotAddUser` removes every client of that email, also those that were there before it
  (`XrayProperties.FailedAddUser`); a failed `HotRemoveUser` puts back one (`XrayProperties.FailedRemoveUser`).
- A `HotAddUser` or `HotRemoveUser` whose fast command fails and whose reloads remove the inbound but do not add it again
  leaves the process running without an inbound that the file still lists (`XrayServing.ExecKeepsFull`,
  `XrayServing.InboundIsLost`).
- When the clock stands at a full hour, the chart leaves out one hour that today's total includes
  (`Traffic.ChartSumsToToday`).
- `Transport.Copy` answers the original, so two selected multiplexed nodes that share a transport give a cyclic route
  whose flattening does not end (`Routes.FlatteningGivesPath`).
- An upload without a user tunnel is charged but not checked (`Quota.UnnamedUpload`).
- `hostMapper.Lookup` never sets its second result (`Suffixes.HostMapper.Lookup`).
- An update or a resume that fails part-way leaves services unregistered that are still configured
  (`NodeServices.UpdateKeepsSynced`, `NodeServices.ResumeKeepsSynced`).
- The roll-back of a pause restarts nothing: it parses each closed service again but cannot register it, because its name is
  still taken (`NodeCommands.Node.RollbackPaused`); what it was to undo stays closed (`NodeServices.FailedPause`).

## Model

| member | source | states |
|---|---|---|
| Names.SplitListenIPs | go-backend/pkg/gost.go:222-238 | the address list is the trimmed non-blank parts, or the whole text when it has no comma or nothing but blanks |
| ServiceShapes.ListenMeans | go-backend/pkg/gost.go:222-238 | a list with a comma stands for its trimmed non-blank parts in their order, if there are any; any other text for itself |
| Names.BuildMultiIPServiceNames | go-backend/pkg/gost.go:241-252 | the names used for a listen list are the tcp/udp pair of every address in it, indexed when there are several |
| Names.BuildServices | go-backend/pkg/gost.go:194-218 | the loop builds the configuration of each address and protocol |
| Names.ServiceConfigNames | go-backend/pkg/gost.go:194-252 | the services that are added carry exactly the names the name builder lists for the same address text |
| ServiceShapes.ServicesAreListeners | go-backend/pkg/gost.go:194-303 | AddService sends, for every listen address, a tcp and a udp listener at its own host and the entry port; it forwards to the target or, for a tunnel forward, uses the one chain |
| ServiceShapes.RelayShape | go-backend/pkg/gost.go:343-358 | the relay listens on every address of its node at the exit port and forwards to the target |
| ServiceShapes.ForwarderTargets | go-backend/pkg/gost.go:360-380 | a forwarder's addresses are the comma-separated parts of the target without blanks, in order, with "fifo" for no strategy |
| ServiceShapes.ListenParses | go-backend/pkg/gost.go:412-418 | the panel's parser reads host and port back from a listen address |
| Names.StripIndexOfIndexed | go-backend/pkg/gost.go:307-326 | stripping "_i" from an indexed name gives its base name back |
| Names.ChainsRecovered | go-backend/pkg/gost.go:293-333 | every service of a tunnel forward, on any number of addresses, refers to the one chain created for it |
| Names.NameDecodes | go-backend/service/reconcile.go:356-367 | splitting a built name on "_" gives the forward id, whatever is appended |
| ServiceShapes.NameParts | go-backend/service/forward.go:964-970 | splitting a service name gives forward, user and user tunnel, the index if there is one, and the protocol |
| ServiceShapes.UserTunnelMeans | go-backend/service/forward.go:988-994 | the user tunnel in a name is the first row of the user on the tunnel, 0 without one |
| Names.NameOfForward | go-backend/service/forward.go:964-970 | every name a forward can use decodes to its id and is left alone by the node's trimming |
| Names.DistinctForwardsDistinctNames | go-backend/service/forward.go:964-970 | two forwards share no service name |
| Names.GroupNoDup | go-backend/pkg/gost.go:241-252 | the names of one forward are pairwise different, its relay's included |
| Names.OperatedNamesAgree | go-backend/pkg/gost.go:194-252 | the names that delete, pause and resume address equal the registered ones if and only if the forward's listen list governs |
| Names.KeptNamesCover | go-backend/service/config_check.go:40-59 | the clean-up keeps every registered name if and only if the list has two or more non-blank parts, or has no comma and governs |
| Names.InheritedListIsMissed | go-backend/pkg/gost.go:106-150 | a forward without a list on a tunnel with two addresses listens under an indexed name that delete, pause and resume do not address |
| Names.TrailingCommaIsNotKept | go-backend/service/config_check.go:41-52 | a list of one address and a trailing comma listens under a plain name that the clean-up does not keep |
| ConfigCheck.BuildValidSets | go-backend/service/config_check.go:19-67 | the loops collect the kept names of all forwards of the node's tunnels |
| ConfigCheck.ValidPairs | go-backend/service/config_check.go:40-53 | a tcp listener is kept if and only if its udp twin is |
| ConfigCheck.DeletionSparesValid | go-backend/service/config_check.go:69-82 | deleting an unwanted service by its pair never names a kept one |
| ConfigCheck.CleanServices | go-backend/service/config_check.go:69-82 | one deletion per unwanted panel-shaped service, in report order; each such service is named by one and no kept service by any |
| ConfigCheck.CleanChains | go-backend/service/config_check.go:84-91 | every unwanted chain is named for deletion; a wanted one is hit if and only if a reported unwanted chain carries its bare base name |
| ConfigCheck.ChainBaseHazard | go-backend/service/config_check.go:84-91 | the deletion names another chain than the reported one exactly when that one lacks the suffix |
| ConfigCheck.BareNameHitsChain | go-backend/service/config_check.go:84-91 | a reported chain that carries a tunnel forward's bare base name is unwanted, and its deletion takes the forward's chain |
| ConfigCheck.CleanUpKeepsForward | go-backend/service/config_check.go:13-82 | all listeners of such a forward are valid on its node |
| ConfigCleanUp.CarryEffect | go-node/x/socket/service.go:163-218 | after the deletions a service is gone if and only if one of them names it and found registered all it names |
| ConfigCleanUp.DeletedTogether | go-backend/pkg/gost.go:73-104 | a listener's deletion needs its twin registered too, a relay's only the relay |
| ConfigCleanUp.OrphanLeaves | go-backend/service/config_check.go:69-82 | a reported unwanted service leaves the node if and only if all the services its deletion names are registered when the commands arrive |
| ConfigCleanUp.KeptStays | go-backend/service/config_check.go:69-82 | a service that some forward keeps stays registered and configured |
| ConfigCleanUp.LoneOrphanStays | go-backend/pkg/gost.go:73-78 | the lone tcp listener of a deleted forward stays: the clean-up leaves the node as it is |
| NodeServices.CreateEffect | go-node/x/socket/service.go:18-84 | a failed create changes nothing; a successful one adds exactly its trimmed, new, distinct names to registry and list |
| NodeEffects.CreateAnswers | go-node/x/socket/service.go:18-84 | a create succeeds if and only if it names a service and all names are given, new, different and can be opened |
| NodeEffects.CreateWrites | go-node/x/socket/service.go:18-84 | then the services run as sent, their entries are appended in order, and nothing else changes |
| NodeServices.CreateKeepsUnique | go-node/x/socket/service.go:18-84 | a successful create keeps the configured names unique if and only if none of its names is still configured |
| NodeServices.RecreatedTwice | go-node/x/socket/service.go:18-161 | a service that a failed update lost and a create brings back has two entries |
| NodeServices.UpdateEffect | go-node/x/socket/service.go:86-161 | a failed update stops at the first service that does not start after its retries and loses exactly the names from there on |
| NodeEffects.UpdateWrites | go-node/x/socket/service.go:86-161 | an update succeeds if and only if it names registered services that all start in time; then they run as sent, the first entry of each is the one sent, and nothing else changes |
| NodeEffects.FailedUpdateWrites | go-node/x/socket/service.go:86-161 | after a failed one the services before the first that does not start run as sent, the others it names are gone, and the list is as it was |
| NodeServices.DeleteEffect | go-node/x/socket/service.go:163-218 | all or nothing: the named services leave registry and list, or nothing changes |
| NodeEffects.DeleteWrites | go-node/x/socket/service.go:163-218 | a delete succeeds if and only if all it names are registered; then the entries of other names stay in order and the other services as they are |
| NodeServices.PauseEffect | go-node/x/socket/service.go:220-329 | a pause changes no name |
| NodeServices.FailedPause | go-node/x/socket/service.go:220-329 | a failed pause changes something if and only if it closed an open service before it came to one without an entry; while the list covers the registry it never does |
| NodeEffects.PauseWrites | go-node/x/socket/service.go:220-329 | a pause succeeds if and only if all it names are registered and configured; it closes them, marks the first entry of each, and changes nothing else |
| NodeServices.ResumeEffect | go-node/x/socket/service.go:331-454 | a failed resume leaves the list unchanged, and loses exactly the first service that does not start again, none if all start |
| NodeEffects.ResumeWrites | go-node/x/socket/service.go:331-454 | a resume restarts the marked ones in the order of the request; if all open they run as configured without the mark, and nothing else changes |
| NodeEffects.FailedResumeWrites | go-node/x/socket/service.go:331-454 | else the first that does not open is gone, those before it are closed again, and the rest is as before |
| NodeServices.UpdateForwarderEffect | go-node/x/socket/service.go:523-581 | a forwarder update changes no name, on any outcome |
| NodeEffects.SwitchWrites | go-node/x/socket/service.go:523-581 | a hot update switches the services before the first it cannot; the entries follow only when it can switch all; nothing else changes |
| NodeServices.PausedAfterPause | go-node/x/socket/service.go:220-329 | after a pause the named services are marked and closed, and no other one is closed |
| NodeServices.ResumeUndoesPause | go-node/x/socket/service.go:220-454 | pause then resume restores the list exactly and reopens the services |
| NodeServices.ExecKeepsCovered | go-node/x/socket/service.go:18-581 | each command keeps every registered name configured, on every outcome |
| NodeServices.RunKeepsCovered | go-node/x/socket/service.go:18-581 | so does every run of commands |
| NodeServices.ResumeKeepsSynced | go-node/x/socket/service.go:331-454 | a resume keeps registered and configured names equal and unique if and only if every paused service it names can be started, or it refuses beforehand |
| NodeServices.UpdateKeepsSynced | go-node/x/socket/service.go:86-161 | an update does if and only if every service it carries starts within its attempts, or it refuses beforehand |
| NodeServices.ExecKeepsSynced | go-node/x/socket/service.go:18-581 | every other command, successful or failed, always does |
| NodeServices.RunKeepsSynced | go-node/x/socket/service.go:18-581 | names stay equal and unique along a run if and only if that guard holds of every update and resume when it comes |
| NodeServices.StartingFails | go-node/x/socket/service.go:113-141 | one service that does not start: a resume and an update each leave it configured and unregistered |
| NodeCommands.Node.Create | go-node/x/socket/service.go:18-84 | the phased loops change the node as the create of the model does |
| NodeCommands.Node.Update | go-node/x/socket/service.go:86-161 | close all, start each with up to three attempts, rewrite the entries: as the update of the model |
| NodeCommands.Node.Delete | go-node/x/socket/service.go:163-218 | check all, unregister all, filter the list: as the delete of the model |
| NodeCommands.Node.Pause | go-node/x/socket/service.go:220-329 | close, mark, roll back: as the pause of the model |
| NodeCommands.Node.RollbackPaused | go-node/x/socket/service.go:456-491 | the roll-back restarts the startable services that are not registered; it changes nothing if and only if all startable ones are, as they are in a pause, since registering a taken name fails |
| NodeCommands.Node.Resume | go-node/x/socket/service.go:331-454 | find, restart, unmark, roll back: as the resume of the model |
| NodeCommands.Node.RollbackResumed | go-node/x/socket/service.go:493-518 | the roll-back of a resume closes what was started |
| NodeCommands.Node.UpdateForwarder | go-node/x/socket/service.go:523-581 | targets are switched up to the first refusal, entries only when all were accepted |
| ReconcileGroups.HotUpdateSets | go-node/x/socket/service.go:523-581 | an accepted hot update redirects the running services up to the first unregistered name, and the entries only when it gets to all |
| ReconcileGroups.SyncRegisters | go-backend/service/reconcile.go:191-242 | with every command answered, a group is registered after a push if and only if all of it or none of it was before, whatever is configured |
| ReconcileGroups.SyncAims | go-backend/service/reconcile.go:191-242 | after an answered push a group forwards to the panel's target, running and configured, if and only if it is new and no old entry of it forwards elsewhere, or all of it was there and its hot update names it or it did before |
| ReconcilePlaces.SyncPlaces | go-backend/service/reconcile.go:191-242 | after an answered push a group listens where its configuration says if and only if it did, or is new and no old entry of it is elsewhere |
| ReconcileGroups.SyncIdle | go-backend/service/reconcile.go:191-242 | pushing again a group some of which is there and whose hot update has nothing to do changes nothing, whatever is refused or lost |
| ReconcileTheorems.ReconcileConverges | go-backend/service/reconcile.go:128-242 | with every command answered, one run registers every relay and every listener of every forward of the node at all its nodes, pauses what that node's runs pause, and leaves no panel-shaped name of a foreign forward, if and only if no forward's listeners were there in part |
| ReconcileTheorems.EmptyNodesConverge | go-backend/service/reconcile.go:128-242 | a run brings nodes that have just started with nothing on them to that state |
| ReconcileTheorems.ReconcileRegisters | go-backend/service/reconcile.go:191-242 | each forward by itself: its relay is registered after an answered run, its listeners are if and only if all or none of them were before |
| ReconcileRoutes.MainPlacedMeans | go-backend/pkg/gost.go:194-303 | listeners are in place if and only if each address has its tcp and udp listener at its host and the entry port, with the forward's chain |
| ReconcileRoutes.RelayPlacedMeans | go-backend/pkg/gost.go:343-358 | the relay is in place if and only if it listens at the exit port on every address of the exit node |
| ReconcileRoutes.ReconcileListens | go-backend/service/reconcile.go:128-242 | after an answered run the listeners are in place if and only if they were or all were free, likewise the relay; a new chain leads to the exit address and port, an old one where it led |
| ReconcileRoutes.NewForwardCarries | go-backend/service/reconcile.go:191-242 | from nodes that know nothing of a forward, one answered run sets up its whole way: listeners at the entry port, their chain to the exit port, the relay there, the target |
| ReconcileRoutes.RunMovesNothing | go-backend/service/reconcile.go:191-242 | whatever is answered, a run never changes where a service that stays registered listens, nor its chain |
| ReconcileRoutes.MovedForwardStays | go-backend/service/reconcile.go:191-242 | a listener of a forward of port 80 that listens elsewhere stays there |
| ReconcileTheorems.PartIsNeverRepaired | go-backend/service/reconcile.go:191-242 | of a forward that is there in part, no number of runs registers a missing listener or takes another away, whatever is answered in each |
| ReconcileTheorems.HalfIsNotCompletable | go-backend/service/reconcile.go:191-242 | one such state: a forward on one address whose tcp listener alone is there |
| ReconcileTheorems.ReconcilePauses | go-backend/service/reconcile.go:170-183 | after a run the listeners are paused if and only if they were, or they were all or none there and this is the entry node of a paused forward whose list governs; the relay if and only if it was, or this is the exit node of a paused forward |
| ReconcileTheorems.BothEndsPaused | go-backend/service/reconcile.go:170-183 | reconciling both ends in turn, in either order, leaves the relay of a paused tunnel forward paused, and its listeners if and only if they were, or all or none of them were there |
| ReconcileTheorems.ReconcileAims | go-backend/service/reconcile.go:221-238 | after a run the listeners of a port forward are on the panel's target if and only if none of them was there and no old entry of theirs forwards elsewhere, or all were there and it has one address or was on target before |
| ReconcileTheorems.ReconcileIdle | go-backend/service/reconcile.go:39-86 | from a state where nothing is left to do a run changes nothing on any node, whatever is refused or lost |
| ReconcileTheorems.ReconcileIdempotent | go-backend/service/reconcile.go:39-86 | a second run changes nothing if, before the first, each group was there at least in part, or no hot update of it would find an old entry or leftover listener that forwards elsewhere, and only then |
| ReconcileTheorems.QuietMeans | go-backend/pkg/gost.go:44-57 | when a hot update of a port forward has nothing to do: no plain tcp listener, or the plain listeners on target |
| ReconcileTheorems.LeftoverIsRedirected | go-backend/service/reconcile.go:221-238 | a forward changed from one address to two with its old tcp listener left over: the second run redirects it |
| ReconcileTheorems.SecondRunTouches | go-backend/service/reconcile.go:191-242 | a second run, whatever fails in it, registers, unregisters, pauses and resumes nothing, and touches only services that the hot update of such an unsettled forward names |
| ReconcileTheorems.ThirdRunIdle | go-backend/service/reconcile.go:39-86 | a third run never changes anything |
| ReconcileTheorems.ReconcileSafe | go-backend/service/reconcile.go:337-414 | on every outcome, lost commands and answers included, the only services a run unregisters are panel-shaped names on that node of forwards it does not have |
| ReconcileTheorems.MultiAddressNotUpdated | go-backend/service/reconcile.go:221-238 | a push of a forward on several addresses some of which is there leaves its listeners as they are, whatever is answered |
| ReconcileTheorems.UngovernedNotPaused | go-backend/service/reconcile.go:170-183 | a pause of a forward that is there and running leaves its listeners running if and only if its list does not govern |
| PanelReconcile.Panel.Gentle | go-backend/service/reconcile.go:191-242 | the command sequence for one forward is the push of the model |
| PanelReconcile.Panel.ReconcileForwards | go-backend/service/reconcile.go:128-186 | the nested loops push every forward of every tunnel of the node |
| PanelReconcile.Panel.CollectOrphans | go-backend/service/reconcile.go:352-404 | grouping by id and removing the live ids leaves exactly the orphaned names |
| PanelReconcile.Panel.CleanupOrphans | go-backend/service/reconcile.go:337-414 | the one delete command removes all orphans, in whatever order they are listed |
| PanelReconcile.Panel.ReconcileNode | go-backend/service/reconcile.go:39-86 | the panel's loops bring about what the model's reconciliation says |
| XrayConfig.MergeClients | go-backend/service/xray_inbound.go:497-537 | the loop builds one client object per enabled row, in order |
| XrayConfig.SameObject | go-node/x/xray/manager.go:700-722 | the panel's merge and the node's addition, written separately, build the same client object |
| XrayClients.MergeDescribes | go-backend/service/xray_inbound.go:506-532 | the merge writes one object for each row, in order, with exactly the fields of the protocol and the row's values; the method is absent, empty or the inbound's |
| XrayClients.AddUserWrites | go-node/x/xray/manager.go:681-773 | a successful addition appends one object that describes the row with the inbound's own method, and changes nothing else in the file |
| XrayClients.RemoveUserWrites | go-node/x/xray/manager.go:778-849 | a successful removal keeps exactly the clients of other emails, in order |
| XrayClients.BareInboundStays | go-node/x/xray/manager.go:786-812 | an inbound without settings is passed over by a removal and its roll-back |
| XrayClients.RunDescribes | go-node/x/xray/manager.go:681-849 | over every run the file has a client for each enabled row that describes it, and none besides |
| XrayClients.ReloadAnswers | go-node/x/xray/manager.go:853-909 | a reload succeeds if and only if the file has the inbound and the adding does; it never changes the file, and a failed one at most takes that inbound from the process |
| XrayClients.ReloadCompletes | go-node/x/xray/manager.go:853-909 | a successful reload serves the file's clients in order, each with a method where one is missing, or none for the 2022 family |
| XrayClients.ReloadServesMerged | go-node/x/xray/manager.go:870-891 | clients that the panel merged are complete: a reload serves them as they are in the file |
| XrayClients.AddInboundWrites | go-node/x/xray/manager.go:545-645 | when an inbound is added, file and process get it last, keep the others in order, and nothing changes without the binary or when the command fails |
| XrayClients.RemoveInboundWrites | go-node/x/xray/manager.go:649-676 | a removal takes exactly that inbound from file and process, if and only if the process runs and the command succeeds |
| XrayClients.ApplyWrites | go-node/x/xray/manager.go:489-530 | the file afterwards is the new one if it starts or there was none before, else the old one; the process runs if the one or the other starts |
| XrayClients.LoadedMeans | go-node/x/xray/manager.go:489-530 | a process that starts serves each tag of its file with that inbound's clients |
| XrayProperties.FailedAddUser | go-node/x/xray/manager.go:681-773 | for every outcome of the commands, a HotAddUser that fails edits nothing but that inbound's client list, and leaves it exactly as before if and only if no client had the email |
| XrayProperties.FailedRemoveUser | go-node/x/xray/manager.go:778-849 | a HotRemoveUser that fails edits nothing but that inbound's client list, and leaves it equal as a multiset if and only if at most one client had the email |
| XrayProperties.AddUndoneTakesMore | go-node/x/xray/manager.go:681-773 | a failed addition of an email that one client has already takes that client away |
| XrayProperties.RemovalPutsOneBack | go-node/x/xray/manager.go:778-849 | a failed removal of an email that two clients have puts one of them back |
| XrayProperties.DropAndPutBack | go-node/x/xray/manager.go:800-838 | filtering an email out and appending the last removed client restores the multiset if and only if at most one had it |
| XrayProperties.MergedDrop | go-backend/service/xray_inbound.go:497-537 | removing an email from the merged clients is merging without its row |
| XrayProperties.ExecUserAgrees | go-node/x/xray/manager.go:681-849 | each addition of a fresh email and each removal keeps the file agreeing with the merge of the enabled rows, for all protocols and shadowsocks methods |
| XrayProperties.MergedPermutes | go-backend/service/xray_inbound.go:506-532 | the merge of the same rows in another order has the same multiset of clients |
| XrayProperties.IncrementalAgrees | go-node/x/xray/manager.go:681-849 | over every run of additions and removals the file holds the client objects that the from-scratch merge of the resulting rows builds, in any row order |
| XrayRuns.AddedInboundAgrees | go-node/x/xray/manager.go:545-645 | an inbound added with the panel's merge agrees with it from the start |
| XrayRuns.ReloadEffect | go-node/x/xray/manager.go:853-909 | a reload makes the process serve the file's users of that tag, or loses or leaves them, and touches no other tag |
| XrayRuns.DroppedTags | go-node/x/xray/manager.go:620-639 | filtering a tag out removes exactly its inbounds and keeps tags distinct and "api" in front |
| XrayRuns.AddInboundInStep | go-node/x/xray/manager.go:545-645 | after adding an inbound, on every outcome, tags are distinct and a running process serves no inbound that the file lacks, and each it serves with exactly the file's users |
| XrayRuns.RemoveInboundInStep | go-node/x/xray/manager.go:649-676 | so it is after removing one |
| XrayRuns.FailedApply | go-node/x/xray/manager.go:489-530 | a failed ApplyConfig leaves the old file if and only if there was one; a successful one leaves the fresh configuration |
| XrayRuns.RunInStep | go-node/x/xray/manager.go:489-909 | over every run of commands and crashes, tags stay distinct behind the leading "api" inbound, and a running process serves no inbound that the file lacks, and each it serves with exactly the file's users |
| XrayServing.InboundCommandsServe | go-node/x/xray/manager.go:489-676 | adding or removing an inbound, applying a configuration and a crash never lose one: on every outcome a running process serves all inbounds of its file |
| XrayServing.ExecKeepsFull | go-node/x/xray/manager.go:681-909 | a command keeps a running process serving all inbounds of its file if and only if it is not a user command whose fast way fails and whose reloads end without the inbound: a removal succeeded and no later adding did |
| XrayServing.RunKeepsFull | go-node/x/xray/manager.go:489-909 | along a run the process serves exactly the inbounds and users of its file throughout if and only if that holds of every user command when it comes |
| XrayServing.InboundIsLost | go-node/x/xray/manager.go:681-909 | one such command: the process runs on without an inbound that the file lists |
| XrayManager.Manager.HotAddUser | go-node/x/xray/manager.go:681-773 | the loop edits, the fast command, the reload and the undo are those of the model |
| XrayManager.Manager.HotRemoveUser | go-node/x/xray/manager.go:778-849 | likewise for the removal and its roll-back |
| XrayManager.Manager.Reload | go-node/x/xray/manager.go:853-909 | the inbound is found, its clients completed, removed and added again |
| XrayManager.Manager.FixClients | go-node/x/xray/manager.go:870-891 | the loop sets every shadowsocks client's method as the inbound's method asks |
| XrayManager.Manager.HotAddInbound | go-node/x/xray/manager.go:545-645 | with a stopped process the file is written and the process started, with a running one the command comes first |
| XrayManager.Manager.HotRemoveInbound | go-node/x/xray/manager.go:649-676 | the file follows a successful command only |
| XrayManager.Manager.ApplyConfig | go-node/x/xray/manager.go:489-530 | write, start, put the old file back on failure |
| Ports.FreeFrom | go-backend/service/forward.go:910-922 | the least port of a range that is not used, or none when all are |
| Ports.UsedIffTaken | go-backend/service/forward.go:924-962 | the used ports of a node are exactly those that some other forward takes there with either end |
| Ports.AllocatedIsFree | go-backend/service/forward.go:871-908 | an allocation is in range, clear of every other forward, honours the requested port, and has an exit port only for tunnel forwards |
| Ports.AllocationIsLeast | go-backend/service/forward.go:910-922 | automatic allocation answers the least port no other forward takes, and fails if and only if the node is gone or its whole range is taken |
| Ports.UpdateSound | go-backend/service/forward.go:168-403 | every path of an update, failures included, keeps ports apart |
| PortRows.CreateWrites | go-backend/service/forward.go:53-148 | a creation succeeds if and only if it is allowed, its tunnel is active, its ports can be had and the nodes accept; it writes the row as asked, in error when the nodes refuse, and no other |
| PortRows.UpdateAnswers | go-backend/service/forward.go:168-403 | an update succeeds if and only if it may go on and the nodes accept or have nothing to do; it touches its own row only, and nothing when it may not go on |
| PortRows.UpdateWrites | go-backend/service/forward.go:272-403 | on success the row is as asked, with the entry port asked for; after a refusal it has the new tunnel, ports and list if the services had to move, and else only the error status |
| PortRows.DeleteWrites | go-backend/service/forward.go:405-451 | a deletion removes the row, and no other, if and only if it and its tunnel exist and its nodes removed the services, are offline or gone |
| PortRows.TunnelCreated | go-backend/service/tunnel.go:10-82 | when a tunnel is made and every column of it, "::" standing for a blank address |
| PortRows.TunnelChanged | go-backend/service/tunnel.go:97-127 | a change rewrites the listen addresses, blank ones too, and moves the tunnel to no other node |
| PortRows.TunnelDeleted | go-backend/service/tunnel.go:129-147 | a tunnel goes if and only if no forward uses it |
| Ports.ExecSound | go-backend/service/tunnel.go:10-147 | every handler on forwards, tunnels and nodes keeps ports apart |
| Ports.RunSound | go-backend/service/forward.go:53-451 | over every run of the handlers no two nonzero ports taken on one node coincide |
| Ports.Store.GetAllUsedPortsOnNode | go-backend/service/forward.go:924-962 | the two loops over rows in any order collect exactly the used ports |
| Ports.Store.AllocatePort | go-backend/service/forward.go:910-922 | the loop finds the least free port |
| Ports.Store.Allocate | go-backend/service/forward.go:871-908 | requested or automatic entry port, exit port for tunnel forwards |
| Ports.Store.Create | go-backend/service/forward.go:53-148 | the row is written first, taken back when a node is missing and kept in error when the nodes refuse; ports stay apart |
| Ports.Store.Update | go-backend/service/forward.go:168-403 | which columns each path of the update writes; ports stay apart |
| Ports.Store.Delete | go-backend/service/forward.go:405-451 | the row goes unless reachable nodes refuse; ports stay apart, so no later allocation clashes |
| Ports.Store.AddTunnel | go-backend/service/tunnel.go:10-82 | a new tunnel brings no clash: a tunnel forward needs two different existing nodes, any other tunnel leaves where it enters |
| Ports.Store.RemoveTunnel | go-backend/service/tunnel.go:129-147 | no forward loses its tunnel, so no port is forgotten: refused while it carries forwards |
| Routes.Chain.Route | go-node/x/chain/chain.go:82-113 | the hop loop builds the nested route, writing each multiplexed transport's route in place |
| Routes.Chain.RoutePath | go-node/x/chain/router.go:198-209 | the recursive flattening, with a bound on its depth |
| Routes.DistinctPath | go-node/x/chain/chain.go:82-113 | without a shared transport the flattening is the selected nodes, at any sufficient depth |
| Routes.SharedHasNoPath | go-node/x/chain/transport.go:102-106 | with a shared transport every later route leads back into itself, at every depth |
| Routes.FlatteningGivesPath | go-node/x/chain/router.go:198-209 | the flattened route is the selected nodes in hop order, cut at the first hop that selects none, if and only if no two multiplexed ones share a transport, whatever earlier calls left behind |
| Traffic.ChartSumsToToday | go-backend/service/dashboard.go:181-203 | with no future records the 24 bars sum to today's total, minus exactly the hour at now - 24 h when now is a full hour |
| Traffic.BarsMean | go-backend/service/dashboard.go:181-192 | the chart has 24 bars, one an hour, from the oldest to the hour of now, each with what all ids moved in it |
| Traffic.HourMeans | go-backend/service/dashboard.go:152-179 | what an id moves in an hour is by how much its snapshot exceeds its latest one before, never less than nothing |
| Traffic.FullHourMissesABar | go-backend/service/dashboard.go:181-203 | five units moved in the hour that began a day ago, seen at a full hour, are in today's total and in no bar |
| Traffic.AnyOrderSameFigures | go-backend/service/dashboard.go:139-151 | however the hours were met, bars, today's total, the month's total and every node's total are the same |
| SetSums.SumTake | go-backend/service/dashboard.go:155-179 | a sum over ids is the same whichever id is taken first, which is what lets the loops take them in any order |
| Traffic.DeltasTelescope | go-backend/service/dashboard.go:152-179 | an id's clamped differences sum to at least last minus base, and to exactly that if and only if its counter never drops |
| Traffic.CountersNeverDrop | go-backend/service/dashboard.go:126-137 | records that never drop give hourly snapshots that never drop |
| Traffic.TodayByIds | go-backend/service/dashboard.go:194-201 | today's total, summed hour by hour, is what each id moved, summed over ids |
| Traffic.TotalsTelescope | go-backend/service/dashboard.go:400-467 | for counters that never drop, today's and the month's totals are what the counters gained since their bases |
| Traffic.RankingPartitionsMonth | go-backend/service/dashboard.go:537-635 | the ranking's flows summed over nodes are the month's total minus the forwards no longer joined to a tunnel |
| TrafficReports.CollectSnapshots | go-backend/service/dashboard.go:126-137 | an id and hour has a snapshot if and only if it has a record, and it is the flow of the record after which no other of that id and hour comes |
| TrafficReports.AddDayDeltas | go-backend/service/dashboard.go:155-179 | one id's walk adds its hourly differences |
| TrafficReports.GetTrafficData | go-backend/service/dashboard.go:108-203 | bars and total are functions of the records alone, not of the order of ids and hours, and the bars sum to the total but for the full-hour bucket |
| TrafficReports.GetMonthlyTraffic | go-backend/service/dashboard.go:400-467 | the month's total is a function of the records alone |
| TrafficReports.GetNodeTrafficRanking | go-backend/service/dashboard.go:570-635 | each node gets what the forwards joined to it moved, in any order, and the nodes' flows with the unjoined forwards' make up the month's total |
| Quota.UploadLimited | go-backend/service/flow.go:163-237 | an upload that names a user tunnel stops what it takes over a limit |
| QuotaPauses.UploadEffect | go-backend/service/flow.go:163-357 | an upload charges exactly its forward, user and grant, and pauses a forward if and only if it was not paused, its tunnel exists, and the charged user (over his limit, expired or not enabled) or the grant on that tunnel (used up, expired or not enabled) rules it out |
| QuotaPauses.StepPauses | go-backend/service/flow.go:163-357 | one step pauses a forward if and only if it is such an upload or the forward's own pause |
| QuotaPauses.RunPauses | go-backend/service/flow.go:163-357 | over every run a forward is found paused if and only if some step paused it for one of these causes and it stayed so |
| QuotaPauses.CreationWrites | go-backend/service/forward.go:53-148 | a creation writes a fresh row if and only if user, grant and tunnel allow it |
| QuotaPauses.ResumptionWrites | go-backend/service/forward.go:523-603 | a resumption activates the user's own forward if and only if they do and the nodes accept |
| QuotaPauses.StoppingWrites | go-backend/service/forward.go:405-513 | pauses and deletions act if and only if they are carried out, on that forward only |
| QuotaPauses.ResetsClear | go-backend/task/reset_flow.go:46-73 | a reset clears both counters of one user or grant, and nothing else |
| Quota.ExecLimited | go-backend/service/forward.go:771-869 | every step keeps user and grant limits; a forward that is created or resumed passed the permission checks first |
| Quota.PermittedIsBelow | go-backend/service/forward.go:771-869 | whoever the permission checks let through is below his own limit and that of his grant on the tunnel |
| Quota.RunLimited | go-backend/service/flow.go:163-357 | over every run of uploads, creations, resumptions, pauses, deletions and resets, every forward of a user strictly over his limit, or on a tunnel where his grant is used up, is paused |
| Quota.UnnamedUpload | go-backend/service/flow.go:228-234 | an upload without a user tunnel keeps the limits if and only if it does not take its user over, or his forwards are stopped already |
| Quota.UnnamedUploadPasses | go-backend/service/flow.go:228-234 | one such upload takes a user past his limit, and his forward runs on |
| Quota.CountersAddUp | go-backend/service/flow.go:196-226 | until a reset, what a user has used is exactly what was uploaded in his name |
| Quota.Ledger.ProcessFlow | go-backend/service/flow.go:163-237 | charges forward, user and grant, then checks user and grant |
| Quota.Ledger.PauseForwardServices | go-backend/service/flow.go:331-357 | the loop pauses exactly the rows whose tunnel exists, in any order |
| Matching.RunKeepsPromises | go-backend/pkg/ws.go:297-375 | under every interleaving no channel is sent to twice, no reader waits to send, a call returns its own reply, a timeout or "offline", and no returned call's id is pending |
| Matching.DuplicateIsDropped | go-backend/pkg/ws.go:297-313 | a second reply to a request changes nothing |
| Matching.ReplyIsDelivered | go-backend/pkg/ws.go:297-369 | while a call waits and a reader is free, a reply to it can be taken, sent and received, and the call returns just that |
| Matching.CallTimesOut | go-backend/pkg/ws.go:370-374 | a waiting call can always return a timeout, and is pending no more |
| Matching.Manager.SendMsg | go-backend/pkg/ws.go:346-364 | a call becomes pending if and only if its node is online, and every promise still holds |
| Matching.Manager.ReceiveReply | go-backend/pkg/ws.go:366-369 | a call that receives returns a reply to its own request and is not pending |
| Matching.Manager.SendReply | go-backend/pkg/ws.go:311-311 | the reader's send is possible whenever it is due, and every promise still holds |
| Matching.Manager.ForgetRequest | go-backend/pkg/ws.go:370-374 | a timed-out call returns a timeout, leaves nothing pending, and every promise still holds |
| RateLimit.SweepsChangeNothing | go-backend/middleware/rate_limit.go:92-102 | with a clock that does not go back, cleanups anywhere change no decision |
| RateLimit.WindowAdmitsLimit | go-backend/middleware/rate_limit.go:78-90 | a window admits as many as its count says, at most the limit |
| RateLimit.IntervalAdmitsUnderTwiceTheLimit | go-backend/middleware/rate_limit.go:78-102 | any closed interval of one window's length admits less than twice the limit |
| RateLimit.BoundIsReached | go-backend/middleware/rate_limit.go:78-90 | for every limit some run admits one less than twice the limit in such an interval |
| RateLimit.Limiter.AllowRequest | go-backend/middleware/rate_limit.go:78-90 | after any earlier requests and cleanups, what has been let through stays under twice the limit in every interval of one window's length |
| RateLimit.Limiter.Sweep | go-backend/middleware/rate_limit.go:92-102 | deletes exactly the windows that are over, in any order, and forgets nothing that bound needs |
| Scheduler.DueIffEarlierCycle | go-backend/service/xray_scheduler.go:55-65 | the boundary test holds if and only if the last write fell into an earlier cycle |
| Scheduler.DueBeforeCreation | go-backend/service/xray_scheduler.go:55-65 | a client last written before its creation is due as soon as it exists |
| Scheduler.CycleIsDays | go-backend/service/xray_scheduler.go:49-63 | a cycle is the client's number of days of 24 hours, counted from its creation |
| Scheduler.ResetsOncePerCycle | go-backend/service/xray_scheduler.go:49-69 | a tick resets a client if and only if it is the first one in a cycle after that of the client's last write; never in cycle 0 |
| Scheduler.RunClears | go-backend/service/xray_scheduler.go:65-81 | counters are cleared and a limited client let back in if and only if some tick reset it |
| Scheduler.Clients.CheckClientTrafficReset | go-backend/service/xray_scheduler.go:42-90 | the loop does this to every client and counts the resets |
| Weighted.SelectsInterval | go-node/x/selector/weighted.go:31-47 | a draw selects an item if and only if it lies in the item's interval of the summed weights |
| Weighted.DrawsAreProportional | go-node/x/selector/weighted.go:31-47 | each item is selected by exactly as many of the draws 1..sum as its weight, if and only if no weight is negative |
| Weighted.LabelsAreProportional | go-node/x/selector/strategy.go:50-71 | a value is drawn as often as its positive label says, once without one |
| Weighted.RandomWeighted.Add | go-node/x/selector/weighted.go:25-29 | sum stays the total of the weights |
| Weighted.RandomWeighted.Reset | go-node/x/selector/weighted.go:49-52 | sum stays the total of the weights |
| Weighted.RandomWeighted.Next | go-node/x/selector/weighted.go:31-47 | a draw within the sum selects inside the loop; what follows it is dead code |
| Weighted.Apply | go-node/x/selector/strategy.go:50-71 | values without a positive weight count one, and a draw picks the value in whose interval it lies |
| Suffixes.MostSpecificIsUnique | go-node/x/hosts/hosts.go:109-125 | table and host decide the key, so both copies of the search compute the same |
| Suffixes.MostSpecificIsLongest | go-node/x/hosts/hosts.go:109-125 | a host is found under a key at least as long as any suffix in the table that is tried |
| Suffixes.HostMapper.Find | go-node/x/hosts/hosts.go:109-125 | the loop ends and finds the exact host, else "." before it, else its longest suffix in the table, stopping at an empty label |
| Suffixes.HostMapper.Lookup | go-node/x/hosts/hosts.go:107-156 | the addresses of that key for the network, and a second result that is always false |
| Suffixes.OfNetworkMeans | go-node/x/hosts/hosts.go:131-156 | a lookup keeps the addresses of version 4 for "ip4", of version 6 for "ip6" and all for another network, in order |
| Suffixes.HostMapper.Reload | go-node/x/hosts/hosts.go:191-226 | the table lists each hostname's addresses |
| Suffixes.AddressesAreThose | go-node/x/hosts/hosts.go:194-209 | those are the addresses mapped to the hostname, each once |
| Suffixes.Ingress.GetRule | go-node/x/ingress/ingress.go:218-252 | the rule of the most specific key; none for an empty host |
| Suffixes.Ingress.Reload | go-node/x/ingress/ingress.go:116-150 | the last usable rule of a key wins, with a leading "*" dropped |
| Suffixes.LastMeans | go-node/x/ingress/ingress.go:116-150 | the rule kept for a key has an endpoint and that hostname, with or without a leading star, and no later one has |
| Suffixes.WildcardCovers | go-node/x/ingress/ingress.go:119-128 | a rule "*.base" covers every subdomain of base without empty labels, unless a longer key does |
| Address.ExtractPortFromAddress | go-backend/service/forward.go:1280-1317 | the accumulating loop reads the number that the digits denote, or -1 |
| Address.RoundTrip | go-backend/service/forward.go:1250-1317 | printing then parsing gives the host back if and only if it is printable, and then the port too, for every port of 0 or more |
| Address.ParseBracketed | go-backend/service/forward.go:1258-1317 | of an address that begins with a host in brackets the host is that, and the port what follows a colon right after it, else what follows the last colon |
| Address.ParseOpen | go-backend/service/forward.go:1258-1317 | of any other address they are what stands before and after the last colon, without a port when one of them is empty |
| Address.MonitorAgrees | go-backend/task/monitor.go:155-198 | the monitor's parser agrees on every printed address with a port of -1 or more, and on no printable one below |

## Left out

- Database access, HTTP handlers, the websocket transport, encryption and JSON: rows are maps or sequences, messages are calls with a chosen outcome, configurations are datatypes with the fields the properties mention.
- Limiter, Xray and certificate phases of `ReconcileNode`, its per-node lock, its error texts and its change of a forward's status from error to active; they do not affect the services modelled.
- Chains: a chain is its name and the address it leads to; one that fails to parse is not modelled.
- Node commands: the listener of a service that was parsed before a create failed is not modelled as leaked; neither are the branches in which registering fails although the name was just unregistered.
- NodeServices.UpdateEffect: requires distinct names in one update, since closing the same name twice ends the node's process.
- ReconcileTheorems.ReconcileConverges: requires the nodes of the forwards connected, and registered services configured, as every run of the node's commands keeps them; of a paused forward it promises the pause on the reconciled node, for listeners whose list governs.
- ConfigCleanUp.OrphanLeaves: the reported names carry no blanks at their ends, as the names a node registers do not.
- Quota.RunLimited: limits are zero or more and stay fixed, user tunnels are unique per user and tunnel, and uploads name a user tunnel of the named user; updating a forward, an administrator's resume and the daily task that pauses the forwards of expired users are not among the steps.
- QuotaPauses.RunPauses: the same steps; besides them the panel pauses forwards in that daily task and when an administrator disables a user or a grant.
- Quota: the floating-point traffic ratio; the charged integers are parameters. Xray quotas repeat the same pattern with one counter.
- Ports.RunSound: concurrent handlers are not interleaved; the code takes no lock there. Row ids are new when they are made.
- Matching.RunKeepsPromises: request ids are unique, and that a reply eventually arrives is not claimed. Reader and session replacement are not modelled.
- Traffic: the Xray and per-user copies of the chart and month loops repeat the modelled ones. The current time is read once, and records from before the query's cut-off are simply not in the input.
- Xray: process control, version switching and failing file writes; the "already running after the binary check" jump cannot be taken without concurrency. Of an inbound only tag, protocol, shadowsocks method and clients are modelled.
- Routes.Chain.RoutePath: the recursion takes a depth bound; the theorems quantify over every sufficient depth, and show that none suffices for a cyclic route. Routes are node lists, not objects.
- Suffixes: parsing of table files and addresses, the stripping of a port and reload periods; the stripped host is a parameter.
- Scheduler.ResetsOncePerCycle: other writers of the update time are not among the steps.
- Address: machine overflow of a port with more than eighteen digits.
- The selectors' other strategies, the registry handlers of the node's HTTP interface, plugins, metrics, recorders and the web user interface.
