# Gateway platform: a verified model

The platform is an API gateway with a control plane. The control plane keeps an
append-only ledger of deployments in a database; every gateway process serves requests
from an in-memory registry it rebuilds from that ledger; an admin panel decides from the
versions the gateways report whether a change is live. Beside that path there are a bundle
compiler, path templates, a local agent that pairs browsers, credential grants and a few
limits. This project models those parts in Dafny and proves what they promise.

`dafny verify dfyconfig.toml` checks everything.

## What is modelled, and where

**The ledger.** `Ledger` gives each transaction as a function on the tables: its reads and
refusals in the code's order, then its writes. A transaction that throws leaves the tables
alone. `LedgerInvariants` proves what every run keeps: one active row per proxy and
environment, one per environment, scope and base path, the promotion chain, active lab rows
only in open workspaces, three workspace creations in any 24-hour interval, an audit trail
that replays to the active rows. `Transactions` says when each transaction succeeds, what it
leaves and what it never touches, without the steps that get it there. `ControlPlane` is the
same as an object whose tables are updated in place, with the version sequence and the
rollbacks; each method is proved equal to its function. `Locks` takes deploys and retires
apart into lock, read and write steps, and `Interleavings` puts them together again:
standard interleavings end where runs of whole transactions end, lab interleavings do
exactly as long as what they read still stands; `LabRace` reaches the schedule where it does
not from the seeded tables. `Promotion` adds the whole promotion chain and the panel's
prediction of it.

**From ledger to registry.** `Loader` is the view a gateway loads, `Coherence` proves that
the version log covers that view, `Effects` what each transaction does to it, `Registry` is
the registry and its lookups, `Serving` proves when a load succeeds and what it routes,
`TwoRegions` is a run after which none does, `Snapshots` is the loader and one whole reload
as loops.

**The distributed system.** `Reloader` is the coalescing, failure-tolerant reloader, split
at its awaits, both as a transition function and as a class. `Fleet` puts everything
together: commits, boots, crashes, notifications delivered late, twice or never, loads that
fail, statuses of any age. Its main theorem is `Fleet.PanelIsRight`: what the panel shows as
applied is applied. `Panel` is the converse, when it shows it.

**Bundles and routing.** `Bundle` is the compiler from parsed documents on, with the
loader's and the validator's checks, `BundleMeaning` what a document is accepted for and
describes, said without the compiler; `PolicySchemas` is the policy configuration schemas;
`Drafts`, `DraftMeaning` and `DraftSchemas` follow a draft of the admin panel through the
document it emits to what the compiler makes of it. `Templates`, `Endpoints` and
`Substitution` are path templates, endpoint resolution and target-path substitution, on
`StringReplace`, JavaScript's `replace`; `Playground` is the admin panel's URL builder and
the parser that undoes it. `Canonical` is the canonical JSON behind the content hash.

**The local agent.** `TrustedClients` is the client registry, `MutationChain` its writes on
the promise chain, `PairingCodes` the codes, `AgentAuth` the protocol split at its awaits
with a history that carries the evidence of every decision, `AgentSafety` what every
interleaving keeps, `AgentProgress` who does get a pairing, a session or an authorization,
`Revocation` what a revocation achieves, `BrowserAgent` the object.

**Limits and grants.** `Quota` is the egress quota, `Grants` product grants and clones.

`Schema`, `Seqs` and `Whitespace` hold shared types, rearrangements of sequences and
trimming.

## What the code does that one might not expect

Where documentation or intuition and the code differ, the model follows the code.

- A workspace's registry key spans environments while uniqueness is kept per environment:
  two deploys of one base path to two regions of a workspace both succeed, and from then on
  no gateway that serves both can reload (`Serving.SecondRegionBreaksEveryLoad`); such a ledger
  is four transactions away from the seed (`TwoRegions.TwoRegionsBreakEveryLoad`). The exact
  condition for a load to succeed is `Serving.RegistryBuildsIff`.
- A version that becomes visible after a larger one is never loaded by gateways that have
  passed it (`Fleet.CommitKeepsCoverageIff`, `Fleet.OnlyNewerVersionsReload`). The same lemma
  shows that an error left by a failed reconcile is reported until something newer is committed.
- A reload request that arrives between the drain's return and its `finally` is remembered but
  starts nothing (`Reloader.RequestIsHonouredIff`); a failed load forgets every request that
  came in while it ran (`Reloader.FailureDropsRequests`).
- Renaming a proxy records no configuration change, so registries keep the old name
  (`Coherence.RenamesAreSilent`); nothing else a load returns has that gap.
- The compiler lets an empty target path through and the loader refuses it
  (`Bundle.EmptyTargetCompilesButNeverLoads`); a draft of the admin panel never contains one
  (`DraftMeaning.ValidDraftsLoad`).
- The panel's routing step does not look at OAuth scopes, and the schema refuses a blank one:
  a draft it accepts compiles exactly when no policy list in use asks for a blank scope and
  its operations pass the inspection of the OpenAPI document, which asks for at least one
  (`DraftSchemas.CompilesIffNoBlankScopes`, with the draft in
  `DraftSchemas.BlankScopeIsAcceptedThenRefused`).
- In two points the panel's routing step is stricter than the compiler: a target must be typed
  with its leading slash, and an API-key policy must name a header (`DraftSchemas.PanelAcceptsIff`).
- The compiler looks an operation's overrides up in a plain object. An operation that the
  gateway document does not list and that is called like an inherited function, such as
  `constructor`, refuses the bundle (`Bundle.UnlistedCompilesIff`).
- Captured parameters are assigned to a plain object, which drops a parameter called
  `__proto__` (`Endpoints.ProtoIsLost`): the captures give the request suffix back, and a
  default target forwards it, exactly when there is no such parameter or it captured its own
  placeholder (`Endpoints.CapturesRebuildSuffix`, `Substitution.DefaultTargetForwardsSuffix`).
- A business operation without any policy list has no authentication
  (`Bundle.BusinessAuthenticatesIff`).
- `String.replace` expands `$` pairs in a captured value. A value is inserted as it is exactly
  when none of its `$` is followed by one of `$`, `&`, a backquote or a quote
  (`StringReplace.ExpandIsIdentityIff`, `Substitution.DollarsSurviveIff`); `$$` comes out as `$`
  (`StringReplace.DollarsAreExpanded`). Two values with a `$` can make up for each other
  (`Substitution.DollarsCancel`).
- Substitution is textual. A literal brace around a placeholder makes a new one of its value
  (`Substitution.StrayBraceChains`), and `:id` is found in `:idx`; the substitution theorems
  ask for templates and values in which every brace and colon spells a placeholder, and for
  colon placeholders and keys of which none begins another.
- A playground path whose template begins with two slashes is resolved as a host, and a value
  `.` or `..` is taken out of the path; those and a value that is its own placeholder are
  exactly the cases in which what was built is not read back (`Playground.RoundTripIff`).
- Resetting an overdue workspace writes its expiry and then throws, which undoes it
  (`ControlPlane.ControlPlane.ResetPersonalLabWorkspace`).
- A lab deploy whose workspace closes between its read and its write would leave an active row
  in a closed workspace; the advisory locks do not prevent it, serializable isolation does
  (`Interleavings.LabRaceIff`; `Interleavings.RevocationRaces` is the schedule, and
  `LabRace.RaceFromSeed` reaches it).
- The panel's promotion check does not look at the scope of a row
  (`Promotion.PanelSeesScopesAlike`).
- Revoking a client id touches its first registration only (`TrustedClients.RevokeClosesTheIdIff`);
  a client registered for one origin stays shut out until it is registered again
  (`Revocation.RevokedIsShutOut`).
- A right pairing code with a bad proof counts as an attempt but never drops the pairing; the
  bound of five is on wrong codes (`AgentSafety.EverythingIsUsedOnce`).

## Model

| member | source | states |
|---|---|---|
| LedgerInvariants.StepKeepsInv | packages/database/src/proxy-deployments.ts:73-332 | every permitted transaction, committed or refused, keeps slot and base-path uniqueness, the promotion chain, open workspaces behind active lab rows, one open workspace per owner, the creation limit, well-compiled revisions and the audit replay |
| LedgerInvariants.RunKeepsInv | packages/database/src/proxy-deployments.ts:73-332 | the same in every state any run from the seeded database reaches |
| LedgerInvariants.RunEvolves | packages/database/src/proxy-deployments.ts:190-217 | between any two moments of a run nothing is deleted, a retired row never becomes active again, a closed workspace never reopens, revisions and logs only grow |
| LedgerInvariants.CreatingStaysLimited | packages/database/src/lab-workspaces.ts:79-92 | counting back 24 hours at each creation bounds every 24-hour interval, wherever it starts, to three creations per owner |
| LedgerInvariants.DeactivateKeepsInv | packages/database/src/lab-workspaces.ts:281-307 | closing a workspace with the retiring of its rows and the disabling of its proxies keeps every invariant |
| LedgerInvariants.DeployIsAudited | packages/database/src/proxy-deployments.ts:220-239 | after a deploy the audit trail still replays to exactly the active rows |
| Transactions.SystemProxiesAreSpared | packages/database/src/proxy-deployments.ts:88-93 | over every run without the flag, workspace operations apart, a system-managed proxy keeps its name, activity, revisions and deployment rows |
| Transactions.FlagLiftsTheGuard | packages/database/src/proxy-deployments.ts:88-93 | with the flag a deploy of a system-managed proxy is planned as if it were not one |
| Transactions.DeploySucceedsIff | packages/database/src/proxy-deployments.ts:73-252 | a deploy succeeds exactly when the rows it would leave obey the ledger's rules, its upstream is a URL where one is needed, its workspace is not overdue, and a system-managed proxy comes with the flag; then it leaves those rows |
| Transactions.RefusalIsExplained | packages/database/src/proxy-deployments.ts:86-217 | each refusal says what is wrong with the request |
| Transactions.DeployIsRecorded | packages/database/src/proxy-deployments.ts:220-249 | one change, and an audit entry that says creation, replacement or, where the active revision is newer, rollback |
| Transactions.UpstreamIsNeededIff | packages/database/src/proxy-deployments.ts:137-142 | an upstream is required exactly for revisions with an operation that forwards |
| Transactions.RetireSucceedsIff | packages/database/src/proxy-deployments.ts:254-332 | retiring succeeds exactly for an active row, a system-managed proxy's with the flag only, and takes exactly this row out of the active ones |
| Transactions.RetireAfterDeploy | packages/database/src/proxy-deployments.ts:254-332 | retiring what was just deployed leaves active what was active before, but for the row that was replaced |
| Transactions.UpdateSucceedsIff | packages/database/src/proxy-revisions.ts:294-362 | name and activity become what was asked for, nothing else changes, a change being recorded exactly when the activity is another; system-managed proxies are refused |
| Transactions.ChangeIsRecordedIff | packages/database/src/gateway-config-changes.ts:11-24 | of all transactions exactly those record a change that make other rows the active ones or switch a proxy on or off on request |
| Transactions.SwitchingBackRestores | packages/database/src/proxy-revisions.ts:294-362 | switching a proxy off and on gives the proxy back and records two changes |
| Transactions.CreateOrganizationSucceedsIff | packages/management-api/src/services/organizations.ts:71-92 | an organization is made exactly under a free id, and no other changes |
| Transactions.CreateProxySucceedsIff | packages/database/src/proxy-revisions.ts:225-247 | a proxy is made exactly under a free id, with a name of 1 to 120 characters, in an organization that exists; it is active, has no revisions, and no other proxy changes |
| Transactions.ImportSucceedsIff | packages/database/src/proxy-revisions.ts:364-414 | the revision comes behind all others of its proxy with the bundle's base path and operations; no other revision changes |
| Transactions.OwnerActsOnTheOpenOne | packages/database/src/lab-workspaces.ts:132-236 | looking up, revoking and resetting concern the owner's one open workspace: revoking closes it, resetting empties it unless it is overdue, looking up expires exactly an overdue one |
| Transactions.OwnerNeedsOne | packages/database/src/lab-workspaces.ts:132-236 | without an open workspace all three are refused and change nothing |
| Transactions.ExpiringClosesIff | packages/database/src/lab-workspaces.ts:254-279 | expiring closes an open workspace, with its rows and proxies, and leaves any other as it was |
| Transactions.CreateSucceedsIff | packages/database/src/lab-workspaces.ts:53-130 | an open workspace that is not overdue is given back; otherwise a new one, after the overdue one is closed, exactly as long as the limit allows, and a refusal changes nothing |
| Transactions.NoFourInADay | packages/database/src/lab-workspaces.ts:79-92 | in every reachable ledger no owner has created four workspaces within 86,400,000 milliseconds |
| Promotion.ProdWentThroughEveryStage | packages/database/src/proxy-deployments.ts:144-163 | in every reachable ledger a standard row at prod has an earlier row of its revision and region at pprod, and that one at qual |
| Promotion.PanelSeesScopesAlike | packages/admin-panel/lib/proxy-control.ts:37-50 | the panel shows a target as eligible exactly when a standard or a lab row of the revision sits at the stage below |
| Promotion.PanelPredictsTheServer | packages/admin-panel/lib/proxy-control.ts:37-50 | on standard rows the panel's answer is exactly whether the server refuses for lack of promotion |
| ControlPlane.ControlPlane.CheckDeployment | packages/database/src/proxy-deployments.ts:86-188 | the reads before the first write decide the deploy as the transaction function does, refusal by refusal |
| ControlPlane.ControlPlane.DeployProxyRevision | packages/database/src/proxy-deployments.ts:73-252 | retire, create, audit and record in place, with the index refusal rolled back, come to the transaction function's outcome |
| ControlPlane.ControlPlane.RetireProxyDeployment | packages/database/src/proxy-deployments.ts:254-332 | same for retiring |
| ControlPlane.ControlPlane.ImportProxyRevision | packages/database/src/proxy-revisions.ts:364-414 | the new revision takes the next number of its proxy |
| ControlPlane.ControlPlane.UpdateApiProxy | packages/database/src/proxy-revisions.ts:294-362 | a change is recorded exactly when activity changes |
| ControlPlane.ControlPlane.RecordGatewayConfigChange | packages/database/src/gateway-config-changes.ts:11-24 | the change takes the sequence's next version |
| ControlPlane.ControlPlane.GetLatestGatewayConfigVersion | packages/database/src/gateway-config-changes.ts:26-32 | the largest recorded version, 0 for an empty log |
| ControlPlane.ControlPlane.DisableWorkspaceResources | packages/database/src/lab-workspaces.ts:309-380 | the workspace's rows are retired, its organization's proxies deactivated, one change recorded per retired row |
| ControlPlane.ControlPlane.CreatePersonalLabWorkspace | packages/database/src/lab-workspaces.ts:53-130 | an overdue workspace is expired first; hitting the limit undoes that too |
| ControlPlane.ControlPlane.GetPersonalLabWorkspace | packages/database/src/lab-workspaces.ts:132-155 | a lookup that expires what it finds overdue, and that stays |
| ControlPlane.ControlPlane.RevokePersonalLabWorkspace | packages/database/src/lab-workspaces.ts:157-190 | revoking equals the transaction function |
| ControlPlane.ControlPlane.ResetPersonalLabWorkspace | packages/database/src/lab-workspaces.ts:192-236 | the expiry of an overdue workspace is undone by the throw that follows it |
| ControlPlane.ControlPlane.ExpireDueLabWorkspaces | packages/database/src/lab-workspaces.ts:238-252 | the sweep closes exactly the overdue workspaces, retires exactly their rows, and leaves none overdue |
| ControlPlane.NextOfSweep | packages/database/src/lab-workspaces.ts:248-250 | each turn of the sweep adds one workspace to what has been closed and disturbs no other |
| Locks.InterleavingsAreSafe | packages/database/src/proxy-deployments.ts:73-332 | over every interleaving of lock, read and write steps and other transactions both uniqueness rules hold and no retired row becomes active |
| Locks.SomeoneAdvances | packages/database/src/proxy-deployments.ts:77-82 | whatever waits for whom, some transaction can take its next step: no deadlock |
| Locks.DeployWriteIsAtomic | packages/database/src/proxy-deployments.ts:165-252 | a deploy that read earlier writes exactly what the whole transaction would do at the moment of writing: always in the standard scope, in a lab while its workspace is valid and the row it replaces active |
| Locks.LabWriteIsAtomicIff | packages/database/src/proxy-deployments.ts:117-136 | for a lab deploy that the unique index admits the plan it made is the one it would make now exactly when its workspace is still valid and the row it replaces still active |
| Interleavings.DeployUndisturbed | packages/database/src/proxy-deployments.ts:73-252 | among any other transactions, a deploy that finds its locks free and is left alone takes its steps to where the whole transaction ends, refusals included |
| Interleavings.RetireUndisturbed | packages/database/src/proxy-deployments.ts:254-332 | so does a retire |
| Interleavings.StandardInterleavingsAreRuns | packages/database/src/proxy-deployments.ts:73-332 | from the seeded tables, standard deploys and retires, however they interleave with each other and with all other transactions, end where the whole transactions end in the order of their writes, with every invariant of such runs |
| Interleavings.InterleavingIsARun | packages/database/src/proxy-deployments.ts:73-332 | with lab deployments too, as long as every write finds standing what its locks do not protect |
| Interleavings.LabRaceIff | packages/database/src/proxy-deployments.ts:117-136 | throughout an interleaving active lab rows are in open workspaces exactly when every lab write finds its workspace open |
| Interleavings.RevocationRaces | packages/database/src/lab-workspaces.ts:157-190 | the locks let a revocation come between the read and the write of a lab deploy, and the write then leaves an active row in a closed workspace |
| LabRace.RaceFromSeed | packages/database/src/lab-workspaces.ts:157-190 | such a system is reached from the seeded tables: a workspace, a proxy and a revision are made, a deploy takes its locks and reads |
| Coherence.SilentStepsKeepRouting | packages/gateway-core/src/db/proxy-loader.ts:22-57 | a transaction that records no change leaves the loader's view the same, names aside, at every clock reading and allowlist |
| Coherence.RenamesAreSilent | packages/database/src/proxy-revisions.ts:323-359 | renaming a served proxy records nothing and changes the view exactly when the name is new |
| Coherence.WaitingOnlyDropsExpired | packages/gateway-core/src/db/proxy-loader.ts:31-38 | as the clock moves, a view keeps exactly the entries of workspaces that have not expired meanwhile, and gains none |
| Effects.AllowlistRestricts | packages/gateway-core/src/db/proxy-loader.ts:39-41 | with a non-empty allowlist a view is exactly the entries of the full view whose environment is listed, lent OAuth entries included |
| Effects.LoadedIsLive | packages/gateway-core/src/db/proxy-loader.ts:31-38 | whatever the tables hold, an entry of a workspace is of one that is open and not overdue, its proxy is active, and its organization is of the row's scope |
| Effects.DeployShowsUp | packages/gateway-core/src/db/proxy-loader.ts:22-100 | after a deploy the loaded entries are the others of before and, if the proxy is on, its organization of the right kind and the environment admitted, the new one, given field by field |
| Effects.RetireShowsUp | packages/gateway-core/src/db/proxy-loader.ts:22-57 | retiring a row takes exactly its entry out of what is loaded |
| Effects.SwitchingOffShowsUp | packages/gateway-core/src/db/proxy-loader.ts:22-57 | switching a proxy off takes exactly its entries out |
| Effects.SwitchingBackShowsUp | packages/gateway-core/src/db/proxy-loader.ts:22-57 | switching it on again brings all of them back, lent copies included |
| Effects.EmptyingShowsUp | packages/gateway-core/src/db/proxy-loader.ts:22-57 | revoking, expiring or resetting a workspace takes exactly the entries of its rows out |
| Effects.OAuthIsLentIff | packages/gateway-core/src/db/proxy-loader.ts:143-178 | a workspace is lent the OAuth entry of an environment exactly when it has something served there and the OAuth proxy is served there |
| Effects.LentEntryIs | packages/gateway-core/src/db/proxy-loader.ts:158-176 | the lent entry is the platform's, with the workspace as its scope and host |
| Effects.DeployedIsReached | packages/gateway-core/src/proxy/resolver.ts:188-212 | once loaded, requests for a deployment's base path at its host reach its revision |
| Registry.RoutingRegistry.LoadProxies | packages/gateway-core/src/proxy/resolver.ts:51-109 | loading succeeds exactly when no two active entries clash; then both maps hold exactly the entries, else nothing changes |
| Registry.RefusalMeansClash | packages/gateway-core/src/proxy/resolver.ts:84-103 | the two refusals of the loop together mean exactly that the entry clashes with an earlier one |
| Registry.RoutingRegistry.ApplySnapshot | packages/gateway-core/src/server.ts:138-141 | a snapshot is applied exactly when all of it is valid and free of clashes |
| Registry.ValidateProxyConfiguration | packages/gateway-core/src/proxy/config-validator.ts:3-27 | the nested loops accept exactly when every endpoint of every entry passes |
| Registry.RoutingRegistry.ResolveProxy | packages/gateway-core/src/proxy/resolver.ts:188-212 | whatever order the map yields, the result is the entry of the longest non-empty base path that covers the request path, or none if none does |
| Registry.CoversIff | packages/gateway-core/src/proxy/resolver.ts:188-212 | a base path covers a request path exactly when its segments, split at every slash, are the path's first ones |
| Serving.RegistryBuildsIff | packages/gateway-core/src/proxy/resolver.ts:22-109 | in a reachable ledger with distinct hosts a load builds a registry exactly when the rows and lent OAuth entries of each workspace have different base paths |
| Serving.TidyLabsAlwaysBuild | packages/gateway-core/src/proxy/resolver.ts:22-109 | it always does when each workspace keeps to one environment and off the OAuth base path |
| Serving.ReachableStandardLedgersBuild | packages/gateway-core/src/proxy/resolver.ts:51-109 | every run without lab deployments leaves a ledger that always builds |
| Serving.SecondRegionBreaksEveryLoad | packages/gateway-core/src/proxy/resolver.ts:97-102 | after an accepted deploy of a base path to a second environment of its workspace no load that sees both rows succeeds |
| TwoRegions.SecondRegionBreaksReachable | packages/gateway-core/src/proxy/resolver.ts:97-102 | the same for every ledger a run from the seeded tables reaches |
| TwoRegions.TwoRegionsBreakEveryLoad | packages/gateway-core/src/proxy/resolver.ts:97-102 | four permitted transactions lead to such a ledger: a workspace, a proxy, a revision with one operation that the compiler produces, a deployment |
| Serving.LookupIsDeclared | packages/gateway-core/src/proxy/resolver.ts:188-212 | what a lookup in a loaded registry returns is the declared route: the longest covering base path among the loaded entries of the key |
| Serving.RouteIsUnique | packages/gateway-core/src/proxy/resolver.ts:188-212 | there is one declared route at most, so row order cannot matter |
| Serving.HostIsDeclared | packages/gateway-core/src/proxy/resolver.ts:80-96 | a host is known exactly when a loaded entry has it, and leads to that entry's key |
| Serving.DeployedRevisionLoadsIff | packages/gateway-core/src/db/proxy-loader.ts:84-140 | a deployed revision is loaded exactly as compiled, and passes the validator, unless an operation forwards with an empty target or a terminal policy; for business proxies only the empty target remains |
| Snapshots.LoadProxiesFromDatabase | packages/gateway-core/src/db/proxy-loader.ts:19-178 | the loops return each entry of the view once, OAuth copies included, or throw exactly when a served revision is unloadable |
| Snapshots.OneMoreIsLent | packages/gateway-core/src/db/proxy-loader.ts:158-176 | lending the OAuth entry to one more context adds exactly that context's copy |
| Snapshots.Reload | packages/gateway-core/src/server.ts:133-142 | one reload takes effect exactly when the state it read is reloadable and otherwise leaves the registry alone |
| Reloader.SchedulesAreSafe | packages/gateway-core/src/runtime-sync/reloader.ts:90-137 | over every schedule the applied version never exceeds the requested one, never decreases, and every version taken was asked for |
| Reloader.DrainsEnd | packages/gateway-core/src/runtime-sync/reloader.ts:101-137 | a drain left alone ends within seven steps, after two loads at most |
| Reloader.PendingUntilApplied | packages/gateway-core/src/runtime-sync/reloader.ts:101-137 | a version asked for stays pending until applied, whatever else is asked, unless a load fails |
| Reloader.RequestIsHonouredIff | packages/gateway-core/src/runtime-sync/reloader.ts:90-99 | without failures a request is honoured when the drain returns, exactly unless it came between the drain's return and its finally |
| Reloader.FailureDropsRequests | packages/gateway-core/src/runtime-sync/reloader.ts:123-127 | a failed load drops every request made while it ran |
| Reloader.OldNewsChangesNothing | packages/gateway-core/src/runtime-sync/reloader.ts:73-91 | an idle reloader moves on newer versions only, and keeps an error state otherwise |
| Reloader.GatewayConfigReloader.RequestReload | packages/gateway-core/src/runtime-sync/reloader.ts:90-99 | the object's step is the transition, single flight included, and reports its own status |
| Reloader.GatewayConfigReloader.ResumeLoaded | packages/gateway-core/src/runtime-sync/reloader.ts:108-130 | success applies the target, failure keeps the applied version and drops what was requested |
| Reloader.GatewayConfigReloader.Reconcile | packages/gateway-core/src/runtime-sync/reloader.ts:73-88 | from quiescence one reconcile whose load succeeds reaches the latest version and comes to rest, applied exactly if there was something newer to load or it was so before |
| Fleet.StepKeepsFleet | packages/gateway-core/src/runtime-sync/reloader.ts:101-137 | each step of each participant, commits in order, keeps: every registry holds all committed changes up to its applied version, and no status claims more than its sender has or will have |
| Fleet.PanelIsRight | packages/admin-panel/lib/proxy-control.ts:52-60 | in every run, when the panel says that a version is applied, every gateway listed holds all changes up to it, and routes as the database says if it is the latest, however stale the statuses |
| Panel.PanelSaysSoIff | packages/admin-panel/lib/proxy-control.ts:52-60 | over every run: once gateways that await a version have come to rest, the panel that lists them says that this version and every smaller one is applied exactly when there are any and none of them has had a reconcile fail since its last load |
| Panel.NewsGoesLive | packages/gateway-core/src/runtime-sync/reloader.ts:90-137 | a gateway at rest that is told of a newer version, and finds a database that can be loaded, goes through one drain, has what the database held, and offers a status on which the panel says "applied" |
| Panel.GatewaysServeLoadableStates | packages/gateway-core/src/server.ts:133-142 | whatever loads fail, and in whatever order versions become visible: over every run what a gateway serves is the view of one committed state that can be loaded |
| Panel.CrashedIsDown | packages/gateway-core/src/server.ts:108-124 | a gateway may crash at any time, and is then down |
| Panel.BootGoesLive | packages/gateway-core/src/server.ts:108-124 | whatever is committed and whatever other gateways do while a gateway boots, it comes up with the latest version from when it began and with what a loadable database holds at its end |
| Panel.BootedIsAppliedIff | packages/gateway-core/src/server.ts:108-124 | a boot ends up with the version it read applied and the current view loaded exactly when that view can be loaded, and otherwise down |
| Fleet.BootingKeepsGateway | packages/gateway-core/src/server.ts:108-124 | reading the initial version before the first load makes the first registry cover it |
| Fleet.AwaitingGatewaysConverge | packages/gateway-core/src/runtime-sync/reloader.ts:73-137 | a gateway that stays up and whose loads succeed has applied every version it awaits whenever it is not reloading, commits and other gateways notwithstanding |
| Fleet.ToldAwaitsIff | packages/gateway-core/src/runtime-sync/reloader.ts:90-99 | being told of a version makes a gateway await it, exactly unless the news arrives between a drain's return and its finally |
| Fleet.CommitKeepsCoverageIff | packages/database/src/gateway-config-changes.ts:26-32 | a commit keeps a registry complete up to a version exactly when it adds nothing or only newer versions |
| Fleet.OnlyNewerVersionsReload | packages/gateway-core/src/runtime-sync/reloader.ts:73-99 | a gateway at rest keeps its registry, and an error state, through every run that commits nothing newer |
| Fleet.TransactionAppends | packages/database/src/gateway-config-changes.ts:11-24 | every transaction appends consecutive versions at the end of the log |
| Bundle.CompileProxyBundle | packages/database/src/proxy-bundle.ts:318-395 | the inspection and the compiler's loops give the first refusal or the operations in order |
| Bundle.InspectOperations | packages/database/src/proxy-bundle.ts:266-297 | the loop with its set of ids comes to the inspection function |
| Bundle.InspectIff | packages/database/src/proxy-bundle.ts:275-297 | operations with trimmed ids pass, unchanged, exactly when there are some and no id is blank or used twice |
| Bundle.CompiledBundleIsWellFormed | packages/database/src/proxy-bundle.ts:155-212 | an accepted bundle has operations, with different ids, and each has numbered, allowed and parsed policies, at most one authentication, a terminal policy if local, and a target whose parameters its path declares |
| Bundle.CompiledOperationLoadsIff | packages/gateway-core/src/db/proxy-loader.ts:92-129 | a compiled operation is loaded unchanged and passes the validator exactly when it is local or has a non-empty target and no terminal policy |
| Bundle.EmptyTargetCompilesButNeverLoads | packages/database/src/proxy-bundle.ts:366-369 | an empty target path is compiled for any operation and refused at load |
| Bundle.UnlistedCompilesIff | packages/database/src/proxy-bundle.ts:346-352 | an operation the gateway document does not list takes the defaults, exactly unless its id is the name of a function that every object inherits |
| Bundle.BusinessAuthenticatesIff | packages/database/src/proxy-bundle.ts:196-203 | a business operation has exactly one authentication policy exactly when some policy list applies to it |
| BundleMeaning.CompileSucceedsIff | packages/database/src/proxy-bundle.ts:318-395 | a gateway document compiles exactly when it is an accepted bundle, said without the compiler's loops, and the result is what the document describes |
| BundleMeaning.OperationCompilesIff | packages/database/src/proxy-bundle.ts:341-387 | the same for one operation: mode, target, overrides or defaults, policies |
| BundleMeaning.ListCompilesIff | packages/database/src/proxy-bundle.ts:155-212 | a policy list compiles exactly when each entry has an allowed type and an admitted configuration, at most one enabled entry authenticates, and a local operation has a terminal one; orders count from zero |
| BundleMeaning.BasePathIsAcceptedIff | packages/database/src/proxy-bundle.ts:141-153 | a base path begins with a slash and has no query, fragment or parameter, and loses exactly its trailing slashes, one slash alone excepted |
| BundleMeaning.IdsAreTrimmedFirst | packages/database/src/proxy-bundle.ts:283 | white space around operation ids makes no difference to what is compiled |
| BundleMeaning.ValidatorAcceptsIff | packages/gateway-core/src/proxy/config-validator.ts:3-27 | the validator takes an operation with at most one authentication in force that is local with a terminal policy, or forwards with a target, an upstream and none |
| BundleMeaning.LoaderAgreesWithValidator | packages/gateway-core/src/db/proxy-loader.ts:92-129 | of the operations whose configurations parse the loader lets through exactly those the validator takes |
| DraftMeaning.ValidDraftsCompileIff | packages/admin-panel/lib/proxy-creation.ts:348-370 | of the drafts the routing step accepts the compiler accepts exactly those that have operations, with different ids, and whose policy lists in use the schemas admit, and makes of them what they mean: each operation with its target, its own policies or the defaults, in order and enabled as ticked |
| DraftMeaning.DraftCompilesIff | packages/admin-panel/lib/proxy-creation.ts:244-304 | any draft, accepted by the panel or not, compiles exactly when it is compilable, and to the bundle it describes |
| DraftMeaning.ValidDraftsLoad | packages/gateway-core/src/db/proxy-loader.ts:84-140 | whatever of them compiles is loaded by the gateway exactly as compiled |
| DraftSchemas.CompilesIffNoBlankScopes | packages/admin-panel/lib/proxy-creation.ts:312-335 | with the platform's own schemas a draft the routing step accepts compiles exactly when it has operations, with different ids, and no policy list in use asks for a blank scope |
| DraftSchemas.NonBlankDraftsLoad | packages/shared/src/policies/config.ts:52-55 | and then all of it is loaded as compiled |
| DraftSchemas.PanelAcceptsIff | packages/admin-panel/lib/proxy-creation.ts:312-370 | of the drafts that compile the routing step accepts exactly those whose targets are typed with their leading slash and whose API-key policies name a header |
| DraftSchemas.PolicyParsesIff | packages/shared/src/policies/config.ts:18-58 | the schema of a policy's type takes what the form gives exactly when the form accepts it and no scope is blank, except that it needs no API-key header |
| PolicySchemas.SchemasAreIdempotent | packages/shared/src/policies/config.ts:107-112 | for every policy type a parsed configuration parses to itself, so what the compiler stores the loader reads back |
| PolicySchemas.SchemaAdmitsIff | packages/shared/src/policies/config.ts:18-112 | the configurations a schema admits, with its bounds, per policy type |
| PolicySchemas.DefaultsAre | packages/shared/src/policies/config.ts:18-58 | the values that stand for absent members |
| PolicySchemas.ParsedMembers | packages/shared/src/policies/config.ts:107-112 | parsing gives each member of the type what its schema makes of it, or its default, and passes every other member through |
| PolicySchemas.OnlyObjectsParse | packages/shared/src/policies/config.ts:107-112 | an absent or null configuration is an empty one, and nothing but an object is any |
| DraftMeaning.TrimmedTargetIsValid | packages/admin-panel/lib/proxy-creation.ts:289-304 | trimming a target after validating it changes neither its validity nor its parameters |
| Drafts.DraftComesBack | packages/admin-panel/lib/proxy-creation.ts:244-304 | reading back the emitted document recovers the draft up to trimming, fields of other types and unused policies |
| Drafts.PolicyIsReadIff | packages/admin-panel/lib/proxy-creation.ts:149-183 | of any policy list in a document the form reads exactly the entries of its own four types, on unless they say otherwise, open on failure when they say so |
| Drafts.OperationIsReadAs | packages/admin-panel/lib/proxy-creation.ts:255-270 | an operation takes the defaults exactly unless the document lists policies for it |
| Drafts.HeaderIsWrittenAs | packages/admin-panel/lib/proxy-creation.ts:275-277 | a header is written trimmed, and a blank one as the default |
| Templates.CompileEndpointPath | packages/gateway-core/src/proxy/resolver.ts:118-135 | the loop over parameter matches reads the template left to right, names in order |
| Templates.ScanKeepsSpelling | packages/gateway-core/src/proxy/resolver.ts:118-135 | the reading of a template spells the template |
| Templates.EveryPlaceholderIsRead | packages/gateway-core/src/proxy/resolver.ts:118-135 | wherever a name stands in braces, or ends behind a colon, it is read as a parameter |
| Templates.MatchIsSound | packages/gateway-core/src/proxy/resolver.ts:118-135 | a match decomposes the suffix into literals and non-empty, slash-free captures |
| Templates.MatchIsComplete | packages/gateway-core/src/proxy/resolver.ts:118-135 | every suffix that decomposes matches, with the greediest captures |
| Endpoints.ResolveEndpoint | packages/gateway-core/src/proxy/resolver.ts:150-175 | the search loop gives the first endpoint that answers, else the sorted methods of all that match |
| Endpoints.ResolutionIsDeclarative | packages/gateway-core/src/proxy/resolver.ts:61-72 | resolution picks a matching endpoint of the method with no better rival in the static-first, longest-first order, with the greediest captures under every name but `__proto__`, and otherwise reports exactly the methods of matching templates |
| Endpoints.StaticThenLongestWins | packages/gateway-core/src/proxy/resolver.ts:61-72 | if the endpoint that answers has parameters, all that could answer have; of those of its kind none has a longer path, and those as long are declared later |
| Endpoints.CapturesRebuildSuffix | packages/gateway-core/src/proxy/resolver.ts:162-168 | substituting the captures into a template with distinct names gives the suffix back exactly when no parameter is called `__proto__` or that one captured its own placeholder |
| Endpoints.ProtoIsLost | packages/gateway-core/src/proxy/resolver.ts:161-168 | what a parameter called `__proto__` captured is lost |
| Substitution.BuildTargetPath | packages/gateway-core/src/proxy/forwarder.ts:31-34 | the replacement loop is the sequential substitution |
| StringReplace.ExpandIsIdentityIff | packages/gateway-core/src/proxy/forwarder.ts:31-34 | a value is inserted as it is exactly when it holds no `$` pair that JavaScript expands |
| StringReplace.PairsStandFor | packages/gateway-core/src/proxy/forwarder.ts:31-34 | what each pair stands for: a dollar, the match, what is before it, what is behind it |
| Substitution.SequentialIsSimultaneousIff | packages/gateway-core/src/proxy/forwarder.ts:31-34 | for brace and colon placeholders that are not confused, and values in use without an expanded pair, it is the simultaneous substitution, in every key order, exactly when no bound placeholder is repeated |
| Substitution.DollarsSurviveIff | packages/gateway-core/src/proxy/forwarder.ts:31-34 | the whole path, with one value that holds a `$`, comes out as simultaneous substitution gives it exactly when that value holds no pair that is expanded |
| Substitution.DefaultTargetForwardsSuffix | packages/gateway-core/src/proxy/forwarder.ts:21-34 | an operation whose target is its own path forwards the request suffix exactly when no parameter is called `__proto__` or that one captured its own placeholder |
| Substitution.NoPlaceholderLeftIff | packages/database/src/proxy-bundle.ts:214-231 | a target the compiler accepts keeps a placeholder in braces after substitution exactly when it names `__proto__`, the one parameter that is not passed on |
| Playground.RoundTripIff | packages/admin-panel/lib/playground.ts:361-421 | for every template of whole segments and all non-empty values, what is built is accepted and read back as given exactly when the template does not begin with two slashes and no value is a dot segment or its own placeholder |
| Playground.BuiltIsReadOneWay | packages/admin-panel/lib/playground.ts:327-359 | the target that is built is accepted under the origin, and matches its operation in exactly one way |
| Playground.BuiltIsForItsOrigin | packages/admin-panel/lib/playground.ts:327-359 | and under no other origin |
| Playground.MissingIsRefusedIff | packages/admin-panel/lib/playground.ts:402-410 | nothing is built exactly when some parameter has no value |
| Playground.OneSlashJoins | packages/admin-panel/lib/playground.ts:411-415 | base path and operation path are joined by one slash, whether the base ends with it, the operation begins with it, or both; the matcher's pattern alike |
| Playground.OnlyDecomposition | packages/admin-panel/lib/playground.ts:307-320 | the matcher's pattern decomposes a written template into the encoded values and in no other way |
| Playground.ScanSpelling | packages/admin-panel/lib/playground.ts:307-320 | the placeholders found in a template are its parameters, in order |
| Canonical.CanonicalIff | packages/database/src/proxy-bundle.ts:101-111 | two documents have the same canonical form exactly when they are equal up to key order at every depth |
| Canonical.StableIsSame | packages/database/src/proxy-bundle.ts:101-107 | the canonical form of a document is that document up to key order |
| Canonical.StableIsIdempotent | packages/database/src/proxy-bundle.ts:101-107 | canonicalizing twice changes nothing more |
| Canonical.StableIsInOrder | packages/database/src/proxy-bundle.ts:101-107 | at every depth its members stand in one order: array indices by value, then the other keys by their characters |
| AgentSafety.StepKeepsAgent | packages/gateway-cli/src/browser-auth.ts:75-231 | each step of each call, in any interleaving, keeps: every event of the history is justified by earlier ones and by the evidence it carries (code, signature, nonce, times), tables bounded, nothing decided twice |
| AgentSafety.AuthorizationIsEarned | packages/gateway-cli/src/browser-auth.ts:195-212 | every authorization presented the token of a session minted less than fifteen minutes before, from a signature verified over the nonce given to that client and origin, answered in time, under a key of a pairing whose code was typed in time; and a registry read for that call found the client neither revoked nor past its trust period |
| AgentSafety.EverythingIsUsedOnce | packages/gateway-cli/src/browser-auth.ts:121-148 | over every run a pairing completes once, a challenge is spent once, each yields one session, five pairings are pending at most, five wrong codes are tried on one at most |
| AgentSafety.WrongCodeKeepsAgent | packages/gateway-cli/src/browser-auth.ts:129-133 | a wrong code is counted, and the fifth attempt drops the pairing |
| AgentSafety.AcceptKeepsAgent | packages/gateway-cli/src/browser-auth.ts:134-147 | an accepted pairing leaves the table and is in the hands of one call |
| AgentProgress.PresentedSessionIsAuthorized | packages/gateway-cli/src/browser-auth.ts:195-212 | whatever other calls do meanwhile, whoever presents the token and origin of a session that is not over, and is found active when the registry is read, is authorized |
| AgentProgress.PairedClientIsAuthorized | packages/gateway-cli/src/browser-auth.ts:121-212 | from a stored registration on, over every interleaving without a stored revocation of the client: its call gets a session, and whoever presents it within its fifteen minutes and the trust period is authorized |
| AgentProgress.GoodAnswerMintsASession | packages/gateway-cli/src/browser-auth.ts:176-193 | a good answer to a live challenge by a client found active mints a session for that client and origin once its touch is stored, whatever other calls do meanwhile |
| AgentProgress.StoredTouchSettles | packages/gateway-cli/src/browser-auth.ts:191-192 | the call that answered a challenge goes on exactly when its touch is stored |
| AgentProgress.CodeIsAcceptedIff | packages/gateway-cli/src/browser-auth.ts:121-148 | a pairing is accepted exactly when it is pending and not over, its code is typed and its key signed its nonce; the registration then queued lasts the trust period |
| AgentProgress.RequestIsLookedUpIff | packages/gateway-cli/src/browser-auth.ts:81-86 | a request to pair goes on to the registry exactly when it is well formed |
| AgentProgress.FailuresLeavePending | packages/gateway-cli/src/browser-auth.ts:121-148 | up to four failed attempts, by wrong codes or bad proofs, leave a pairing pending with each of them counted, over every interleaving before its end |
| AgentProgress.OlderIsOfThePair | packages/gateway-cli/src/browser-auth.ts:89-94 | the older request that is replaced is one of the same client and origin |
| AgentProgress.PairingOpensIff | packages/gateway-cli/src/browser-auth.ts:75-119 | a pairing is opened exactly when the client is not trusted yet, its last request is ten seconds old and fewer than five others are pending; it lives two minutes |
| AgentProgress.RegistrationIssuesIff | packages/gateway-cli/src/browser-auth.ts:140-147 | the pairing call gets its session, for fifteen minutes, exactly when its registration was stored |
| AgentProgress.ChallengeOpensIff | packages/gateway-cli/src/browser-auth.ts:150-174 | a challenge is handed out exactly to a client found active, for thirty seconds |
| AgentProgress.TokenIsKnownIff | packages/gateway-cli/src/browser-auth.ts:195-202 | a call goes on to the registry exactly when some session that is not over has its token and origin |
| Revocation.RevokedIsShutOut | packages/gateway-cli/src/trusted-client-store.ts:101-113 | once a client registered for one origin is revoked, and that is stored, and as long as it is not registered again, the only calls still authorized for it are those that had read the registry before |
| Revocation.RevokeRevokesIff | packages/gateway-cli/src/trusted-client-store.ts:101-113 | a revocation revokes all registrations of the id exactly when those after the first were revoked already |
| MutationChain.NoUpdateIsLost | packages/gateway-cli/src/trusted-client-store.ts:115-123 | over every schedule of reads and writes the file is what the successful changes make of it one after the other, in the order they were asked for |
| MutationChain.MutateIsOneWrite | packages/gateway-cli/src/trusted-client-store.ts:115-123 | so the protocol's one-step mutation is what the chain writes, and where the write fails neither the registry nor the history changes |
| MutationChain.SettlesAsWrittenIff | packages/gateway-cli/src/trusted-client-store.ts:77-123 | a change whose turn it is is written exactly when the file system does its part and it is no registration of an active client and no revocation of an unknown id |
| MutationChain.TrustedClientStore.Mutate | packages/gateway-cli/src/trusted-client-store.ts:115-123 | a change waits for the promise that was last |
| MutationChain.TrustedClientStore.ReadManifest | packages/gateway-cli/src/trusted-client-store.ts:115-123 | what a change starts from is the file as it is when its turn has come |
| MutationChain.TrustedClientStore.ChangeAndWrite | packages/gateway-cli/src/trusted-client-store.ts:115-123 | the change is made to what was read, and a change that throws or a write that fails leaves the file alone |
| BrowserAgent.BrowserAgentAuth.Cleanup | packages/gateway-cli/src/browser-auth.ts:226-231 | exactly the expired entries go |
| BrowserAgent.BrowserAgentAuth.FindSession | packages/gateway-cli/src/browser-auth.ts:198-200 | a session of the token and origin if there is one |
| BrowserAgent.BrowserAgentAuth.CreatePairingResumes | packages/gateway-cli/src/browser-auth.ts:86-111 | the stretch after the lookup is the protocol step |
| BrowserAgent.BrowserAgentAuth.CompletePairingBegins | packages/gateway-cli/src/browser-auth.ts:126-145 | the stretch that decides a pairing is the protocol step |
| BrowserAgent.BrowserAgentAuth.CompleteSessionBegins | packages/gateway-cli/src/browser-auth.ts:180-188 | a challenge is spent before anything is awaited |
| BrowserAgent.BrowserAgentAuth.CompleteSessionResumes | packages/gateway-cli/src/browser-auth.ts:184-191 | the stretch that checks the answer is the protocol step |
| BrowserAgent.BrowserAgentAuth.AuthorizeBegins | packages/gateway-cli/src/browser-auth.ts:195-201 | the stretch before the registry is read is the protocol step |
| BrowserAgent.BrowserAgentAuth.IssueSession | packages/gateway-cli/src/browser-auth.ts:214-224 | the new session is the protocol's |
| BrowserAgent.BrowserAgentAuth.AuthorizeResumes | packages/gateway-cli/src/browser-auth.ts:202-212 | a client no longer active loses the session |
| BrowserAgent.BrowserAgentAuth.RunMutations | packages/gateway-cli/src/trusted-client-store.ts:115-123 | the head of the queue is one step of the protocol, and its caller's await settles, with the failure when the write fails |
| TrustedClients.RegisterKeepsUnique | packages/gateway-cli/src/trusted-client-store.ts:77-88 | registering keeps one entry per client and origin |
| TrustedClients.FindAfterRegister | packages/gateway-cli/src/trusted-client-store.ts:49-54 | a registration is what the next lookup of its pair finds; other lookups do not notice |
| TrustedClients.RegisterSucceedsIff | packages/gateway-cli/src/trusted-client-store.ts:77-88 | a client is registered exactly unless it is active already, and every lookup after it finds what it should |
| TrustedClients.TrustedIff | packages/gateway-cli/src/trusted-client-store.ts:49-54 | a client is trusted for an origin exactly as the first entry of the pair is neither revoked nor at its end |
| TrustedClients.TouchMovesIff | packages/gateway-cli/src/trusted-client-store.ts:91-99 | touching moves the last sight of the pair's entry exactly when it is an hour old and the entry is not revoked |
| TrustedClients.RevokeClosesTheIdIff | packages/gateway-cli/src/trusted-client-store.ts:101-113 | revoking an id leaves none of its registrations active exactly when all after the first were inactive |
| PairingCodes.PairingCode | packages/gateway-cli/src/browser-auth.ts:327-336 | the loop gives the eight base-32 digits of the random bytes |
| PairingCodes.CodesAreDistinct | packages/gateway-cli/src/browser-auth.ts:327-336 | different random bytes give different codes |
| PairingCodes.NormalizeFindsTheCode | packages/gateway-cli/src/browser-auth.ts:338-340 | normalizing accepts exactly the spellings of a code in any case with spaces and hyphens anywhere |
| Quota.LabEgress.ConsumeQuota | packages/lab-egress/src/server.ts:22-31 | the counter after any history, and acceptance within the limit |
| Quota.AtMostOneWindow | packages/lab-egress/src/server.ts:22-31 | a window grants at most 120 requests, and no more than it was asked |
| Quota.AtMostTwoWindows | packages/lab-egress/src/server.ts:22-31 | no half-open minute, wherever it starts, grants a workspace more than 240 |
| Quota.ModestWorkspacesAreServed | packages/lab-egress/src/server.ts:22-31 | a workspace within 120 requests in every half-open minute is never refused |
| Quota.WorkspacesAreIndependent | packages/lab-egress/src/server.ts:19-31 | a workspace's counter depends on its own requests only |
| Grants.ApplicationStore.ReplaceManagedCredentialGrants | packages/database/src/application-management.ts:586-719 | exactly the requested products are approved with the scopes asked for, the others revoked, other credentials untouched; a refusal, even midway, changes nothing |
| Grants.ReplaceSucceedsIff | packages/database/src/application-management.ts:586-660 | a replacement is accepted exactly for a credential and an application that are not revoked, and different products that are active, of its organization and declare the scopes |
| Grants.ReplacementIsWhatIsAuthorized | packages/gateway-core/src/auth/authorization.ts:91-111 | right after, the gateway authorizes exactly the requested products that serve the environment and proxy, scopes in full |
| Grants.ProductsAreTakenAway | packages/gateway-core/src/auth/authorization.ts:91-111 | a product that is switched off, or moved to another organization, is taken from what a credential may use, and nothing else |
| Grants.ScopesAreTakenAway | packages/gateway-core/src/auth/authorization.ts:91-111 | a scope that a product no longer declares is no longer lent |
| Grants.ValidFromIssueToExpiry | packages/gateway-core/src/auth/authorization.ts:81-89 | a credential is valid from its issue until its expiry, if it has one, while it and its application are approved |
| Grants.CloneSucceedsIff | packages/database/src/application-management.ts:379-523 | a credential is cloned exactly within its own application, neither revoked, while it lasts and has an approved grant; an expiry of one's own is for the playground, within an hour, and not beyond the source's |
| Grants.ClonesAuthorizeAlike | packages/database/src/application-management.ts:379-492 | a clone authorizes what its source's grants authorize, product for product and scope for scope |
| Grants.ClonesExpireInTime | packages/database/src/application-management.ts:494-523 | a clone never outlives the expiry its source had, nor one hour for the playground |

## Left out

- Fleet.PanelIsRight: assumes that versions become visible in increasing order; what happens otherwise is Fleet.CommitKeepsCoverageIff.
- Snapshots.LoadProxiesFromDatabase: reads one committed state; the ORM issues several queries for one load, and a load torn between two states is not modelled.
- Registry.RoutingRegistry.ResolveProxy: takes a registry key; the fallback that accepts a bare environment id is not modelled.
- Registry.RoutingRegistry.ResolveRuntimeTarget: takes the authority already normalised; URL parsing is not modelled.
- ControlPlane.ControlPlane.DisableWorkspaceResources: applications, credentials, grants, keys, certificates and upstreams of the workspace are not part of the tables.
- Bundle.CompileProxyBundle: starts from parsed documents: the gateway document, and of the OpenAPI document the operations, each with an id; leaves out the content hash and the warnings.
- BrowserAgent.BrowserAgentAuth.RunMutations: a mutation is one step here, written or failed; its read and write apart are MutationChain.NoUpdateIsLost.
- PolicySchemas.SchemasAreIdempotent: numbers are integers, and trimming knows ASCII spaces only.
- Substitution.SequentialIsSimultaneousIff: templates and values with a brace or colon that spells no placeholder, and keys that begin a colon placeholder, are excluded; Substitution.StrayBraceChains shows why.
- Substitution.DollarsSurviveIff: one value with a `$`, in a path without colon placeholders; with several values the condition on each is sufficient (Substitution.SequentialIsSimultaneousIff) and not necessary (Substitution.DollarsCancel).
- Substitution.NoPlaceholderLeftIff: the same paths and values as Substitution.SequentialIsSimultaneousIff, and values without braces.
- Substitution.BuildTargetPath: ends with the path; joining it with the upstream URL and copying the query are not modelled.
- PairingCodes.NormalizeFindsTheCode: covers ASCII input; Unicode spaces and case mapping are not modelled.
- Canonical.CanonicalIff: numbers are integers, and the printer and the hash after it are taken as injective.
- Drafts.DraftComesBack: starts from the document, not its YAML text; numbers are integers; client-side policy ids are not part of the draft; an undefined number is a missing member.
- DraftMeaning.ValidDraftsCompileIff: the panel's validators are predicates; the texts they push into error lists are not modelled.
- Locks.InterleavingsAreSafe: lock keys are distinct values, so collisions of their hashes are not modelled. A read sees what is committed at that moment; a serializable transaction reads the snapshot of its first statement and may be aborted and retried instead, which is not modelled; what is proved is what the locks give on their own.
- ControlPlane.ControlPlane.DeployProxyRevision: whether an upstream parses as an http or https URL is part of the input; the audit entries carry what the replay needs, not actors and metadata.
- ControlPlane.ControlPlane.UpdateApiProxy: takes the name already trimmed.
- Transactions.CreateProxySucceedsIff: takes the name already trimmed.
- Transactions.CreateOrganizationSucceedsIff: names and the check of the actor's role are not modelled.
- AgentSafety.AuthorizationIsEarned: whether a client's id, origin, label and key are well formed is part of the input; signatures are a predicate, digests are injective and random ids new; the clock may be any at every step; a second process writing the registry file is not modelled. The registration a session was proved under may be an earlier one of the same client and origin than the one found at the check.
- AgentProgress.PresentedSessionIsAuthorized: a registry file that cannot be read during a lookup is not modelled, nor is the end of the trust period in the answer to a new session.
- Credentials, certificates and their authorities in the workspace operations: they are not read by the routing path.
- Creating a proxy with its first revision in one transaction: it is the two modelled transactions in a row.
- YAML and OpenAPI parsing, validation and dereferencing: not modelled. The ledger and registry theorems hold for any policy parser; PolicySchemas is the platform's.
- The publisher of configuration changes and the notification channel: any committed version may be delivered to any gateway at any time, or never.
- Playground.RoundTripIff: covers templates whose parameters fill whole segments; percent-encoding is taken as invertible and slash-free, and of the URL parser only what RFC 3986 says about dot segments (section 5.2.4) and two leading slashes (section 4.2) is used; the query string, and the user name, password and fragment for which the validator refuses a target, are not modelled. A parameter that is given no value and is called like a member of every object is not modelled either: the code finds the inherited member.
- Serving.RegistryBuildsIff: that two environments differ in host or port is assumed; it follows from the unique index on origins and from the origin schema, which is not modelled.
- Proxy filters, playground authentication and request-body examples: not modelled.
- The HTTP servers, the policy pipeline, header handling and request forwarding: not modelled.
