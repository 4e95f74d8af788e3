# Operan control plane and identity module: a verified model

This project models, in Dafny, the parts of the Operan platform whose correctness rests on state kept in step:
the SQL splitter and migration runner of the identity module, the tenant manager's cache, the delegation
handler's group index, and the control plane's in-memory stores with their indexes, tables and boot-time
hydration. `dafny verify dfyconfig.toml` checks all of it.

| file | what it holds |
|---|---|
| `SqlLexer`, `SqlSplitter` | the one-rune automaton, and the nested-loop splitter that refines it |
| `SplitProperties`, `SqlStandard` | conservation, round trip, re-splitting; agreement with a reading of PostgreSQL's lexical rules |
| `SqlStatements`, `DollarQuotes` | which statements there are and what trimming does; dollar quotes as wholes |
| `Migrations` | boots under arbitrary faults |
| `TenantManager`, `EvictionProperties`, `TenantManagerProperties` | a cache with expiry and its order list |
| `Keys`, `Delegations`, `DelegationProperties` | composite names; the group name codec and the group index |
| `Sets`, `IdLists`, `Hydration`, `Paging`, `Records`, `Fields` | what the others share |
| `Environments`, `EnvironmentProperties`, `Namespaces`, `PaymentMethods`, `Deployments`, `DeploymentProperties`, `Subscriptions`, `Tenants` | the stores |
| `TenantManagerEffects`, `DelegationEffects`, `EnvironmentEffects`, `NamespaceEffects`, `PaymentMethodEffects`, `DeploymentEffects`, `SubscriptionEffects`, `TenantEffects` | what each operation does to the one record it is about, field by field, and that it leaves the others alone |

Each store is a class with the fields of the original and a table. A method's `ensures` gives its whole effect
as a function of the old state (`State() == AfterPatch(old(State()), …)`); the lemmas are about those functions,
one at a time (the `…Effects` modules), and about every sequence of them. Records the original holds by pointer
are `Record` cells updated in place. Clocks, fresh ids, the order in which rows or map entries come, and which
calls fail are parameters.

## Where the code differs from its documentation or from what one would expect

The model follows the code. Each point is a theorem of the table below.

- The splitter's test for the end of a block comment looks back one rune, so a comment opened right after a `*`
  closes at its own `/`, and `/*/` is a whole comment. It does not nest comments, knows no escape strings, ends line
  comments at newlines only, and takes `$` inside an identifier (`a$b$`), digits (`$1$`) and only ASCII letters for
  a tag. `AgreementIsExact` shows when exactly these make it read a script otherwise than PostgreSQL. A statement
  beginning with `*/*` may be cut differently when it is split again (`ResplitIff`, `ResplitCanCut`).
- Evicting an expired tenant that is not first in the order list drops the list's first entry instead
  (`EvictCoversIff`). While the clock goes forward and no entry expires in the middle of an eviction that never
  loses a tenant, and making room ends (`AlwaysSound`, `MakeRoomSettles`). Otherwise making room can run for ever:
  expiry is by wall-clock time, so a clock set back suffices (`MakeRoomCanHang`), and so do entries that expire
  between being looked at and the end of a scan (`MakeRoomCanHangForward`). `MakeRoomSettlesIff` says which caches
  are affected.
- `evictToMakeRoom` has no caller besides its tests, so the documented limit on cached tenants is not enforced
  (`CacheGrows`, `SetupWithinIff`). A time to live of zero, documented as "no expiry", is one of zero length
  (`StoredExpires`).
- Parsing a group name inverts building it exactly for tenant ids without a dash (`ExtractInvertsBuild`). Tenant ids
  the control plane generates are UUIDs, which have dashes: fetching or listing their roles indexes them under
  names they do not have (`FetchRightIff`, `LookupAfterFetchIff`, `ListRightIff`). `SafeIffClean` says for which
  tenants the index can be relied on. Deleting or renaming another tenant's role by uuid leaves that role's entry
  wrong (`DeleteRightIff`, `UpdateRightIff`).
- The handler takes a failed call for one without effect. When upstream has deleted or renamed a role and only the
  reply is lost, the role's entry stays and leads to no group or to one of another name (`HandleCoherentIff`,
  `LostDelete`).
- A migration inserted below versions already recorded is applied after them, out of order (`InsertedRunsLast`).
- The migration runner does not look at the error that ends the reading of recorded versions. A truncated read makes
  it repeat a migration, which fails on the primary key and is rolled back: `AlwaysAPrefix` holds all the same. The
  list of pending migrations is then too long (`PendingExactIff`).
- A namespace patch that sets a limit on a nil quota panics after changing other fields (`Namespaces.PatchSyncedIff`).
  A refused subscription patch leaves the new plan in memory and the old one in the table
  (`Subscriptions.PatchSyncedIff`). A tenant patch renames before the status is checked (`Tenants.PatchSyncedIff`)
  and without moving the reservation (`PatchNamesAgreeIff`).
- A rollback shares its desired-state map with its predecessor; a later patch of either changes both in memory and
  one in the table (`RollbackThenPatchDiverges`).
- Updating a payment method does not clear other defaults (`UpdateSingleIff`) and moves it to another tenant in
  memory only (`UpdateCoherentIff`). Stopping in the middle of creating one can leave two defaults in the table
  (`CrashInCreateIff`).
- `Deactivate` asks for a transition to stopped, which active environments do not have, and nothing makes an
  environment stopping (`NeverDeactivated`, `DeactivableIff`).
- Deployments start pending, and Deploy asks for running, which only provisioning and rolling back ones can enter. No
  operation makes a deployment provisioning: unless a patch sets its status it never runs, and one that was stopped
  cannot be resumed (`NeverRuns`, `ReachesIff`).

## Model

| member | source | states |
|---|---|---|
| SqlSplitter.DollarTag | modules/02-identity-access/internal/database/database.go:247-261 | true exactly when a dollar-quote delimiter starts at the index, and then which one; the delimiter is unique |
| SqlSplitter.CopyLineComment | modules/02-identity-access/internal/database/database.go:169-180 | the comment loop leaves the one-rune automaton in step: what it wrote, the index it stops at and the mode agree, and no boundary lies in between |
| SqlSplitter.CopyBlockComment | modules/02-identity-access/internal/database/database.go:182-192 | the same for the block-comment loop with its look back at the previous rune |
| SqlSplitter.CopyDollarBody | modules/02-identity-access/internal/database/database.go:194-214 | the same for a dollar-quoted body, which ends at the next copy of its own tag and of no other |
| SqlSplitter.CopyQuoted | modules/02-identity-access/internal/database/database.go:216-234 | the same for quoted strings and identifiers with doubled quotes |
| SqlSplitter.SplitStatements | modules/02-identity-access/internal/database/database.go:154-244 | on every rune sequence the nested loops return the non-blank segments of the one-rune automaton: the text between the `;`s read in ordinary text |
| SqlSplitter.TraceIsSplit | modules/02-identity-access/internal/database/database.go:158-243 | at every index, what has been emitted, what is held and the segments of the rest make up the whole answer |
| SplitProperties.SegmentsConserve | modules/02-identity-access/internal/database/database.go:158-243 | conservation: the segments joined by `;` are the input, rune for rune; none of them is cut and all but the last end in ordinary text |
| SplitProperties.FitIsSegments | modules/02-identity-access/internal/database/database.go:158-243 | and they are the only way to write the input like that |
| SplitProperties.CutsAreBoundaries | modules/02-identity-access/internal/database/database.go:236-239 | a `;` is a cut if and only if the automaton is in ordinary text there, for all inputs and from every mode |
| SplitProperties.LexingIsPositionFree | modules/02-identity-access/internal/database/database.go:183-192 | a text is lexed after a cut as at the start of a script if and only if it does not begin with `*/*` |
| SplitProperties.ResplitIsIdentity | modules/02-identity-access/internal/database/database.go:166-243 | splitting a returned statement again gives just that statement, if it came first or does not begin with `*/*` |
| SplitProperties.ResplitIff | modules/02-identity-access/internal/database/database.go:166-243 | and exactly if it does not begin with `*/*` or no cut follows the comment that these runes then open |
| SplitProperties.ResplitCanCut | modules/02-identity-access/internal/database/database.go:186 | the condition is needed: a concrete script with a statement that loses its last rune when split again |
| SplitProperties.JoinThenSplit | modules/02-identity-access/internal/database/database.go:154-244 | splitting a join gives exactly the pieces back if and only if they fit (no cut inside, all but the last closed) and none is blank |
| SplitProperties.RoundTrip | modules/02-identity-access/internal/database/database.go:154-244 | the same stated of each piece by itself, when no piece but the first begins with `*/*` |
| SqlStandard.AgreementIsExact | modules/02-identity-access/internal/database/database.go:154-261 | the splitter and an independent reading of PostgreSQL’s lexical rules (identifiers, strings with and without escapes, dollar quotes, nesting comments) agree on what is ordinary text at every position if and only if no rune is misread: an opener after a `*`, a `/` right after an opener or closing a nested comment only, a lone carriage return, an escaped quote, a `$` that ends what only looks like a tag |
| SqlStandard.CutsAreStandard | modules/02-identity-access/internal/database/database.go:154-244 | without a misread rune the cuts are exactly the `;`s of ordinary text in that reading |
| SqlStandard.PlainScriptsAreStandard | modules/02-identity-access/internal/database/database.go:154-244 | in particular for every script that meets five conditions on its text alone: spaced comment openers, no nesting, no lone carriage return, no escaped quote, and `$`s that stand apart from words |
| DollarQuotes.QuoteIsWhole | modules/02-identity-access/internal/database/database.go:194-214 | a dollar quote with any tag of ASCII letters, digits and underscores, no digit first, or with an empty one, and any body its delimiter does not close earlier, is read in one piece: no cut in it and ordinary text after it |
| DollarQuotes.DoBlockIsOneStatement | modules/02-identity-access/internal/database/database.go:194-214 | so a `DO` block with such a quote and whatever `;`s in its body is one statement, alone or followed by more statements, which are split as they are on their own |
| SqlStatements.TrimLaw | modules/02-identity-access/internal/database/database.go:132-136 | trimming takes white space, all of it and nothing else, off both ends |
| SqlStatements.SplitPlaces | modules/02-identity-access/internal/database/database.go:158-163 | the statements of a script are its segments that are not all white space, unchanged, in order and none left out |
| Migrations.Execute | modules/02-identity-access/internal/database/database.go:132-142 | executes the statements at the places, all and in order, where they are not all white space, each trimmed; on a failure those before the failing one and that one |
| Migrations.StatementsAre | modules/02-identity-access/internal/database/database.go:132-136 | the statements a migration executes are those its script splits into, each trimmed, as many and at the same indexes |
| Migrations.Database.ApplyMigration | modules/02-identity-access/internal/database/database.go:124-151 | one migration commits its statements and its version together or not at all, also when a commit succeeds and is reported as failed |
| Migrations.Database.ReadVersions | modules/02-identity-access/internal/database/database.go:90-104 | the applied set is what the driver delivered of the version rows, a truncated read included |
| Migrations.Database.RunMigrations | modules/02-identity-access/internal/database/database.go:73-121 | one boot under arbitrary faults: final state and reported success |
| Migrations.Database.GetPendingMigrations | modules/02-identity-access/internal/database/database.go:301-345 | fails if the versions cannot be queried; otherwise the migrations whose version was not delivered, in order |
| Migrations.PendingExactIff | modules/02-identity-access/internal/database/database.go:301-345 | that list is exact if and only if every recorded version was delivered; a truncated read, which goes unnoticed, makes it too long |
| Migrations.AlwaysAPrefix | modules/02-identity-access/internal/database/database.go:73-151 | with distinct versions, after any sequence of faulty boots from an empty database, history and versions are those of a prefix of the list, each applied once and in order |
| Migrations.BootFromPrefix | modules/02-identity-access/internal/database/database.go:106-118 | a boot that saw any subset of the recorded versions takes a prefix to a prefix, and to the whole list when it reports success |
| Migrations.SuccessIsComplete | modules/02-identity-access/internal/database/database.go:73-121 | a boot that reports success leaves every migration applied once, in order, and nothing pending |
| Migrations.HealthyBootCompletes | modules/02-identity-access/internal/database/database.go:73-121 | wherever faults left the database, one boot without faults succeeds |
| Migrations.PendingIsSuffix | modules/02-identity-access/internal/database/database.go:321-345 | what is pending is exactly the rest of the list |
| Migrations.NoGaps | modules/02-identity-access/internal/database/database.go:28-121 | in a list sorted by version, a recorded version has no unrecorded one below it |
| Migrations.AlwaysOneEach | modules/02-identity-access/internal/database/database.go:124-151 | even with duplicate versions, every committed transaction recorded a version of its own |
| Migrations.UpgradesAreAPrefix | modules/02-identity-access/internal/database/database.go:28-121 | while releases only append migrations to the list, after any sequence of faulty boots of any of them the state is that of a prefix of the latest list |
| Migrations.InsertedRunsLast | modules/02-identity-access/internal/database/database.go:64-121 | a migration inserted below versions that are recorded is applied after all of them |
| Migrations.InsertedInOrderIff | modules/02-identity-access/internal/database/database.go:64-121 | which is what applying the new list in order does if and only if every migration it was inserted before executes the same statements |
| Migrations.CompletableIffDistinct | modules/02-identity-access/internal/database/database.go:64-151 | a state with one transaction per migration is reachable if and only if no two migrations share a version |
| TenantManager.Manager.SetupTenant | modules/02-identity-access/internal/authentik/tenant_manager.go:192-332 | a live entry is returned unchanged; otherwise a provisioned state is stored, listed last and returned; a failure changes nothing |
| TenantManager.Manager.InvalidateCache | modules/02-identity-access/internal/authentik/tenant_manager.go:122-132 | drops the entry and the first occurrence in the order list |
| TenantManager.Manager.GetTenantState | modules/02-identity-access/internal/authentik/tenant_manager.go:336-352 | answers from a live entry only |
| TenantManager.Manager.RemoveTenant | modules/02-identity-access/internal/authentik/tenant_manager.go:355-385 | fails on a tenant that is not cached, else invalidates it |
| TenantManager.Manager.DeleteExpired | modules/02-identity-access/internal/authentik/tenant_manager.go:139-145 | removes exactly the expired entries and counts them |
| TenantManager.Manager.RebuildOrder | modules/02-identity-access/internal/authentik/tenant_manager.go:147-156 | keeps the listed ids that are still cached, in order |
| TenantManager.Manager.CleanupExpiredCache | modules/02-identity-access/internal/authentik/tenant_manager.go:135-159 | the two together, or the panic of a negative slice capacity when more entries went than were listed |
| TenantManager.Manager.EvictOldestEvicted | modules/02-identity-access/internal/authentik/tenant_manager.go:97-112 | the first listed entry found expired goes, or the head’s if none is found; in both cases the head of the list is dropped; the clock is read anew for each entry |
| TenantManager.Manager.EvictToMakeRoom | modules/02-identity-access/internal/authentik/tenant_manager.go:115-119 | the eviction loop’s final state, and whether there is one, for any clock |
| EvictionProperties.EvictCoversIff | modules/02-identity-access/internal/authentik/tenant_manager.go:97-112 | one eviction keeps every cached tenant listed if and only if it does not mislay the head: an expired entry elsewhere goes while the head is cached and listed once |
| EvictionProperties.MakeRoomSettlesIff | modules/02-identity-access/internal/authentik/tenant_manager.go:115-119 | for every cache and positive limit, the loop ends if and only if the tenants it can never evict (neither listed and expired, nor listed behind as many heads as there are such) are within the limit |
| EvictionProperties.MakeRoomDropsVictims | modules/02-identity-access/internal/authentik/tenant_manager.go:97-119 | and then exactly the first victims have gone, no more than it takes: the expired in list order, then those the list has left |
| EvictionProperties.NoneExpired | modules/02-identity-access/internal/authentik/tenant_manager.go:97-119 | with nothing expired the victims are the tenants in list order, and only unlisted tenants can never be evicted |
| EvictionProperties.NothingLeftToEvict | modules/02-identity-access/internal/authentik/tenant_manager.go:115-119 | over the limit, an iteration changes nothing if and only if the list is empty, whatever the time |
| TenantManagerProperties.AlwaysCovered | modules/02-identity-access/internal/authentik/tenant_manager.go:122-159 | over every sequence without evictions, whatever the clock and the time to live, each cached tenant is in the list |
| TenantManagerProperties.CoveredNeverPanics | modules/02-identity-access/internal/authentik/tenant_manager.go:147-149 | and then no cleanup panics |
| TenantManagerProperties.AlwaysSound | modules/02-identity-access/internal/authentik/tenant_manager.go:97-385 | over every sequence with a clock that goes forward and no entry expiring in the middle of an eviction, evictions included, the list covers the cache and is in order of expiry |
| TenantManagerProperties.MakeRoomSettles | modules/02-identity-access/internal/authentik/tenant_manager.go:97-119 | so making room at any time then ends within the limit, expired entries or not, and cleanup does not panic |
| TenantManagerProperties.MislaidExpires | modules/02-identity-access/internal/authentik/tenant_manager.go:97-112 | from such a state an eviction only mislays a head that was live when it was looked at and expired before that scan ended |
| TenantManagerProperties.MakeRoomCanHang | modules/02-identity-access/internal/authentik/tenant_manager.go:97-119 | if the wall clock is set back between two set-ups, the loop can run for ever: the run that gets there |
| TenantManagerProperties.MakeRoomCanHangForward | modules/02-identity-access/internal/authentik/tenant_manager.go:97-119 | so it can with a forward clock if entries expire between being looked at and the end of a scan: the run and the readings |
| TenantManagerProperties.CleanupIsExact | modules/02-identity-access/internal/authentik/tenant_manager.go:135-159 | cleanup removes the expired entries and no other, and lists exactly the surviving entries of the old list |
| TenantManagerProperties.CleanupKeepsOrder | modules/02-identity-access/internal/authentik/tenant_manager.go:148-157 | it keeps every listing of a survivor, in the order they had |
| TenantManagerProperties.StoredExpires | modules/02-identity-access/internal/authentik/tenant_manager.go:324-329 | a stored state is answered up to the time to live and not beyond: no value of it, zero included, means no expiry |
| TenantManagerProperties.StoredBySetup | modules/02-identity-access/internal/authentik/tenant_manager.go:324-329 | over every sequence, whatever the clock, each cached entry is what a set-up of its tenant stored |
| TenantManagerProperties.NothingOutlives | modules/02-identity-access/internal/authentik/tenant_manager.go:33-35 | so whatever is answered was stored by a set-up of that tenant no longer than the time to live ago |
| TenantManagerProperties.SetupWithinIff | modules/02-identity-access/internal/authentik/tenant_manager.go:324-329 | setting a tenant up leaves the cache within the limit if and only if there was room or nothing was added |
| TenantManagerProperties.CacheGrows | modules/02-identity-access/internal/authentik/tenant_manager.go:192-332 | whatever the limit, n tenants set up one after the other are all cached |
| TenantManagerEffects.InvalidateEffect | modules/02-identity-access/internal/authentik/tenant_manager.go:122-132 | the tenant has no answer any more and is listed once less; at every time every other tenant is answered as before and listed as often and in the same order |
| TenantManagerEffects.OneTenantEffect | modules/02-identity-access/internal/authentik/tenant_manager.go:192-385 | neither do set-up, lookup and removal change what other tenants are answered or how they are listed |
| TenantManagerEffects.GetEffect | modules/02-identity-access/internal/authentik/tenant_manager.go:336-352 | a lookup forgets an expired entry, and otherwise changes nothing |
| TenantManagerEffects.CleanupEffect | modules/02-identity-access/internal/authentik/tenant_manager.go:135-159 | a cleanup changes no answer from its time on, and none at all of a tenant that is live |
| TenantManagerEffects.EvictEffect | modules/02-identity-access/internal/authentik/tenant_manager.go:97-112 | an eviction takes the first listed entry found expired, else the head’s, and no other; the list loses its head |
| TenantManagerEffects.StillAnswered | modules/02-identity-access/internal/authentik/tenant_manager.go:97-385 | over every sequence, a stored state is answered up to its expiry while no operation invalidates or removes its tenant, evicts, or, after it, cleans up, looks the tenant up or sets it up |
| Keys.CollideIff | modules/01-tenant-control-plane/internal/store/namespace.go:106 | two owners can give the same composite key for some names if and only if one of them, with the separator, begins the other with it |
| Keys.FreeOwnersInjective | modules/01-tenant-control-plane/internal/store/namespace.go:106 | owners without the separator’s first rune never collide |
| Delegations.ExtractInvertsBuild | modules/02-identity-access/internal/handler/handler_delegations.go:86-94 | `extractRoleName(buildGroupName(t, r))` gives back `r` if and only if `t` has no dash, for every role name |
| Delegations.BuildIsInjective | modules/02-identity-access/internal/handler/handler_delegations.go:86-94 | group names determine a dash-free tenant and the role |
| Delegations.Handler.FindByName | modules/02-identity-access/internal/handler/handler_delegations.go:133-142 | the first listed group of that name, or there is none |
| Delegations.Handler.LookupRoleByName | modules/02-identity-access/internal/handler/handler_delegations.go:128-144 | finds by scanning the listing and caches what it finds |
| Delegations.Handler.LookupGroupUUID | modules/02-identity-access/internal/handler/handler_delegations.go:104-124 | answers from the index if it can, else scans and caches |
| Delegations.Handler.GetAuthentikGroup | modules/02-identity-access/internal/handler/handler_delegations.go:147-158 | fetches by uuid and caches under the group’s own tenant and parsed role |
| Delegations.Handler.Resolve | modules/02-identity-access/internal/handler/handler_delegations.go:413-432 | a role id is tried as a uuid, then as a role name; this is all GetByID does to the index |
| Delegations.Handler.Create | modules/02-identity-access/internal/handler/handler_delegations.go:204-244 | creates the group upstream and caches it; changes nothing when upstream refuses, and leaves it uncached when the reply is lost |
| Delegations.Handler.Update | modules/02-identity-access/internal/handler/handler_delegations.go:481-559 | resolves, renames upstream, and moves the index entry unless the call is reported as failed |
| Delegations.Handler.Delete | modules/02-identity-access/internal/handler/handler_delegations.go:597-628 | resolves, deletes upstream, and drops the index entry unless the call is reported as failed |
| Delegations.Handler.List | modules/02-identity-access/internal/handler/handler_delegations.go:289-342 | caches every listed group with the tenant’s prefix; nothing if upstream cannot be listed |
| DelegationProperties.LookupIsScan | modules/02-identity-access/internal/handler/handler_delegations.go:104-124 | in a coherent state every lookup, cached or not, answers what a scan of all upstream groups would |
| DelegationProperties.AlwaysCoherent | modules/02-identity-access/internal/handler/handler_delegations.go:97-158 | for tenants without dashes none of which, with `::`, begins another: over every sequence of requests of own roles, whatever calls fail, every index entry leads to the live group of its tenant and role, until upstream has deleted or renamed a role and the reply is lost |
| DelegationProperties.AlwaysNamed | modules/02-identity-access/internal/handler/handler_delegations.go:86-94 | group names stay unique and those of their tenants also after that |
| DelegationProperties.HandleCoherentIff | modules/02-identity-access/internal/handler/handler_delegations.go:204-628 | a request keeps names and index right if and only if it is not such a deletion or renaming |
| DelegationProperties.LostDelete | modules/02-identity-access/internal/handler/handler_delegations.go:617-625 | a deletion whose reply is lost: the role is still found, as a group that is not there any more |
| DelegationProperties.CreateCoherent | modules/02-identity-access/internal/handler/handler_delegations.go:204-244 | creating keeps names and index right, the reply lost or not |
| DelegationProperties.SafeIffClean | modules/02-identity-access/internal/handler/handler_delegations.go:86-100 | and for no other tenants: the index is right in all such sequences of a set of tenants if and only if the tenants are so |
| DelegationProperties.FetchRightIff | modules/02-identity-access/internal/handler/handler_delegations.go:147-158 | fetching a role’s group by uuid indexes it under the role its name parses to, and that entry is right if and only if the tenant has no dash |
| DelegationProperties.LookupAfterFetchIff | modules/02-identity-access/internal/handler/handler_delegations.go:104-158 | so looking that role up then answers what a scan would if and only if the tenant has no dash, and another role’s group otherwise |
| DelegationProperties.ListRightIff | modules/02-identity-access/internal/handler/handler_delegations.go:289-342 | listing a tenant’s roles indexes them rightly if and only if the tenant has no dash or no role is listed |
| DelegationProperties.CrossedIff | modules/02-identity-access/internal/handler/handler_delegations.go:97-108 | two tenants can find each other’s roles through the index if and only if one, with `::`, begins the other |
| DelegationProperties.DeleteRightIff | modules/02-identity-access/internal/handler/handler_delegations.go:597-628 | deleting keeps the index right if and only if there is no group, upstream refuses, the group carries no role, or the reply arrives and the group is the caller’s tenant’s |
| DelegationProperties.UpdateRightIff | modules/02-identity-access/internal/handler/handler_delegations.go:481-559 | renaming, to a new role or the current one, keeps it right if and only if there is no group, upstream refuses, the group carries no role, or it is the caller’s tenant’s and the reply arrives or the role stays |
| DelegationEffects.FetchEffect | modules/02-identity-access/internal/handler/handler_delegations.go:147-158 | resolving a role by uuid makes its group be found under its own role from then on; no other entry changes |
| DelegationEffects.FindEffect | modules/02-identity-access/internal/handler/handler_delegations.go:128-144 | resolving it by name takes the first listed group of the name |
| DelegationEffects.MissEffect | modules/02-identity-access/internal/handler/handler_delegations.go:413-432 | what is not found changes nothing |
| DelegationEffects.CreateEffect | modules/02-identity-access/internal/handler/handler_delegations.go:204-244 | a new role adds one group of the name, and its entry if the reply arrives; nothing else |
| DelegationEffects.CreateRefused | modules/02-identity-access/internal/handler/handler_delegations.go:204-244 | a taken name or a refusal changes nothing |
| DelegationEffects.RenameEffect | modules/02-identity-access/internal/handler/handler_delegations.go:513-544 | asked for a new role name, the group upstream gets the name of the tenant and that role; every other group stays |
| DelegationEffects.RenameIndexes | modules/02-identity-access/internal/handler/handler_delegations.go:546-559 | and when the reply arrives the new name is found and the old one has no entry; every other entry is as after resolving |
| DelegationEffects.KeepsName | modules/02-identity-access/internal/handler/handler_delegations.go:513-559 | asked for no new name, or the one it has, an own role of a dash-free tenant keeps name and entry |
| DelegationEffects.RenameRefused | modules/02-identity-access/internal/handler/handler_delegations.go:521-544 | a taken name or a refusal changes nothing beyond resolving; a lost reply leaves the index |
| DelegationEffects.DeleteEffect | modules/02-identity-access/internal/handler/handler_delegations.go:597-628 | the group is gone, and the entry of an own role if the reply arrives; nothing else |
| DelegationEffects.DeleteRefused | modules/02-identity-access/internal/handler/handler_delegations.go:597-628 | a refusal changes nothing beyond resolving |
| DelegationEffects.ListEffect | modules/02-identity-access/internal/handler/handler_delegations.go:289-342 | each listed role of a dash-free tenant is found from then on without upstream |
| DelegationEffects.ListKeepsOthers | modules/02-identity-access/internal/handler/handler_delegations.go:289-342 | and every entry stays whose key does not begin with the tenant and `::` |
| IdLists.DropFirst | modules/01-tenant-control-plane/internal/store/environment.go:252-268 | removes the first occurrence of an id from an index slice, and nothing when it is absent |
| IdLists.AppendIndexesIff | modules/01-tenant-control-plane/internal/store/environment.go:143-146 | appending keeps an index right if and only if the id is new |
| IdLists.DropIndexes | modules/01-tenant-control-plane/internal/store/environment.go:237-273 | removing a live id keeps it right |
| IdLists.SameContents | modules/01-tenant-control-plane/internal/store/persist.go:388-390 | two right indexes over the same records hold the same ids under every key, as multisets |
| Hydration.Loaded | modules/01-tenant-control-plane/internal/store/persist.go:353-393 | loading a whole table, in any order, gives exactly one record per row |
| Hydration.Indexed | modules/01-tenant-control-plane/internal/store/persist.go:388-390 | and a right, duplicate-free index |
| Paging.CutPage | modules/01-tenant-control-plane/internal/store/environment.go:300-319 | the page the listing code cuts, with its defaults, and `hasMore` exactly when `page*pageSize < total` |
| Paging.PagesConcatenate | modules/01-tenant-control-plane/internal/store/environment.go:300-319 | consecutive pages are the list from its start without gap or overlap, and all of it once there are enough |
| Paging.Defaults | modules/01-tenant-control-plane/internal/store/environment.go:300-306 | a page number below one is the first page and a size below one is twenty |
| Paging.MoreIff | modules/01-tenant-control-plane/internal/store/environment.go:300-319 | `hasMore` exactly when the next page has something on it |
| Environments.EnvironmentStore.Create | modules/01-tenant-control-plane/internal/store/environment.go:125-149 | fills defaults into the caller’s record, stores that record, lists it under tenant and type, writes its row |
| Environments.EnvironmentStore.Insert | modules/01-tenant-control-plane/internal/store/environment.go:143-146 | stores one record and appends to both indexes |
| Environments.EnvironmentStore.Patch | modules/01-tenant-control-plane/internal/store/environment.go:181-234 | updates the stored record and its row, or reports it missing |
| Environments.MergeOnlyAdds | modules/01-tenant-control-plane/internal/store/environment.go:199-228 | merging takes nothing away: set limits, levels and isolation stay, and merging the same request again changes nothing |
| Environments.EnvironmentStore.Delete | modules/01-tenant-control-plane/internal/store/environment.go:237-273 | removes the record, one occurrence in each index, and the row |
| Environments.EnvironmentStore.Transition | modules/01-tenant-control-plane/internal/store/environment.go:387-414 | moves the state if the table of transitions allows it, else changes nothing |
| Environments.EnvironmentStore.HydrateEnvironments | modules/01-tenant-control-plane/internal/store/persist.go:353-393 | rebuilds records and both indexes from the rows in the order read |
| Environments.EnvironmentStore.ListIds | modules/01-tenant-control-plane/internal/store/environment.go:280-293 | the records of a list of ids, skipping ids that are gone |
| Environments.EnvironmentStore.ListByTenant | modules/01-tenant-control-plane/internal/store/environment.go:276-320 | the page of the sorted listing of a tenant, its total and `hasMore` |
| Environments.EnvironmentStore.ListByType | modules/01-tenant-control-plane/internal/store/environment.go:330-374 | the same by type |
| EnvironmentProperties.CreateCoherentIff | modules/01-tenant-control-plane/internal/store/environment.go:125-149 | Create keeps indexes and table right if and only if the id it ends up with is not in use |
| EnvironmentProperties.SavedCoherent | modules/01-tenant-control-plane/internal/database/environments.go:46-57 | the columns a conflicting insert leaves alone are the only ones a change must not touch |
| EnvironmentProperties.DeleteCoherent | modules/01-tenant-control-plane/internal/store/environment.go:237-273 | Delete keeps indexes and table right |
| EnvironmentProperties.AlwaysCoherent | modules/01-tenant-control-plane/internal/store/environment.go:125-273 | over every sequence of operations and restarts, `byTenant` and `byType` are duplicate-free and list exactly the live environments, and the table holds exactly their rows |
| EnvironmentProperties.RestartEquivalent | modules/01-tenant-control-plane/internal/store/persist.go:320-393 | restart equivalence: the same records, up to nil and empty documents, and a coherent store |
| EnvironmentProperties.RestartKeepsIndexes | modules/01-tenant-control-plane/internal/store/persist.go:388-390 | and the same ids under every tenant and type |
| EnvironmentProperties.ListingIsScan | modules/01-tenant-control-plane/internal/store/environment.go:276-298 | a listing holds every live environment of the tenant once and nothing else, in name order |
| EnvironmentProperties.PagesAreScan | modules/01-tenant-control-plane/internal/store/environment.go:300-319 | its pages, asked for one after the other, are that listing |
| EnvironmentProperties.LimitsAreSticky | modules/01-tenant-control-plane/internal/store/environment.go:199-228 | a quota limit once set is never changed while the environment lives, by no operation and no restart |
| EnvironmentProperties.NeverDeactivated | modules/01-tenant-control-plane/internal/store/environment.go:377-434 | an environment that is neither stopping nor in error never gets there by the operations offered, and Deactivate never does anything to it |
| EnvironmentProperties.DeactivableIff | modules/01-tenant-control-plane/internal/store/environment.go:377-434 | an environment can be deactivated now or later, while it lives, if and only if it is stopping or in error now |
| EnvironmentEffects.CreateEffect | modules/01-tenant-control-plane/internal/store/environment.go:125-149 | what is given is stored with id, state, level and times filled in where they are not; the others stay |
| EnvironmentEffects.CreateLists | modules/01-tenant-control-plane/internal/store/environment.go:143-146 | it is listed last under its tenant and type; no other listing changes |
| EnvironmentEffects.CreateIsDurable | modules/01-tenant-control-plane/internal/store/persist.go:320-350 | and its row says what the record says |
| EnvironmentEffects.PatchEffect | modules/01-tenant-control-plane/internal/store/environment.go:181-234 | a given name, note or level is taken; each limit that was unset and is requested positive is set, the others stay; flags are only switched on, an empty compliance level is filled in; nothing else changes, of this environment or another |
| EnvironmentEffects.PatchIsDurable | modules/01-tenant-control-plane/internal/store/persist.go:320-350 | a row that said what the record says does so afterwards |
| EnvironmentEffects.DeleteEffect | modules/01-tenant-control-plane/internal/store/environment.go:237-273 | the environment is gone from memory, table and both lists; the others stay |
| EnvironmentEffects.UnknownEffect | modules/01-tenant-control-plane/internal/store/environment.go:181-414 | an id that is not there changes nothing |
| EnvironmentEffects.EnteredFrom | modules/01-tenant-control-plane/internal/store/environment.go:417-434 | from which states each state can be entered |
| EnvironmentEffects.OfferedTransitions | modules/01-tenant-control-plane/internal/store/environment.go:377-384 | Activate acts exactly on creating and updating environments, Deactivate exactly on stopping and failed ones |
| EnvironmentEffects.TransitionEffect | modules/01-tenant-control-plane/internal/store/environment.go:387-414 | the state is entered in memory and row, with its time and the notes given; nothing else changes |
| EnvironmentEffects.TransitionRefused | modules/01-tenant-control-plane/internal/store/environment.go:387-414 | what the table of transitions does not allow changes nothing |
| PaymentMethods.PaymentMethodStore.ClearDefaults | modules/01-tenant-control-plane/internal/store/payment_method.go:71-79 | clears every default of the tenant in memory and touches no other method |
| PaymentMethods.PaymentMethodStore.SaveSiblings | modules/01-tenant-control-plane/internal/store/payment_method.go:84-91 | re-writes the rows of all the tenant’s other methods |
| PaymentMethods.PaymentMethodStore.Create | modules/01-tenant-control-plane/internal/store/payment_method.go:55-94 | the whole new state of memory, index and table |
| PaymentMethods.PaymentMethodStore.Update | modules/01-tenant-control-plane/internal/store/payment_method.go:126-141 | replaces the stored record and writes its row, clearing no other default |
| PaymentMethods.PaymentMethodStore.Delete | modules/01-tenant-control-plane/internal/store/payment_method.go:211-234 | removes record, index entry and row |
| PaymentMethods.PaymentMethodStore.HydratePaymentMethods | modules/01-tenant-control-plane/internal/store/persist.go:646-664 | rebuilds records and index from the rows |
| PaymentMethods.AlwaysSingleDefault | modules/01-tenant-control-plane/internal/store/payment_method.go:55-234 | over every sequence of Create, Delete, restart and updates that neither add a second default nor move the method, at most one default per tenant in memory and in the table after each completed call |
| PaymentMethods.CreateKeeps | modules/01-tenant-control-plane/internal/store/payment_method.go:55-94 | Create leaves one default per tenant and the table equal to memory, because it re-saves every sibling it cleared |
| PaymentMethods.RestartKeeps | modules/01-tenant-control-plane/internal/store/persist.go:646-664 | a restart brings back exactly the records in memory |
| PaymentMethods.UpdateSingleIff | modules/01-tenant-control-plane/internal/store/payment_method.go:126-141 | Update keeps the default single if and only if it does not add one beside another |
| PaymentMethods.UpdateCoherentIff | modules/01-tenant-control-plane/internal/store/payment_method.go:126-141 | and index and table right if and only if it changes neither tenant nor creation time |
| PaymentMethods.CrashInCreateIff | modules/01-tenant-control-plane/internal/store/payment_method.go:81-91 | stopped after writing the new row and the rows of any set of its siblings, Create leaves the table with one default per tenant if and only if the former default, should there be one to take over from, is in that set |
| PaymentMethodEffects.CreateEffect | modules/01-tenant-control-plane/internal/store/payment_method.go:55-94 | what is given is stored in memory and row; of the others only a default of the same tenant gives way to a new one, in memory and row |
| PaymentMethodEffects.CreateLists | modules/01-tenant-control-plane/internal/store/payment_method.go:86-88 | it is listed last under its tenant |
| PaymentMethodEffects.CreateRefused | modules/01-tenant-control-plane/internal/store/payment_method.go:55-58 | without a tenant nothing changes |
| PaymentMethodEffects.UpdateEffect | modules/01-tenant-control-plane/internal/store/payment_method.go:126-141 | what is given is stored; the row keeps tenant and creation time; the others stay |
| PaymentMethodEffects.DeleteEffect | modules/01-tenant-control-plane/internal/store/payment_method.go:211-234 | the method is gone from memory, table and list; the others stay |
| PaymentMethodEffects.UnknownEffect | modules/01-tenant-control-plane/internal/store/payment_method.go:126-234 | an id that is not there changes nothing |
| Namespaces.NamespaceStore.Create | modules/01-tenant-control-plane/internal/store/namespace.go:84-117 | refused exactly when the name key is taken; otherwise the new state of records, both indexes and table |
| Namespaces.NamespaceStore.GetByName | modules/01-tenant-control-plane/internal/store/namespace.go:149-165 | the record the name key leads to |
| Namespaces.NamespaceStore.Patch | modules/01-tenant-control-plane/internal/store/namespace.go:168-221 | found, done or panicked, with the state left behind in each case |
| Namespaces.NamespaceStore.PatchQuota | modules/01-tenant-control-plane/internal/store/namespace.go:205-215 | merges positive limits, panicking on a nil quota when there is one to set |
| Namespaces.NamespaceStore.Delete | modules/01-tenant-control-plane/internal/store/namespace.go:224-255 | removes record, index entries and row |
| Namespaces.NamespaceStore.HydrateNamespaces | modules/01-tenant-control-plane/internal/store/persist.go:426-460 | rebuilds records and both indexes |
| Namespaces.LookupIsScanIff | modules/01-tenant-control-plane/internal/store/namespace.go:149-165 | a lookup is a scan by tenant and name if and only if no other live namespace shares the key |
| Namespaces.ColonFreeLookups | modules/01-tenant-control-plane/internal/store/namespace.go:84-165 | with colon-free tenants every lookup is a scan, and a name is refused exactly when the tenant has it |
| Namespaces.PatchSyncedIff | modules/01-tenant-control-plane/internal/store/namespace.go:168-221 | a patch leaves the table in step with memory if and only if it does not panic after a change |
| Namespaces.RestartIsRows | modules/01-tenant-control-plane/internal/store/persist.go:426-460 | a restart goes back to the rows with the very same name index, even after panicked patches |
| Namespaces.RestartEquivalent | modules/01-tenant-control-plane/internal/store/persist.go:400-460 | if the table is in step, the same records up to empty documents and nil quotas |
| Namespaces.AlwaysIndexed | modules/01-tenant-control-plane/internal/store/namespace.go:84-255 | over every sequence of operations, panics and restarts, names and ids correspond one to one and the tenant lists are right; the table is in step until a patch panics half way |
| NamespaceEffects.CreateEffect | modules/01-tenant-control-plane/internal/store/namespace.go:84-117 | unless the name key is taken the namespace is stored, with the default status, policy and isolation, and found by its name; the others stay |
| NamespaceEffects.CreateLists | modules/01-tenant-control-plane/internal/store/namespace.go:84-117 | it is listed last under its tenant |
| NamespaceEffects.CreateRefused | modules/01-tenant-control-plane/internal/store/namespace.go:84-117 | a taken name key changes nothing |
| NamespaceEffects.PatchEffect | modules/01-tenant-control-plane/internal/store/namespace.go:168-221 | given texts are taken, documents merged key by key with the request winning, positive limits taken; nothing else changes, of this namespace or another |
| NamespaceEffects.PatchPanics | modules/01-tenant-control-plane/internal/store/namespace.go:205-215 | asking for a limit of a nil quota leaves the fields before it changed in memory and the table as it was |
| NamespaceEffects.DeleteEffect | modules/01-tenant-control-plane/internal/store/namespace.go:224-255 | the namespace and its name are gone; the others stay |
| NamespaceEffects.UnknownEffect | modules/01-tenant-control-plane/internal/store/namespace.go:168-255 | an id that is not there changes nothing |
| Deployments.DeploymentStore.Create | modules/01-tenant-control-plane/internal/store/deployment.go:95-118 | the new state of records, index and table |
| Deployments.DeploymentStore.MergeDesired | modules/01-tenant-control-plane/internal/store/deployment.go:165-172 | merges into the map that is shared, or allocates one |
| Deployments.DeploymentStore.Patch | modules/01-tenant-control-plane/internal/store/deployment.go:150-181 | the new state, changes to a shared desired-state map seen by all its holders |
| Deployments.DeploymentStore.Delete | modules/01-tenant-control-plane/internal/store/deployment.go:184-211 | removes record, index entry and row |
| Deployments.DeploymentStore.Rollback | modules/01-tenant-control-plane/internal/store/deployment.go:278-322 | refused without a live predecessor; otherwise a new deployment with the predecessor’s version and manifest and its very desired-state map |
| Deployments.DeploymentStore.Transition | modules/01-tenant-control-plane/internal/store/deployment.go:344-369 | moves the status if the table of transitions allows it |
| Deployments.DeploymentStore.Deprecate | modules/01-tenant-control-plane/internal/store/deployment.go:325-341 | from any status |
| Deployments.DeploymentStore.HydrateDeployments | modules/01-tenant-control-plane/internal/store/persist.go:269-313 | rebuilds records and index, each desired state in a map of its own |
| DeploymentProperties.PatchSyncedIff | modules/01-tenant-control-plane/internal/store/deployment.go:150-181 | a patch leaves the table in step with memory if and only if it changes no map that another deployment holds |
| DeploymentProperties.SyncedUntilShared | modules/01-tenant-control-plane/internal/store/deployment.go:95-369 | from the start or a restart on, the table is in step until such a patch |
| DeploymentProperties.RestartIsRows | modules/01-tenant-control-plane/internal/store/persist.go:269-313 | after a restart the deployments are those of the rows, the index is right and no two share a map |
| DeploymentProperties.RestartEquivalentIff | modules/01-tenant-control-plane/internal/store/persist.go:230-313 | columns and contents of all deployments come back if and only if the table was in step |
| DeploymentProperties.RollbackThenPatchDiverges | modules/01-tenant-control-plane/internal/store/deployment.go:304 | after a rollback, changing the desired state of it or of the deployment it took the map from changes both in memory, and a restart brings the other back without the change |
| DeploymentProperties.RollbacksAlternate | modules/01-tenant-control-plane/internal/store/deployment.go:278-322 | rolling back n times over: the n-th carries the predecessor’s version, manifest and map when n is odd, the original’s when it is even |
| DeploymentProperties.AlwaysOrdered | modules/01-tenant-control-plane/internal/store/deployment.go:95-322 | over every sequence of operations and restarts in which new ids are unheard of, any predecessor given at creation: every predecessor that was ever given out is older; the index is right and rows and records are of the same deployments |
| DeploymentProperties.Chain | modules/01-tenant-control-plane/internal/store/deployment.go:278-322 | the chain of live predecessors, ending for every deployment |
| DeploymentProperties.ChainDescends | modules/01-tenant-control-plane/internal/store/deployment.go:278-322 | it descends strictly in age, has no repetition, and is no longer than the deployment is old |
| DeploymentEffects.CreateEffect | modules/01-tenant-control-plane/internal/store/deployment.go:95-118 | what is given is stored, pending and rolling unless said otherwise, with a desired state of its own; the others stay, with their maps |
| DeploymentEffects.CreateLists | modules/01-tenant-control-plane/internal/store/deployment.go:95-118 | it is listed last under its tenant |
| DeploymentEffects.PatchEffect | modules/01-tenant-control-plane/internal/store/deployment.go:150-181 | given name, notes and status are taken; the other columns and records stay |
| DeploymentEffects.PatchMerges | modules/01-tenant-control-plane/internal/store/deployment.go:165-172 | the desired state is merged key by key with the request winning, in place where there is a map; every other map stays |
| DeploymentEffects.DeleteEffect | modules/01-tenant-control-plane/internal/store/deployment.go:184-211 | the deployment is gone from memory, table and list; the others stay |
| DeploymentEffects.RollbackEffect | modules/01-tenant-control-plane/internal/store/deployment.go:278-322 | without a live predecessor nothing changes; otherwise one deployment is added, each of its fields as the code says, and none that is there changes |
| DeploymentEffects.RollbackLists | modules/01-tenant-control-plane/internal/store/deployment.go:278-322 | it is listed last under the tenant |
| DeploymentEffects.EnteredFrom | modules/01-tenant-control-plane/internal/store/deployment.go:372-391 | from which statuses each status can be entered |
| DeploymentEffects.TransitionEffect | modules/01-tenant-control-plane/internal/store/deployment.go:344-369 | the status is entered in memory and row, with the time for running and the notes given, if it can be; else nothing changes |
| DeploymentEffects.DeprecateEffect | modules/01-tenant-control-plane/internal/store/deployment.go:325-341 | deprecates from any status and changes nothing else |
| DeploymentEffects.UnknownEffect | modules/01-tenant-control-plane/internal/store/deployment.go:150-369 | an id that is not there changes nothing |
| DeploymentEffects.ReachesIff | modules/01-tenant-control-plane/internal/store/deployment.go:372-391 | by transitions every known status but deprecated leads to every other, and nothing else leads anywhere |
| DeploymentEffects.NeverRuns | modules/01-tenant-control-plane/internal/store/deployment.go:268-275 | over every sequence of operations and restarts in which only Deploy and Stop ask for transitions, a deployment that is pending, stopped or deprecated stays so while no patch sets its status, and Deploy does nothing to it |
| Subscriptions.SubscriptionStore.Create | modules/01-tenant-control-plane/internal/store/subscription.go:106-159 | refused exactly when the tenant has a subscription; otherwise the new state with prices and periods filled in |
| Subscriptions.SubscriptionStore.GetByTenant | modules/01-tenant-control-plane/internal/store/subscription.go:191-205 | the record the tenant index leads to |
| Subscriptions.SubscriptionStore.PatchRecord | modules/01-tenant-control-plane/internal/store/subscription.go:217-238 | the record after an accepted and after a refused patch |
| Subscriptions.SubscriptionStore.Patch | modules/01-tenant-control-plane/internal/store/subscription.go:208-241 | refused for an unknown id or a seat count below one; the row is written only when accepted |
| Subscriptions.SubscriptionStore.Cancel | modules/01-tenant-control-plane/internal/store/subscription.go:244-266 | now or at the end of the period |
| Subscriptions.SubscriptionStore.Delete | modules/01-tenant-control-plane/internal/store/subscription.go:269-287 | removes record, tenant entry and row |
| Subscriptions.SubscriptionStore.HydrateSubscriptions | modules/01-tenant-control-plane/internal/store/persist.go:138-168 | rebuilds records and tenant index |
| Subscriptions.LookupIsScan | modules/01-tenant-control-plane/internal/store/subscription.go:191-205 | the subscription found for a tenant is the only one it has, and none is missed |
| Subscriptions.PatchSyncedIff | modules/01-tenant-control-plane/internal/store/subscription.go:208-241 | a patch leaves the table in step with memory if and only if it is not refused after a change |
| Subscriptions.ApplySyncedIff | modules/01-tenant-control-plane/internal/store/subscription.go:106-287 | any operation leaves the table in step with memory if and only if it is not a patch refused after a change |
| Subscriptions.SyncedUntilRefused | modules/01-tenant-control-plane/internal/store/subscription.go:106-287 | from the start or a restart on, the table is in step until such a patch |
| Subscriptions.ReplannedPriced | modules/01-tenant-control-plane/internal/store/subscription.go:217-225 | a change of plan keeps total = unit price × seats |
| Subscriptions.PatchedPriced | modules/01-tenant-control-plane/internal/store/subscription.go:208-241 | and so does the rest of a patch |
| Subscriptions.RestartIsRows | modules/01-tenant-control-plane/internal/store/persist.go:138-168 | a restart goes back to the rows and finds the same subscription for each tenant, even after refused patches |
| Subscriptions.RestartEquivalent | modules/01-tenant-control-plane/internal/store/persist.go:113-168 | if the table is in step, the same records with nil quotas as zeros, and the same index |
| Subscriptions.AlwaysOnePerTenant | modules/01-tenant-control-plane/internal/store/subscription.go:106-287 | over every sequence of operations, refused patches and restarts, tenants and subscriptions correspond one to one, and seats are at least one |
| Subscriptions.AlwaysPriced | modules/01-tenant-control-plane/internal/store/subscription.go:106-241 | over the same, a subscription that was not given a total of its own has unit price × seats, in memory and in its row, whatever totals others were given |
| Subscriptions.StaysPriced | modules/01-tenant-control-plane/internal/store/subscription.go:208-241 | one that has price times seats once keeps it for as long as it lives, refused patches and restarts included |
| SubscriptionEffects.RowsKeepAll | modules/01-tenant-control-plane/internal/store/persist.go:113-135 | a row says what the record says, nil quotas as zeros |
| SubscriptionEffects.CreateEffect | modules/01-tenant-control-plane/internal/store/subscription.go:106-159 | for a tenant without one, what is given is stored, with the plan’s name and price, a seat, the total and a month filled in where they are not given; the others stay |
| SubscriptionEffects.CreateRefused | modules/01-tenant-control-plane/internal/store/subscription.go:106-159 | a tenant that has one changes nothing |
| SubscriptionEffects.PatchEffect | modules/01-tenant-control-plane/internal/store/subscription.go:208-241 | an accepted patch takes plan, cycle, seats and quotas; name and price are the plan’s and the total that of price and seats; nothing else changes |
| SubscriptionEffects.PatchRefused | modules/01-tenant-control-plane/internal/store/subscription.go:217-234 | a refused one has taken plan and cycle in memory, with a total for the old seats; the table stays |
| SubscriptionEffects.CancelEffect | modules/01-tenant-control-plane/internal/store/subscription.go:244-266 | cancelled with the time, or cancelling at the end of the period; nothing else changes |
| SubscriptionEffects.DeleteEffect | modules/01-tenant-control-plane/internal/store/subscription.go:269-287 | the subscription is gone and its tenant free; the others stay |
| SubscriptionEffects.UnknownEffect | modules/01-tenant-control-plane/internal/store/subscription.go:208-287 | an id that is not there changes nothing |
| Tenants.TenantStore.Create | modules/01-tenant-control-plane/internal/store/tenant.go:151-180 | refused exactly when id or name is taken; otherwise the new state |
| Tenants.TenantStore.PatchRecord | modules/01-tenant-control-plane/internal/store/tenant.go:220-264 | the record after an accepted patch and after one whose status is refused, the name changed in both |
| Tenants.TenantStore.Patch | modules/01-tenant-control-plane/internal/store/tenant.go:211-268 | accepted exactly for a known id and an allowed status; reservations never change |
| Tenants.TenantStore.Delete | modules/01-tenant-control-plane/internal/store/tenant.go:271-293 | removes record and row and releases one of the tenant’s reservations, if any |
| Tenants.TenantStore.HydrateTenants | modules/01-tenant-control-plane/internal/store/persist.go:71-106 | rebuilds records, and reserves the names as the rows have them |
| Tenants.DeleteReleasesAll | modules/01-tenant-control-plane/internal/store/tenant.go:285-291 | the early stop of that search releases all the tenant had reserved |
| Tenants.AlwaysReserved | modules/01-tenant-control-plane/internal/store/tenant.go:151-293 | over every sequence of operations and restarts, each reservation leads to a live tenant and no tenant owns two |
| Tenants.RestartReserved | modules/01-tenant-control-plane/internal/store/persist.go:71-106 | a restart brings back the rows and keeps that, even where renaming made two names equal |
| Tenants.PatchNamesAgreeIff | modules/01-tenant-control-plane/internal/store/tenant.go:220-231 | reservations are the tenants’ names after a patch if and only if the patch does not change the name, refused or not |
| Tenants.PatchSyncedIff | modules/01-tenant-control-plane/internal/store/tenant.go:220-231 | a patch leaves the table in step with memory if and only if it is not refused after renaming |
| Tenants.SyncedUntilRefused | modules/01-tenant-control-plane/internal/store/tenant.go:151-293 | from the start or a restart on, the table is in step until such a patch |
| Tenants.RestartEquivalentIff | modules/01-tenant-control-plane/internal/store/persist.go:43-106 | the tenants come back, nil metadata as empty, if and only if the table was in step |
| Tenants.RestartKeepsReservations | modules/01-tenant-control-plane/internal/store/persist.go:71-106 | while they are, a restart reserves exactly what was reserved |
| Tenants.RestartNamesAgreeIff | modules/01-tenant-control-plane/internal/store/persist.go:71-106 | after a restart reservations are the tenants’ names if and only if no two rows have the same name |
| Tenants.ApplyNamesAgreeIff | modules/01-tenant-control-plane/internal/store/tenant.go:151-293 | while rows have the records’ names, an operation or restart parts names and reservations if and only if it is a patch that changes a name |
| Tenants.NamesAgreeUntilRenamed | modules/01-tenant-control-plane/internal/store/tenant.go:151-293 | from the start, or a restart with distinct row names, they agree until such a patch |
| Tenants.StatusStep | modules/01-tenant-control-plane/internal/store/tenant.go:226-231 | a tenant that lives on keeps its status or makes one allowed transition |
| Tenants.StatusWalks | modules/01-tenant-control-plane/internal/store/tenant.go:100-116 | a tenant’s status history, restarts included, is a walk in the allowed transitions |
| Tenants.DeprovisioningIsOneWay | modules/01-tenant-control-plane/internal/store/tenant.go:100-116 | deprovisioned is final, and nothing reactivates a tenant that is being deprovisioned |
| TenantEffects.RowsKeepAll | modules/01-tenant-control-plane/internal/store/persist.go:43-68 | a row says what the record says, nil metadata as empty |
| TenantEffects.EnteredFrom | modules/01-tenant-control-plane/internal/store/tenant.go:100-116 | from which statuses each status can be entered |
| TenantEffects.CreateEffect | modules/01-tenant-control-plane/internal/store/tenant.go:151-180 | a taken id or name changes nothing; otherwise the tenant is stored with the defaults and its name reserved; the others stay |
| TenantEffects.PatchEffect | modules/01-tenant-control-plane/internal/store/tenant.go:211-268 | given fields and positive limits are taken, the rest and every other tenant and reservation stay |
| TenantEffects.PatchRefused | modules/01-tenant-control-plane/internal/store/tenant.go:220-231 | with a status that is not allowed the names are taken in memory and nothing else |
| TenantEffects.DeleteEffect | modules/01-tenant-control-plane/internal/store/tenant.go:271-293 | the tenant and its reservation are gone; the others stay |
| TenantEffects.UnknownEffect | modules/01-tenant-control-plane/internal/store/tenant.go:211-293 | an id that is not there changes nothing |

## Left out

- HTTP handlers, request validation, JSON, routing, middleware, logging and start-up code: plumbing.
- The upstream identity provider beyond a table from uuid to group name and tenant, and, per request, the order of its
  listing, which calls fail and which writes are made though their reply is lost. Creating a group of a taken name or
  renaming one to it is refused there.
- The provisioning calls of SetupTenant and RemoveTenant are one outcome each.
- Mutexes: each locked method is one atomic step. Outside eviction it reads the clock once; cleanup does not read it per entry.
- Requests of the delegation handler are taken as atomic as well, though the handler has no lock.
- TenantManager.Manager.GetTenantState: taken as one step, though the lock is given up between the check and the invalidation.
  What a call in between can see is covered by the sequences, which may invalidate any tenant at any time.
- TenantManagerProperties.AlwaysSound: for sequences in which no entry expires in the middle of an eviction; MislaidExpires and
  MakeRoomCanHangForward show what happens if one does.
- Failures of the table writes, and the memory-only mode without a table: every write reaches the table.
- The database engine itself: a table is a map with upsert and delete, a transaction is all or nothing.
- JSON documents are their decoded contents; encoding and its errors are left out, as are nested documents shared with callers
  (except deployments' desired states, which are modelled as shared maps).
- Migration file names, their parsing and the sort: the runner is given a list, sorted where a lemma says so.
- Invalid UTF-8: the splitter reads runes.
- SqlStandard.AgreementIsExact: the reading of SQL does not know numbers with an exponent or a base prefix right before a `$`,
  nor escape strings continued by a second quoted piece on a later line.
- Integer overflow in paging; prices are real numbers.
- The sort of listings is any permutation that sorts by name, since the library's sort is not stable.
- Callers that go on changing a record after handing it to a store or getting it back. Create of payment methods, namespaces,
  subscriptions and tenants takes a record that the store does not hold already.
- Deployments' records are values in the map rather than cells; only their desired states are modelled as shared.
- Environments' backup policy and deployments' manifests are opaque strings: no operation looks into them.
- DelegationProperties.AlwaysCoherent: for tenants as SafeIffClean requires, own roles, fresh group ids and unique names upstream;
  UpdateRightIff and DeleteRightIff say what happens with another tenant's role.
- PaymentMethods.AlwaysSingleDefault: for updates that keep the property; UpdateSingleIff and UpdateCoherentIff say which do.
- Grants and revocations of delegations, users, and the access-control evaluation: branch tables over foreign calls.
- Resources, agents, invoices, policies and secrets: their stores repeat the single-index pattern.
- Default quotas by plan, name comparison and the plain listings of the stores: single expressions over what is modelled.
