# Verification of the key-billing plugin

This project models, in Dafny, the state machines with which the plugin decides whether a
downstream API key may run a request, on which upstream credential it runs, and what the key is
charged afterwards, and proves that they keep their promises over every input and every run.

| Part | Files | What is proved |
|---|---|---|
| Credential choice | `Scheduler`, `SchedulerWeights`, `SchedulerFairness`, `SchedulerRange`, `SchedulerTurns` | for the weights the host writes in decimal, smooth weighted round-robin gives every credential exactly its weight in *every* window of W picks exactly if it does in the first one, which it does while no score overflows, with tight bounds in between; the exact score bookkeeping, wrapping and changing candidates included; how large weights may be |
| Storage | `Changes`, `Store`, `RequestLogs` | write-behind: over any mix of updates and edits with failing saves, disk and memory agree on everything not announced as dirty; failed edits are invisible, which is a heap-separation argument over shared key records; no request event is lost or written twice unless a thousand newer ones wait or it is before the retention cutoff |
| Access resolution | `Routing`, `Resolution`, `AccessMeaning`, `StandingMeaning`, `DecisionLists` | the merging, open-grant, sorting and narrowing code decides exactly what a short declarative meaning permits; that meaning is said of the stored records alone and does not depend on the order and repetition of anything that is listed or stored |
| Access edits | `AccessRules`, `RuleMeaning`, `AccessBindings`, `AccessEdits`, `RouteEdits`, `EditMeaning` | exactly which rules, routes and groups are accepted and what each edit does to each record; every group, route and binding edit keeps all references valid and at most one enabled exclusive group per key, so that resolution never ends in a configuration error |
| Credential replacement | `CredentialMigration`, `ReplacementMeaning`, `ReplacementRuns`, `IntegrationMigration` | replacing credentials commutes with resolution, and completing moves every reference there is by then, whatever was edited since; the recoverable protocol around it survives failing writes, crashes and retries |
| Account pools | `AccountAliases`, `AccountRuntime`, `SlotCounts`, `PoolMeaning` | the alias forest is a least union, limits are the strictest of each pool, counters are exact |
| Admission race | `KeySlots`, `AdmissionMarkers`, `Admission`, `AdmissionRuns` | whatever the interleaving of calls and completions, a completed request holds a slot afterwards, under the spelling it was completed by, exactly if a call that began after the completion has taken it |
| Quotas | `ModelNames`, `QuotaScopes`, `ModelMeaning`, `QuotaCycles`, `QuotaState`, `Enforcement`, `UsageRecords`, `Plans`, `PlanBindings`, `KeyList`, `QuotaLedger` | anchored cycles, exact refusals and retry times, admission and usage selecting the same windows, counters equal to the capped sum of a full usage log |
| Runs of the whole store | `ReachableStates`, `QuotaHistory` | over any sequence of calls of all the operations above, with any saves failing: plans, cycles and bindings stay valid, no key is left with a configuration error, and exactly when a counter is the capped sum of the usage recorded for its key |
| Reference prices | `PriceMatching`, `ReferencePrices` | the LRU cache agrees with the uncached match for the published version, through a concurrent refresh, for exactly the requests whose cache key is their own |
| Traffic capture | `CaptureBodies`, `TrafficCapture`, `CaptureHooks`, `CaptureMeaning`, `CaptureSync` | byte accounting and eviction of the ring; what a request, response and completion leave of an entry; exactly when a page that polls with a revision cursor, and takes answers to its commands at any time, shows the server's list |

`Text` and `Model` hold what all of them share: strings, and the working set of plans, keys,
routes, groups and credentials. `dafny verify dfyconfig.toml` checks the whole project.

## Conventions

* Code that updates fields under a lock is a class whose methods change the same fields; each
  critical section is one method, and a concurrent run is any sequence of them.
* Writes that may fail take a Boolean parameter that says whether this one does. Clocks,
  generated identifiers and what the database or host returns are parameters too.
* Times are integers, in nanoseconds since the Unix epoch, and truncated to seconds where the
  code truncates. Money is `real`. Strings are ASCII, so case folding is lower-casing.
  Credential fingerprints are strings of the right form.
* A request's own model name is one string here, at admission and in its usage record. The code
  reads it from the request, or else from its metadata (intercept.go:133-136), and later from the
  alias in the host's record; that the host reports the name it was asked for is assumed.
* `ghost` fields record what the running program does not: the full log of unsaved events, which
  call holds which admission marker, which names a cached price was computed for, the story of a
  replacement.

## Where the code does not meet a promise

Each of these is proved: an input or a run that fails, and exactly when the code does meet the
promise. Only for three or more unequal weights is the condition that can be checked beforehand
sufficient and not exact.

* **Weights that overflow starve.** Scores are `int64`. With two weights of 2^62 the second pick
  goes to the first credential again (`SchedulerFairness.OverflowStarves`). Two credentials stay
  within half a pick of their shares exactly when a limit computed from their weights holds
  (`SchedulerRange.PairLimit`). Equal weights, however many, take turns exactly when no wrapped
  score overtakes the next in turn, n - 1 comparisons of multiples of the weight
  (`SchedulerTurns.EqualWeightsTakeTurns`); they hold while the sum fits
  (`SchedulerTurns.EqualWeightsFit`) and for some sums that do not
  (`SchedulerTurns.OverflowingTurns`). For any weights, every window of W picks is fair exactly
  when the first one is (`SchedulerTurns.FirstWindowDecides`); `SchedulerFairness.Room` is a closed
  sufficient bound for that (`SchedulerFairness.RoomFits`).
* **The configured inventory may depend on map order.** When two replaced credentials compete for
  one replacement that is not configured yet, the one visited first wins. The result is
  determined exactly when competing entries are equal (`CredentialMigration.InventoryIsDetermined`).
* **A replacement can make a rule contradict itself.** Where an allowed and a denied credential
  have one destination, because both are replaced alike or one is replaced by the other, one
  reference ends up on both sides, and the next edit of that rule is refused. That is the only
  way (`AccessRules.MigrationKeepsNormal`, `AccessRules.MergingCanConflict`).
* **The order of entries can decide whether a list of credentials is accepted.** Of each name the
  first spelling is checked, and the scheme must be in small letters there
  (`RuleMeaning.EnteredReferences`): a fingerprint may be repeated with the scheme in capitals, but
  the same two entries the other way round are refused (`RuleMeaning.CapitalsDependOnOrder`).
* **A request without a model name follows the upstream.** It may be charged to other windows than
  it was admitted under: this can happen exactly when the name is blank and some window of the
  plan is scoped (`QuotaScopes.AgreementIsExact`, `QuotaScopes.BlankNameDiffers`).
* **Account slots go by the exact spelling of a request ID**, key slots and markers by the trimmed
  one. After a completion exactly the slots held under other spellings of that ID are left
  (`Admission.Gate.Complete`), as in one run (`Admission.SpellingMatters`).
* **A completion is only remembered by calls in flight.** A call that begins after its request has
  been completed takes slots like any other, and nothing is left to free them
  (`AdmissionRuns.CallAfterCompletion`, for every request ID that no call in flight has;
  `AdmissionRuns.LateCall`). A completed request holds a slot exactly if such a call took it
  (`AdmissionRuns.LeftByLateCallsOnly`).
* **A NUL character in a model name can make two requests share a cached price.** A request shares
  its key with another exactly when it has two names, or one that reads as two joined by a NUL
  (`PriceMatching.SharedKeys`). Every such request is answered wrongly in some run
  (`ReferencePrices.Misled`), and no other ever is (`ReferencePrices.Manager.LookupCached`).
* **A page can miss a restart of the server.** The first poll after it is right exactly when the
  revision has dropped below the page's cursor or nothing the server retains has a revision at or
  below it (`CaptureSync.RestartIsNoticed`); one request before and one after the restart is
  enough to miss it (`CaptureSync.MissedRestart`).
* **A late answer to a command loses rows.** The page drops every row the answer does not list. If
  the answer was given before a poll that the page has taken since, a row which that poll brought
  is gone, and no later poll brings it back until it changes (`CaptureSync.LateCommand`). The next
  poll shows the server's list exactly when everything the page has was listed by the answer
  (`CaptureSync.LateAnswer`, `CaptureSync.LateAnswerShows`).
* **A use recorded before a cycle was created is never counted**, though the cycle covers every
  request made from its creation on: after the clock has stepped back, or at the very instant of
  the creation. For every bound key without cycles and every window there is such a run
  (`QuotaHistory.EarlierUseIsLost`, `QuotaHistory.LostAtTheSameInstant`). A live cycle's counters
  are the capped sum over the whole log exactly when no use that it covers and that a counter below
  its cap would show was recorded before the admission that created it
  (`QuotaHistory.CounterIsExactUnless`).

## Model

| member | source | states |
|---|---|---|
| Scheduler.SubsetScheduler.Pick | internal/plugin/scheduler.go:62-134 | with fewer than two candidates of positive weight a pick changes nothing; otherwise it is one scheduler step on the sorted candidates, from the very pool the key and pool name hold, and the only pool it changes, except that a key that already has 256 pools drops them for a new one |
| SchedulerWeights.WeightIsOffered | internal/plugin/scheduler.go:31-41 | a candidate takes part with weight n exactly when n is below 2^63 and the attribute writes n in decimal, with any leading zeros, an optional plus and blanks around it, or is blank and n is 1 |
| SchedulerWeights.WeightsAreOffered | internal/plugin/scheduler.go:62-78 | an ID has weight n exactly when the last of its offers of a positive weight is n |
| SchedulerWeights.SharesAreOffered | internal/plugin/scheduler.go:62-134 | so, while no score overflows, any W picks in a row give a candidate listed under its own ID exactly the n picks that its attribute writes |
| SchedulerWeights.PickAgain | internal/plugin/scheduler.go:62-134 | calling Pick again and again, with the candidates in any order, runs the scheduler the theorems are about |
| SchedulerWeights.ReadyMeans | internal/plugin/scheduler.go:98-118 | before a pick all scores start over if a weight on record has changed, and otherwise, beyond 1024, those of all but the candidates are forgotten; the weights offered are on record afterwards |
| Scheduler.SubsetScheduler.Prune | internal/plugin/scheduler.go:136-144 | keeps exactly the pools of the given scopes |
| Scheduler.PickIgnoresOrder | internal/plugin/scheduler.go:62-78 | the order in which the host lists candidates does not matter |
| SchedulerFairness.StepPicksBest | internal/plugin/scheduler.go:119-133 | every pick, wrapping included, takes a candidate with the highest raised score, ties to the smallest ID |
| SchedulerFairness.ShareIsTracked | internal/plugin/scheduler.go:119-133 | while no score overflows, after any number of picks nobody is more than (n-1)/n of a pick ahead of its share, nor more than (n-1)^2/n picks behind |
| SchedulerFairness.RoomFits | internal/plugin/scheduler.go:119-133 | weights for which ((n-1)^2/n)W + w fits int64 never overflow a score |
| SchedulerRange.PairLimit | internal/plugin/scheduler.go:119-133 | two credentials stay within half a pick of their shares for ever exactly when their weights respect a limit computed from their greatest common divisor, which is exactly when no score overflows |
| SchedulerTurns.ScoresWrap | internal/plugin/scheduler.go:98-133 | for any weights, after any number of picks every stored score is what the weight earned minus what the wins cost, modulo 2^64 |
| SchedulerTurns.EqualWeightsTakeTurns | internal/plugin/scheduler.go:119-133 | equal weights take turns in ID order for ever exactly when no wrapped score overtakes the next in turn, which is exactly when each of them wins one of the first n picks |
| SchedulerTurns.EqualWeightsFit | internal/plugin/scheduler.go:119-133 | no score of equal weights overflows exactly when their sum fits, and then they take turns |
| SchedulerTurns.OverflowingTurns | internal/plugin/scheduler.go:119-133 | five equal weights with the sum 2^64 + 4 overflow and take turns for ever all the same |
| SchedulerFairness.PeriodIsExact | internal/plugin/scheduler.go:62-134 | while no score overflows, W picks give everyone exactly its weight and leave all scores at zero |
| SchedulerFairness.RunIsPeriodic | internal/plugin/scheduler.go:62-134 | while no score overflows, picks and scores repeat with period W |
| SchedulerTurns.FirstWindowDecides | internal/plugin/scheduler.go:62-134 | for any weights, any W picks in a row, starting anywhere, give each credential exactly its weight, exactly when the first W picks do; and they do while no score overflows |
| SchedulerFairness.StepConserves | internal/plugin/scheduler.go:98-133 | for any weights, overflowing ones included, one pick leaves the sum of the score map unchanged modulo 2^64 |
| SchedulerFairness.ScoresCancel | internal/plugin/scheduler.go:98-133 | while candidates come, go and change weight, the scores sum to zero modulo 2^64 until the over-1024 trim |
| SchedulerFairness.OverflowStarves | internal/plugin/scheduler.go:119-133 | with two weights of 2^62 the second pick goes to the first credential again |
| ChangeSets.MergeAnnounces | internal/billing/repository.go:53-87 | a merge announces exactly what either side announced |
| ChangeSets.MergeAssociates | internal/billing/repository.go:53-97 | retrying in any grouping announces the same changes, the same queues and the same retention cutoff |
| ChangeSets.LastOfAppend | internal/billing/repository.go:89-97 | cutting a queue to its newest events early loses nothing |
| Stores.Store.FinishUpdate | internal/billing/store.go:173-206 | memory keeps the change; if the save works everything waiting and new is on disk, events not before the cutoff included; if it fails the disk is as it was and everything goes on waiting, of events the newest 1000 of each kind |
| Stores.Store.Publish | internal/billing/store.go:245-275 | a failed edit leaves memory, dirty set, queues and disk as they were; a successful one publishes and saves everything, and the events that waited with it |
| Stores.Store.CopyForEdit | internal/billing/store.go:218-243 | the working copy has the same contents in records of its own, sharing none with the live state |
| Stores.Store.Edit | internal/billing/store.go:210-275 | an edit rewrites the copy in place, and the live records only change by publishing it |
| Stores.Pruned | internal/sqlite/request_events.go:62-70 | a save removes exactly the events before its cutoff, if one is set, each event otherwise staying as often as it was there |
| Stores.SavingFlushes | internal/sqlite/repository.go:41-59 | an edit that gets saved leaves nothing waiting and writes every waiting event, once, that is not before the pending cutoff |
| RequestLogs.OnlyOverflowIsLost | internal/billing/store.go:173-275 | over any attempts to save, working and failing, an event that is not before a cutoff is in the log or waits exactly as often as it was announced and not pushed out by a thousand newer ones |
| RequestLogs.NothingIsDropped | internal/billing/repository.go:89-97 | none is pushed out while at no attempt more than a thousand of its kind would wait |
| RequestLogs.ThenTheLogHasAll | internal/sqlite/repository.go:41-59 | so after a save that works the log has every such event exactly as often as it was announced |
| ChangeSets.MergeKeepsNewest | internal/billing/repository.go:89-97 | of what waits and what comes exactly the newest 1000 are kept, in order |
| ChangeSets.MergeIsEmpty | internal/billing/repository.go:48-87 | nothing needs saving exactly when neither the edit nor earlier failures left anything |
| Routing.EffectiveKeyGroups | internal/billing/access_control.go:159-193 | the loop computes the specified selection or the first failure |
| AccessMeaning.EffectiveGroupsMean | internal/billing/access_control.go:159-193 | it fails exactly on a missing or malformed group or two enabled exclusive ones, and otherwise selects exactly the enabled groups that take part |
| Resolution.GrantUnit | internal/billing/routing.go:728-742 | the unit lists exactly what the grant and its existing routes allow |
| Resolution.OpenGrant | internal/billing/routing.go:747-769 | an open grant exists exactly when listed units all have credentials and an unlisted one exists, and holds exactly the unlisted units' credentials |
| Resolution.TidyMatches | internal/billing/routing.go:709-722 | sorting and compacting changes neither emptiness nor what a list matches |
| DecisionLists.TidyIsCanonical | internal/billing/routing.go:709-722 | lists of the same credentials come out the same: ascending and without repeats |
| DecisionLists.TidyCategoriesAreCanonical | internal/billing/routing.go:709-722 | and so do lists of the same categories |
| DecisionLists.SameGrantsSamePool | internal/plugin/scheduler.go:43-60 | so decisions that list the same credentials and categories keep the same scheduler pool, whatever order their grants were merged in |
| Resolution.GrantsAddUp | internal/billing/routing.go:644-655 | merging all routes and then all rules is merging grant by grant |
| Resolution.ResolveRoutingState | internal/billing/routing.go:592-724 | the decision represents the key's standing: the declarative meaning's grants, denials, limits and refusals |
| Resolution.ResolveRouting | internal/billing/routing.go:570-578 | for every key and model, exactly the models and credentials that the standing permits are allowed, and errors are reported exactly when it is broken or refused |
| StandingMeaning.UnmanagedExactly | internal/billing/routing.go:592-632 | nothing is restricted exactly when access control is off, or it does not refuse ungrouped keys and the key is unknown or has no binding at all |
| StandingMeaning.RefusedExactly | internal/billing/access_control.go:105-109 | everything is refused exactly when access is on and the key has no group where ungrouped keys are refused, or its groups are in order and none that takes part binds a route or lists anything in any of the six dimensions |
| StandingMeaning.BrokenExactly | internal/billing/access_control.go:147-193 | it ends in a configuration error exactly when its groups are not in order, or, not being refused, a route that a participating group or the key binds is missing |
| StandingMeaning.ManagedMeans | internal/billing/routing.go:592-671 | otherwise the grants are those of the participating groups and of the key itself, each with its routes and rule, as stored |
| RuleMeaning.AllowedExactly | internal/billing/routing.go:105-123 | a candidate passes exactly when the decision refuses nothing and rule and constraint let it pass: neither it nor, as far as the host tells, its category is denied, and it or its category is listed where a list is required |
| RuleMeaning.ModelAllowedExactly | internal/billing/routing.go:84-98 | a model passes exactly when the decision refuses nothing and no model is named, or it is not denied and is listed if any is |
| AccessMeaning.OrderDoesNotMatterForCredentials | internal/billing/routing.go:592-769 | the order and repetition of grants changes no decision about a credential |
| AccessMeaning.OrderDoesNotMatterForModels | internal/billing/routing.go:592-769 | nor about a model |
| AccessMeaning.WritingDoesNotMatter | internal/billing/routing.go:592-769 | reordering or repeating rule entries, bound routes, a key's groups, or stored routes and groups leaves the standing as it was up to the order of its grants |
| AccessMeaning.StoredOrderDoesNotMatter | internal/billing/routing.go:320-332 | lists with the same entries under distinct IDs find alike, in whatever order they are stored |
| AccessMeaning.OnlyParticipantsMatter | internal/billing/access_control.go:159-193 | reordering, repeating, or adding groups that do not take part changes nothing |
| AccessMeaning.OutsidersHaveNoEffect | internal/billing/access_control.go:159-193 | beside an exclusive group, an ordinary or disabled group has no effect |
| AccessMeaning.ExclusivePoolOnlyShrinks | internal/billing/routing.go:664-701 | with an exclusive group, everything the key may use is permitted by its groups alone |
| AccessMeaning.ErasingNeverHelps | internal/billing/routing.go:105-123 | hiding a candidate's source or provider never turns a refusal into a permission |
| AccessMeaning.ErasingCouldHelp | internal/billing/routing.go:105-123 | why categories must name both fields: one with a blank source, which is never stored, would match only candidates that hide theirs |
| AccessRules.NormalizeNames | internal/billing/routing.go:274-290 | the loop trims, checks and drops repeats in any spelling, as specified |
| AccessRules.NamesMean | internal/billing/routing.go:274-290 | it fails exactly on a blank or overlong name, and its result matches exactly the names entered, each once |
| AccessRules.ReferencesMean | internal/billing/routing.go:292-304 | references come out as distinct lower-case fingerprints that match exactly those entered, and normalizing again changes nothing |
| AccessRules.CategoriesMean | internal/billing/routing.go:195-205 | categories come out distinct, complete and exactly those entered |
| AccessRules.NormalizingRules | internal/billing/routing.go:207-255 | a rule is normal exactly when normalizing accepts it as it is, and normalizing makes no others |
| RuleMeaning.FingerprintMeans | internal/billing/routing.go:187-193 | a fingerprint is the scheme and 64 hexadecimal digits |
| RuleMeaning.EnteredReferences | internal/billing/routing.go:274-304 | a list of credentials is accepted exactly when every entry is a name and the first spelling of each is a fingerprint, and lists what was entered |
| RuleMeaning.CapitalsDependOnOrder | internal/billing/routing.go:274-304 | a fingerprint and its spelling with the scheme in capitals: accepted in one order, refused in the other |
| RuleMeaning.RuleMeans | internal/billing/routing.go:207-255 | a rule is accepted exactly when its six lists are and nothing is both allowed and denied in any spelling; it is stored listing the same models, credentials and categories on the same sides |
| AccessRules.MigrationKeepsNormal | internal/billing/credential_migration.go:29-49 | a replacement, preparing or completing, keeps a rule normal exactly when no allowed and denied credential of it have one destination |
| AccessRules.MergingCanConflict | internal/billing/credential_migration.go:29-49 | two credentials with one replacement, one allowed and one denied, leave a rule that can no longer be saved |
| AccessBindings.NeverBroken | internal/billing/routing.go:592-671 | in a well-bound state no key's resolution ends in a configuration error |
| AccessBindings.StoredRefsAreNormalized | internal/billing/routing.go:292-304 | stored references are in lower case |
| AccessBindings.HidingNeverHelps | internal/billing/routing.go:105-123 | whatever was stored, hiding metadata never gets a candidate accepted |
| AccessBindings.OtherEditsKeepBindings | internal/billing/keys.go:116-324 | whatever leaves routes, groups and existing bindings as they are and adds only unbound keys keeps every binding well-formed |
| ReachableStates.StepKeepsGood | internal/billing/store.go:173-275 | every edit of every operation keeps plans and cycles consistent, all bindings well-formed and stored scopes normalized |
| ReachableStates.EveryReachableStateResolves | internal/billing/routing.go:592-671 | so in every state any run of edits reaches, cycles are valid and no key's resolution ends in a configuration error |
| ReachableStates.Perform | internal/billing/store.go:173-275 | each call of an operation makes exactly its step on the working set, or, if its save fails, may leave it as it was; uses always make theirs |
| KeyLists.ViewKeys | internal/billing/keys.go:27-49 | viewing the keys settles every live key and changes nothing else |
| KeyLists.SyncKeys | internal/billing/keys.go:275-324 | listed keys are created or restored, keys no longer listed are marked deleted, and plans, cycles and bindings survive both |
| EditMeaning.SyncMeans | internal/billing/keys.go:275-324 | field by field: preview, listing and deletion follow the list; plan, cycles, limit and bindings stay, or are empty for a new key |
| AccessBindings.ReplacementKeepsBindings | internal/billing/credential_migration.go:15-83 | preparing or completing a replacement keeps every binding well-formed |
| AccessEdits.RefusedExactly | internal/billing/access_control.go:195-204 | a binding of existing groups is refused exactly when two different ones are enabled and exclusive |
| AccessEdits.JoiningRefusedExactly | internal/billing/access_control.go:206-237 | a new group can be bound to a key unless both it and one the key has are enabled and exclusive |
| AccessEdits.UpdatingRefusedExactly | internal/billing/access_control.go:239-300 | an updated group is judged the same way for every key that holds it |
| AccessEdits.CreateGroup | internal/billing/access_control.go:206-237 | group and bindings appear together or not at all, and the state stays well-bound |
| AccessEdits.UpdateGroup | internal/billing/access_control.go:239-300 | exact new state or none; a conflict for any holder, deleted keys included, refuses the update |
| AccessEdits.DeleteGroup | internal/billing/access_control.go:302-320 | the group goes and no key stays bound to it |
| AccessEdits.SetKeyGroups | internal/billing/access_control.go:322-351 | all named keys get exactly these groups, or nothing changes |
| AccessEdits.SetAccessControl | internal/billing/access_control.go:67-73 | the settings change and nothing else |
| RouteEdits.CreateRoute | internal/billing/routing.go:412-440 | route and bindings appear together or not at all |
| RouteEdits.UpdateRoute | internal/billing/routing.go:442-496 | exact new state or none; bindings change only where the selection says |
| RouteEdits.SetKeyRoutes | internal/billing/routing.go:498-522 | the key gets exactly these bindings and counts as configured, or nothing changes |
| RouteEdits.DeleteRoute | internal/billing/routing.go:524-563 | refused exactly while a group binds the route; otherwise no key stays bound to it |
| EditMeaning.RouteReaches | internal/billing/routing.go:412-563 | which keys bind a route after it is created, updated or deleted; every other field of every record is as it was |
| EditMeaning.GroupReaches | internal/billing/access_control.go:206-320 | likewise for groups |
| EditMeaning.StoredAs | internal/billing/access_control.go:84-105 | exactly which routes and groups are accepted, and how they are stored |
| EditMeaning.GroupCreationMeans | internal/billing/access_control.go:206-237 | a group is created exactly when it can be stored under a free ID, its routes exist, and every key named is live and can hold it beside its other groups |
| EditMeaning.GroupUpdateMeans | internal/billing/access_control.go:239-300 | a group is updated exactly when it exists, its patched form can be stored, its routes exist, every key selected is live or had it, and every key that will hold it can |
| EditMeaning.GroupingMeans | internal/billing/access_control.go:322-351 | the groups of keys can be set exactly when some key is named, all are live, and the groups exist and go together |
| EditMeaning.RouteCreationMeans | internal/billing/routing.go:412-440 | a route is created exactly when it can be stored under a free ID and every key named is live |
| EditMeaning.RouteUpdateMeans | internal/billing/routing.go:442-496 | a route is updated exactly when it exists, its new form can be stored, and every key selected is live or had it |
| EditMeaning.BindingMeans | internal/billing/routing.go:498-522 | a key's own routes and rule can be set exactly when it is live, list and rule are accepted and the routes exist |
| CredentialMigration.Validate | internal/billing/credential_migration.go:16-26 | accepts exactly mappings of distinct lower-case fingerprints without chains, at most 32 |
| RuleMeaning.AcceptableMeans | internal/billing/credential_migration.go:16-26 | that is: at most 32 pairs of different names, each the scheme and 64 small hexadecimal digits, none of which replaces a replacement |
| CredentialMigration.RepeatsChangeNothing | internal/billing/credential_migration.go:29-43 | preparing before completing, or repeating either, ends in the very list one completion gives |
| CredentialMigration.NeverEmptied | internal/billing/credential_migration.go:29-49 | no list loses all its entries, so no rule turns unrestricted |
| CredentialMigration.MigrateKeys | internal/billing/credential_migration.go:56-60 | every record is rewritten in place and exactly the changed ones are reported |
| CredentialMigration.MigrateInventory | internal/billing/credential_migration.go:61-79 | the loop leaves what visiting the pairs in some order leaves, and reports a change exactly when there is one |
| CredentialMigration.InventoryIsDetermined | internal/billing/credential_migration.go:65-76 | that order is irrelevant exactly when no two credentials compete |
| CredentialMigration.MigrateCredentialRefs | internal/billing/credential_migration.go:15-83 | everything moves in one transaction or nothing does; a failing save is noticed exactly when there is something to save |
| ReplacementMeaning.StandingMoves | internal/billing/credential_migration.go:29-60 | resolving after a migration is migrating what was resolved before |
| ReplacementMeaning.ReplacementInherits | internal/billing/credential_migration.go:9-14 | a new reference that stands in for one credential alone is treated, for every key and model, exactly as that one was, after preparing and after completing |
| ReplacementMeaning.PreparingKeepsTheOld | internal/billing/credential_migration.go:9-14 | until completion the replaced credential keeps its decisions |
| ReplacementMeaning.OthersKeepTheirs | internal/billing/credential_migration.go:9-14 | credentials outside the mapping keep theirs throughout |
| ReplacementMeaning.ModelsKeepTheirs | internal/billing/credential_migration.go:29-60 | no key gains or loses a model |
| ReplacementMeaning.CompletionRetires | internal/billing/credential_migration.go:36-38 | after completion no rule mentions a retired credential |
| ReplacementMeaning.PreparingFirstChangesNoRule | internal/billing/credential_migration.go:29-60 | prepare-then-complete leaves the rules one completion leaves |
| ReplacementRuns.CompletionAfterAnyRun | internal/billing/credential_migration.go:29-83 | completing after any run of edits moves every reference the rules hold by then: none mentions a retired one, and each key stands as it did with the references replaced |
| IntegrationMigration.Integration.Save | internal/plugin/integration_migration.go:19-29 | the newest record is in the host or in memory, never lost |
| IntegrationMigration.Integration.Begin | internal/plugin/integration_migration.go:60-75 | refused while one is pending; rules and pools stay untouched before the host has the record; success means that record, rules and pools are prepared, and nothing but a failing write or a mapping that billing or pools refuse prevents it |
| IntegrationMigration.Integration.Prepare | internal/plugin/integration_migration.go:92-118 | a record says prepared only once rules and pools are, whichever writes fail; without failures preparing succeeds |
| IntegrationMigration.Integration.Commit | internal/plugin/integration_migration.go:120-179 | committed means completed, joined and on the host's record; refusals are exactly as the code distinguishes them, and a repeated commit changes no rule |
| IntegrationMigration.Integration.Sync | internal/billing/routing.go:176-185 | reporting the host's channels changes no rule and no pool |
| IntegrationMigration.Integration.Restart | internal/plugin/integration_migration.go:16-18 | after a crash what the host, database and settings file hold continues one consistent story |
| IntegrationMigration.Recover | internal/plugin/integration_migration.go:92-179 | once the host has a record, a restart, a repair, a synchronization and a commit that do not fail finish it, wherever it had stopped |
| IntegrationMigration.SameAsCleanRun | internal/plugin/integration_migration.go:60-179 | two replacements that started alike and completed, with whatever failures between, leave the same rules, pools and limits |
| IntegrationMigration.RulesTwice | internal/billing/credential_migration.go:29-60 | retrying any part of a replacement in any order leaves what its furthest part leaves |
| AccountAliases.ResolveAlias | internal/plugin/account_runtime.go:89-99 | finds the root, or reports a cycle exactly when following aliases never ends |
| AccountAliases.FlattenAliases | internal/plugin/account_runtime.go:62-87 | succeeds exactly on acyclic aliases and maps each straight to its root |
| AccountAliases.FlatKeepsRoots | internal/plugin/account_runtime.go:62-87 | flattening keeps every root and is its own flattening |
| AccountAliases.LinkJoins | internal/plugin/account_runtime.go:171-184 | linking never makes a cycle and merges exactly the two pools |
| AccountAliases.JoinOneMore | internal/plugin/account_runtime.go:171-184 | the pools after each link are the least that contain the old ones and the pairs so far |
| AccountAliases.LeastJoinsAgree | internal/plugin/account_runtime.go:150-198 | so the resulting pools are determined |
| AccountRuntimes.ValidateSettings | internal/plugin/account_runtime.go:44-60 | accepts exactly well-formed, acyclic settings within the caps |
| PoolMeaning.SettingsMean | internal/plugin/account_runtime.go:44-60 | that is: at most 20000 accounts and aliases, all named by fingerprints in small letters, limits from 0 to 1000, and no chain of aliases that comes back |
| PoolMeaning.PoolsAcceptToo | internal/plugin/account_runtime.go:150-197 | every mapping that the rules accept is one the pools accept |
| AccountRuntimes.NormalizeSettings | internal/plugin/account_runtime.go:124-145 | flat aliases, and every member of a pool with the strictest nonzero limit any member had |
| AccountRuntimes.NormalFormUnique | internal/plugin/account_runtime.go:124-145 | the normal form is determined, whatever order maps are visited in |
| AccountRuntimes.NormalizingIsIdempotent | internal/plugin/account_runtime.go:124-145 | normalizing twice changes nothing more |
| AccountRuntimes.AccountRuntime.Acquire | internal/plugin/account_runtime.go:234-257 | a request holds at most one pool; it is admitted exactly when it holds the pool already or there is room, not counting itself; limits and counts are exact |
| AccountRuntimes.AccountRuntime.Release | internal/plugin/account_runtime.go:258-268 | frees exactly that request's slot |
| AccountRuntimes.AccountRuntime.MigrateCredentialRefs | internal/plugin/account_runtime.go:150-198 | joins exactly the listed pools, keeps the strictest limits, moves every running request to its pool's new root; repeated, it changes nothing; a failed write changes nothing |
| AccountRuntimes.AccountRuntime.SetLimits | internal/plugin/account_runtime.go:307-355 | sets the limit of every pool the edit names, for all members alike, and leaves the rest |
| KeySlots.SlotTable.AcquireSlot | internal/billing/concurrency.go:21-59 | one reservation per request, never past a finite limit, and a repeat is never newly acquired |
| KeySlots.SlotTable.ReleaseSlot | internal/billing/concurrency.go:63-81 | frees exactly that request's slot; unknown IDs are harmless |
| AdmissionMarkers.Admissions.Begin | internal/plugin/intercept.go:25-39 | the marker counts exactly the calls in flight under the trimmed ID and is shared by pointer |
| AdmissionMarkers.Admissions.End | internal/plugin/intercept.go:41-51 | the last call takes the marker away |
| AdmissionMarkers.Admissions.MarkCompleted | internal/plugin/intercept.go:212-217 | completion marks exactly the request in flight |
| Admission.Gate.Begin | internal/plugin/intercept.go:25-39 | a call with a usable request ID is in flight and holds its marker; like each method of the gate it makes exactly one possible step of the state machine whose runs are considered below |
| Admission.Gate.CommitBefore | internal/plugin/intercept.go:107-147 | a call of a completed request reserves nothing; a refusal leaves every reservation, its own request's included |
| Admission.Gate.CommitAfter | internal/plugin/intercept.go:172-200 | a call is admitted exactly when its request is not over, the credential and its state are in order and there is room in the account pool; an admission takes exactly that slot, a refusal gives up the slot of this spelling |
| Admission.Gate.End | internal/plugin/intercept.go:41-51 | when a call of a request completed while it was in flight returns, its key slot and the account slots under the spellings it was completed by are free |
| Admission.Gate.Complete | internal/plugin/intercept.go:212-222 | marks whoever is in flight and frees what the request holds, at once; of the spellings of its ID exactly the others keep their account slots |
| Admission.QuietReserve | internal/plugin/intercept.go:107-147 | only a request not yet completed can gain a key slot, so completed ones stay without |
| Admission.QuietComplete | internal/plugin/intercept.go:212-222 | completing leaves no reservation of any completed request |
| Admission.SpellingMatters | internal/plugin/intercept.go:212-222 | a completion spelled with other spaces leaves the account slot taken |
| AdmissionRuns.HeldExactly | internal/plugin/intercept.go:107-222 | along any run a slot is held exactly if it was all along or some call took it and nothing has freed it since |
| AdmissionRuns.TakersAreLate | internal/plugin/intercept.go:25-51 | whoever takes a slot of a request after its completion, under any spelling, began after that completion |
| AdmissionRuns.LeftByLateCallsOnly | internal/plugin/intercept.go:107-222 | whatever the interleaving, after a completion the key slot and the account slot of that spelling are held exactly if a call that began after the completion took them and nothing has freed them since |
| AdmissionRuns.NothingLeft | internal/plugin/intercept.go:107-222 | so a completed request for which no further call begins leaves no key slot, and no account slot of that spelling |
| AdmissionRuns.CallAfterCompletion | internal/plugin/intercept.go:212-222 | a completion that meets no call in flight is not remembered: a call that begins afterwards, where no limit stands in its way, leaves its account slot taken |
| AdmissionRuns.LateCall | internal/plugin/intercept.go:212-222 | one such run, from a new gate to one with no call in flight |
| ModelNames.BillingModelIsStable | internal/billing/prices.go:207-242 | a named model is billed as one name whatever upstream served it |
| ModelNames.UsageMeetsAdmission | internal/billing/quota_scope.go:80-146 | so admission and usage select the same windows |
| ModelMeaning.BaseMeans | internal/billing/prices.go:230-238 | what is taken off a name is exactly its last option in parentheses and what is blank before it |
| ModelMeaning.BillingMeans | internal/billing/prices.go:207-228 | a request is billed as the upstream model if the client names none or leaves it open; else as the custom price of the full name, else of the name without option; else as that name |
| ModelMeaning.MatchesMeans | internal/billing/quota_scope.go:80-136 | a window counts a model exactly when its scope is empty, lists the model in any spelling, or lists a family of whose names the model, without option and route prefix, has the beginning |
| ModelMeaning.UnresolvableMeans | internal/billing/enforce.go:46-60 | admission refuses to guess exactly when the model is left open and some window is scoped |
| ModelMeaning.ScopeMeans | internal/billing/quota_scope.go:43-72 | a scope is accepted exactly when it lists up to 1024 models or six known families, not both, each a listable name; it is stored with the same entries |
| ModelMeaning.RequestKeysMean | internal/billing/reference_prices.go:135-150 | a request looks for the upstream model first, then for the requested one unless it is left open or the same |
| QuotaScopes.AgreementIsExact | internal/billing/quota_scope.go:80-146 | whatever upstream an admitted request used, admission and usage select the same windows, exactly when the request names a model or no window is scoped |
| QuotaScopes.BlankNameDiffers | internal/billing/prices.go:207-228 | for every scoped window, two upstreams for which a blank name is admitted under other windows than it is charged to |
| ModelNames.ForModel | internal/billing/quota_scope.go:138-146 | selects exactly the windows whose scope matches |
| QuotaScopes.NameSetCanonical | internal/billing/quota_scope.go:43-72 | one stored list per set of names |
| QuotaScopes.NormalizingIsStable | internal/billing/quota_scope.go:43-72 | a normalized scope is stored as it is |
| QuotaCycles.AnchoredStart | internal/billing/quota.go:105-118 | an anchored cycle starts at the one aligned instant whose period contains now, before or after the anchor |
| QuotaCycles.SameScheduleSameCycles | internal/billing/plan.go:126-133 | two windows have the same schedule exactly when they always run the same cycles and their anchors are at the same fraction of a second |
| QuotaCycles.CycleMeans | internal/billing/quota.go:167-187 | a stored cycle is valid exactly when it is of its plan and as long as its period, no counter is negative, an anchored one begins whole periods away from the anchor, and it counts from a time within it |
| QuotaCycles.SettleExpired | internal/billing/quota.go:142-151 | drops exactly the expired cycles |
| QuotaCycles.ActivatedAt | internal/billing/quota.go:153-165 | live cycles stay; a missing one is created by a window that lists it |
| QuotaCycles.ChargedAt | internal/billing/quota.go:189-209 | exactly the listed windows' cycles whose time includes the request gain the usage, once |
| Enforcement.QuotaView | internal/billing/quota.go:83-103 | blocked exactly when a live cycle of an unscoped window has used as much as a positive limit of its amount, its tokens or its requests, with the latest end as retry time; each window shows its live cycle, or else the period now lies in |
| Enforcement.ApplyMatchedWindows | internal/billing/enforce.go:88-99 | after selection by model every window decides |
| Enforcement.AdmissionStartsAll | internal/billing/enforce.go:64-86 | admission leaves every matching window with a live cycle |
| Enforcement.OtherWindowsDoNotMatter | internal/billing/enforce.go:46-86 | usage of other windows never changes a model's decision |
| Enforcement.RetryIsExact | internal/billing/quota.go:83-103 | without usage in between, a refused request is refused at every time before the retry time and admitted at every time from it on |
| Enforcement.RetryAfterRefusal | internal/billing/enforce.go:26-86 | so of two calls with the same request, with any admissions of the key between them, the second is admitted exactly from the first one's retry time on |
| Enforcement.Authorize | internal/billing/enforce.go:26-86 | a request is admitted exactly when every window it concerns is within its limits of money, tokens and requests; exact effect on the store, on disk too if the save works; cycles stay valid |
| Enforcement.RefusesMeans | internal/billing/quota.go:67-103 | a request is refused exactly when some live cycle of a window that concerns it has used as much as a positive limit of it |
| Enforcement.ReachedLimitRefuses | internal/billing/quota.go:67-81 | a reached limit refuses, in each of the three dimensions |
| Enforcement.UnlimitedIsFree | internal/billing/quota.go:67-81 | use in a dimension without limit never matters |
| UsageRecords.RecordUsage | internal/billing/account.go:35-146 | memory charges the matching live cycles with the cost, the countable tokens and the request unless it failed, each capped, and no others; the event is in the log it belongs to if the save works, and waits for it if not |
| UsageRecords.UsedIsCharged | internal/billing/account.go:100-146 | field by field: which cycles grow by what, and that everything else stays |
| UsageRecords.UseIsRecorded | internal/billing/account.go:100-146 | where the event, its key and its retention cutoff are afterwards, whether or not the save works |
| UsageRecords.UsedIsSound | internal/billing/account.go:100-146 | recording usage keeps every key's cycles valid |
| Plans.ValidatePlan | internal/billing/plan.go:36-88 | accepts exactly well-formed plans with distinct IDs, names and schedules per scope |
| EditMeaning.WindowMeans | internal/billing/plan.go:36-88 | a window is valid exactly when it has an ID and a name of 1 to 128 characters, some positive limit, counts below 2^53, a period from a second to 2^63 nanoseconds, an accepted scope, and an anchor at a whole second of the years 1970 to 9999, if any |
| EditMeaning.PlanMeans | internal/billing/plan.go:36-88 | and a plan exactly when its windows are and differ in ID, name and period or entries of the scope |
| EditMeaning.PrepareMeans | internal/billing/plan.go:90-124 | a window can be prepared exactly when its scope is accepted, it is new or still there, and an anchor of another schedule than it had starts after now and within one period; what it is stored as |
| Plans.PreparedMeans | internal/billing/plan.go:90-124 | preparing keeps every window, in order of period |
| Plans.PreparedSchedules | internal/billing/plan.go:90-133 | an anchored window keeps its schedule or first starts within one period from now |
| Plans.UpdateKeepsConsistent | internal/billing/plan.go:217-296 | cycles whose schedule or scope changed start over, all others go on, and all stay valid |
| Plans.UpdatePlan | internal/billing/plan.go:217-296 | exact new state or none |
| EditMeaning.PlanUpdateReaches | internal/billing/plan.go:217-296 | which keys stay, leave or join, and that those which stay lose exactly the cycles of windows that start over |
| EditMeaning.ResetMeans | internal/billing/plan.go:259-268 | a window goes on exactly when the plan still has one of its ID with the same schedule and scope |
| EditMeaning.UpdateMeans | internal/billing/plan.go:217-296 | a plan is updated exactly when it exists, its edited form is valid, and every key selected is free or on it |
| PlanBindings.CreatePlan | internal/billing/plan.go:165-206 | plan and bindings appear together or not at all |
| PlanBindings.DeletePlan | internal/billing/plan.go:298-322 | every key of the plan is released, deleted ones included |
| EditMeaning.CreationMeans | internal/billing/plan.go:165-206 | a plan is created exactly when it is valid, its ID is free, and all keys named are live and unbound |
| EditMeaning.PlanAppearsAndGoes | internal/billing/plan.go:165-322 | its keys are bound to it, or released, without cycles, and nothing else changes |
| PlanBindings.BindKey | internal/billing/keys.go:116-139 | a rebinding starts with no cycles |
| PlanBindings.UnbindKey | internal/billing/keys.go:141-156 | an unbinding drops plan and cycles |
| PlanBindings.ResetQuota | internal/billing/keys.go:168-210 | every target loses its cycles, and exactly the keys and cycles that had some are counted, or nothing changes |
| EditMeaning.ResetReaches | internal/billing/keys.go:168-210 | the targets are all live keys with a plan or exactly those named, and they lose their cycles and nothing else |
| QuotaLedger.StepKeepsSound | internal/billing/quota.go:142-216 | admitting, charging, settling, resetting, rebinding and re-planning keep cycles valid and counters exact |
| QuotaLedger.CountersAreExact | internal/billing/quota.go:189-216 | over every run each live cycle's counters are the capped sum of what its time and scope cover, over the usage recorded since it was created |
| QuotaLedger.WholeLogIsExact | internal/billing/quota.go:189-216 | and over the whole usage log, if no admission precedes a request recorded before it |
| QuotaLedger.ExactUnlessOverlooked | internal/billing/quota.go:153-216 | a live cycle's counters are the capped sum over the whole log exactly when no use was recorded before the cycle's creation that it covers and that a counter below its cap would show |
| QuotaLedger.RunIsExactUnlessOverlooked | internal/billing/quota.go:153-216 | and so it is for every cycle live after any run |
| QuotaLedger.EarlierUseIsLost | internal/billing/quota.go:153-209 | for every key without cycles, a use recorded before the admission that creates the cycle, for a request made at or after it, is covered and not counted |
| QuotaHistory.CounterIsExactUnless | internal/billing/account.go:100-146 | over any run of all operations, with any clock, a live cycle's counters are the capped sum over all usage recorded for the key exactly when no use which the cycle covers and a counter would show was recorded before the admission that created it |
| QuotaHistory.EarlierUseIsLost | internal/billing/account.go:100-146 | for every bound key without cycles and every window of its plan, a recorded use and a later admission after which the cycle's counters are zero and one request is owed |
| QuotaHistory.LostAtTheSameInstant | internal/billing/account.go:100-146 | one such run, in which use and admission come at the same instant |
| QuotaHistory.LedgerFollows | internal/billing/store.go:173-275 | whatever one call of any operation does to a key's plan and cycles, the ledger's steps do |
| QuotaHistory.EveryCounterIsExact | internal/billing/account.go:100-146 | over any run of all operations of the store, every live cycle's counters are the capped sum, over all usage recorded for the key, of what its time and scope cover, if no admission of the key precedes a request recorded before it |
| QuotaHistory.CountsAllIsOwed | internal/billing/account.go:100-146 | the capped sum is of the costs, the countable tokens and the requests that did not fail, of the events whose request time the cycle includes and whose model its window matches |
| QuotaHistory.FromNothing | internal/billing/store.go:173-275 | in every state the operations build up from an empty working set, no key's resolution ends in a configuration error and, under the same order of admissions, all counters are exact |
| QuotaLedger.NewCyclesAreYounger | internal/billing/quota.go:105-118 | with a clock that does not run backwards a new cycle counts only from its creation |
| QuotaLedger.EarlierRequestsAreFree | internal/billing/keys.go:116-210 | a window without a live cycle, after a reset, rebinding, schedule change or expiry, never gets one that is charged for an earlier request |
| QuotaLedger.ScheduleChangeForgives | internal/billing/plan.go:217-296 | in particular a plan edit that changes a window's schedule or scope forgives all earlier use of that window |
| PriceMatching.MatchKey | internal/billing/reference_prices.go:454-483 | in any order of candidates, the answer is what the price set says |
| PriceMatching.MatchKeys | internal/billing/reference_prices.go:152-161 | the first name with any entry decides, conflicts included |
| PriceMatching.CandidatesSuffice | internal/billing/reference_prices.go:163-216 | matching among the candidates of a request's names is matching among all prices |
| PriceMatching.OneAnswer | internal/billing/reference_prices.go:137-161 | a price set has at most one answer for a request |
| PriceMatching.SharedKeys | internal/billing/reference_prices.go:137-165 | another request shares a request's cache key exactly when it has two names, or one that reads as two joined by a NUL |
| PriceMatching.OnlyJoined | internal/billing/reference_prices.go:137-165 | two names without a NUL share their key with their joined name alone |
| ReferencePrices.Misled | internal/billing/reference_prices.go:163-216 | two requests that share a key: once the other one has been looked up, the cache answers this one wrongly |
| ReferencePrices.Manager.LookupCached | internal/billing/reference_prices.go:163-184 | a hit, at any moment of a refresh, answers from the version in the metadata it returns, and rightly unless the request shares its key |
| ReferencePrices.Manager.LookupFinish | internal/billing/reference_prices.go:185-216 | a miss answers from the published version and is cached, evicting the least recently used answer beyond 1024; a failing read ends it and caches nothing |
| ReferencePrices.CachePut | internal/billing/reference_prices.go:200-208 | map and recency list stay in bijection within the capacity |
| ReferencePrices.FrontMeans | internal/billing/reference_prices.go:163-208 | an answer that is used becomes the newest, and the others keep their order |
| ReferencePrices.Manager.RefreshStart | internal/billing/reference_prices.go:228-257 | one refresh at a time; with the sequence unchanged it is started exactly when forced, or the pause is over and the prices are unusable, never fetched, older than a day, or older than an hour and the name was not found |
| ReferencePrices.Manager.DownloadAndCommit | internal/billing/reference_prices.go:297-351 | prices, metadata and cache change together, only when the hash did; a failure changes nothing published |
| ReferencePrices.Manager.Refresh | internal/billing/reference_prices.go:228-295 | a whole refresh publishes, or notes when to try again, in memory always and in the database if that can be saved, and costs no price |
| ReferencePrices.FailureWaits | internal/billing/reference_prices.go:252-282 | after a failed refresh, forced or not, no unforced one is started before the pause is over, however often it is asked for: a minute, twice as long each time, at most an hour |
| ReferencePrices.SuccessLasts | internal/billing/reference_prices.go:218-257 | after a refresh that worked, unforced calls start none for an hour, for a day if the name was found, and the first one later than that does |
| ReferencePrices.BackoffDoubles | internal/billing/reference_prices.go:274-282 | the pause is a minute after one failure, twice as long after each further one, and an hour at most |
| ReferencePrices.LookupModels | internal/billing/reference_prices.go:392-435 | the batched display lookup finds for each model what a single match would, nothing in an unusable database, and fails exactly when the database is closed or a batch cannot be read |
| CaptureBodies.StreamingKeepsThePrefix | internal/plugin/traffic_capture.go:296-327 | however a body is cut into chunks, its beginning up to the limit is kept |
| TrafficCapture.TouchKeepsSound | internal/plugin/traffic_capture.go:391-405 | bytes are accounted exactly, at most 100 entries and 48 MiB stay, and in-flight entries are those retained |
| TrafficCapture.TrimmedIsSound | internal/plugin/traffic_capture.go:391-405 | only the oldest entries go and the newest always stays |
| CaptureMeaning.ShedExactly | internal/plugin/traffic_capture.go:391-405 | of the oldest entries exactly as many go as it takes to fit 100 entries and 48 MiB, never the newest |
| CaptureMeaning.BodyMeans | internal/plugin/traffic_capture.go:296-341 | a body of at most 2 MiB is kept whole if it is text and dropped as binary otherwise; of a longer one the beginning up to that limit is kept, without a character the limit splits |
| CaptureHooks.Capture.ObserveRequest | internal/plugin/traffic_capture.go:409-476 | the ring advances by exactly one observed request, or not at all |
| CaptureMeaning.FirstMeans | internal/plugin/traffic_capture.go:409-476 | a request in flight for the first time, on a watched account, becomes the newest entry with what was seen of it; on no watched account it leaves none |
| CaptureMeaning.RepeatMeans | internal/plugin/traffic_capture.go:409-476 | a retry on the same account is written over its entry as one more attempt |
| CaptureMeaning.TakeoverMeans | internal/plugin/traffic_capture.go:409-476 | a retry on another account closes the entry as moved away and is recorded, if at all, as a new one |
| CaptureMeaning.MatchingMeans | internal/plugin/traffic_capture.go:227-240 | a request is recorded for the first listener that is not paused and has its account by ID or by index |
| CaptureHooks.Capture.ObserveResponse | internal/plugin/traffic_capture.go:489-531 | as specified, and only forwards |
| CaptureMeaning.ResponseMeans | internal/plugin/traffic_capture.go:489-531 | field by field what a response or a chunk changes of its entry, and that it changes nothing of a request that moved away or is not in flight |
| CaptureHooks.Capture.ObserveCompletion | internal/plugin/traffic_capture.go:533-552 | as specified, and only forwards |
| CaptureMeaning.CompletionMeans | internal/plugin/traffic_capture.go:533-552 | the entry is marked done with time, outcome and status, and the request is no longer in flight |
| CaptureHooks.Capture.Clear | internal/plugin/traffic_capture.go:733-742 | everything goes, and the revision tells |
| CaptureHooks.Capture.Watch | internal/plugin/traffic_capture.go:666-709 | one listener per account and at most 64: a new account is added at the end, a known one keeps its place, and the lease runs 45 seconds from now; an expired lease has dropped the others |
| CaptureHooks.Capture.Stop | internal/plugin/traffic_capture.go:711-731 | the account named is no longer listened to, or none without a name, and the others keep their order |
| CaptureHooks.IdleSkipsNothing | internal/plugin/traffic_capture.go:409-476 | the fast path for paused listeners records nothing that would have been recorded |
| CaptureSync.PollSyncs | internal/plugin/traffic_capture.go:592-626 | one poll brings a page in sync at its cursor to exactly the server's list |
| CaptureSync.AdvancingKeepsSync | internal/plugin/traffic_capture.go:391-552 | whatever the server does between polls, the page stays in sync at its cursor |
| CaptureSync.LateAnswer | internal/plugin/ui.html:8567-8580 | a page in sync that takes an answer without rows, given from any earlier or other ring, stays in sync exactly when everything it has was listed by the answer |
| CaptureSync.LateAnswerShows | internal/plugin/ui.html:8567-8663 | which is exactly when its next poll shows the server's list |
| CaptureSync.CommandsKeepSync | internal/plugin/ui.html:8650-8663 | so an answer given no earlier than the page's last poll only drops what is gone |
| CaptureSync.LateCommand | internal/plugin/ui.html:8650-8663 | a command answered before a request and taken after the poll that brought it: the row is gone, and the next poll does not bring it back |
| CaptureSync.AnyRunThenOnePoll | internal/plugin/traffic_capture.go:391-626 | after any run of hooks and commands one poll shows exactly what the server holds |
| CaptureSync.NewPageInSync | internal/plugin/traffic_capture.go:592-626 | a new page is in sync with every reachable server and shows its list after one poll |
| CaptureHooks.RequestKeepsTimes | internal/plugin/traffic_capture.go:409-476 | what a server retains was started while it ran |
| CaptureHooks.AnswersKeepTimes | internal/plugin/traffic_capture.go:489-552 | responses and completions start nothing |
| CaptureSync.RestartIsNoticed | internal/plugin/ui.html:8619-8634 | the first poll after a restart is right exactly when the revision dropped below the cursor or nothing retained has a revision at or below it |
| CaptureSync.MissedRestart | internal/plugin/ui.html:8619-8634 | one request before a restart and one after it, and the page goes on showing the old row |

## Left out

- SchedulerFairness.ShareIsTracked: supposes that no score overflows, as do `SchedulerFairness.PeriodIsExact` and `SchedulerFairness.RunIsPeriodic`; the weights for which none does are determined for two candidates and for equal weights, otherwise `SchedulerFairness.Room` is only sufficient.
- UsageRecords.RecordUsage: cost computation from token counts and rates is not modelled; the amount charged is a parameter of the event.
- RouteEdits.DeleteRoute: the counts of affected, deleted and unrestricted keys that it returns are not modelled.
- IntegrationMigration.Integration.Begin: the mapping is given; deriving it from channel descriptors is not modelled, and there is one integration account, so two accounts' replacements do not overlap, and operators edit no rules between its steps; `ReplacementRuns.CompletionAfterAnyRun` is about those edits. A stored record with a malformed identifier or an empty mapping, which the code refuses to prepare, does not arise.
- ReferencePrices.Manager.LookupFinish: the candidates a successful read returns are assumed to be all entries of the request's names.
- IEEE floating-point rounding (money is `real`), Unicode case folding and trimming (strings are ASCII), and wrap-around of counters other than the scheduler's scores.
- Request events are their time, key and model; what else a log entry holds, the details of failed requests, and the analysis over the log are not modelled.
- Pricing tables, tier resolution and cost, model price views, and everything that only formats: messages, views, previews, labels, logs.
- Host callbacks, HTTP, JSON and YAML decoding, SQL, file formats, and the Turn State package: readiness, credential and risk checks are Boolean parameters of admission.
- Swapping the database while running, and calls that find no database open.
- Nil key records and nil maps from JSON, which the code skips or replaces.
- Filling in a blank group mode when a group is copied; a blank mode resolves as ordinary here too.
- Identifiers made up for new groups, routes, plans and windows are parameters; that they are free is checked, how they are made is not modelled.
- Key labels and the forwarded-header setting, which no decision modelled here depends on; the counts and views that operations return.
- Capture entries are values identified by their sequence number, where the code shares pointers; header redaction, model detection in bodies and the entry detail view are not modelled.
- The capture revision counter running past 2^64.
