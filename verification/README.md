# Camel K: a verified model of the operator's core algorithms

Camel K is a Kubernetes operator that turns Integrations into running workloads. This project models, in Dafny, the
parts of it that decide something: which objects a reconciliation applies and deletes, which controller runs an
Integration, which image a build is layered on, how option strings become a configuration tree, how Kamelets are
packed, how volumes and sources are numbered, how timers become cron schedules, when a built kit can be reused, and how
build steps are executed. Each is proved for all inputs, all runs or all histories.

`dafny verify dfyconfig.toml` checks everything.

## How the model is organised

| files | what they model |
|---|---|
| `Cluster`, `Traits`, `TraitRun`, `Catalog`, `Reconcile`, `Activation`, `Generations`, `Residue` | the reconcile protocol: trait run, post processors, deployer, collector, and histories of reconciliations |
| `DeletableTypes` | the discovery of deletable kinds and the cache in front of it |
| `Fields`, `Cron`, `Controllers` | schedules derived from endpoints, and the vote on the controller |
| `ImageReuse` | the choice of a base image and of the artifacts on top of it |
| `PropertyPath`, `ConfigStore`, `ConfigTree`, `OptionGrouping`, `OptionConflicts`, `OptionStrings` | the configuration tree, on the heap, what it finally holds, and options as they are written |
| `KameletBundle`, `Volumes`, `Sources` | packing, unique names and the numbering of sources |
| `KitMatching`, `BuildSteps`, `Applier`, `JvmHeap` | kit matching, the step pipeline, the apply fallback and the heap size |
| `Decimal` | decimal formatting and parsing, with `Option` |

Code that updates things in place is a class or a loop, proved against a function on values; the theorems are about that
function. What the API server answers (applies, listings, discoveries and deletions that fail) is an input of each run,
so every theorem holds for every combination of failures unless it says otherwise.

## What the proofs found

Where the code does not meet a property one would expect, the model keeps the code and states the exact condition.

- Deletion errors and missing kinds are only logged, so a reconciliation can report success and leave older objects
  behind; `SilentResidue` says which. `GenerationConvergence` therefore asks that no listing or deletion failed.
- An object without a numeric generation label is never collected outside undeploy (`UnstampedSurvives`).
- The collector also runs after a deployment that failed at its first resource, so a run may delete the old objects
  without having applied any new one (`CollectsAfterFailedDeploy`).
- Stamping writes into a label map that may be nil. It panics exactly when the collector is active, the owner trait is
  not, and some resource has no labels (`PanicCondition`).
- The verb test is by substring: a rule that grants only `deletecollection` counts as granting `delete`. Among the
  standard verbs that is the only difference (`VerbTest`).
- A cron trait that is disabled, or skipped for a synthetic Integration, still votes. If its vote decides, the
  Integration gets no controller at all; in every other error-free run it gets exactly one (`OneController`).
- Incremental layering loses an artifact when the artifact list holds one ID with several checksums. It is safe for
  every eligible image exactly when the list is unambiguous (`LayeringCondition`), and unique IDs are enough.
- The collector acts in running phases only, but initialization deploys too. What it stores is owned, may be labelled, and
  is not stamped, so an object that only initialization has stored survives every later generation until an undeploy
  (`DroppedKameletStays`). `GenerationConvergence` states the exact set of survivors.
- A value for a path that already holds a container is accepted and dropped (`PlainAfterNestedIsDropped`). The tree is
  what the options say exactly when no two of them are in conflict (`GroupedExactly`).
- An apply can fail after it took effect, when the response of the patch cannot be read (`AppliedExactlyOnce`).
- Splitting a property panics exactly on an empty part or an empty pair of quotes (`ConfigTreePropertySplit`).
- Mounting a second resource of one name refers to a resource with the suffixed name, not to the one asked for
  (`NameIsFree` states when the two agree).
- A source with its own key and no reference is mounted with a key that its ConfigMap does not have (`TraversalsAgree`).
- A Kamelet source that arrives between the traversals changes the numbering exactly when a mounted source has its name
  (`NumberingIsStable`).

## Model

| member | source | states |
|---|---|---|
| `Generations.GenerationConvergence` | pkg/trait/gc.go:121-203 | Over every history of runs in any phase with non-decreasing generations, whatever failed, interleaved with foreign changes, that ends in a fully successful run of generation n with the collector active: the owned and labelled objects of deletable kinds are exactly those last stored by a run that stamped them with n, or by a run of any generation whose phase leaves the collector out, and not collected by an undeploy since |
| `Generations.LifeOfAnObject` | pkg/trait/gc.go:121-256 | In every reachable state, whatever failed on the way: an object is there and the Integration's exactly when the last run that stored it claimed it and no run since has collected it, where an undeploy collects anything it gets to and another run only an older stamp |
| `Generations.StampedConvergence` | pkg/trait/gc.go:121-203 | For an object stored only by runs with an active collector, and without an undeploy of generation n: after a full success it is there exactly when some run of generation n stored it |
| `Generations.WhatRunsClaim` | pkg/trait/owner.go:91-111 | What a run in a running phase stores in the namespace is the Integration's; what initialization stores is exactly if it carries the label |
| `Residue.DroppedKameletStays` | pkg/trait/gc.go:116-118 | The witness: initialization stores the bundle of a Kamelet, generation 2 drops the Kamelet and runs with full success, and the bundle stays |
| `Residue.LeftBehind` | pkg/trait/gc.go:116-118 | Whatever one run stores without stamping it, and a full success of a later generation does not store again, stays |
| `Generations.RedeployConvergence` | pkg/trait/gc.go:196-202 | A full undeploy starts a new epoch, even within one generation: a later full success leaves exactly the survivors among what was stored since |
| `Generations.UndeployClears` | pkg/trait/gc.go:196-202 | After a full undeploy at the end of any history no owned and labelled object of a deletable kind is left |
| `Generations.OnlyCurrentSurvives` | pkg/trait/gc.go:188-244 | Whatever survives a full success was last stored at the current generation and bears its stamp, or was stored by a run that does not stamp and bears none |
| `Generations.AppliedStays` | pkg/trait/gc.go:188-256 | A stored copy that was claimed, not stored over and not collected since is there, with its stamp, whatever failed in the meantime |
| `Generations.Provenance` | pkg/trait/gc.go:136-149 | Every object of the Integration is the copy of the last run in the history that stored it, and bears the stamp of that run, or none if that run does not stamp |
| `Reconcile.DeletionSafety` | pkg/trait/gc.go:188-256 | Whatever fails, with server-side or client-side apply: an object that is gone after a run was in the Integration namespace, with its label and an owner reference to it; outside undeploy it had an older generation and was not stored by this run; objects neither stored nor gone are untouched, and nothing appears that was not stored |
| `Reconcile.SilentResidue` | pkg/trait/gc.go:219-241 | After a run without error, a collectable object is still there exactly when its deletion failed or its kind could not be listed |
| `Reconcile.UnstampedSurvives` | pkg/trait/gc.go:189-200 | Outside undeploy an object without a numeric generation label survives every run |
| `Reconcile.CollectsAfterFailedDeploy` | pkg/trait/trait.go:83-94 | When the very first apply fails the collector runs all the same: afterwards there is exactly what was there before, without the collectable objects it got to |
| `Reconcile.RunInTwoSteps` | pkg/trait/trait.go:83-94 | A run is the deployment, followed by the sweep if the collector is registered, and fails exactly when one of them or a registered push does |
| `Reconcile.SweepExact` | pkg/trait/gc.go:207-245 | A sweep removes exactly the collectable objects of the kinds it gets to before a listing error, as far as deletions take effect, changes no object, and fails exactly on a listing error |
| `Reconcile.ApplyAllStamps` | pkg/trait/deployer.go:48-62 | After applying stamped resources every applied key carries that generation and Integration name, also when keys repeat or existed before |
| `Reconcile.ApplyAllOwns` | pkg/trait/deployer.go:48-62 | After applying owned resources every applied object in the namespace passes the collector's ownership check |
| `Reconcile.Server.Deploy` | pkg/trait/deployer.go:50-59 | The loop stores exactly the resources before the first failure, and the failing one if it took effect, and fails exactly when there is a failure |
| `Reconcile.RunOnObject` | pkg/trait/trait.go:83-94 | What a run does to one object, exactly: it is what the deployer left unless the collector gets to it and it is collectable |
| `Reconcile.StoredLast` | pkg/client/apply.go:83-98 | What is stored under a key is its last resource, merged into what was there |
| `Reconcile.Server.PerformAll` | pkg/trait/trait.go:83-94 | Every post action is performed whatever the others returned, and the failures are counted |
| `Reconcile.Server.DeleteKind` | pkg/trait/gc.go:215-241 | Listing one kind and deleting item by item removes exactly the collectable objects of that kind whose deletion succeeds |
| `Reconcile.Server.DeleteEachOf` | pkg/trait/gc.go:207-245 | The loop over the kinds skips unknown kinds, stops at a listing error and otherwise sweeps each kind |
| `Reconcile.Server.Apply` | pkg/trait/trait.go:83-94 | The whole trait application on the server is the specified run: catalog, then every post action, failing exactly when one of them failed |
| `Activation.CollectorIsActive` | pkg/trait/gc.go:108-119 | The collector is active exactly if it is not switched off and the phase is Deploying, Running, Error or Undeploying |
| `Activation.OwnerIsActive` | pkg/trait/owner.go:50-59 | The owner trait is active exactly if it is not switched off and the phase is Initialization, Deploying, Running or Error |
| `Activation.PushIsActive` | pkg/trait/gitops.go:60-66 | The push is active exactly if it is switched on and the build is complete |
| `Activation.ActionsFromSettings` | pkg/trait/gc.go:121-134 | The post actions of a run, from settings, phase and generation alone |
| `Activation.DisabledCollectorDoesNothing` | pkg/trait/gc.go:112-114 | Over whole runs: a collector that is switched off deletes no object and stamps nothing that is stored |
| `Activation.RunFailsExactly` | pkg/trait/trait.go:83-94 | A run fails exactly if it does not get to its post actions, some apply fails, the due collector cannot discover or list, or the due push fails; failed deletions never count |
| `Activation.ReadyExactly` | pkg/trait/trait_catalog.go:103-125 | The traits run to their end exactly if none fails to be configured or, being active, applied |
| `Activation.ReportsAll` | pkg/trait/trait_catalog.go:103-110 | Every condition that configuring a trait yields is reported, in order, and no other |
| `Activation.PreparedKeys` | pkg/trait/trait_catalog.go:103-125 | No resource that an active trait adds is lost, and none comes from anywhere else but the injected bindings |
| `Reconcile.CollectableExactly` | pkg/trait/gc.go:188-256 | An object is collected exactly if it is of the kind, in the namespace, labelled, owned by the Integration, and of an older generation or undeployed |
| `Reconcile.StoredExactly` | pkg/trait/deployer.go:50-59 | A resource is stored exactly if no apply before it fails and its own goes through or takes effect anyway |
| `Cluster.AppliedTwice` | pkg/client/apply.go:83-98 | What two server-side applies in a row leave: the fields of the second, and those of others that neither changed |
| `Cluster.AppliedClientSide` | pkg/client/apply.go:100-123 | Client-side apply takes no label away, and keeps the owners unless it brings its own |
| `TraitRun.OwnedExactly` | pkg/trait/owner.go:61-155 | Which labels and owners a resource has after the owner trait: its own labels win, missing ones are transferred by name or wildcard |
| `TraitRun.AfterStepExactly` | pkg/trait/knative.go:440-488 | A binding is injected exactly if there is a controller and no Knative binding yet |
| `Traits.Environment.ApplyCatalog` | pkg/trait/trait_catalog.go:95-140 | The in-place run of the catalog over the environment yields the specified outcome: ready with the labelled resources, aborted or panicked |
| `Traits.Environment.RunPostSteps` | pkg/trait/knative.go:440-488 | The post steps put a SinkBinding first, once, as soon as there is a controller |
| `Traits.Environment.Stamp` | pkg/trait/gc.go:137-149 | Visiting all resources stamps each with generation and Integration name; it panics exactly on a resource with a nil label map |
| `TraitRun.Preparation` | pkg/trait/trait_catalog.go:95-140 | When a run is ready for its post actions the deployer comes before the collector, every resource is stamped if the collector is active and owned if the owner trait is |
| `TraitRun.PanicCondition` | pkg/trait/gc.go:137-149 | Stamping panics exactly when the collector is active, the owner trait is not, and some resource has no label map |
| `TraitRun.OwnedAtTheEnd` | pkg/trait/owner.go:91-111 | With the owner trait active every resource leaves the trait run owned and with labels: no post step can add one after it |
| `TraitRun.OwnerIsLast` | pkg/trait/trait_catalog.go:44-50 | In the sorted catalog the deployer precedes the collector, the collector the gitops trait, and all of them the owner trait, which is last |
| `TraitRun.Registered` | pkg/trait/gc.go:121-152 | A run that reached its end registered exactly the deployer's action, the collector's if due, the push if the gitops trait is active, and the stamping if the collector is active |
| `TraitRun.UnstampedRun` | pkg/trait/gc.go:116-149 | A run without the collector leaves every resource without a stamp, unless somebody else writes one |
| `Catalog.CatalogIsStandard` | pkg/trait/trait_catalog.go:39-50 | However the factories are registered, sorting their traits by order gives the catalog that the theorems about runs assume |
| `Catalog.SortsAll` | pkg/trait/trait_catalog.go:44-50 | Sorting orders the traits and neither loses nor duplicates one |
| `DeletableTypes.IsGranted` | pkg/trait/gc.go:312-327 | The nested loops over rules, groups and resources answer exactly whether some rule grants the resource |
| `DeletableTypes.GrantedMeans` | pkg/trait/gc.go:301-329 | What a discovered kind is granted as: its group version and kind, and a rule for its own group or that of its list |
| `DeletableTypes.ResolvableMeans` | pkg/trait/gc.go:303-311 | Discovery fails exactly on a resource without a group in a list whose group version cannot be parsed |
| `DeletableTypes.GrantedKinds` | pkg/trait/gc.go:301-329 | The kinds found are exactly those granted by some rule through some discovered resource; it fails exactly when a needed group version cannot be parsed |
| `DeletableTypes.TypeCache.GetDeletableTypes` | pkg/trait/gc.go:260-347 | Over every sequence of calls each answer is the last successful discovery, in a fresh map that is never the cache's; an error leaves the cache alone |
| `DeletableTypes.TypeCache.TypesForProfile` | pkg/trait/gc.go:155-186 | The profile's kinds are added to the answer and never reach the cache; there is no answer exactly when a discovery was due and failed |
| `DeletableTypes.VerbTest` | pkg/util/util.go:84-94 | Over the standard verbs the substring test asks for the delete permission, except exactly for `deletecollection` without `delete` or `*` |
| `DeletableTypes.CollectionVerbPassesForDelete` | pkg/util/util.go:84-94 | The witness: `deletecollection` alone passes |
| `Controllers.ControllersFromInputs` | pkg/trait/trait_types.go:311-351 | The controllers of an error-free deploying run from facts and settings alone: a Knative Service if it is wanted and can be had, else a CronJob if the cron trait wants one and is on, else a Deployment |
| `Controllers.VoteFromInputs` | pkg/trait/knative_service.go:137-171 | The vote, exactly, from facts and settings alone: when it is a Knative Service, when a CronJob, and when an error |
| `Controllers.FailsExactly` | pkg/trait/trait_types.go:311-322 | A deploying run fails exactly if the Knative side fails or endpoints that are looked at cannot be inspected |
| `Controllers.CommonScheduleExactly` | pkg/trait/cron.go:345-373 | An Integration has a common schedule exactly if all endpoints are convertible or passive, and the convertible ones exist, convert and agree |
| `Controllers.AutoSettings` | pkg/trait/cron.go:154-188 | Which schedule, components and fallback auto-configuration leaves, from facts and settings alone |
| `Controllers.CronSettings` | pkg/trait/cron.go:87-152 | When the cron trait runs, and when it enables itself |
| `Controllers.SettingsAfterRun` | pkg/trait/knative_service.go:110-118 | The settings after a whole run; the knative-service trait is enabled if its service is wanted |
| `Controllers.OneController` | pkg/trait/trait_types.go:311-351 | In every error-free deploying run the vote is the same before and after the traits changed themselves, and the controllers created are exactly the one voted for; only a CronJob vote by a cron trait that is off leaves none |
| `Controllers.CronStepKeepsVote` | pkg/trait/cron.go:87-152 | Configuring the cron trait keeps the vote, and creates a CronJob exactly when that is the vote and the trait is on |
| `Controllers.AutoConfigurationKeepsVote` | pkg/trait/cron.go:154-188 | Auto-configuration may set schedule, components and fallback, but not change the trait's vote |
| `Controllers.VoteHasSchedule` | pkg/trait/cron.go:303-319 | A vote for a CronJob comes with a schedule and without fallback once the trait has configured itself |
| `Controllers.Priority` | pkg/trait/trait_types.go:339-351 | After sorting the selectors knative-service decides before cron, and cron before deployment; errors decide like votes |
| `Controllers.DisabledCronStillVotes` | pkg/trait/cron.go:303-319 | The witness: a disabled cron trait with a schedule leaves an Integration without a controller |
| `Controllers.DetermineStrategy` | pkg/trait/trait_types.go:311-322 | The loop returns the first vote in selection order that is no abstention, or a deployment |
| `Controllers.CronTrait.AutoConfigure` | pkg/trait/cron.go:154-188 | The in-place update of the settings, with its errors |
| `Controllers.CronTrait.Configure` | pkg/trait/cron.go:87-152 | The in-place configuration: new settings, whether the trait applies, and when it fails |
| `Controllers.KnativeServiceTrait.Configure` | pkg/trait/knative_service.go:76-118 | The same for the knative-service trait, which enables itself when its strategy is selected |
| `Controllers.RunDeploying` | pkg/trait/deployment.go:55-89 | The three traits in execution order on mutable settings yield the specified controllers and settings |
| `Cron.TimerMeaning` | pkg/trait/cron.go:443-463 | Over all time counted from a midnight, in every calendar, a timer's schedule fires in exactly the minutes divisible by its period |
| `Cron.ParamExactly` | pkg/trait/cron.go:430-435 | An endpoint's parameter reads as empty exactly if it is absent or empty |
| `Cron.TimerEndpoint` | pkg/trait/cron.go:429-463 | The same from the endpoint's parameters: a timer converts exactly when it has no delay, repeat count or time and a schedulable period of 64 bits, and the schedule then fires at exactly its minutes |
| `Cron.ScheduleExists` | pkg/trait/cron.go:443-463 | A schedule is produced exactly when the period is m minutes with m below 60 dividing 60, or m = 60 h with h dividing 24 |
| `Cron.TimersAreDistinguished` | pkg/trait/cron.go:496-502 | Two timers have equivalent schedules only if their periods are equal |
| `Cron.EquivalentExactly` | pkg/trait/cron.go:496-502 | Two schedules are equivalent exactly if they differ in nothing but which wildcard they use |
| `Cron.WildcardsMakeNoDifference` | pkg/trait/cron.go:345-422 | Changing wildcards in the schedules of any endpoints never changes whether there is a common schedule, nor the schedule but for wildcards |
| `Cron.EquivalentFiresAlike` | pkg/trait/cron.go:496-502 | Equivalent schedules fire at the same moments under every reading of the fields, with lists, ranges and names, that takes `?` for `*` |
| `Cron.NormalFormHasFiveFields` | pkg/trait/cron.go:504-526 | Normalising yields nothing or five fields, and something exactly for the five-, six- and seven-field forms that are accepted |
| `Cron.NormalisingTwice` | pkg/trait/cron.go:504-526 | Normalising is idempotent |
| `Cron.QuartzMeaning` | pkg/trait/cron.go:504-526 | For every reading of the fields with a plain second 0 and wildcard year, the six- or seven-field form and its normal form fire at the same moments |
| `Fields.SplitJoin` | pkg/trait/cron.go:505-522 | Splitting undoes joining for fields without spaces |
| `Fields.JoinSplit` | pkg/trait/cron.go:505-522 | Joining undoes splitting, and no field contains a space |
| `Cron.QuartzEndpoint` | pkg/trait/cron.go:466-480 | A Quartz endpoint converts exactly if it has no option that cron lacks and its expression is accepted, to its normal form |
| `Cron.CronEndpoint` | pkg/trait/cron.go:483-492 | A generic cron endpoint converts exactly if its schedule is accepted, to its normal form |
| `Cron.CommonPanics` | pkg/trait/cron.go:397-415 | The search panics exactly on an endpoint that does, when all before it agree on a schedule |
| `Cron.UniqueAddAllKeeps` | pkg/util/util.go:97-109 | Adding components keeps the order of what is there and adds none twice |
| `Cron.CommonSchedule` | pkg/trait/cron.go:397-415 | A common schedule exists exactly when there is an endpoint, all convert and all schedules are pairwise equivalent; it is the first one, with the components of all |
| `Cron.CommonScheduleUnordered` | pkg/trait/cron.go:397-415 | Whether it exists, its meaning and its component set do not depend on the order of the endpoints |
| `Cron.GlobalCronExactly` | pkg/trait/cron.go:345-373 | Passive endpoints are ignored, any other unsupported endpoint rules a schedule out, and otherwise the supported ones decide |
| `Cron.GetCronForUris` | pkg/trait/cron.go:397-415 | The loop computes that common schedule, with its early returns |
| `Cron.WithComponents` | pkg/trait/cron.go:331-337 | Components are added in order, each once |
| `Cron.GetGlobalCron` | pkg/trait/cron.go:345-373 | The loop over all endpoints computes the Integration's schedule |
| `ImageReuse.SurplusIsSound` | pkg/builder/image.go:268-274 | The surplus count accepts an image exactly when its library artifacts have distinct IDs and each matches a required ID and checksum |
| `ImageReuse.Pigeonhole` | pkg/builder/image.go:268-274 | There are as many matching IDs as libraries exactly when all libraries match and no ID repeats |
| `ImageReuse.CommonExactly` | pkg/builder/image.go:248-266 | An ID is shared exactly if a library of the image has it with a checksum, and that is the required one |
| `ImageReuse.RequiredExactly` | pkg/builder/image.go:237-240 | The required checksum of an ID is that of its last entry |
| `ImageReuse.IsLibExactly` | pkg/builder/image.go:251-251 | Libraries are what the target prefix says |
| `ImageReuse.FindBestImage` | pkg/builder/image.go:230-283 | The chosen image is eligible, none shares more libraries and no later one as many; without an eligible image there is none |
| `ImageReuse.BestExists` | pkg/builder/image.go:244-280 | There is a best image exactly when some image is eligible |
| `ImageReuse.AnswerIsBest` | pkg/builder/image.go:276-279 | There is at most one best image, and the answer is that one |
| `ImageReuse.Inspect` | pkg/builder/image.go:244-266 | One pass counts the artifacts that are no libraries and collects the IDs in common |
| `ImageReuse.SelectArtifacts` | pkg/builder/image.go:136-153 | What the best image does not have in common, on that image; everything on the root image exactly when there is no best image or it has no name |
| `ImageReuse.Conservation` | pkg/builder/image.go:143-149 | As multisets, selected and left to the base are together the required artifacts, split exactly by the common IDs |
| `ImageReuse.NeverBoth` | pkg/builder/image.go:143-149 | Nothing selected is already in the eligible base image |
| `ImageReuse.LayeringCondition` | pkg/builder/image.go:237-240 | Whatever is left to the base is in it, for every eligible image, exactly when the artifact list is unambiguous |
| `ImageReuse.LayeringIsSound` | pkg/builder/image.go:136-153 | With an unambiguous list nothing left to any image is lost |
| `ImageReuse.UniqueIdsAreUnambiguous` | pkg/builder/image.go:237-240 | Unique IDs make a list unambiguous |
| `ImageReuse.Counterexample` | pkg/builder/image.go:237-240 | For every ambiguous list an eligible image that loses an artifact |
| `OptionGrouping.OptionsAreGrouped` | pkg/trait/trait_support.go:78-124 | For every list of non-conflicting options with non-negative indexes the tree holds at each path exactly the values given for it, in order: a string for one, a list for several, a container on the way, nothing elsewhere |
| `OptionConflicts.GroupedExactly` | pkg/trait/trait_support.go:78-124 | The tree is built and holds at every path exactly what the options say if and only if no two options are in conflict |
| `OptionConflicts.DroppedExactly` | pkg/trait/trait_support.go:108-120 | An accepted option changes nothing at any path exactly when a container is already stored where its value belongs |
| `OptionConflicts.PlainAfterNestedIsDropped` | pkg/trait/trait_support.go:108-120 | The witness: after `t.a.b=1` the option `t.a=2` is accepted and the tree does not change |
| `OptionConflicts.BuiltTree` | pkg/util/util.go:511-565 | Whatever is seen in a tree that options built hangs below a container of the right kind |
| `OptionStrings.WrittenOptionsAreGrouped` | pkg/trait/trait_support.go:78-124 | From what the user writes, names with indexes, quoted or not: the options denote the written paths, and the tree holds exactly the written values if and only if no two written paths are in conflict |
| `OptionStrings.WrittenPath` | pkg/util/util.go:477-497 | Splitting a written property denotes the path that its names and indexes mean |
| `OptionStrings.OptionsToTree` | pkg/trait/trait_support.go:78-124 | The loop over matched options: the tree of all of them, or the first option that is rejected or makes the split panic |
| `OptionGrouping.GroupOptions` | pkg/trait/trait_support.go:78-124 | The same on the heap: a fresh, well-formed tree shows the reference meaning of the options |
| `ConfigTree.Tree.OptionsToMap` | pkg/trait/trait_support.go:78-124 | The loop builds the specified tree in place and stops at the first rejected option |
| `ConfigTree.Tree.AddOption` | pkg/trait/trait_support.go:81-121 | One option in place: navigation, the check for a map, aggregation |
| `ConfigTree.Tree.SetProperty` | pkg/trait/trait_support.go:107-120 | Only the value at the property changes: string, then list, then longer list; containers are left alone |
| `ConfigTree.Tree.Navigate` | pkg/util/util.go:511-565 | Navigation finds the place the segments denote and creates exactly the missing containers; nothing seen before changes at any path, even when it fails |
| `ConfigTree.Tree.ChildOrNew` | pkg/util/util.go:533-559 | The child of a map or slice, created empty when missing, with a slice grown by empty slots |
| `ConfigTree.StepOfExactly` | pkg/util/util.go:531-564 | A map takes any segment as a key, a slice only a bracketed number that is not negative, a value nothing |
| `ConfigTree.ResolveStep` | pkg/util/util.go:511-565 | Creating one container does not change where the rest of the navigation leads |
| `ConfigStore.WriteChangesOnePath` | pkg/util/util.go:534-559 | In a well-formed store a write changes what is seen at one path and keeps the store well formed |
| `ConfigStore.UniquePath` | pkg/util/util.go:511-565 | No node is reachable under two paths: the tree has no aliases |
| `ConfigStore.WalkFrame` | pkg/util/util.go:511-565 | Every path that does not go through the written place leads where it led before |
| `PropertyPath.PiecesRoundTrip` | pkg/util/util.go:483-493 | A base followed by any indexes is split back into exactly these |
| `PropertyPath.PiecesRebuild` | pkg/util/util.go:483-493 | Splitting loses nothing and goes as far as possible: one base, then indexes only |
| `PropertyPath.QuotedParts` | pkg/util/util.go:499-507 | A quoted part is split exactly as what is between its quotes, and any other part as it is |
| `PropertyPath.SplitPart` | pkg/util/util.go:481-493 | A part is split into its base and indexes, a quoted one as what is between its quotes; it panics exactly if nothing is left |
| `PropertyPath.SplitIndexes` | pkg/util/util.go:482-493 | The loop that splits indexes off from the end, and the reversed copy, compute the base and its indexes |
| `PropertyPath.ConfigTreePropertySplit` | pkg/util/util.go:477-497 | The parts are split in order; it panics exactly on an empty part or an empty pair of quotes |
| `KameletBundle.PackingBound` | pkg/trait/kamelets_support.go:48-73 | Next-fit bound: (n - 1) * (limit + 1) is at most twice the total size, for every input |
| `KameletBundle.GroupsAreTight` | pkg/trait/kamelets_support.go:48-73 | Every group is within the limit or a single oversized Kamelet, neighbours do not fit together, and in order the groups are the input |
| `KameletBundle.EachKameletOnce` | pkg/trait/kamelets_support.go:66-70 | With distinct names every Kamelet is in exactly one ConfigMap, complete, and the IDs count from 1 |
| `KameletBundle.PairsCountTwice` | pkg/trait/kamelets_support.go:59-65 | The sum over neighbouring pairs counts every group at most twice |
| `KameletBundle.NamesAreDistinct` | pkg/trait/kamelets_support.go:82-82 | ConfigMaps of one bundle with different IDs have different names, also beyond three digits |
| `KameletBundle.ToConfigMaps` | pkg/trait/kamelets_support.go:48-73 | The loop yields exactly the ConfigMaps of the packing, or an error exactly when a Kamelet cannot be serialised |
| `Volumes.MountingKeepsNamesUnique` | pkg/trait/mount.go:155-170 | Any sequence of config and resource mounts keeps volume names distinct and every mount, old and new, naming exactly one volume |
| `Volumes.NameIsFree` | pkg/trait/mount_support.go:150-166 | The name is free and the first free candidate, found within one candidate more than there are volumes; it is the plain one, for the resource asked for, exactly when that is free |
| `Volumes.SuffixBound` | pkg/trait/mount_support.go:156-165 | Pigeonhole: no more candidates can be taken than there are volumes |
| `Volumes.SanitizeVolumeName` | pkg/trait/mount_support.go:150-166 | The open loop terminates with that name |
| `Volumes.VolumeExists` | pkg/trait/mount_support.go:169-177 | The search answers whether the name is taken |
| `Volumes.PodTemplate.MountResource` | pkg/trait/mount.go:320-345 | One volume and its mount are appended, the mount also in every init container |
| `Volumes.PodTemplate.MountAll` | pkg/trait/mount.go:155-170 | Configs and then resources, in order, on all three lists |
| `Sources.TraversalsAgree` | pkg/trait/mount.go:246-277 | A source without a reference is mounted from the ConfigMap made for it and no other; the location of an index is the path mounted at that index; the key agrees exactly when the source asks for no other |
| `Sources.MountedExactly` | pkg/trait/mount.go:251-255 | Which sources are mounted, and for which of them a ConfigMap is created, with multiplicity |
| `Sources.TrimSlashExactly` | pkg/trait/mount.go:265-265 | One leading slash goes from a name, and nothing else |
| `Sources.CountersAgree` | pkg/trait/mount.go:257-276 | The second counter of the mount traversal finds the entry the camel trait made for the source |
| `Sources.NumberingIsStable` | pkg/trait/kamelets.go:346-357 | A Kamelet source between the traversals changes nothing exactly when no mounted source has its name |
| `Sources.NumberingIsStableForAll` | pkg/trait/kamelets.go:346-357 | Any number of Kamelet sources change nothing exactly when no mounted source has the name of one of them |
| `Sources.KameletsInserted` | pkg/trait/kamelets.go:346-357 | Any number of Kamelet sources take the mounted sources of their names away and nothing else |
| `Sources.KameletInserted` | pkg/apis/camel/v1/integration_types_support.go:87-109 | A Kamelet source takes the mounted sources of its own name away and nothing else |
| `Sources.ComputeSourceMaps` | pkg/trait/camel.go:359-390 | The first traversal creates the numbered ConfigMaps of the sources without a reference |
| `Sources.ConfigureSourceVolumes` | pkg/trait/mount.go:246-277 | The second traversal, with its two counters, yields one volume and mount per mounted source |
| `Sources.AddSourceLocations` | pkg/trait/mount.go:402-436 | The third traversal yields one location per mounted source |
| `Sources.AddKameletSource` | pkg/trait/kamelets.go:346-357 | A Kamelet source replaces the generated ones of its name or is appended |
| `Sources.MapNameInjective` | pkg/trait/camel.go:371-371 | Different numbers give different ConfigMap names, also beyond three digits |
| `Sources.VolumeNameInjective` | pkg/trait/mount.go:266-266 | Different numbers give different volume names |
| `Sources.LocationKeyInjective` | pkg/trait/mount.go:410-410 | Different numbers give different property keys |
| `KitMatching.KitMatchingIsAPreorder` | pkg/trait/util.go:460-505 | Matching over all traits that influence a kit is reflexive and transitive |
| `KitMatching.KitMatchesExactly` | pkg/trait/util.go:460-505 | A kit matches exactly if its modes are among those wanted and runtime version, builder image, properties, tasks and native image are equal, defaults filled in |
| `KitMatching.KitMatchingIsNotSymmetric` | pkg/trait/quarkus.go:121-150 | The whole relation is no equivalence: a kit without modes serves an Integration that also wants native mode, not the other way round |
| `KitMatching.SortedCopiesEqual` | pkg/trait/builder.go:82-98 | Comparing sorted copies is comparing multisets |
| `KitMatching.BuilderTrait.Matches` | pkg/trait/builder.go:71-99 | Equal base image and equal multisets of properties and tasks, changing neither trait |
| `KitMatching.MatchQuarkus` | pkg/trait/quarkus.go:121-150 | Inclusion of the effective modes, where none means jvm, and equal defaulted base images |
| `KitMatching.MatchSettings` | pkg/trait/camel.go:69-76 | One trait's comparison, with equal runtime versions for the camel trait |
| `KitMatching.HasMatchingTraits` | pkg/trait/util.go:460-505 | The first mismatch or decoding error in catalog order decides; the answer is positive exactly when every influencing trait can be decoded and matches |
| `BuildSteps.StepsRoundTrip` | pkg/builder/steps.go:60-80 | Looking up the IDs of accepted steps gives back these steps, under every history of registrations |
| `BuildSteps.LookupRoundTrip` | pkg/builder/steps.go:60-80 | What a lookup returns has the IDs asked for, and it fails exactly for an unknown ID |
| `BuildSteps.RegistersNewIdsOnly` | pkg/builder/steps.go:98-105 | Registration goes through exactly for new and distinct IDs |
| `BuildSteps.AcceptedIsEntry` | pkg/builder/steps.go:98-105 | An accepted step stays registered under its ID for good |
| `BuildSteps.StepRegistry.Register` | pkg/builder/steps.go:98-105 | The registry is that of its history; a duplicate panics after the steps before it were registered |
| `BuildSteps.StepRegistry.StepsFrom` | pkg/builder/steps.go:60-71 | The loop is the lookup |
| `BuildSteps.ByPhaseIsStable` | pkg/builder/builder.go:75-78 | Sorting by phase orders the phases and keeps the order within each |
| `BuildSteps.StableOrderIsUnique` | pkg/builder/builder.go:75-78 | There is only one such order |
| `BuildSteps.ResortingChangesNothing` | pkg/builder/builder.go:75-78 | Sorting a sorted list again leaves it as it is |
| `BuildSteps.ExecutesAPrefix` | pkg/builder/builder.go:82-112 | A run executes exactly a prefix that ends at the first failure, cancellation or timeout, and completes only after all steps |
| `BuildSteps.StatusExactly` | pkg/builder/builder.go:82-122 | What is reported, from steps, signals and effects alone: interrupted exactly on a cancellation, then without image and artifacts; failed exactly on a step error or a timeout; neither exactly if nothing stops the build |
| `BuildSteps.WhereItStops` | pkg/builder/builder.go:82-112 | A run that does not complete stops at the first step that is not reached with the go-ahead or fails |
| `BuildSteps.Do` | pkg/builder/builder.go:68-131 | Over the steps in stable phase order the status is exactly that: phase, error, image and artifacts by the first step that stops the build, or those of a complete run |
| `Applier.AppliedExactlyOnce` | pkg/client/apply.go:51-98 | Over every run of calls each successful call applied its object exactly once; a failed one applied it once exactly when the request that decided the call failed after its effect, and not at all otherwise |
| `Applier.ModeIsFixedByFirstProbe` | pkg/client/apply.go:54-70 | The first conclusive probe fixes the mode for good; without one the applier stays unprobed |
| `Applier.ServerOrClientSideApplier.Apply` | pkg/client/apply.go:51-81 | One call on the mutable fields is one step of that state machine |
| `JvmHeap.HeapBelowLimit` | pkg/trait/jvm.go:161-171 | The heap size, read as MiB, is strictly below every positive limit, and zero exactly up to three megabytes |
| `JvmHeap.HeapIsAShare` | pkg/trait/jvm.go:161-171 | The heap is a quarter of the megabytes below 300M and half of them from there on, rounded down; megabytes are rounded up |
| `JvmHeap.HeapIsMonotone` | pkg/trait/jvm.go:161-171 | More memory never means less heap, across the 300M threshold too |

## Left out

- The API server itself: apply, list, delete and discovery are map operations with failures as inputs. Listings see the state after the deployment; races with other clients happen between runs, as foreign changes, which leave an object of the Integration alone and put neither its label, an owner reference to it nor a generation label on the objects in question.
- Generations.GenerationConvergence: histories are those of a server that knows server-side apply and of traits that are enabled; with the merge patch of the client-side fallback old stamps stay on an object, and only the theorems about single runs cover it. The merge patch of unstructured objects, which replaces labels, is not modelled.
- Generations.LifeOfAnObject: the same histories; producers write no generation label in runs that do not stamp.
- The order in which Go iterates over the deletable kinds is an input of each run, so every order is covered.
- The profile filter of the trait catalog, and the order by ID among traits of equal order, on which nothing here depends.
- Traits other than deployer, gc, gitops and owner are producers of arbitrary resources that may fail; of the post steps only the SinkBinding injection is modelled, without its choice of source and target, and the status condition on executed traits is not.
- Annotations, pod template labels, and the fields of an owner reference that the collector does not read.
- The running and error phases of the controller choice, and the explicit controller kind of the deployer trait: they depend on stored conditions and overrides.
- A timer period beyond 64 bits panics in the source and counts as an error of the vote or of the run in the controller choice.
- The comma-separated string of cron components is a list of components.
- URI parsing, regular expressions, JSON, YAML and mapstructure decoding, what a push to Git contains, and source inspection: the model starts from parsed endpoints, matched parts and decoded settings.
- A negative index in an option panics in the source and counts as rejected here.
- `SanitizeLabel`, path joining and file base names are arbitrary functions on strings.
- Volume names of persistent volume claims, emptyDir volumes and Kamelet bundles, and the mount paths of configs and resources.
- The other properties written per source (name, type, language, loader, compression): one location property per index carries the numbering.
- The size of a serialised Kamelet is the length of its string.
- Time zones, daylight saving, and the numbering of week days, in which Quartz and Kubernetes differ.
- Concurrent calls to one applier, and how client-side apply patches an existing object.
- `slices.Sort` and `sort.SliceStable` are library code: the model sorts with a function whose result is proved to be the only sorted, or stably sorted, order.
- The text of the error for an unknown build step does not name the step.
- The assembly of JVM arguments, and quantities that are no whole number of bytes.
- Per-task isolation of builder configurations, Maven, Jib, S2I and git execution, the CLI, events and logging.
