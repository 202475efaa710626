# Verified model of the Cloud Foundry Terraform provider

A Dafny model of the parts of terraform-provider-cloudfoundry that decide what happens to running
apps and to the access to services, with proofs about all inputs, all states and all failures.

`dafny verify dfyconfig.toml` checks everything.

## What is modelled

**Blue-green updates.** `Rewind.dfy` is the saga interpreter: forward steps in order, and on a failure
the failing step's own compensation. `CloudController.dfy` is the space the app lives in: apps by
guid, with a name, settings, instance count, confirmed run state, bits and routes. Each request is
carried out, refused, or carried out with the acknowledgement lost, as a schedule decides; nothing is
assumed about the schedule. `AppResource.dfy` gives the meaning of every operation of the app resource as a
function from state to state, `AppSession.dfy` the operations as methods that change the state request
by request, each proved equal to its function. `RequestCounts.dfy` counts requests;
`BlueGreen.dfy`, `BlueGreenOutcome.dfy`, `BlueGreenRollback.dfy` and `UpdateModes.dfy` prove what the
states passed through keep and how a run ends, and `RunStages.dfy` what each request changes. Every request and every d.SetId appends
the resulting state to a log, so "in every state" means every entry of the log.

**Service access of a broker.** An entry (service, plan, org) denotes a set of (plan, org) pairs.
`ServiceAccess.dfy` defines denotation and expansion, `SplitAccess.dfy` the collapsing of entries by
counting, `AccessTheory.dfy`, `UpdateTheory.dfy` and `ReadBack.dfy` the theory of retrieval, expansion,
update and reading back,
`CloudMarket.dfy` the visibilities and public flags on the Cloud Controller, and `BrokerResource.dfy`,
`BrokerGrants.dfy` and `BrokerUpdate.dfy` the loops that read, grant and revoke. Any request may be
lost; a counter of lost requests lets each method say exactly when it reports an error, and a counter of
all requests, with `BrokerRequests.dfy`, how far reading back got.

**Smaller pieces.** Environment variable groups, security rules, tar-to-zip renaming, the announced
length of an upload, security groups of a space, timed polling.

## What the platform is taken to guarantee

- App names are unique in a space: the controller refuses a request that would break this
  (`CloudController.NamesStayUnique`). Guids are never reused.
- Plan guids, labels and plan names are unambiguous within a broker; a (plan, org) pair has at most
  one visibility; visibilities refer to listed orgs; org guids are not empty and have one length.
- Go's `schema.Set` is taken as a set by value: hash collisions are not modelled.

## Where code and documentation differ

- The provider's README promises in line 750 that an app never shuts down. If creation fails before d.SetId (also when a
  memory size does not parse, resources/apps.go:199-202), the compensation deletes the original,
  because d.Id() is still its guid.
- A blue-green restage starts the new app with a copy whose instance count is zero
  (resources/apps.go:311), so startApp returns without waiting for an instance, and the original is
  deleted when the new app is only known to be staged. `UpdateModes.DefaultUpdateStaysUp` gives the
  exact condition under which the promise holds.
- After a rollback d.Id() holds the guid of the deleted new app; `BlueGreenOutcome.PointsNowhereIff` says
  exactly when it points to no app.
- A failing upload panics (bitsmanager/repository.go:275-277), so the compensation does not run;
  `BlueGreenOutcome.DeployPanicsIff` says exactly when.
- An update treats an entry with plan and org as the plan in all orgs (resources/service_broker.go:73-81);
  the create path grants the one pair.
- An update reads the public flags from a snapshot taken before it clears them, so visibilities of a
  service that was public are not revoked; and wanted entries that name a service by its guid lose the
  access they already had, because the difference compares names.
- The two in-place updates of an app start it even when the configuration says it is not started.
- An update of a space whose sec_groups did not change unbinds every group that is not wanted, also
  those Terraform never managed.

## Model

| member | source | states |
|---|---|---|
| `Rewind.RunTrace` | rewind/rewind.go:214-236 | For any list of actions: the forward steps that run are a prefix of the list, at most one compensation runs, it is the failing step's own and nothing runs after it, and the error is the step's own unless its compensation failed |
| `Rewind.RunOkIffAllOk` | rewind/rewind.go:214-236 | No error if and only if every forward step succeeds |
| `Rewind.RunKeeps` | rewind/rewind.go:214-236 | An invariant of every forward step and every compensation is an invariant of a whole run |
| `AppSession.Session.Execute` | rewind/rewind.go:214-236 | The loop with early return and one compensation leaves the states the interpreter prescribes. No state of any list touches another app; a blue-green list has the original intact or the new app complete in every state, if and only if it does not lose the original before SetId; it succeeds if and only if the two names are free, the parameters parse and each of its requests is acknowledged, and then the new app has replaced the original; a middle failure whose compensation is carried out leaves the apps exactly as they were |
| `AppSession.Session.BindAppRoutes` | resources/apps.go:475-510 | The bind loop and the unbind loop, request by request, stopping at the first error; nothing for an empty wanted list |
| `AppFrames.BindRoutesSpec` | resources/apps.go:475-510 | On success a non-empty wanted list leaves wanted plus (bound minus managed); an empty one changes nothing; whatever fails, in every state no wanted or unmanaged route is unbound and no unwanted one bound, and nothing is unbound before every wanted route is bound |
| `AppFrames.StartAppSpec` | resources/apps.go:375-421 | A successful start changes only the run state of that app, to Running or, with an instance count of zero, to Staged |
| `AppFrames.SendBitsSpec` | resources/apps.go:511-529 | A successful upload changes only the bits of the app the state points to |
| `AppFrames.FillAppSpec` | resources/apps.go:207-235 | After SetId only the new app changes; on success it has the configured name, settings, routes, bits and run state |
| `BlueGreen.UndoMidway` | resources/apps.go:284-287 | After SetId the compensation keeps the original intact in every state, the new app stays if and only if the delete is refused, and, if the compensation succeeds and the app had the name the Terraform state holds (the wanted one if it holds none), the apps are the initial ones if and only if the delete was not refused, and always when the app is not renamed |
| `BlueGreen.UndoBeforeSetId` | resources/apps.go:263-266 | Before SetId the compensation deletes the original unless the delete is refused |
| `BlueGreen.DeployNeverDown` | resources/apps.go:245-274 | For every failure schedule: every state of a blue-green deploy has the original intact or the new app complete, if and only if creation does not fail before SetId with the ensuing delete carried out; the exact end state on success; a panic stops the saga midway |
| `BlueGreen.RestageNeverDown` | resources/apps.go:275-321 | The same for a blue-green restage with a new app that is merely staged when the original is deleted; what that makes of the documented promise is stated by `UpdateModes.DefaultUpdateStaysUp` |
| `BlueGreen.LosingRun` | resources/apps.go:245-321 | Exact outcome when creation fails before SetId: the original is lost, the state still points to it and the error is the rewind failure; or, if the delete is refused, the original stays intact |
| `BlueGreenRollback.RollbackExact` | resources/apps.go:275-321 | For an app with the name the Terraform state holds (the wanted one if it holds none), a middle step failing after SetId with a successful compensation: the step's own error, and the exact initial apps with an id that points to no app if and only if the delete, whose error is ignored, was not refused; always so when the name does not change |
| `BlueGreenRollback.NoOtherAppTouched` | resources/apps.go:245-321 | Whatever the list of steps and whatever fails, no other app changes in any state |
| `BlueGreenOutcome.SucceedsIff` | resources/apps.go:245-321 | A blue-green update succeeds if and only if the venerable name and the wanted name are free, the parameters parse and each request, counted exactly, is acknowledged: no other forward request can be rejected |
| `BlueGreenOutcome.IntactIff` | resources/apps.go:245-321 | The original stays intact in every state if and only if neither the compensation before SetId nor the last step deletes it; and what the last state is if the last step does |
| `BlueGreenOutcome.FirstStepFails` | resources/apps.go:255-259 | Exact state after a failing first step, which has no compensation: unchanged, or the venerable name left behind if only the acknowledgement was lost |
| `BlueGreenOutcome.LastStepFails` | resources/apps.go:269-273 | Exact state after a failing last step, which has no compensation: both apps left behind, the original under its venerable name, or the replacement complete if only the acknowledgement was lost |
| `BlueGreenOutcome.RenamingMakesRoom` | resources/apps.go:255-259 | What the renaming is for: with an unchanged name, creation is rejected before it and accepted after it, whatever the schedule |
| `BlueGreenOutcome.CompensationSucceedsIff` | resources/apps.go:263-266 | The compensation after SetId, request by request: the renaming back, the only other request about a name, is rejected if and only if another app of the space or the new app that was not deleted holds the name; the exact apps left in every case |
| `BlueGreenOutcome.CompensationRestores` | resources/apps.go:247-321 | On the fields of the configuration: after a middle failure whose two compensating requests are carried out the apps are exactly the initial ones, and from the first step until the last request the original was called by its old name with "-venerable" appended (its wanted name if the Terraform state holds none) |
| `BlueGreenOutcome.MiddleFailure` | resources/apps.go:245-321 | Exact end of a run whose first failing request comes after SetId and is not the upload, whatever becomes of the compensation: apps, id and error |
| `BlueGreenOutcome.DeployPanicsIff` | resources/apps.go:260-268 | A deployment panics, and nothing is compensated, if and only if every request before the upload is acknowledged and the upload is not |
| `BlueGreenOutcome.PointsNowhereIff` | resources/apps.go:245-321 | A run leaves d.Id() pointing to no app if and only if it loses the original before SetId, or fails after it, not at the upload, with the delete of the compensation not refused |
| `RunStages.StateAfterRequest` | resources/apps.go:207-321 | The order within a run: right after each request between SetId and the last step, carried out or not, the new app has exactly the routes bound so far, no bits before they are sent or copied, and is not started before its routes, services and bits are done |
| `AppSession.Session.RunCreateOrUpdate` | resources/apps.go:108-166 | The choice of the update and its requests. An update of an existing app that succeeds achieves what the changed keys ask for; any update touches no other app in any state, and with blue-green updates on it keeps the app up in every state if and only if it neither loses the original nor replaces it by an app never seen running |
| `UpdateModes.ModeChosen` | resources/apps.go:108-166 | On the changed keys: only the routes, only the instance count, only the name, or count and name are each changed on the spot; otherwise changed bits go by blue-green deployment and everything else by blue-green restage, unless switched off |
| `UpdateModes.UpdateAchieves` | resources/apps.go:108-166 | On the fields of the configuration alone, what any successful update of an existing app leaves: the new count, the new name, both, or the wanted routes, on that app; the new bits or settings on that app in place; or a new app in its place, with the name, settings, count, routes, bits and run state to expect. Nothing else changes |
| `UpdateModes.DefaultUpdateStaysUp` | resources/apps.go:108-166 | "By default, when updating, your app will never shutdown" (the provider's README, line 750), with one meaning of "up" for every kind of update: true of every state, except exactly when a blue-green run loses the original before SetId, or a restage of an app wanted running with some instance deletes the original |
| `UpdateModes.SuccessfulRestageStaysUpIff` | resources/apps.go:306-312 | A restage that reports no error keeps the promise if and only if no running instance is wanted |
| `UpdateModes.MemoryChangeReplacesUnseen` | resources/apps.go:306-312 | A concrete update, with no lost request and no error, that deletes a running app before an instance of the new one was seen running |
| `UpdateModes.UpdateSparesOthers` | resources/apps.go:108-166 | Whatever the kind of update and whatever fails, no other app changes in any state |
| `UpdateModes.InPlaceUpdateStops` | resources/apps.go:136-164 | With blue-green switched off a running app is stopped on the way, unless the first request has no effect |
| `RunStages.DeployInPlaceOrder` | resources/apps.go:136-148 | What each request of a deployment in place makes of the app: stopped, then its bits, then started |
| `RunStages.RestageInPlaceOrder` | resources/apps.go:149-164 | What each request of a restage in place makes of the app: reconfigured and stopped, then started |
| `UpdateModes.InPlaceEndState` | resources/apps.go:120-164 | What each successful in-place update leaves: that app updated, nothing else touched |
| `UpdateModes.RoutesEndState` | resources/apps.go:113-119 | What an update of the routes alone leaves, on success and on failure |
| `UpdateModes.CreateEndState` | resources/apps.go:110-112 | A successful creation points the state to a new complete app and touches no other |
| `UpdateModes.CreationAchieves` | resources/apps.go:110-112 | The new app field by field: name, settings, count, run state, bits and routes as configured, under the next guid |
| `UpdateModes.BadParamsDeleteTheApp` | resources/apps.go:199-202 | Exact outcome of either blue-green update when memory or disk quota do not parse: the original is deleted and the state still points to it |
| `UpdateModes.UnparsableQuotaDeletesTheApp` | resources/apps.go:275-299 | A concrete update, with no lost request, that deletes the only app |
| `UpdateModes.RefusedUploadPanics` | resources/apps.go:260-268 | A concrete deployment in which the one refused request, the upload, leaves both apps behind uncompensated |
| `ServiceAccess.FindsFirstService` | resources/service_broker.go:453-460 | The first service with the given label or guid is found; nothing is found only if there is none |
| `ServiceAccess.FindsFirstPlan` | resources/service_broker.go:461-468 | The first plan of the service with the given name or guid is found; nothing is found only if there is none |
| `SplitAccess.GetServicesAccessForOrg` | resources/service_broker.go:241-249 | The entries of one org, in order |
| `SplitAccess.SplitServiceAccess` | resources/service_broker.go:221-240 | On any input the two lists, in order and with repetitions: the entries that are kept, and an org-only entry for each collapsed one, none for an entry whose key an earlier collapsed entry has |
| `SplitAccess.PartsHold` | resources/service_broker.go:221-240 | An entry is in one of the lists if and only if it, or the entry it stands for, is kept or collapsed |
| `SplitAccess.CountIsPlans` | resources/service_broker.go:229 | Distinct entries of one service: an org has as many entries as plans |
| `SplitAccess.CollapsesIffWhole` | resources/service_broker.go:229-236 | Pigeonhole: an org collapses if and only if it has an entry for every plan |
| `SplitAccess.NothingSkipped` | resources/service_broker.go:226-228 | With org guids of one length no entry is skipped |
| `SplitAccess.SplitPreservesIff` | resources/service_broker.go:221-240 | For distinct entries of one service and any org guids: each plan is granted in each org by the output exactly as by the input, if and only if every skipped entry belongs to an org with an org-only entry |
| `SplitAccess.SplitPreservesMeaning` | resources/service_broker.go:221-240 | With org guids of one length that is always so |
| `SplitAccess.CollidingKeysDropAnEntry` | resources/service_broker.go:226-228 | With org guids of different lengths an entry can be dropped: a concrete input |
| `BrokerResource.IsPlanInAllOrgs` | resources/service_broker.go:260-275 | True exactly when the plan is visible to every org |
| `BrokerResource.ScanPlans` | resources/service_broker.go:161-190 | The loop over the plans of a service: bare or not, and in order the plans in all orgs and the visibilities of the others |
| `BrokerResource.ScanIsRetrieved` | resources/service_broker.go:191-200 | The scan and its split hold exactly the entries described for the service |
| `BrokerResource.ServiceEntriesHold` | resources/service_broker.go:157-201 | So does the ordered list the loop body appends |
| `BrokerResource.RetrieveServicesAccess` | resources/service_broker.go:154-204 | The entries of the services in order, exactly the described ones on success; a lost request is the only error, and comes with the entries of the services before the one it was sent for, as the number of requests sent shows |
| `BrokerRequests.SearchesAfter` | resources/service_broker.go:260-275 | How many searches the test for all orgs makes: one an org up to the first without the plan, which is what the request count of a retrieval is made of |
| `AccessTheory.CompressionSoundAndExact` | resources/service_broker.go:154-204 | Retrieved entries denote every effective access, and nothing else if and only if in each service with a public plan every plan is public or in all orgs |
| `AccessTheory.OneSidedIffRecoverable` | resources/service_broker.go:154-204 | Retrieval yields only one-sided entries if and only if no service is fully visible and each visible plan is in all orgs or visible to an org with every plan |
| `BrokerResource.GetServicesAccessDefWithOnlyOrg` | resources/service_broker.go:363-373 | One entry per plan of the service, in order, in the org |
| `BrokerResource.GetServicesAccessDefWithOnlyPlan` | resources/service_broker.go:374-388 | One entry per org, in order, for the plan; a lost request is the only error |
| `BrokerResource.GetFullServiceAccessDef` | resources/service_broker.go:65-89 | The expansion of one entry as an ordered list, including the plan case overriding the org case and the bare case giving nothing |
| `BrokerResource.ExpansionHolds` | resources/service_broker.go:65-89 | The list holds exactly the triples the entry expands to |
| `BrokerResource.GetFullServicesAccessDef` | resources/service_broker.go:54-64 | The expansions of all entries, in order; an unknown service or a lost request is the only error; one request for each entry with a plan |
| `BrokerResource.ExpansionsHold` | resources/service_broker.go:54-64 | The list holds exactly the expansions of the entries |
| `AccessTheory.ExpandedToIff` | resources/service_broker.go:65-89 | Expanding drops the org of an entry that names a plan, and the meaning of a bare entry |
| `AccessTheory.RetrievedExpandIff` | resources/service_broker.go:154-204 | From any visibilities and flags: a pair is in the expansion of what was retrieved if and only if the service is not retrieved bare, and the pair is visible or its plan has a lone visibility in another org |
| `AccessTheory.OneSidedKeepMeaning` | resources/service_broker.go:65-89 | Entries naming exactly one of plan and org keep their meaning when expanded |
| `AccessTheory.ExpansionUndoesCompressionIff` | resources/service_broker.go:54-89 | With no public plan, some org and no empty service, expanding what was retrieved gives the visibilities back if and only if every retrieved entry is one-sided |
| `BrokerGrants.UpdateServiceAccessWithPlanAndOrg` | resources/service_broker.go:431-452 | Adds exactly the named pair; an existing one is no error |
| `BrokerGrants.UpdateToVisibilityServicePlan` | resources/service_broker.go:403-411 | Flags all plans of the service, or those before the lost request |
| `BrokerGrants.UpdateServicesAccessToPublicServicePlan` | resources/service_broker.go:412-430 | Flags the plans entry by entry; an unknown service or a lost request is the only error, and leaves the entries before it and part of its own plans flagged |
| `BrokerGrants.PublicIsLastMention` | resources/service_broker.go:412-430 | Afterwards a plan of a mentioned service is public exactly when the last entry for its service is bare; other flags are unchanged |
| `BrokerGrants.UpdateServiceAccess` | resources/service_broker.go:332-362 | Grants what the entry denotes; on an error nothing is revoked, no visibility outside the entry is granted, and only the first plans of a bare entry are made public |
| `BrokerGrants.UpdateServicesAccess` | resources/service_broker.go:323-331 | Visibilities become the old ones and the denotation of the non-bare entries, plans of bare services public; on an error at entry k visibilities and flags lie between the grants before k and those up to k |
| `BrokerGrants.PublicGrantedAt` | resources/service_broker.go:349-351 | The create path makes public exactly the plans of services with a bare entry |
| `BrokerGrants.GrantingAgainChangesNothing` | resources/service_broker.go:323-362 | Two runs: once the first has succeeded, the second changes neither a flag nor a visibility, also when it fails |
| `BrokerGrants.ContainsServiceAccess` | resources/service_broker.go:529-538 | Membership |
| `BrokerGrants.DiffServicesAccess` | resources/service_broker.go:511-528 | The two set differences |
| `BrokerUpdate.CreateOne` | resources/service_broker.go:647-657 | One turn of the create loop grants exactly the pair the entry denotes, or nothing with an error |
| `BrokerUpdate.CreateAll` | resources/service_broker.go:647-657 | Adds exactly what the entries denote, or on an error exactly what the entries before the failing one denote |
| `BrokerUpdate.DeleteOne` | resources/service_broker.go:658-680 | Removes exactly the pair the entry denotes; a missing visibility is no error |
| `BrokerUpdate.DeleteAll` | resources/service_broker.go:658-680 | Removes exactly what the entries denote, or on an error exactly what the entries before the failing one denote |
| `BrokerUpdate.ApplyDifference` | resources/service_broker.go:642-681 | Creates the wanted entries not retrieved, then deletes the retrieved ones not wanted: on an error nothing else has changed, and nothing has been revoked unless every entry to create exists and has been created |
| `BrokerUpdate.ReadDifference` | resources/service_broker.go:632-641 | The expansions of the wanted and of the retrieved entries; an error comes from expanding the wanted entries or from the retrieval, never from expanding what was retrieved: if that request is lost, nothing counts as retrieved |
| `UpdateTheory.CanonicalDifference` | resources/service_broker.go:511-538 | For entries written with labels and plan names the difference of lists is the difference of meanings |
| `UpdateTheory.DiffAndApply` | resources/service_broker.go:642-681 | From visibilities equal to the source list, diff, create and delete end with the destination list, and other brokers' plans are left alone |
| `BrokerUpdate.UpdateAccess` | resources/service_broker.go:627-681 | On success, from any state: flags as the last entry for each service says, visibilities as `UpdateTheory.UpdateEndsWith` says, access as both say, plans of other brokers untouched; the ignored expansion error; from a recoverable state, one-sided wanted entries by label are exactly what is visible, and plainly wanted ones exactly what the orgs can use; on an error, how far the flags got, only what the difference asks for granted or revoked, and nothing revoked before everything wanted has been granted |
| `BrokerUpdate.AccessIsWanted` | resources/service_broker.go:627-681 | Flags and visibilities together: from a recoverable state whose flags the snapshot shows, with wanted entries by label that do not mix bare and other entries for a service, an org can use a plan afterwards exactly if the entries denote it |
| `BrokerUpdate.AccessIsWantedIff` | resources/service_broker.go:627-681 | From any state and any flags, with such entries: an org can use a plan afterwards exactly if the entries denote it, if and only if the service is wanted bare, or wanted otherwise and able to converge, or not wanted with the plan neither public nor visible under a bare retrieval |
| `UpdateTheory.UpdateEndsWith` | resources/service_broker.go:627-681 | What is visible after a successful update, for any visibilities, flags and wanted list, whatever names it uses, in terms of these alone: a pair that counts as granted must be wanted under label and plan name, and be visible or wanted under another name too; any other pair stays, or is created if wanted |
| `UpdateTheory.ConvergesIff` | resources/service_broker.go:627-681 | The update reaches what the wanted entries expand to if and only if, on every plan and org of the current state, a wanted pair that counts as granted is wanted by name and visible or wanted by another name, and a visible pair that does not count is wanted |
| `UpdateTheory.ConvergesByNameIff` | resources/service_broker.go:627-681 | For lists written with labels and plan names: if and only if no service retrieved bare has an unwanted visibility, and no plan with a lone visibility is wanted in an org where it is not visible |
| `UpdateTheory.LoneVisibilityBlocksGrants` | resources/service_broker.go:642-657 | A concrete state and wanted list for which the update does not converge: a plan visible to one org and wanted in all is not granted to the others |
| `UpdateTheory.UpdateReachesWanted` | resources/service_broker.go:627-681 | From a recoverable state, with one-sided wanted entries, the update ends with the denotation of the wanted entries |
| `UpdateTheory.StalePublicFlagKeepsVisibilities` | resources/service_broker.go:596-636 | If the snapshot taken before the flags change shows a public plan, no visibility of its service is revoked |
| `UpdateTheory.StaleFlagKeepsUnwanted` | resources/service_broker.go:596-636 | A concrete state in which an unwanted visibility survives the update for that reason |
| `UpdateTheory.UpdateKeepsMeaningIff` | resources/service_broker.go:65-89 | For any wanted list: what an update takes it for is what it denotes if and only if each plan named with an org is wanted in every org anyway and that org is listed or wanted whole, and each service wanted bare is covered plan by plan and org by org by other entries |
| `UpdateTheory.PlanAndOrgWidens` | resources/service_broker.go:73-81 | A concrete list with plan and org for which an update also grants the plan to another org |
| `UpdateTheory.KeptIffNamed` | resources/service_broker.go:511-538 | From a recoverable state and for any mix of labels, names and guids: an access that was visible is kept if and only if it is wanted under its label and plan name, any other is granted if and only if it is wanted |
| `UpdateTheory.GuidRevokesWanted` | resources/service_broker.go:511-538 | A concrete state in which an update revokes a wanted access because the service is named by its guid |
| `ReadBack.NoDriftIff` | resources/service_broker.go:154-204 | With visibilities as a list by label and plan name denotes them, reading back gives exactly that list if and only if it is in the short form: one bare entry for a service retrieved bare, and otherwise no org named for a plan that is in all orgs and no plan named in an org that has them all |
| `ReadBack.NoDriftAfterUpdateIff` | resources/service_broker.go:627-681 | The same for the state an update from a recoverable state leaves |
| `ReadBack.OnlyPlanDrifts` | resources/service_broker.go:191-196 | The only plan of a service, wanted in every org, is always read back as the bare service |
| `ReadBack.DriftHappens` | resources/service_broker.go:191-196 | A concrete broker for which it is |
| `EnvVarGroup.ToSchema` | resources/env_var_group.go:20-49 | One flagged variable per key, whatever the iteration order |
| `EnvVarGroup.ResourceObject` | resources/env_var_group.go:58-75 | The two maps of the flagged variables, later ones overriding |
| `EnvVarGroup.SplitAnyOrder` | resources/env_var_group.go:58-75 | With unique keys the order of the list does not matter |
| `EnvVarGroup.SplitOfMerged` | resources/env_var_group.go:20-75 | Splitting the merged set gives Running back, and Staging with Running's values on shared keys |
| `EnvVarGroup.SplitOfMergedIsIdentityIff` | resources/env_var_group.go:20-75 | So it is the identity if and only if the maps agree on shared keys |
| `EnvVarGroup.MergedOfSplitIsIdentityIff` | resources/env_var_group.go:20-75 | Merging what was split is the identity if and only if keys are unique and every variable has a flag |
| `EnvVarGroup.NothingMissingIff` | resources/env_var_group.go:164-180 | When Exists finds no difference: flags and shown values agree on the wanted keys, staging values of shared keys are not compared |
| `SecurityRules.SanitizeRule` | resources/security_groups.go:73-98 | A typed field is dropped if and only if it is code or type with -1, log with false, or ports, destination or description with an empty text; panics exactly when a field has the wrong type |
| `SecurityRules.ConvertParam` | resources/security_groups.go:63-72 | An integer as it is, a float rounded towards zero, and nothing else |
| `SecurityRules.UnSanitizeRule` | resources/security_groups.go:34-62 | The fields as they are, numbers as integers, and for those missing code -1, type -1, log false and empty ports, destination and description; the argument changed in place; panics exactly when code or type is not a number, with a convertible code already converted |
| `SecurityRules.UnsanitizeSanitizeIff` | resources/security_groups.go:34-98 | Unsanitize after sanitize, also with floats in between, is the identity if and only if the rule has every field with a default |
| `SecurityRules.SanitizeUnsanitizeIff` | resources/security_groups.go:34-98 | Sanitize after unsanitize is the identity if and only if the rule holds no default and its numbers are integers |
| `TarToZip.WriteTarToZip` | bitsmanager/http_handler.go:113-156 | The zip holds the readable entries after the leading directories, in order: a file deflated and with its content, a directory with neither, each under its own name or, after leading directories, under what follows the first slash; the error is a read error |
| `TarToZip.StripsSegment` | bitsmanager/http_handler.go:139-140 | Splitting, dropping the first part and joining removes exactly the first segment and its slash |
| `TarToZip.StripsAll` | bitsmanager/http_handler.go:139-140 | A name without a slash becomes empty |
| `TarToZip.FileFirstKeepsNames` | bitsmanager/http_handler.go:136-137 | An archive that starts with a file keeps all names, and the content of every file |
| `TarToZip.RootFolderIsStripped` | bitsmanager/http_handler.go:128-141 | An archive that starts with a directory and lies under one segment loses exactly that segment, and distinct names stay distinct |
| `TarToZip.StrippedIsAfterSlash` | bitsmanager/http_handler.go:139-140 | Splitting, dropping the first part and joining keeps what comes after the first slash |
| `TarToZip.DistinctIffAfterSlash` | bitsmanager/http_handler.go:128-141 | In any archive that starts with a directory zip names are distinct if and only if the tar names differ after their first slash |
| `TarToZip.TwoRootsClash` | bitsmanager/http_handler.go:138-141 | With two top-level segments distinct names can become equal: a concrete family |
| `Multipart.UploadBody` | bitsmanager/repository.go:229-262 | The streamed body: the part with the empty list, the part with four headers and the zip, delimiters and closing written out, with the size in decimal digits |
| `Multipart.DecimalIsUnique` | bitsmanager/repository.go:248 | The size is written with the only digits that read as it without a leading zero |
| `Multipart.PredictPart` | bitsmanager/repository.go:281-310 | The announced length, also when the boundary is not accepted |
| `Multipart.PredictedIsStreamedIff` | bitsmanager/repository.go:229-310 | The announced length is the streamed length if and only if, boundaries being equal, the content has the announced size; in general if and only if size and boundary errors cancel |
| `Multipart.ChosenIsAnnounced` | bitsmanager/repository.go:268-270 | A boundary the writer chooses is always accepted by SetBoundary, so the announced length is the streamed one if and only if the content has the announced size |
| `Spaces.GetMissingSecGroup` | resources/utils.go:13-21 | The elements not found, in order |
| `Spaces.ContainsSecGroup` | resources/utils.go:23-30 | Membership by guid |
| `Spaces.Space.UpdateSecGroups` | resources/spaces.go:82-101 | Binds what is only wanted, then unbinds what is only old; an error leaves the space between them, with nothing unbound before everything is bound |
| `Spaces.FilterByTerraformExist` | resources/spaces.go:113-124 | The intersection |
| `Spaces.Space.UpdateManagedGroups` | resources/spaces.go:171-178 | With changed sec_groups the space ends with wanted plus (bound minus previously managed), with unchanged ones with exactly wanted; nothing is unbound before every wanted group is bound |
| `Spaces.Space.CreateGroups` | resources/spaces.go:69-73 | Creation over an existing space only adds, and adds all wanted groups unless a request is lost |
| `Polling.PollingWithTimeout` | common/utils.go:55-71 | Stops at the first turn that begins too late or reports something final, returns no error only for a finished report, and calls at most timeout / waitTime + 1 times |
| `Polling.ElapsedAdds` | common/utils.go:55-71 | The time the deadline is held against is that of the calls, the waits and the oversleeping together |

## Left out

- AppResource.BindServices: one request that may fail, because the source compares service ids with binding guids through a library that is not part of this model.
- AppSession.Session.StartApplication: the polling for staging and for an instance is one request each; the retries, the sleeps and the log retrieval on failure are not modelled.
- AppSession.Session.Execute: a step is a value of the datatype Step rather than a closure, and `Rewind.Run` interprets closures as functions of the state; both are proved to agree.
- AppSession.Session.RunCreateOrUpdate: whether the resource exists and the messages wrapped around errors are not modelled.
- Schedule: other clients changing the space during a run are not modelled.
- SplitAccess.SplitPreservesMeaning: requires org guids of one length, as Cloud Foundry guids have; without it a concrete input fails.
- BrokerResource.RetrieveServicesAccess: Read, which ignores its error and stores the entries found so far, is not modelled.
- BrokerUpdate.UpdateAccess: starts after the broker itself was updated; passwords, catalog checksums and the broker's own attributes are not modelled.
- BrokerGrants.UpdateServicesAccessToPublicServicePlan: takes the entries in the order the `schema.Set` gives them; that order is not modelled.
- CloudMarket.Marketplace: a row is found by its plan and org; paging and the text of the "already taken" error are not modelled.
- SecurityRules.ConvertParam: floats are real numbers, and a float outside the range of an int is not modelled.
- EnvVarGroup.ToSchema: JSON encoding and generateId, which depends on map iteration order, are not modelled.
- TarToZip.WriteTarToZip: an error while copying the content of an entry is ignored by the source, so the content of a zip entry is whatever was read; compression and other header fields are not modelled.
- Multipart.UploadBody: the pipe, the goroutine and the panics on write errors are not modelled; header order is fixed, the length does not depend on it.
- Polling.PollingWithTimeout: requires a positive wait time, as every caller passes; the untimed Polling has no bound to prove.
- Spaces.Space.UpdateManagedGroups: the SSH flag and the quota of a space are not modelled.
- HTTP, UAA, token refresh, git, local zipping, PGP and SHA-1: input, output and foreign libraries.
- domains.go, isolation segments, feature flags, stacks, organizations, quotas and other routes: set differences of the same shape or plain reads and writes, which would only add easy members.
