# Verification of the security operator's reconcilers

The operator keeps remote state equal to what Kubernetes specs ask for: relationship tuples and stores on an
OpenFGA server, AuthorizationModel objects in provider workspaces, and OIDC clients with their secrets in a
Keycloak realm. It does so in steps any of which can fail, under retries, spec edits and other writers. This
project models the reconcilers with the remote systems as in-memory state and proves what every step keeps,
what a success means, what repeated attempts lead to and, where an intended property does not hold in general,
exactly when it does.

A remote call either takes full effect or fails without effect. Objects whose methods change state are classes
here too (the OpenFGA server, the tuple manager, the caching store ID getter, the subroutines, the resources
with their status), and each method is proved against a predicate or function on values. The theorems about
retries, interleavings and runs are stated on those values.

Whether calls fail for reasons of their own is a field (`reliable`) of the servers and of the subroutines that have
none. Methods are proved for both values: what any outcome leaves behind, and exactly when a call succeeds if no
remote call fails. Contracts of the main operations and the theorems in `PolicyMeaning`, `ModelStores` and
`PermissionVerbs` spell names, relations and tuples out instead of going through the functions the code builds them
with.

## Files

| file | content |
|---|---|
| `Wrappers`, `Strings`, `Paging` | results and options, the string operations in use, paginated answers |
| `AccountPath`, `Tuples`, `Expressions` | account paths and store names, tuple builders and renderers, allow expressions |
| `TupleManager` | the OpenFGA server's tuples and the tuple manager |
| `TupleReconciler`, `TupleRuns` | the tuple subroutine; any number of resources sharing one store |
| `Plans`, `PolicyPlans`, `PolicyTheorems`, `PolicyMeaning`, `PolicyReconciler`, `PolicyRuns` | a policy as a sequence of writes over several stores; exactness, retries, inverses; what expressions mean in so many words; the subroutine; runs |
| `AccountTuples`, `AccountRuns` | the account tuples subroutine; any number of accounts sharing one store |
| `SharedStores` | policies, accounts and Store and AuthorizationModel resources as writers to the same stores |
| `StoreServer`, `StoreIds`, `StoreReconciler`, `Readiness` | stores by name, the caching getter, the store subroutine, the workspace initializer's gate |
| `ModelGeneration`, `ModelRuns`, `ModelStores` | generated authorization models and their reference count, the AccountInfo finalizer; how a model finds its store |
| `Permissions`, `PermissionVerbs`, `PermissionInstances` | what the generated models allow, verb by verb |
| `Idp`, `IdpEffects`, `IdpRecovery`, `IdpRuns`, `IdpFinalize`, `IdpInstances` | OIDC client reconciliation, its recovery from being cut off, its finalization, and runs in which these fail |

## Environment

- `TupleRuns`: resources name tuples from pairwise disjoint universes and write to one OpenFGA store. Other
  writers stay outside those universes. A successful reconcile and the saving of its status are one step.
  `SharedStores` shows that accounts and policies whose tuples the resources do not name are such writers
  (`AccountStepIsForeign`, `PolicyAttemptIsForeignToResources`).
- `PolicyTheorems`, `PolicyRuns`: AccountInfos, workspace and cluster lookups and store IDs are a fixed `World`;
  the export reference of a policy does not change. The expressions do, other writers do what they like with
  tuples of other users, and they may take tuples of the export away, as terminating an account and finalizing
  another policy do (`TerminateRevokes`, `OtherPolicyRevokes`).
- `AccountRuns`: runs are about a given set of accounts. Object types, cluster IDs and names hold none of the
  separators and the type is not `role`. Other writers do what they like with tuples of no given account; they leave
  the given accounts' roles, what names these on their entities and what was reconciled for them alone, and may add
  anything else to their entities. `SharedStores` shows that policies and Store and AuthorizationModel resources are
  such writers (`PolicyAttemptIsForeign`, `ResourceStepIsForeign`): the tuples the initializer asks for spare every
  account but the organization's own (`DesiredTuplesSpare`), which the Store resource and not the account
  subroutine writes.
- `StoreIds`: new stores have new names and IDs that were never used; stores are also deleted and renamed.
  `StoreReconciler`: the first page is a first part of the listing; that a store looked up by name is on it is a
  premise of uniqueness only, and exactly the right one (`UniqueThroughoutIff`). A Store resource goes away in the
  same step as its OpenFGA store.
- `ModelRuns`: the export path text names the cluster of the status, and model names in use identify export and
  organization; where models are attributed to bindings, generated cluster IDs identify organizations as well.
  Bindings may lack their finalizer: it is added by a reconcile, and only if the binding's own name asks for it.
  That the bindings of an export carry it from the start is a premise of `ModelsAreHeld` and
  `LastReleaseLeavesNothing` only, and of these for that export only. `OrphansIff`, `TwoPathsLoseModels` and
  `K8sNamesCollide` show what the premises are for.
- `Idp*`: the spec's clients have names and secrets of their own; the server hands out new client IDs, answers
  401 to a stale token and returns the current token with every success, with or without rotation (section 3.2.1
  of RFC 7591, sections 2.1 to 2.3 of RFC 7592). Whether a request about a missing client is answered 404 or 401
  is a parameter. A run is cut off after any number of remote calls; without a limit it is uninterrupted.
- `ModelStores`: organization names hold no colon, and the Store the initializer makes for each organization can be
  reached.
- `Permissions`: a core module with arbitrary definitions and an arbitrary set of tuples, cycles included. Where the
  two templates are compared, the core definitions mention neither bind nor escalate.

## What turned out different from the intent

- A failed tuple reconcile followed by a spec edit can leave tuples nobody removes: the success after the edit
  deletes only what the status lists. The share of a resource is exactly its spec if and only if nothing beyond
  managed and specified tuples was there (`ProcessIsExactIff`, `EditBeforeRetryOrphans`), which retrying before the
  next edit guarantees in every run (`RetriedToSuccessIsExact`).
- Finalizing a policy walks the spec, not the status, so an edit before the deletion leaves grants behind
  (`FinalizeIsCompleteIff`, `EditBeforeFinalizeOrphans`). Revoking `root:orgs:*` visits every AccountInfo and so
  takes grants of other policies for the same export (`SecondPolicyFinalizedKeeps`, `AllOrgsRevokesOtherPolicies`).
- Terminating an account leaves roles that no tuple on the account names (`TerminateIsCompleteIff`,
  `UnnamedRoleIsLeft`).
- A store listed beyond the first page is created a second time (`SecondStoreIff`, `UniqueThroughoutIff`,
  `SecondStoreIsMade`).
- The caching getter keeps answering with a store that was deleted or renamed since its entry was made, and a walk
  over the listing does not drop the entry (`StaleIff`, `DeletedStoreIsAnswered`).
- A Store finalized before it has a store ID does not wait for the models that refer to it, whose references are
  then dangling (`DanglesIff`).
- If the status of a success is lost and the spec is given back a tuple which that success removed, the initializer
  reports ready without it (`LostStatusIff`, `LostStatusOpensGate`); retrying before the spec changes prevents this
  (`ReadyMeansTuplesInStore`).
- Terminating an account takes the grants of policies on it along, while the policies still list them
  (`TerminateTakesGrantsOnAccount`).
- The name of a binding decides whether it gets a finalizer, the name of its export whether it gets models. A binding
  named `ui.platform-mesh.io` of an export of that name gets models and no finalizer (`NameWithoutFinalizer`). Once
  deleted it leaves them behind (`UnprotectedBindingLeaks`), and while it is there nothing holds its AccountInfo,
  without which the release of another binding takes its models (`UnprotectedBindingLosesModels`). In general a
  step leaves a model without a counted binding if and only if the last counted one is deleted without holding the
  finalizer or the AccountInfo of all counted ones goes (`OrphansIff`); a binding deleted before its first
  reconcile is another cause (`UnreconciledBindingLeaks`).
- Bindings are counted by the text of the export path, so an export bound under two path texts loses its models with
  the first release (`ReleaseKeepsModelIff`, `TwoPathsLoseModels`).
- An OIDC reconcile recovers from a cut-off attempt exactly from `Recoverable` states. Two kinds of cuts leave
  others: between deleting a client and deleting its secret on a server that answers 401 for missing clients
  (`CutDeletionSticks`, `CutDeletionRun`), and between registering a name that was removed and added back and saving
  the status (`AddingBackSticks`, `AddingBackRun`). No later attempt at the same spec gets out of them
  (`RetriesStayUnrecoverable`).
- A client registered by an attempt that was cut off before the status was saved, and dropped from the spec before a
  retry, stays registered for good, because deletion walks only the status (`NoneOutsideSpecIff`,
  `EditBeforeRetryOrphans`, `OutsideStaysForGood`).
- Finalizing an identity provider leaves the secrets of clients without a saved status entry (`FinalizeLeaves`,
  `CutRegistrationLeavesSecret`), and a Finalize cut off between deleting a client and deleting its secret on a server
  that answers 401 for missing clients never succeeds again (`FinalizeStaysStuck`, `CutFinalizeSticks`).
- A core module that itself asks for bind can allow more under the privileged template than under the ordinary one
  (`CoreAskingForBindAllowsMore`).

## Model

| member | source | states |
|---|---|---|
| TupleManager.TupleManager.Apply | internal/fga/tuple_manager.go:38-68 | a success makes the store the union with the given tuples, a failure changes nothing, no tuples means no call; if no remote call fails it succeeds whenever the store exists |
| TupleManager.TupleManager.Delete | internal/fga/tuple_manager.go:72-102 | a success makes the store the difference, a failure changes nothing, no tuples means no call; if no remote call fails it succeeds whenever the store exists |
| TupleManager.TupleManager.ListWithFilter | internal/fga/tuple_manager.go:106-146 | for every split into pages the result is the in-order filtered concatenation of all pages without nil keys, so exactly the stored tuples that pass; a missing filter is an error; if no remote call fails it succeeds on every existing store |
| TupleManager.TupleManager.ListWithKey | internal/fga/tuple_manager.go:150-183 | for every split into pages the result holds exactly the stored tuples of the object; if no remote call fails it succeeds on every existing store |
| TupleManager.TupleManager.ListPages | internal/fga/tuple_manager.go:112-145 | the loop over continuation tokens ends, by the pages left, having read each page once in order |
| TupleManager.SelectMembers | internal/fga/tuple_manager.go:128-139 | a tuple is selected if and only if it has a key among the entries and passes the filter |
| AccountPath.OrgIsAnOrgPath | internal/platformmesh/account_path.go:56-67 | the Org of a valid account path is a valid org path, Org is idempotent, and a path is an org path exactly if it is its own Org |
| AccountPath.ParentKeepsOrg | internal/platformmesh/account_path.go:62-67 | the parent of a valid path that is no org is valid and has the same Org |
| AccountPath.StoreNameAgreement | internal/subroutine/workspace_initializer.go:163-169 | the store name the account side looks up, the base of the Org, is the name the initializer gives the store of the org's own cluster |
| Tuples.EntityInjective | internal/fga/tuples.go:100-102 | separator-free accounts render to the same entity exactly if they are equal |
| Tuples.EntityIsNotARole | internal/fga/tuples.go:100-116 | no account entity is a string that starts like a role |
| Tuples.RolePrefixInjective | internal/fga/tuples.go:108-112 | no string starts with the role prefixes of two accounts, thanks to the trailing slash |
| Tuples.OwnerGroupNamesOwnerRole | internal/fga/tuples.go:114-120 | stripping the assignee suffix of the owner group gives the owner role, which has the role prefix |
| Tuples.TrimKeepsRolePrefix | internal/subroutine/account_tuples.go:136-139 | a user with the role prefix still has it after the suffix is stripped |
| Expressions.ParsePrintRoundTrip | internal/subroutine/apiexportpolicy.go:195-210 | parse, print, parse is parse, and printing gives the expression back up to one leading colon |
| Expressions.PrintParseRoundTrip | internal/subroutine/apiexportpolicy.go:195-210 | every path below root:orgs with a relation is what its printed form parses to |
| Expressions.SameTargetIff | internal/subroutine/apiexportpolicy.go:195-210 | valid expressions mean the same exactly if they differ by at most one leading colon |
| Expressions.AllOrgsIff | internal/subroutine/apiexportpolicy.go:195-210 | the all-organizations branch is taken for exactly root:orgs:* up to the leading colon, always inherited |
| Expressions.EnqueueAllAPIExportPolicies | internal/controller/apiexportpolicy_controller.go:108-144 | the loops with a break yield, in listing order, the policies with an all-organizations expression, and none if listing fails |
| Expressions.EnqueuedExactly | internal/controller/apiexportpolicy_controller.go:121-141 | a policy is enqueued if and only if Process takes the all-organizations branch for one of its expressions |
| Expressions.EnqueuedOnce | internal/controller/apiexportpolicy_controller.go:121-141 | no policy is enqueued twice |
| TupleReconciler.TupleSubroutine.Process | internal/subroutine/tuples.go:82-143 | a success adds the spec and removes managed tuples that left it, in the resource's store only, and saves the spec as managed; a failure has at most added the spec and saved nothing; a dangling reference fails without effect; if no remote call fails it succeeds whenever the resource resolves to an existing store |
| TupleReconciler.TupleSubroutine.Finalize | internal/subroutine/tuples.go:26-71 | a success removes exactly the managed tuples and clears the status, a failure changes nothing; if no remote call fails it succeeds whenever the resource resolves to an existing store |
| TupleRuns.RunKeepsInvariant | internal/subroutine/tuples.go:26-143 | in every state of every interleaving of edits, attempts, failures and foreign writes, each resource's managed tuples are in the store and its share holds nothing beyond managed and unsettled tuples |
| TupleRuns.StepFrame | internal/subroutine/tuples.go:26-143 | a step changes no tuple outside the universe of the resource it is about |
| TupleRuns.RunFrame | internal/subroutine/tuples.go:26-143 | without foreign writers, tuples outside all universes never change in any run |
| TupleRuns.RetriesConverge | internal/subroutine/tuples.go:114-142 | any number of failed attempts, with other resources in between, followed by a success give the share and the status of one success straight away |
| TupleRuns.RetriedToSuccessIsExact | internal/subroutine/tuples.go:26-142 | in every run in which failed attempts of a resource are retried to success before its next edit, its share is exactly what its status lists whenever no retry is due, so the spec after every success and nothing after a Finalize; while a retry is due it stays within status and spec |
| TupleRuns.ProcessIsExactIff | internal/subroutine/tuples.go:118-142 | a success leaves exactly the spec if and only if the share held only managed and specified tuples |
| TupleRuns.FinalizeIsExactIff | internal/subroutine/tuples.go:58-70 | Finalize leaves nothing if and only if the whole share was managed |
| TupleRuns.EditBeforeRetryOrphans | internal/subroutine/tuples.go:118-142 | a concrete run from the start where an edit between failure and retry orphans a tuple for good |
| Plans.Replay | internal/subroutine/apiexportpolicy.go:65-145 | carrying out any prefix of the writes and then all of them is the same as carrying them out once |
| Plans.AttemptsConverge | internal/subroutine/apiexportpolicy.go:65-145 | the same for any number of attempts, each cut off anywhere |
| Plans.RevokeThenGrant | internal/subroutine/apiexportpolicy.go:65-145 | with all revocations before all grants, every grant is present in the end and only revoked tuples are gone |
| PolicyReconciler.APIExportPolicySubroutine.Process | internal/subroutine/apiexportpolicy.go:56-153 | every attempt carries out a prefix of the plan, a success all of it, and the status becomes the spec exactly on success; after a success a tuple is in a store exactly if a spec expression means it (plain paths bind, paths with the wildcard bind_inherited, all organizations every account of that type) or it was there and no removed expression meant it; if no remote call fails it succeeds exactly if the provider path, every path and the store of every account it has to write to are known |
| PolicyReconciler.APIExportPolicySubroutine.Finalize | internal/subroutine/apiexportpolicy.go:155-175 | every attempt carries out a prefix of the revocations of the spec, a success all of them; after a success exactly the tuples spec expressions mean, all organizations standing for every AccountInfo, are gone; if no remote call fails it succeeds exactly if all it has to write to is known |
| PolicyReconciler.APIExportPolicySubroutine.DeleteRemovedExpressions | internal/subroutine/apiexportpolicy.go:214-232 | the loop carries out a prefix of the revocations of managed expressions outside the spec, a success all of them |
| PolicyReconciler.APIExportPolicySubroutine.WriteForExpression | internal/subroutine/apiexportpolicy.go:236-297 | one expression's writes: an invalid one fails without effect, root:orgs visits the AccountInfos, any other path its workspace's |
| PolicyReconciler.APIExportPolicySubroutine.WriteForAllOrgs | internal/subroutine/apiexportpolicy.go:244-268 | granting visits the AccountInfos of type organization, revoking all of them, in order up to the first failure |
| PolicyTheorems.ProcessIsExact | internal/subroutine/apiexportpolicy.go:65-145 | after a success a tuple is in a store if and only if a spec expression grants it, or it was there and no removed expression revokes it, aliases and overlaps included |
| PolicyTheorems.FinalizeIsExact | internal/subroutine/apiexportpolicy.go:155-175 | after a success exactly the tuples that spec expressions revoke are gone |
| PolicyTheorems.RevocationCoversGrants | internal/subroutine/apiexportpolicy.go:236-297 | whatever an expression grants, its revocation reaches, though the two visit different AccountInfos |
| PolicyTheorems.RetriesConverge | internal/subroutine/apiexportpolicy.go:56-153 | attempts failing at any call followed by a success end in the same stores as one success |
| PolicyTheorems.AttemptFrame | internal/subroutine/apiexportpolicy.go:56-175 | whatever an attempt, complete or not, changes binds its export's user to some account, so tuples of other exports stay |
| PolicyTheorems.ExportUserInjective | internal/subroutine/apiexportpolicy.go:92-98 | exports of different clusters or names never share the user of their tuples |
| PolicyTheorems.FinalizeUndoesProcessIff | internal/subroutine/apiexportpolicy.go:56-175 | Process then Finalize restores every store if and only if no tuple at the start was one a removed or specified expression revokes; stores without tuples of the export qualify |
| PolicyTheorems.FinalizeIsCompleteIff | internal/subroutine/apiexportpolicy.go:155-175 | Finalize leaves no tuple of the export if and only if spec expressions revoke every one there was |
| PolicyMeaning.AllowsIff | internal/subroutine/apiexportpolicy.go:195-210 | the code's parse of an expression and what the expression says in so many words name the same accounts with the same relation |
| PolicyMeaning.ProcessMeans | internal/subroutine/apiexportpolicy.go:65-145 | after a success exactly the tuples that spec expressions mean, and those that were there and no removed expression meant, are in the stores, object, relation and user spelled out |
| PolicyMeaning.FinalizeMeans | internal/subroutine/apiexportpolicy.go:155-175 | after a success exactly the tuples that spec expressions mean on revocation are gone, spelled out |
| PolicyMeaning.PathGrantsBind | internal/subroutine/apiexportpolicy.go:195-210 | a path below root:orgs in the spec of a successful policy gives the account of its workspace the relation bind to the export |
| PolicyMeaning.WildcardGrantsInherited | internal/subroutine/apiexportpolicy.go:195-210 | the path followed by the wildcard gives it bind_inherited |
| PolicyMeaning.AllOrgsGrantsEveryOrg | internal/subroutine/apiexportpolicy.go:72-106 | root:orgs:* gives every account of type organization bind_inherited, in the store of its organization |
| PolicyMeaning.AllOrgsRevokesEveryAccount | internal/subroutine/apiexportpolicy.go:244-268 | finalizing root:orgs:* takes bind_inherited from every account, of whatever type |
| PolicyMeaning.InheritedNeedsWildcard | internal/subroutine/apiexportpolicy.go:195-210 | a tuple that a success adds is bind, or bind_inherited with a spec expression that ends in the wildcard |
| PolicyMeaning.ProcessRunnableIff | internal/subroutine/apiexportpolicy.go:56-153 | the plan of a policy can be carried out completely if and only if the provider path, every path and the existing store of every account to write to are known |
| PolicyRuns.RunKeepsAccounted | internal/subroutine/apiexportpolicy.go:56-175 | in every run of edits, interrupted attempts, successes, finalizations and other writers, removals of the export's tuples by others included, each of the export's tuples is granted by a managed or an unsettled expression |
| PolicyRuns.RetriedToSuccessIsExact | internal/subroutine/apiexportpolicy.go:56-175 | in every run in which interrupted attempts are retried before the next edit and an edited spec is processed before the policy goes, whoever else takes tuples of the export away: the export's tuples are exactly the grants of the spec after every success, and there are none after a Finalize; in runs without such removals they are exactly the grants of the status whenever no retry is due |
| PolicyRuns.SecondPolicyFinalizedKeeps | internal/subroutine/apiexportpolicy.go:155-297 | of two policies for one export, finalizing the second keeps exactly the grants of the first that the second does not revoke |
| PolicyRuns.AllOrgsRevokesOtherPolicies | internal/subroutine/apiexportpolicy.go:244-268 | an instance in which two policies for one export are processed and finalizing the second, for root:orgs:*, takes a grant that only the first specifies |
| PolicyRuns.EditBeforeFinalizeOrphans | internal/subroutine/apiexportpolicy.go:155-175 | for any two expressions of different workspaces, a run from the start (processed, edited, finalized) that ends with the first one's grant in its store and no status |
| AccountTuples.AccountTuplesSubroutine.Reconcile | internal/subroutine/account_tuples.go:45-102 | a success adds to the store named after the third part of the account's path exactly three tuples, spelled out: the creator assigned the owner role, the role's assignees in the creator relation, and the parent account in the parent relation; a failure changes nothing; if no remote call fails it succeeds exactly if all it looks up is there |
| AccountTuples.AccountTuplesSubroutine.BuildTuples | internal/subroutine/account_tuples.go:48-96 | the lookups yield the wanted tuples and the store named after the third part of the path, whichever of them may fail, and always if none fails and all is there |
| AccountTuples.AccountTuplesSubroutine.Terminate | internal/subroutine/account_tuples.go:105-153 | a success removes from the store named after the third part of the account's path exactly the tuples on the account and on the roles under its prefix that tuples on it name, spelled out; a failure changes nothing; if no remote call fails it succeeds exactly if all it looks up is there |
| AccountTuples.AccountTuplesSubroutine.CollectTuples | internal/subroutine/account_tuples.go:125-145 | the nested reads collect exactly those tuples |
| AccountTuples.PathParts | internal/subroutine/account_tuples.go:53-76 | the store is looked up by the third part of the path, the parent's cluster by the path without its last part, the account by that last part and the parent account by the one before |
| AccountTuples.SameStoreIff | internal/subroutine/account_tuples.go:53-56 | two accounts share a store exactly if they are of one organization, as long as organizations have stores of their own |
| AccountRuns.TerminateUndoesReconcileIff | internal/subroutine/account_tuples.go:45-153 | reconcile then Terminate restores the store if and only if it held no tuple on the account or its owner role |
| AccountRuns.TerminateKeepsOtherAccounts | internal/subroutine/account_tuples.go:105-153 | Terminate keeps every tuple whose object is another account's entity or role |
| AccountRuns.CollectedAreOfAccount | internal/subroutine/account_tuples.go:125-145 | only tuples on the account or below its role prefix are collected |
| AccountRuns.AccountsDisjoint | internal/fga/tuples.go:100-120 | no tuple is of two accounts |
| AccountRuns.WantedIsRequest | internal/subroutine/account_tuples.go:81-96 | the tuples a reconcile applies are those of a reconcile event of the runs, for the same account |
| AccountRuns.TerminateIsCompleteIff | internal/subroutine/account_tuples.go:125-150 | Terminate leaves nothing of the account if and only if every role tuple is on a role some tuple on the account names |
| AccountRuns.UnnamedRoleIsLeft | internal/subroutine/account_tuples.go:125-150 | for every reconciled account, an assignment of any role but the owner role that no tuple on the account names survives Terminate |
| AccountRuns.RunIsExact | internal/subroutine/account_tuples.go:45-153 | in every run with any accounts and with writers that do what they like with other tuples and add to and remove from account entities, as policies do, what was reconciled for an account since its last Terminate is in the store, its roles have exactly those tuples, anything else of it is on its entity for a user that is none of its roles, and nothing is left right after a Terminate |
| SharedStores.PolicyAttemptIsForeign | internal/subroutine/apiexportpolicy.go:56-297 | to the accounts of a store every attempt of a policy, cut off or not, is a step of such a writer |
| SharedStores.ResourceStepIsForeign | internal/subroutine/tuples.go:26-143 | to the accounts of a store every step of a Store or AuthorizationModel resource, failed attempts included, is a step of such a writer, provided its tuples spare these accounts' roles and what is reconciled for them |
| SharedStores.DesiredTuplesSpare | internal/subroutine/workspace_initializer.go:105-133 | the tuples the initializer asks for do spare every account but the organization's own |
| SharedStores.AccountStepIsForeign | internal/subroutine/account_tuples.go:45-153 | to Store and AuthorizationModel resources reconciling or terminating an account whose tuples they do not name is a step of another writer |
| SharedStores.PolicyAttemptIsForeignToResources | internal/subroutine/apiexportpolicy.go:56-297 | to Store and AuthorizationModel resources every attempt of a policy whose export's tuples they do not name is a step of another writer |
| SharedStores.ReconcileIsForeign | internal/subroutine/account_tuples.go:90-97 | to a policy, reconciling an account leaves the tuples of the policy's export alone |
| SharedStores.TerminateTakesGrantsOnAccount | internal/subroutine/account_tuples.go:125-150 | Terminate takes along exactly the grants on that account, whichever policy still lists them |
| SharedStores.TerminateRevokes | internal/subroutine/account_tuples.go:105-153 | to a policy, terminating any account is another writer that at most takes tuples of its export away |
| SharedStores.OtherPolicyRevokes | internal/subroutine/apiexportpolicy.go:155-175 | to a policy, finalizing any other policy, of its export or not, is such a writer too |
| StoreIds.CachingStoreIDGetter.Load | internal/fga/storeid_getter.go:84-111 | the walk enters every page and finds the last store of the name, or records the failure having entered a prefix; if no remote call fails no failure is recorded |
| StoreIds.CachingStoreIDGetter.Get | internal/fga/storeid_getter.go:62-79 | a hit leaves the cache alone, a miss loads, and a recorded failure is returned even on a hit; if no remote call fails it answers exactly if no earlier load failed and the name is cached or listed |
| StoreServer.FindLastIsLast | internal/fga/storeid_getter.go:97-101 | what the walk keeps is the last listed store of the name |
| StoreIds.RunKeepsAgreement | internal/fga/storeid_getter.go:62-118 | in every run of Gets, expiries and new stores, with no store deleted or renamed, the cache agrees with the listing until a load fails, and a failure is never cleared |
| StoreIds.GetRefinesListing | internal/fga/storeid_getter.go:62-118 | in such a run, without a failed load a Get answers as an uncached walk over all pages, an answer is always a listed store of the name, and after one failed load every Get fails |
| StoreIds.StaleIff | internal/fga/storeid_getter.go:62-118 | in every run, deletions, renamings and failed loads included, an answer was seen by some walk, and it is what a full walk would now find if and only if the last event on that store since then, if any, gave it that name |
| StoreIds.DeletedStoreIsAnswered | internal/fga/storeid_getter.go:62-79 | for every store, a run in which it is deleted between two Gets and the second still answers with it |
| StoreReconciler.StoreSubroutine.Process | internal/subroutine/store.go:69-117 | without an ID it adopts the first store of the name on the first page or creates one under a new ID; with one it keeps the ID and renames if needed; a failure changes nothing; after a success the store of the ID is listed under the resource's name and stores of other IDs are as they were; if no remote call fails it succeeds exactly if there is no ID yet or the store of the ID is listed |
| StoreServer.FindFirstIsFirst | internal/subroutine/store.go:80-85 | what the store subroutine adopts is the first store of the name on the page |
| StoreReconciler.StoreSubroutine.Finalize | internal/subroutine/store.go:41-67 | the store is deleted only if no listed model refers to the Store, and nothing changes otherwise; if no remote call fails it succeeds exactly if there is no ID or no model refers to the Store |
| StoreReconciler.AtMostOneStorePerName | internal/subroutine/store.go:69-117 | in every run in which a store looked up by name is on the first page if it exists, including stops between creating a store and saving its ID, names stay unique, a saved ID is never replaced and is what the getter finds for the name |
| StoreReconciler.ReferredStoreStays | internal/subroutine/store.go:41-67 | in every run, whatever the first pages hold, from the time a Store's ID is saved and as long as some listed model refers to it, the Store keeps its ID and its OpenFGA store stays listed under its name |
| StoreReconciler.DanglesIff | internal/subroutine/store.go:41-67 | a step leaves a model's reference without a Store if and only if it releases that Store before any ID was saved |
| StoreReconciler.UniqueThroughoutIff | internal/subroutine/store.go:69-117 | names stay unique throughout a run if and only if every store looked up by name was on the first page if it existed |
| StoreReconciler.SecondStoreIff | internal/subroutine/store.go:72-97 | a second store of a name appears if and only if one is listed but not on the first page |
| StoreReconciler.SecondStoreIsMade | internal/subroutine/store.go:72-97 | for any two names, a run from a listing of both, one on the first page, that ends with two stores of the other name |
| Readiness.WorkspaceInitializer.CreateOrUpdate | internal/subroutine/workspace_initializer.go:135-146 | it reports a change exactly if the Store was missing or its spec differed, keeps the status and leaves other Stores alone |
| Readiness.WorkspaceInitializer.Reconcile | internal/subroutine/workspace_initializer.go:73-161 | ready only if spec, managed tuples and store ID are all there already; otherwise the Store, named after the last part of the workspace path, asks for exactly these tuples afterwards: the creator assigned the owner role, the role's assignees in the creator relation on the organization's account and, exactly if the feature is on, everyone assigned the role authenticated and that role a member of the owner's account; a Store that was ready is not requeued; if no remote call fails it fails exactly without AccountInfo access or creator |
| Readiness.DesiredTexts | internal/subroutine/workspace_initializer.go:105-133 | membership of the tuples asked for, tuple by tuple with all strings spelled out |
| Readiness.RunKeepsStatusTrue | internal/subroutine/workspace_initializer.go:73-161 | in every run of initializer, Store controller and other writers in which a success whose status was lost is retried before the spec changes, managed tuples the spec asks for are in the store of the ID, all managed tuples are while no such retry is due, and without an ID nothing is managed |
| Readiness.ReadyMeansTuplesInStore | internal/subroutine/workspace_initializer.go:148-160 | in every such run, whenever the initializer reports ready, the store has an ID, every desired tuple is in that OpenFGA store, and the ID never changes afterwards |
| Readiness.LostStatusIff | internal/subroutine/tuples.go:118-142 | once the status of a success was lost, from a status that was true, and the spec then changed, a gate that is open is sound if and only if the new spec asks for nothing the lost success did not ask for |
| Readiness.LostStatusOpensGate | internal/subroutine/workspace_initializer.go:148-160 | for any two tuples, a run from an empty store (both asked for, one dropped, the status of the success that removes it lost, both asked for again) in which the initializer reports ready without the second |
| ModelGeneration.AuthorizationModelGenerationSubroutine.Process | internal/subroutine/authorization_model_generation.go:219-299 | the three kinds of skipped exports do nothing, a missing AccountInfo fails, and otherwise a prefix of the export's models is created; after a success each resource of the export has its model, naming the binding's organization and that organization's origin cluster, and no other model changed; if no remote call fails it succeeds exactly if the export is skipped or AccountInfo and export are there |
| ModelGeneration.AuthorizationModelGenerationSubroutine.CountBindingsOf | internal/subroutine/authorization_model_generation.go:126-155 | the loop counts exactly the places in the listing with the export's path and name and an AccountInfo of the organization |
| ModelGeneration.AuthorizationModelGenerationSubroutine.Finalize | internal/subroutine/authorization_model_generation.go:103-202 | models stay while two listed bindings share export text and organization; otherwise a prefix of them is deleted, and after a success exactly the models of the export's resources in the organization are gone; if no remote call fails it succeeds exactly if AccountInfo and, unless shared, the export are there |
| ModelGeneration.FinalizeAccountInfo | internal/subroutine/accountinfo_finalizer.go:42-67 | the AccountInfo is released if and only if no binding of its workspace holds the binding finalizer |
| ModelGeneration.K8sNameIs | internal/subroutine/authorization_model_generation.go:36-40 | a model name is the joined text in lower case with dashes for dots, from the first character that is no dash to the last |
| ModelGeneration.FinalizersIff | internal/subroutine/authorization_model_generation.go:205-211 | a binding gets the finalizer exactly if its name contains neither platform-mesh.io nor kcp.io |
| ModelGeneration.K8sNamesCollide | internal/subroutine/authorization_model_generation.go:36-40 | a family of different groups and plurals that are given the same model name |
| ModelRuns.RunKeepsInvariant | internal/subroutine/authorization_model_generation.go:103-299 | in every run, whichever calls fail and whether or not bindings carry their finalizer from the start, a processed binding whose name asks for the finalizer holds it until it is released, and if its export is not skipped it has its AccountInfo all that time and, until it is deleted, all its models for its organization's store, by its name and origin cluster |
| ModelRuns.InfoStaysThroughRun | internal/subroutine/accountinfo_finalizer.go:42-67 | through any stretch of a run in which some binding of the workspace holds its finalizer, the AccountInfo stays what it is |
| ModelRuns.FinalizeFindsInfo | internal/subroutine/authorization_model_generation.go:119-155 | in every state of every run, a processed binding of an export that is not skipped whose name asks for the finalizer has its AccountInfo and is counted for its own organization |
| ModelStores.RunModelsFindStores | internal/subroutine/tuples.go:37-56 | in every state of every run each model of a processed binding that is not deleted resolves to the Store the initializer made for the binding's organization, and so to its store ID |
| ModelStores.StoreOfOrganization | internal/subroutine/workspace_initializer.go:163-169 | the initializer names the Store of an organization's workspace after the organization |
| ModelRuns.OthersCountIff | internal/subroutine/authorization_model_generation.go:126-160 | the count exceeds one exactly if another listed binding counts |
| ModelRuns.ModelsAreHeld | internal/subroutine/authorization_model_generation.go:103-211 | in every run in which the bindings of an export carry the finalizer from the start, whatever other bindings do, a model of the export exists only while a listed binding of it in that organization holds the finalizer |
| ModelRuns.LastReleaseLeavesNothing | internal/subroutine/authorization_model_generation.go:103-202 | in every state of every such run in which no binding of the export is left in an organization, none of its models is |
| ModelRuns.OrphansIff | internal/subroutine/authorization_model_generation.go:103-211 | from every state runs reach, a step leaves a model of a counted export and organization with no counted binding if and only if it deletes the last counted binding, which does not hold the finalizer, or removes the AccountInfo of all counted ones |
| ModelRuns.NameWithoutFinalizer | internal/subroutine/authorization_model_generation.go:205-226 | the name ui.platform-mesh.io asks for no finalizer as a binding and is not skipped as an export |
| ModelRuns.UnprotectedBindingLeaks | internal/subroutine/authorization_model_generation.go:205-226 | for every binding whose name asks for no finalizer and whose export bears models, a run from the empty state (AccountInfo, binding, reconcile, deletion) that ends with its models and no binding |
| ModelRuns.UnprotectedBindingLosesModels | internal/subroutine/authorization_model_generation.go:103-226 | while such a binding is processed and not deleted, its AccountInfo can go, and then the release of another binding of its export takes all its models |
| ModelRuns.ReleaseKeepsModelIff | internal/subroutine/authorization_model_generation.go:126-200 | releasing a binding keeps its models if and only if another listed binding names the export with the same text in the same organization |
| ModelRuns.OtherPathLosesModels | internal/subroutine/authorization_model_generation.go:126-200 | a release takes the models of any other binding of the same export and organization whose path has another text, unless a third one names the export as the released one did |
| ModelRuns.TwoPathsLoseModels | internal/subroutine/authorization_model_generation.go:126-200 | whenever two processed bindings reach an export under two path texts, a state that keeps everything runs keep, the release of the first succeeds and leaves the second, not deleted, without its models |
| ModelRuns.UnreconciledBindingLeaks | internal/subroutine/authorization_model_generation.go:103-211 | a binding deleted before its first reconcile lets the last Finalize leave all models with no binding listed |
| Permissions.AllowedUnfolds | internal/subroutine/authorization_model.go:56-72 | what finite derivations allow is a fixpoint of the definitions under direct assignment, union and from-parent |
| Permissions.AllowedIsLeast | internal/subroutine/authorization_model.go:56-72 | it is the least such relation: any relation closed under the definitions contains it |
| Permissions.OwnerIsMember | internal/subroutine/authorization_model_generation.go:80-81 | on every generated type an owner is a member, whatever the account type says and whatever else extends the type |
| Permissions.PrivilegedAllowsLess | internal/subroutine/authorization_model.go:56-72 | rendered with the privileged template instead of the ordinary one, a model whose core definitions mention neither bind nor escalate allows no more, for every shared relation on every object and every set of tuples |
| PermissionInstances.CoreAskingForBindAllowsMore | internal/subroutine/authorization_model.go:56-72 | for every resource, a core module that asks for bind and tuples under which the privileged template allows what the ordinary one does not |
| Permissions.WriteIff | internal/subroutine/authorization_model.go:60-67 | changing an object takes its owner on privileged types and a member on the others, binding and escalating its owner |
| PermissionVerbs.ReadIff | internal/subroutine/authorization_model_generation.go:83-91 | get, watch, get_iam_roles and get_iam_users on a generated type are allowed exactly to members, under both templates |
| PermissionVerbs.ManageRolesIff | internal/subroutine/authorization_model_generation.go:89 | manage_iam_roles on a generated type is allowed exactly to owners, under both templates |
| PermissionVerbs.OrdinaryBindsNobody | internal/subroutine/authorization_model_generation.go:78-91 | on types rendered with the ordinary template nobody may bind or escalate, unless the core module defines it |
| PermissionVerbs.CollectionIff | internal/subroutine/authorization_model_generation.go:61-75 | on the account or namespace type a resource lies in, creating it is allowed exactly to owners, listing and watching it exactly to members |
| PermissionVerbs.ParentIff | internal/subroutine/authorization_model_generation.go:79 | the parent of an object is a namespace for namespaced resources and an account for the others, and nothing else |
| PermissionVerbs.OwnerIff | internal/subroutine/authorization_model_generation.go:81 | an owner of an object of a generated type is assigned a role that owns it or owns its parent |
| PermissionVerbs.MemberIff | internal/subroutine/authorization_model_generation.go:80 | a member is assigned a role that is a member, or is an owner, or is a member of the parent |
| PermissionVerbs.AssigneeIff | data/coreModule.fga:5-7 | with the operator's core module a user has a role exactly if it is assigned to the user or to everyone |
| PermissionVerbs.AccountOwnerIff | data/coreModule.fga:13 | an account of the core module is owned exactly through an assigned role that owns it |
| PermissionVerbs.AccountMemberIff | data/coreModule.fga:14 | its members are exactly its owners and those assigned a role that is a member |
| PermissionVerbs.AccountParentIff | data/coreModule.fga:12 | the parent of an account is an account and nothing else |
| PermissionVerbs.AccountCollectionIff | data/coreModule.fga:20-22 | creating, listing and watching accounts in an account is allowed exactly to its members |
| Permissions.InheritedIff | data/coreModule.fga:10-29 | a verb defined as base or verb from parent is allowed exactly if some object up the chain of parents gives the base, cycles included |
| Permissions.AccountVerbIff | data/coreModule.fga:10-29 | with the operator's core module and any generated modules, a verb on an account is allowed exactly to the members, for deleting the owners, of the account or one above it |
| Idp.Subroutine.DeleteRemovedClients | internal/subroutine/idp/subroutine.go:234-276 | the loop visits status entries in some order without repetition, all of them on success, and deletes those outside the spec |
| Idp.Subroutine.ReconcileClients | internal/subroutine/idp/subroutine.go:160-178 | the loop registers or updates and keeps the secret, client by client, up to the first failure |
| Idp.Subroutine.Reconcile | internal/subroutine/idp/subroutine.go:139-188 | realm, deletions, clients, status in this order; the status changes exactly on success |
| Idp.Subroutine.Finalize | internal/subroutine/idp/subroutine.go:76-131 | the spec's clients and secrets one by one, then the realm |
| IdpEffects.RoundTripAnswers | pkg/clientreg/retry_transport.go:44-78 | over the retrying transport a stale or missing token is no obstacle: uninterrupted, a request succeeds exactly if the client exists, and does nothing else |
| IdpEffects.FindByNameFinds | pkg/clientreg/keycloak/admin.go:193-206 | with unique names the lookup finds exactly the client of the name |
| IdpEffects.RegisterOrUpdateSucceedsIff | internal/subroutine/idp/subroutine.go:278-318 | registering or updating succeeds only if the remembered ID is that of the client of the name or there is none, and uninterrupted exactly then |
| IdpInstances.UpdateNeedsNoRefresh | internal/subroutine/idp/subroutine.go:291-318 | a client whose secret holds its current token is updated with three calls, at the ID of its status entry and without a new token being asked for |
| IdpEffects.ProcessClientSettles | internal/subroutine/idp/subroutine.go:160-178 | a client whose calls got through is registered as the spec asks for and its secret holds its current token |
| IdpEffects.ProcessClientSucceedsIff | internal/subroutine/idp/subroutine.go:278-318 | a client succeeds only if the remembered ID is that of the registered client or there is none, and uninterrupted exactly then |
| IdpRecovery.ProcessAffects | internal/subroutine/idp/subroutine.go:139-188 | wherever it is cut off, an attempt touches only clients of spec and removed names and never leaves two clients of one name |
| IdpRecovery.ProcessSucceedsIff | internal/subroutine/idp/subroutine.go:139-188 | an attempt succeeds only from recoverable states, and an uninterrupted one exactly from them |
| IdpRecovery.SuccessReconciles | internal/subroutine/idp/subroutine.go:139-188 | after a success the realm is there, the status has exactly the spec's names and each is registered exactly once, with its current token in its secret |
| IdpRecovery.SuccessDeletes | internal/subroutine/idp/subroutine.go:234-276 | after a success nothing is left of a removed client whose secret was still there, unless the spec took the secret over |
| IdpRecovery.StaysUnrecoverable | internal/subroutine/idp/subroutine.go:234-318 | from a state that is not recoverable no attempt succeeds and none makes it recoverable |
| IdpRecovery.NoneOutsideSpecIff | internal/subroutine/idp/subroutine.go:234-276 | apart from clients that were always there, a success leaves none outside the spec if and only if before it the status pointed to every one of them |
| IdpRuns.RunKeepsInv | internal/subroutine/idp/subroutine.go:139-363 | in every run of edits and cut-off attempts no two clients share a name, status entries point to the client of their name, and only clients of names that a failed attempt found outside the spec may be gone |
| IdpRuns.RunKeepsAccounted | internal/subroutine/idp/subroutine.go:139-363 | in every run each client the operator registered is under a name of the status or an unsettled name, under a settled name of the status is only the client it points to, and such clients have their secrets |
| IdpRuns.RetriedRunConverges | internal/subroutine/idp/subroutine.go:139-363 | in every run from a realm not seen before in which cut-off attempts are retried before the next edit, a success leaves no client of the operator outside the spec, and uninterrupted attempts always succeed on a server that tells missing clients apart or with nothing to delete |
| IdpRuns.EditBeforeRetryOrphans | internal/subroutine/idp/subroutine.go:234-331 | for every client, a run from the start (attempt cut off after registering it, dropped from the spec, successful attempt) that leaves it registered with an empty status |
| IdpRuns.OutsideStaysForGood | internal/subroutine/idp/subroutine.go:234-276 | a client outside spec and status stays unchanged through every run whose edits do not name it |
| IdpRuns.RunRecoversIff | internal/subroutine/idp/subroutine.go:139-363 | after any run one uninterrupted attempt succeeds exactly if the state is recoverable, in particular if no dropped name came back and missing clients are told apart or none was dropped, and then everything is reconciled |
| IdpRuns.RetriesStayUnrecoverable | internal/subroutine/idp/subroutine.go:234-318 | once not recoverable, a state stays so for every number of attempts |
| IdpRuns.CutDeletionSticks | internal/subroutine/idp/subroutine.go:247-272 | a cut between deleting a client and its secret is not recoverable on a server that answers 401 for missing clients |
| IdpInstances.CutDeletionRun | internal/subroutine/idp/subroutine.go:247-272 | for every client, a run from the start (registered, dropped, deleted by an attempt cut off before its secret is) that ends in a state that is not recoverable on such a server |
| IdpRuns.AddingBackSticks | internal/subroutine/idp/subroutine.go:312-315 | a name added back after its client was deleted is not recoverable if the attempt is cut off before the status is saved |
| IdpInstances.AddingBackRun | internal/subroutine/idp/subroutine.go:312-315 | for every client and on every server, a run from the start (registered, dropped, deleted with the status not saved, added back, registered again with the status not saved) that ends in a state that is not recoverable |
| IdpFinalize.FinalizeLeaves | internal/subroutine/idp/subroutine.go:76-131 | a success leaves no realm and no client, and of the secrets exactly those no spec client with a status entry names |
| IdpFinalize.FinalizeSucceedsIff | internal/subroutine/idp/subroutine.go:76-131 | uninterrupted, Finalize succeeds exactly if every spec client with a status entry can be deleted |
| IdpFinalize.FinalizeStaysStuck | internal/subroutine/idp/subroutine.go:76-131 | once some client with a status entry cannot be deleted, no number of attempts to finalize, cut off anywhere or not at all, is followed by one that succeeds |
| IdpInstances.CutFinalizeSticks | internal/subroutine/idp/subroutine.go:76-131 | for every client, reconciled on a server that answers 401 for missing clients, a first attempt to finalize that is cut off before the secret is deleted makes all later ones fail |
| IdpInstances.CutRegistrationLeavesSecret | internal/subroutine/idp/subroutine.go:76-131 | for every client, a first attempt cut off before the status is saved and then a Finalize that succeeds and leaves the client's secret |
| IdpFinalize.FinalizeUndoesProcess | internal/subroutine/idp/subroutine.go:76-188 | after a successful reconcile Finalize succeeds on any server and leaves no client and none of the spec's secrets |

## Left out

- IdpRuns.RunRecoversIff: recovery from every cut is stated for states that are `Recoverable`, not for all, because the code does not recover from the others (`CutDeletionSticks`, `AddingBackSticks`).
- TupleRuns.RunKeepsInvariant: the StoreRef of a resource is fixed and resources share no tuple; an edited StoreRef is not followed.
- ModelRuns.RunKeepsInvariant: inserting the finalizer and processing the binding are one step, not two that another controller could come between.
- StoreReconciler.ReferredStoreStays: a Store whose OpenFGA store is deleted but whose resource is still there, for another finalizer to be removed, is not a state of its own.
- Lost replies: a call whose effect happened but whose answer did not arrive counts as a cut after the call for OIDC clients and is not modelled for single OpenFGA calls.
- The lifecycle library (finalizer insertion, ordering, saving the status) beyond the crash points named above, requeue delays, rate limits, contexts, logging, and everything under `cmd/`.
- The HTTP, JSON and gRPC encodings, OIDC discovery, the client secret kept beside the registration token, the registration client URI as distinct from the client ID, and realm settings.
- OpenFGA request limits, contextual tuples, conditions and model IDs on writes.
- Rendering the model text, `CapGroupToRelationLength`, the DSL transformer, model comparison and upload (`internal/subroutine/authorization_model.go:120-249`): modules are taken as definitions, and of two modules that define a relation the later one counts where the transformer rejects both.
- The realm and client part of `internal/subroutine/idp.go`, invites, workspace authentication configurations and the realm webhook: straight-line calls.
- The single-segment rule of the path library, which is a parameter, and lower-casing beyond ASCII.
- The clock of the cache: entries may expire before any call.
