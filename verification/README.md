# ClusterVision: what its shared state guarantees

ClusterVision administers users and roles on Kubernetes clusters. Its backend runs as several
workers over one database, with Kubernetes and LDAP behind them; its frontend is a browser client
with many calls in flight. This project models the parts whose state is shared in that way and
proves what they keep in every interleaving, with the runs that show where a guarantee stops.

The models come in two forms. A class per service holds the fields the service updates, and its
methods are proved against functions and predicates of the old state. A state machine cuts the
same operations at every commit, foreign call and clock reading: `Enabled` says when a step can be
taken, `Apply` what it does, `IsRun` what a run is, and the main results are lemmas about all runs.

| files | what they model |
|---|---|
| `JitProtocol`, `JitInvariant`, `JitRuns`, `JitSafety`, `JitCounterexamples` | just-in-time grants: the protocol, its invariant, its safety over runs, its limits |
| `AccessRequests`, `ReapRuns`, `JobRuns`, `ExpireJob` | the request service and the cleanup job, one call at a time, as runs of the protocol |
| `BindingWalk`, `RoleAssignments` | paged listing with deletion during the walk; permanent bindings by name |
| `DiffWrite`, `GroupCodec`, `Registry`, `ManagedUsers` | table replacement by differences, row encoding, the registry of managed users and its operations |
| `ClusterCache`, `ClusterStaleness`, `ClusterService` | API clients built from a shared table, their age, their temporary CA files |
| `LoginLimiter` | the sliding-window login limiter, concurrent and serial |
| `AccountStore`, `AccountService` | login accounts, scope roles and LDAP logins |
| `Sessions` | access and refresh tokens and what they go back to |
| `VaultConfig`, `VaultSync`, `VaultGlobals` | the Vault integration over many workers |
| `RefreshQueue` | the browser's single token refresh |

`dafny verify dfyconfig.toml` checks everything.

## Where the code differs from what it says

- The comment at `backend/app/services/cluster_service.py:18-20` promises a 30 second limit. The
  timestamp is shared by all names, so with two clusters there is no limit (`TwoClustersGoStale`);
  with one it is 30 seconds plus the time of the read, as the stamp follows the read.
- The docstring at `backend/app/core/registry.py:28-30` says unrelated writes do not race each
  other away. Concurrent inserts and updates survive, deletes do not (`DeletedRowComesBack`).
- `backend/app/services/auth_service.py:129-131` says LDAP accounts are never trusted from a local
  cache. The account read before the directory is asked is trusted after it (`LoginTakesOverLocal`).
- The comment at `backend/app/services/vault_service.py:225-226` means to keep the environment from
  undoing a disable. A failed row read lets it (`FailedReadUndoesDisable`).
- `Retry-After` is 300 seconds, but the window is closed: at exactly 300 seconds the caller is
  still refused, whatever the history (`AdmittedAgainIff`).
- An `expired` request may still have its binding (`ExpiredWhileBindingRemains`). With no failing cluster
  a job leaves none exactly if all the request had were on its clusters and past their expiry
  (`NoneLeftIff`; `NoneLeftBounds` where one fails); over runs, `NoneLeftAfterPasses` says when none is left.
- A `revoked` request may have a binding on another cluster (`RevokeOnOtherClusterKeepsBinding`); a
  revoke leaves none exactly if all were on the cluster it was sent to (`RevokeClearsExactly`).
- An LDAP account's roles can differ between scopes (`RoleGivenToLdapAccount`), exactly when a role
  assignment that is overtaken writes another role (`LdapRolesAreUniform`).
- Deleting a ServiceAccount through the name-only fallback can leave a link dangling (`DeleteUser`).
- The role of a user can end up in a binding for another role, as `a` with role `b-c` and `a-b` with
  role `c` share a binding name (`SameNameIff`, `AssignRole`).

## Model

| member | source | states |
|---|---|---|
| `JitInvariant.StepKeepsInv` | backend/app/services/access_request_service.py:61-240 | Every step of every interleaving (each transaction half, Kubernetes call, crash, reaping step, marking step, policy change, foreign binding) keeps the invariant: expiry and binding name are set exactly in approved, revoked and expired; a labelled binding is the grant of a stored request; the row lock is justified by the row |
| `JitRuns.RunInv` | backend/app/services/access_request_service.py:61-240 | The invariant holds at every moment of every run, over any number of requests, clusters, passes and crashes |
| `JitRuns.RunOn` | backend/app/services/access_request_service.py:61-240 | The steps of a call or of a job, taken on from the end of any run, make a run that begins with it, so that what holds of all runs holds after the program's own calls |
| `JitRuns.StatusChanges` | backend/app/services/access_request_service.py:156-240 | The only status changes are pending to approved or denied, approved to revoked, approved or revoked to expired, each made by the one step it belongs to, and no request disappears |
| `JitRuns.NeverPendingAgain` | backend/app/services/access_request_service.py:156-240 | A request that has left pending never returns to it |
| `JitRuns.ApprovedAtMostOnce` | backend/app/services/access_request_service.py:156-198 | A request is approved at most once in a run |
| `JitRuns.RevokedOverwrittenOnlyByStaleSelect` | backend/app/services/access_request_service.py:212-240 | A revocation is overwritten by expired only when the marking select came before the revoke committed |
| `JitRuns.GrantProvenance` | backend/app/services/access_request_service.py:156-198 | Every labelled binding of every cluster has the site, subject, role and TTL that the create call of its request asked for, and comes from an approval on that cluster by someone other than the requester, allowed by the policy of that instant; it expires at that instant plus the TTL, which is 5 to 1440 minutes |
| `JitRuns.AskOrigin` | backend/app/services/access_request_service.py:118-154 | Every stored request goes back to a create call that asked for just what it holds |
| `JitRuns.NoGrantAfterDecision` | backend/app/services/access_request_service.py:156-230 | Once a request has left pending no binding for it appears again on any cluster: what is there was there before |
| `JitRuns.BindingsAgeOverRun` | backend/app/services/rbac_service.py:196-218 | Between two moments a binding is unchanged or an identity born in between; the clock and the identities only grow |
| `JitSafety.RevokedStaysRevoked` | backend/app/services/access_request_service.py:212-230 | If approvals and revocations of a request go to one cluster, then from its revocation on it has no binding anywhere, whatever crashes, retries and passes happen |
| `JitSafety.RevokeClearsExactly` | backend/app/services/access_request_service.py:212-230 | An undisturbed revoke ends in revoked, and leaves no binding if and only if all bindings of the request were on the cluster it was sent to |
| `JitSafety.OrphanComesFromCrash` | backend/app/services/access_request_service.py:156-210 | A binding whose request is pending or denied with no approval about to commit was made by an approval that held the row lock from its Kubernetes call on, without a break, until it died before its commit |
| `JitSafety.CommitFollowsBind` | backend/app/services/access_request_service.py:172-196 | No request is approved without its binding: the approval created it before its commit, with the name of the request, in the namespace asked for and with the expiry of the record |
| `JitSafety.GrantHorizon` | backend/app/services/access_request_service.py:178-189 | No grant outlives the longest TTL from now, and one whose request is expired is overdue already, so the next completed pass over its cluster removes it |
| `JitSafety.CompletedPassReaps` | backend/app/jobs/expire_access_bindings.py:43-70 | A pass that runs to completion leaves none of the bindings of its cluster that were overdue when it started, whatever else happens meanwhile |
| `JitSafety.PassSparesOthers` | backend/app/jobs/expire_access_bindings.py:48-70 | What a pass deletes is the binding it listed, labelled and with an expiry no later than the pass's clock reading, if and only if the site was occupied at every moment between; one that is not labelled or not yet past its expiry is deleted only where the listed one had been removed in between and another took its name |
| `JitSafety.SameBindingIff` | backend/app/services/rbac_service.py:196-218 | The binding found at a site later is the one that was there before if and only if the site was never empty in between |
| `JitSafety.NoneLeftAfterPasses` | backend/app/jobs/expire_access_bindings.py:43-100 | A granted request has no binding left, then and ever after, as soon as every cluster that held one has been passed over by a completed pass that started at or after the request's expiry; so a request marked expired after such passes has none |
| `JitCounterexamples.RevokeOnOtherClusterKeepsBinding` | backend/app/services/access_request_service.py:216-224 | A run in which a revoke sent to another cluster ends in revoked with the binding alive |
| `JitCounterexamples.StaleSelectOverwritesRevoke` | backend/app/services/access_request_service.py:232-240 | A run in which the job's marking, after its pass over the local cluster has deleted a binding and finished, turns a revocation committed after its select into expired |
| `JitCounterexamples.ExpiredWhileBindingRemains` | backend/app/jobs/expire_access_bindings.py:81-98 | A run of the job that ends in expired with a binding left: it has deleted and counted an orphan on the local cluster, its pass over the grant's own cluster fails, and it marks |
| `JitCounterexamples.StaleDeleteRemovesLiveGrant` | backend/app/jobs/expire_access_bindings.py:48-57 | A run in which a pass deletes a live grant that took the name of the orphan it had listed |
| `AccessRequests.AccessRequestService.CheckPolicy` | backend/app/services/access_request_service.py:79-91 | Refuses a role that is not eligible, then a TTL over the role's own limit, or over 1440 minutes if it has none, and nothing else |
| `AccessRequests.AccessRequestService.SetPolicy` | backend/app/services/access_request_service.py:97-108 | Creates or overwrites the policy of one role and changes nothing else |
| `AccessRequests.AccessRequestService.DeletePolicy` | backend/app/services/access_request_service.py:111-116 | Removes the policy of one role, if there is one |
| `AccessRequests.AccessRequestService.CreateRequest` | backend/app/services/access_request_service.py:118-154 | Succeeds exactly for an allowed role and TTL with a namespace where one is needed; then it stores a pending request with just what was asked, as the create step of the protocol; otherwise nothing changes and the error names the first failed test |
| `AccessRequests.AccessRequestService.ApproveRequest` | backend/app/services/access_request_service.py:156-198 | Succeeds exactly if the request is pending, the reviewer another person, the policy allows it and the API server creates the binding; then the record and the labelled binding, with its name, subject, role and expiry, are as the request asked, as the run check, bind, commit; otherwise nothing changes and the error names the first of these that fails |
| `AccessRequests.AccessRequestService.DenyRequest` | backend/app/services/access_request_service.py:200-210 | Succeeds exactly on a pending request, whose status and reviewer it sets, as the run check, commit |
| `AccessRequests.AccessRequestService.RevokeRequest` | backend/app/services/access_request_service.py:212-230 | Succeeds exactly on an approved request unless Kubernetes fails with something other than 404; then the request is revoked and the one binding gone, as the run check, unbind, commit |
| `AccessRequests.AccessRequestService.MarkExpired` | backend/app/services/access_request_service.py:232-240 | Turns exactly the approved requests whose expiry is reached into expired |
| `AccessRequests.MarkingIsARun` | backend/app/services/access_request_service.py:232-240 | What the marking loop does is an undisturbed run of the protocol whose steps are one select, row locks and one commit of this marking and nothing else |
| `ExpireJob.Cleanup.Reconcile` | backend/app/jobs/expire_access_bindings.py:43-70 | A completed pass removes exactly the overdue labelled bindings of its cluster and returns their number; a failed one has removed some of them, ClusterRoleBindings before RoleBindings. It fails exactly if the API server stops answering before two list calls and one deletion for each overdue binding |
| `ExpireJob.PassIsDue` | backend/app/jobs/expire_access_bindings.py:33-70 | Field by field: what a pass takes away is on its cluster, labelled and with a readable expiry no later than its clock reading; a completed pass leaves no such binding and returns the number of those gone; all others stay as they were |
| `ExpireJob.Cleanup.ReconcileRemotes` | backend/app/jobs/expire_access_bindings.py:83-88 | One pass over each remote cluster in turn, each with its effect on what the one before left; only clusters that fail are skipped in the total |
| `ExpireJob.Cleanup.RunOnce` | backend/app/jobs/expire_access_bindings.py:73-100 | The job ends with no request marked exactly if the local cluster's API server stops answering before that pass has made its calls. Otherwise only overdue bindings are gone, every cluster that did not fail is cleared, the total counts what is gone, failed clusters perhaps apart, and requests are marked exactly if it is not zero. A request has no binding left if all it had were past their expiry on clusters that did not fail, and only if all were past it on the job's clusters. With clock readings in order the whole is a run of the protocol whose steps are, for each cluster, the clock and one whole pass that deletes exactly what is gone, and then the marking if there is one |
| `ExpireJob.NoneLeftIff` | backend/app/jobs/expire_access_bindings.py:73-100 | Without a failing cluster the job leaves no binding of a request if and only if every binding it had was on a cluster of the job and past its expiry when the pass over it read the clock |
| `ExpireJob.NoneLeftBounds` | backend/app/jobs/expire_access_bindings.py:73-100 | Whatever fails: none is left if all were past their expiry on clusters that did not fail, and only if all were past it on clusters of the job |
| `ExpireJob.LawfulEffect` | backend/app/jobs/expire_access_bindings.py:73-93 | Whatever fails, the passes of a job together remove only overdue bindings, clear the clusters that did not fail, and count what is gone, failed clusters perhaps apart |
| `ReapRuns.PassIsARun` | backend/app/jobs/expire_access_bindings.py:43-70 | Every effect a pass can have is that of a run of the protocol whose steps are all of this pass, from its start to its finish, or abort where a call fails, and delete exactly the bindings that are gone |
| `JobRuns.PassesAreARun` | backend/app/jobs/expire_access_bindings.py:81-88 | The passes of a job are a run of the protocol if the clock was read in order, and its steps are for each cluster the clock and one whole pass that deletes exactly what is missing after it |
| `JobRuns.JobIsARun` | backend/app/jobs/expire_access_bindings.py:73-100 | With the marking too, whose steps are those of one whole marking, it is a run of the protocol |
| `JobRuns.JobReaps` | backend/app/jobs/expire_access_bindings.py:43-93 | Wherever the steps of a job stand in a run of the protocol and whatever follows: a binding that was overdue when the job began, on a cluster whose pass it completed, is gone from its end on |
| `BindingWalk.WalkAscends` | backend/app/services/rbac_service.py:289-313 | However others add and delete between the list calls, a walk yields paths in ascending order, so none twice |
| `BindingWalk.WalkComplete` | backend/app/services/rbac_service.py:289-313 | A finished walk has yielded every path that was there at each of its list calls |
| `BindingWalk.WalkSound` | backend/app/services/rbac_service.py:289-313 | And nothing that was not there at one of them |
| `BindingWalk.PageFills` | backend/app/services/rbac_service.py:289-313 | A list call gives as many paths as asked, or all that are left, and a continue token exactly if more are left |
| `BindingWalk.LessIsLexicographic` | backend/app/services/rbac_service.py:289-313 | The listing order is the lexicographic one |
| `BindingWalk.Collection.DeleteWithPrefix` | backend/app/services/rbac_service.py:414-425 | Following continue tokens while deleting visits every binding exactly once, terminates, and leaves exactly the bindings without the prefix |
| `BindingWalk.RbacService.DeleteUserBindings` | backend/app/services/rbac_service.py:414-436 | Afterwards both collections are as before without the bindings whose name has the user's prefix |
| `BindingWalk.HitIff` | backend/app/services/rbac_service.py:372-416 | Deleting user u's bindings hits the permanent binding of user v for a role if and only if v is u, or v begins with u and a dash, or u begins with v and a dash and the role begins with the rest of u and a dash |
| `BindingWalk.HitsOnlyRelatedNames` | backend/app/services/rbac_service.py:372-416 | Deleting a user's bindings hits another user's permanent binding only if one name is the other followed by a dash and more |
| `BindingWalk.RelatedNamesAreHit` | backend/app/services/rbac_service.py:372-416 | For every such pair of names there is a role whose binding is hit |
| `BindingWalk.JitBindingsSpared` | backend/app/services/rbac_service.py:416-420 | A JIT binding is hit if and only if the user is called jit, or jit- and more where the request's identifier goes on as the name does |
| `RoleAssignments.RbacBindings.AssignRole` | backend/app/services/rbac_service.py:352-391 | Touches the one binding named after user and role, cluster-wide for a ClusterRole without a namespace and else in the namespace or default; creates it with the role and subject, or replaces its subjects only, so that the subject ends with the role asked for if and only if no binding of that name was there for another role |
| `RoleAssignments.RbacBindings.RevokeRole` | backend/app/services/rbac_service.py:393-412 | Removes the one binding it names and nothing else; a missing one is no error |
| `RoleAssignments.RevokeFindsAssignmentIff` | backend/app/services/rbac_service.py:375-412 | Revoking with the namespace of the assignment finds its binding exactly for a ClusterRole without a namespace or a non-empty namespace: a Role assigned without one went to default |
| `RoleAssignments.SameNameIff` | backend/app/services/rbac_service.py:372-400 | Two assignments share a binding name exactly if they are equal or one pair is the other shifted at a dash |
| `DiffWrite.ApplyDiff` | backend/app/services/cluster_service.py:53-71 | The two loops, deleting what went and then inserting or updating the rest, produce the rows that one formula gives key by key, whatever the rows were at the time of writing |
| `DiffWrite.SerialWriteReplaces` | backend/app/core/registry.py:32-60 | Without interference the table reads back as the wanted entries, each stored and loaded once: skipping unchanged entries is sound because loaded entries are fixed points |
| `DiffWrite.WriteAtKey` | backend/app/services/cluster_service.py:57-69 | At every key the write is the merge of this update into the present rows, except that a row somebody else deleted and this update leaves alone comes back |
| `DiffWrite.MergesIffNothingResurrected` | backend/app/services/cluster_service.py:57-69 | The write is the merge at every key if and only if every key this update wants and leaves alone still has its row |
| `DiffWrite.DisjointUpdatesCommute` | backend/app/services/cluster_service.py:47-73 | Two updates of the same table that change no key in common end in the same rows in either order if and only if neither deletes; then all changes of both survive |
| `DiffWrite.DeletedRowComesBack` | backend/app/services/cluster_service.py:62-65 | A deletion is undone by an update that loaded the row before it and leaves it alone |
| `GroupCodec.RoundTripIffClean` | backend/app/db/models.py:143-145 | Splitting the joined groups and dropping empties gives the list back if and only if no group is empty or has a comma |
| `GroupCodec.DecodeIs` | backend/app/db/models.py:143-143 | Reading goes part by part between the commas, and a part without commas is one group unless it is empty |
| `GroupCodec.EncodeIs` | backend/app/core/registry.py:46-46 | Writing puts a comma between the groups |
| `GroupCodec.DecodeIsStable` | backend/app/db/models.py:139-153 | A list that was read survives being stored and read again |
| `Registry.LoadedIsStable` | backend/app/core/registry.py:44-51 | Storing and loading a loaded entry changes nothing |
| `Registry.RoundTripIff` | backend/app/core/registry.py:44-51 | An entry reads back as it was written exactly if no field is of those the row encoding normalises |
| `Registry.NormalisedByFields` | backend/app/core/registry.py:34-51 | How each field of a stored entry reads back: namespace default, the time of storing, no empty request name, no false imported flag, groups as the codec gives them |
| `Registry.LastWinsAt` | backend/app/core/registry.py:34 | Of several entries under a key the last one counts |
| `Registry.RegistryTable.LoadRegistry` | backend/app/core/registry.py:17-19 | Lists every stored user once, as loaded, in whatever order |
| `Registry.RegistryTable.UpdateRegistry` | backend/app/core/registry.py:21-60 | The registry becomes the last-wins map of mutate applied to the current list, each entry normalised; if mutate fails nothing changes |
| `ManagedUsers.UserAdmin.AddCertificateUser` | backend/app/services/certificate_service.py:148-159 | Refuses a name that any entry has; otherwise adds the entry for name and default with its groups, times, request and imported flag, changes no other and, for a signed certificate, records its signing request |
| `ManagedUsers.UserAdmin.DeleteCertificateUser` | backend/app/services/certificate_service.py:161-182 | Removes exactly the certificate entry of that name and its signing request |
| `ManagedUsers.UserAdmin.CreateServiceAccount` | backend/app/services/service_account_service.py:53-106 | Fails exactly if name and namespace are taken; otherwise sets that one entry, with its ServiceAccount and token Secret |
| `ManagedUsers.UserAdmin.ImportServiceAccount` | backend/app/services/service_account_service.py:150-172 | Succeeds exactly if the ServiceAccount exists and no ServiceAccount entry has the name in any namespace; it then sets the entry at name and namespace, also over a certificate user's |
| `ManagedUsers.UserAdmin.DeleteServiceAccount` | backend/app/services/service_account_service.py:108-148 | Succeeds exactly if there is an entry in the namespace given or only one of the name, and removes that entry, ServiceAccount and Secret and nothing else |
| `ManagedUsers.PickedByFields` | backend/app/services/service_account_service.py:108-148 | What is picked is a ServiceAccount entry of the name, in the given namespace or the only one; nothing is picked only if there is none in that namespace and either none or several elsewhere |
| `ManagedUsers.UserAdmin.DeleteUser` | backend/app/routers/users.py:147-154 | Succeeds exactly if there is a certificate entry of the name, or a ServiceAccount entry in the namespace given or only one of the name. Then exactly the links to the name in the namespace the caller gave are cleared, and no link dangles, except when the ServiceAccount was found in another namespace than the caller's and some account is linked to it: exactly then |
| `ManagedUsers.UserAdmin.SetLink` | backend/app/services/auth_service.py:342-359 | Links an existing account to an existing managed user only |
| `ManagedUsers.UserAdmin.ClearLinksTo` | backend/app/services/auth_service.py:377-388 | Afterwards no account is linked to the given user and every other link is as it was; no link comes to dangle, and none dangles at all if only those to that user did |
| `ClusterCache.BuildConservesIff` | backend/app/services/cluster_service.py:134-138 | Recording a new CA file keeps the files on disk equal to those recorded if and only if nothing was recorded under that name; otherwise the old file is lost on disk |
| `ClusterCache.SettleConserves` | backend/app/services/cluster_service.py:162-178 | The re-read path keeps files and maps in agreement and leaves under the name a client for the config found |
| `ClusterCache.SettleSparesOthers` | backend/app/services/cluster_service.py:159-178 | The re-read path touches the client, config and file of the one name only |
| `ClusterCache.FilesConserved` | backend/app/services/cluster_service.py:100-204 | In every run in which no cluster has a probe's name and probes of one name do not overlap: both client maps have the same keys, every cached client has its CA file, and the files on disk are those recorded |
| `ClusterCache.ReadingsOverRun` | backend/app/services/cluster_service.py:153-178 | At every moment a cached client is the one for what the last re-read of its name found |
| `ClusterCache.ReadingOrigin` | backend/app/services/cluster_service.py:161-166 | What a re-read found was in the table at an earlier moment of the run |
| `ClusterStaleness.Fetch` | backend/app/services/cluster_service.py:153-178 | An uninterrupted call that goes to the table makes of any run a longer one by the steps begin, read, any time, stamp, settle, ends in the state that Service.GetApiClient states, and keeps the run within the terms of FilesConserved and OneClusterIsFresh |
| `ClusterStaleness.ProbeIsARun` | backend/app/services/cluster_service.py:180-204 | So does a whole probe, by its start and its end, within the terms of FilesConserved if no probe of that name is running |
| `ClusterStaleness.RemovalIsARun` | backend/app/services/cluster_service.py:100-109 | And so does a removal, by the write and the drop, within those terms |
| `ClusterStaleness.FinishIsCurrent` | backend/app/services/cluster_service.py:159-178 | A caller that goes through to the table gets a client for what the table held at the read step of its own call, between the step that began the call and the one that ends it, or nothing; nothing for an unregistered name |
| `ClusterStaleness.ServedIsLastRead` | backend/app/services/cluster_service.py:155-157 | A caller served from the cache gets the config of the last re-read of that name, whenever that was: less than 30 seconds ago is only the re-read of some name, perhaps another |
| `ClusterStaleness.OneClusterIsFresh` | backend/app/services/cluster_service.py:153-178 | With one cluster in use a client handed out is for a config stored less than 30 seconds, plus the time of one read, before |
| `ClusterStaleness.LookupsApart` | backend/app/services/cluster_service.py:153-162 | A name that has a client is not looked up again within 30 seconds of any re-read |
| `ClusterStaleness.ReadTimeCounts` | backend/app/services/cluster_service.py:161-162 | For every read time there is a run with one cluster in which a served client is 29 seconds plus that time out of date |
| `ClusterStaleness.TwoClustersGoStale` | backend/app/services/cluster_service.py:33-162 | With two clusters there is no bound: for every n a run serves a config that was replaced n times 30 seconds ago |
| `ClusterStaleness.ProbesOfOneNameLeak` | backend/app/services/cluster_service.py:180-204 | Two probes of one name leave a file on disk for good |
| `ClusterStaleness.RemovedUntilAddedAgain` | backend/app/services/cluster_service.py:100-109 | Once a removal has returned no caller gets a client for the name from this worker until it is registered again |
| `ClusterService.ClusterTable.Update` | backend/app/services/cluster_service.py:47-73 | The table becomes mutate of its contents, or is left alone with mutate's error |
| `ClusterService.Service.DropClient` | backend/app/services/cluster_service.py:117-128 | Forgets the client and its config and deletes its file, keeping the rest in agreement |
| `ClusterService.Service.GetApiClient` | backend/app/services/cluster_service.py:153-178 | Serves a client less than 30 seconds after the last look at the table unchanged; otherwise stamps the time and gives the client it has if the row is as before, a new one for the present row, or an error exactly if there is no row or its CA data does not decode; other names' clients are untouched |
| `ClusterService.Service.VerifyConnectivity` | backend/app/services/cluster_service.py:180-204 | Leaves cache and files as they were if and only if no client is cached under the probe's key or the CA data is malformed |
| `ClusterService.Service.AddCluster` | backend/app/services/cluster_service.py:83-98 | Registers exactly if the name is not local, the CA data decodes, the cluster answers and the name is not taken, and else names the first of these that fails; the cache is untouched if no client is cached under the probe's key |
| `ClusterService.Service.RemoveCluster` | backend/app/services/cluster_service.py:100-109 | Succeeds exactly on a registered name; row, client and file are gone |
| `LoginLimiter.ConcurrentLimit` | backend/app/services/auth_service.py:36-59 | With at most k admitted checks of an IP between count and commit, and counts of that IP out of clock order by at most d, no closed interval of 300 seconds less d holds more than 10 + (k - 1) of its accepted attempts, whatever crashes, whatever other IPs do and in whatever order all commit; k = 1, d = 0 is the serial limit of 10 |
| `LoginLimiter.LimitIsReached` | backend/app/services/auth_service.py:36-59 | The bound is exact in k: for every k some run in clock order reaches it at one instant |
| `LoginLimiter.DisorderCounts` | backend/app/services/auth_service.py:36-59 | And the interval is exact in d: for every d up to the window a run with one check at a time and counts out of order by d accepts more than 10 in an interval longer by one unit of the clock |
| `LoginLimiter.StepKeepsVisible` | backend/app/services/auth_service.py:43-48 | Nothing accepted within the window before the latest count of its IP has been pruned or is about to be by a check that has counted, in any order of counts |
| `LoginLimiter.Limiter.Check` | backend/app/services/auth_service.py:29-61 | One at a time, admits exactly if fewer than 10 attempts of the IP were accepted in the last 300 seconds, though the table is pruned; holds at most ten rows an IP, touches no other IP's rows, and ends as the steps prune, count, commit do |
| `LoginLimiter.CheckedByFields` | backend/app/services/auth_service.py:36-59 | Those steps remove exactly the IP's rows older than 300 seconds and store and accept the new attempt exactly if fewer than ten are left |
| `LoginLimiter.RecentAre` | backend/app/services/auth_service.py:37-50 | What Check counts is the attempts of the IP accepted in the last 300 seconds, both ends included |
| `LoginLimiter.CheckIsARun` | backend/app/services/auth_service.py:29-61 | One whole check with no other in flight makes of a run a longer one by those three steps, within the terms of ConcurrentLimit for its own IP and any other |
| `LoginLimiter.AdmittedAgainIff` | backend/app/services/auth_service.py:37-56 | For any history, a caller is admitted again if and only if strictly more than 300 seconds have passed since the tenth last accepted attempt |
| `LoginLimiter.AdmittedWhenIdle` | backend/app/services/auth_service.py:37-56 | A caller with fewer than ten accepted attempts in all, or none in the last 300 seconds, both ends included, is admitted |
| `LoginLimiter.TenthLast` | backend/app/services/auth_service.py:47-50 | A history with ten accepted attempts has a tenth last, so the two cases are all |
| `AccountStore.NoOrphansEver` | backend/app/services/auth_service.py:64-94 | In every run, however transactions interleave, each role belongs to an existing account |
| `AccountStore.TxnOrigin` | backend/app/services/auth_service.py:132-322 | Every transaction under way began by finding its account as it takes it to be: roles are given and taken of accounts that were local then, and only those that were not were left to the directory |
| `AccountStore.LdapRolesAreUniform` | backend/app/services/auth_service.py:85-94 | In every run, every LDAP account holds one and the same role on all its scopes at all times if and only if each role assignment overtaken by its account's becoming an LDAP account writes the role the account holds on its other scopes |
| `AccountStore.PutOnLdapIff` | backend/app/services/auth_service.py:278-298 | A role assignment overtaken in this way leaves the LDAP roles uniform if and only if it writes the role the account's other scopes hold |
| `AccountStore.LoginResyncs` | backend/app/services/auth_service.py:144-164 | Right after an LDAP login the account holds its role on exactly the current scopes, and no other account or role has changed |
| `AccountStore.RolesAre` | backend/app/services/auth_service.py:64-68 | An account's roles are its rows, scope by scope |
| `AccountStore.LdapLoginWorksIff` | backend/app/services/auth_service.py:80-94 | An LDAP login ends well if and only if no cluster is called _instance and the account has neither come nor gone since it was looked up |
| `AccountStore.AssignmentWorksIff` | backend/app/services/auth_service.py:278-322 | A role assignment or removal takes effect if and only if the account is there and the row has neither come nor gone since it was looked up, and then on that one row |
| `AccountStore.LoginSparesLocals` | backend/app/services/auth_service.py:134-164 | An LDAP login changes no local account unless it is overtaken; then the account gets exactly the directory's role on every scope |
| `AccountStore.LoginTakesOverLocal` | backend/app/services/auth_service.py:134-164 | A run in which an account recreated as a local one while the directory answers ends up with the directory's role |
| `AccountStore.RoleGivenToLdapAccount` | backend/app/services/auth_service.py:278-298 | A run in which an overtaken role assignment makes an LDAP account's roles differ |
| `AccountService.AccountTables.ResyncLdapRoles` | backend/app/services/auth_service.py:85-94 | Replaces the account's roles by one on every scope, or fails on colliding scopes and writes nothing |
| `AccountService.AccountTables.Authenticate` | backend/app/services/auth_service.py:125-166 | A local account logs in exactly with its password and only its last login changes; any other gets exactly what the directory answers, one row on _instance, local and each cluster, with its account kept or made; both invariants are kept; each is the step, or the read and commit, of the transactions |
| `AccountService.AccountTables.CreateUser` | backend/app/services/auth_service.py:205-221 | Adds a local account under a free name; its roles are none of its concern |
| `AccountService.AccountTables.DeleteUser` | backend/app/services/auth_service.py:224-241 | The account goes with all its roles; nobody else's change |
| `AccountService.AccountTables.ChangePassword` | backend/app/services/auth_service.py:244-260 | Afterwards exactly the new password matches, for local accounts only, and nothing else has changed |
| `AccountService.AccountTables.SetScopeRole` | backend/app/services/auth_service.py:278-298 | Sets one role of a local account, or says why not |
| `AccountService.AccountTables.DeleteScopeRole` | backend/app/services/auth_service.py:301-322 | Removes one role of a local account, or says why not |
| `AccountService.AccountTables.EnsureDefaultAdmin` | backend/app/services/auth_service.py:97-122 | Creates the administrator with full access exactly if a password is given and there is no account at all |
| `Sessions.AcceptedFor` | backend/app/core/auth.py:27-67 | A token is accepted for its own kind only, for at most its life of 15 minutes or 7 days and at least a second less; after that it is refused as expired whatever its kind |
| `Sessions.AcceptedTokenLineage` | backend/app/routers/auth.py:66-107 | An access token accepted now carries exactly the roles the store held for its account at a moment less than 15 minutes, plus one request's time d, ago, and goes back to a login less than 7 days and 15 minutes ago, plus 2 d |
| `Sessions.LostRolesEnd` | backend/app/routers/auth.py:92-107 | No token that carries other roles than the store has held for its account since is accepted 15 minutes and one request's time later |
| `Sessions.DeletedAccountEnds` | backend/app/routers/auth.py:94-101 | No token of an account that has been gone for 15 minutes and one request's time is accepted |
| `Sessions.RefreshTokensComeFromLogins` | backend/app/routers/auth.py:85-107 | Every refresh token was issued by a login, and is refused 7 days and one request's time after it |
| `Sessions.LoginIssuesBoth` | backend/app/routers/auth.py:66-85 | An undisturbed login issues an access and a refresh token for the account, both with all its roles, for 15 minutes and 7 days |
| `Sessions.RefreshIssuesAccess` | backend/app/routers/auth.py:88-110 | A refresh token not yet 7 days old, less a second, gets its account, if there is one, a new access token with its present roles, and no refresh token |
| `VaultConfig.NormalTwice` | backend/app/services/vault_service.py:22-46 | Normalising a config twice is normalising it once |
| `VaultConfig.NormalByFields` | backend/app/services/vault_service.py:21-27 | The address loses just the slashes at its end, the mount and base path just those around them, and nothing else changes |
| `VaultConfig.UsableIff` | backend/app/services/vault_service.py:155-170 | A config is put in force, normalised, if and only if it has a token and an address of more than slashes |
| `VaultConfig.SameConfigKeepsInstance` | backend/app/services/vault_service.py:155-176 | Applying what is applied keeps the instance, whether the config comes as it was given or in its normal form |
| `VaultSync.ServiceOrigin` | backend/app/services/vault_service.py:155-229 | While reads succeed, what every worker has in force was the effective config at some moment of the run |
| `VaultSync.ServedIsFresh` | backend/app/services/vault_service.py:179-229 | For any number of workers, while reads succeed, a service handed out is for the config in effect less than 30 seconds, plus the time from a worker's own commit to its stamp, before |
| `VaultSync.SyncedIsCurrent` | backend/app/services/vault_service.py:186-195 | A caller that waits for a sync gets what was in effect at the read step of that very sync, between the step that began it and the one that ends it, whatever other syncs failed |
| `VaultSync.OneAtATime` | backend/app/services/vault_service.py:179-195 | While a sync is under way its worker does nothing but read the row |
| `VaultSync.ChangeAlone` | backend/app/services/vault_service.py:206-229 | While a worker changes the row it does nothing else |
| `VaultSync.SyncsApart` | backend/app/services/vault_service.py:179-186 | A worker syncs of itself at most once in 30 seconds |
| `VaultSync.EnvironmentStaysOut` | backend/app/services/vault_service.py:195-229 | Once a row has been written, from 30 seconds and that time on, everything served is some row's config, never the environment's |
| `VaultSync.DisabledStaysOff` | backend/app/services/vault_service.py:223-229 | The worker that disables serves nothing from then on while nobody configures and reads succeed |
| `VaultSync.FailedReadUndoesIff` | backend/app/services/vault_service.py:189-194 | A failed read changes what is in force if and only if nothing is and the environment has a usable config |
| `VaultSync.FailedReadUndoesDisable` | backend/app/services/vault_service.py:189-194 | So with a usable environment a failed read undoes a disable |
| `VaultSync.LateStampKeepsOld` | backend/app/services/vault_service.py:216-219 | For every delay between commit and stamp, a run that never exceeds it serves a config for 29 seconds and that delay after another worker disabled it |
| `VaultSync.SyncIsARun` | backend/app/services/vault_service.py:179-195 | A sync makes of any run a longer one by the steps start, read, apply, ends in the worker state that VaultWorker.Sync states, and keeps the run within the terms of ServedIsFresh |
| `VaultSync.FailedSyncIsARun` | backend/app/services/vault_service.py:186-194 | A sync that cannot read the row makes of any run a longer one by the steps start, fail, and ends in the worker state that VaultWorker.Sync states |
| `VaultSync.ChangeIsARun` | backend/app/services/vault_service.py:206-229 | Configuring and disabling make of any run a longer one by the steps write, any time, apply and stamp, end in the worker state that VaultWorker.ConfigureVault and DisableVault state, and keep the run within the terms of ServedIsFresh if that time is within its delay |
| `VaultGlobals.VaultWorker.ApplyConfig` | backend/app/services/vault_service.py:155-176 | Puts the usable normal form in force, or nothing, and keeps the instance if the config is the same |
| `VaultGlobals.VaultWorker.Sync` | backend/app/services/vault_service.py:179-195 | Does nothing within 30 seconds unless forced; otherwise stamps, and puts in force the row's config, nothing if the row says disabled, or the environment's if there is no row, keeping an instance that has it; on a failed read keeps what there is or starts from the environment |
| `VaultGlobals.VaultWorker.GetVaultService` | backend/app/services/vault_service.py:198-203 | Returns what is in force after a sync where one is due |
| `VaultGlobals.VaultWorker.ConfigureVault` | backend/app/services/vault_service.py:206-220 | Row and service are the config given |
| `VaultGlobals.VaultWorker.DisableVault` | backend/app/services/vault_service.py:223-229 | The row says disabled and nothing is in force |
| `RefreshQueue.InvEver` | frontend/src/api/client.ts:55-101 | In every interleaving of events: one refresh is outstanding exactly while the flag is up, begun by the one leading request; the queue is those parked, each once, waiting on that refresh |
| `RefreshQueue.SingleFlight` | frontend/src/api/client.ts:55-101 | One refresh at most is outstanding, nothing is queued while none is, no request goes out more than twice, nobody waits while no refresh runs |
| `RefreshQueue.SettledOnceByItsRefresh` | frontend/src/api/client.ts:70-88 | A parked request stays parked until the refresh it waits on is answered and is called by it exactly once |
| `RefreshQueue.AnswerSettlesAll` | frontend/src/api/client.ts:82-95 | The answer to a refresh re-sends every parked request once with the new token, or rejects it unsent if there is none or an empty one; the request that began it is re-sent unless the refresh failed; all others are left as they were |
| `RefreshQueue.DrainedOne` | frontend/src/api/client.ts:58-76 | Draining re-sends each parked request with the token, or rejects it without one, and marks it as called by this refresh; no other request changes |
| `RefreshQueue.Client.Send` | frontend/src/api/client.ts:43-53 | A new request is in flight, sent once, neither parked nor retried |
| `RefreshQueue.Client.DrainQueue` | frontend/src/api/client.ts:58-61 | Calls every callback once in order and empties the queue |
| `RefreshQueue.Client.OnError` | frontend/src/api/client.ts:65-99 | Rejects anything but a first 401; parks that while a refresh runs, and begins one otherwise, as one step of the event loop, keeping the invariant |
| `RefreshQueue.Client.OnResponse` | frontend/src/api/client.ts:64-64 | A good answer settles its request and changes nothing else |
| `RefreshQueue.Client.OnRefreshAnswer` | frontend/src/api/client.ts:81-96 | Re-sends or rejects what is parked, re-sends or rejects the leader, empties the queue and lowers the flag, as one step |

## Left out

Assumptions of the models:

- Kubernetes is a map with 404 and 409 answers and injected failures; LDAP an oracle that gives a role or nothing; a token an unforgeable record; bcrypt an exact match. X.509, Vault's HTTP API, JWT signatures and base64 are not modelled beyond success and failure.
- Database isolation is read committed: a transaction's statements see other commits, its writes appear at its commit, and keys, foreign keys and row locks hold. A session's loaded rows are not kept across its statements.
- Random identifiers and temporary file names are fresh by assumption; timestamps survive ISO text unchanged; clocks do not run backwards within a run, except those of login checks.
- A Kubernetes call whose caller crashes has taken effect or not by the time of the crash; a create that arrives later is not modelled.
- Only approvals label bindings as just-in-time. A role assignment that patches the subjects of a binding of that name is not a step of the grant protocol.
- Passwords over 72 bytes, which bcrypt treats specially, are not distinguished.

Contracts stated weaker than one might expect:

- ClusterStaleness.OneClusterIsFresh: the bound has the duration of the table read added, because the stamp follows the read; ClusterStaleness.ReadTimeCounts shows it is needed.
- VaultSync.ServedIsFresh: the bound has the time from a worker's own commit to its stamp added; VaultSync.LateStampKeepsOld shows it is needed. The service is taken to be returned while the lock is held.
- Sessions.AcceptedTokenLineage: the bounds have the duration of the requests added; the two tokens of a login are issued at one clock reading.
- ClusterCache.FilesConserved: needs that building an API client does not fail after its file is written; the end of a probe forgets and deletes its file in one step.
- LoginLimiter.ConcurrentLimit: the interval is shorter than the window by the disorder of the IP's counts, as LoginLimiter.DisorderCounts shows it has to be. The deletion of pruned rows takes effect at the commit.
- BindingWalk.Collection.DeleteWithPrefix: nobody else writes during the walk; what others can do to it is in BindingWalk.WalkAscends and BindingWalk.WalkComplete.
- Registry.RegistryTable.UpdateRegistry: is stated without interference; what other writers between load and write do to each key is in DiffWrite.WriteAtKey.
- AccountService.AccountTables.CreateUser: password hashing failures are not modelled.
- RefreshQueue.SingleFlight: assumes that the retry flag survives on the request config when it is sent again, and that storing the token does not throw.

Parts not modelled:

- Routing, request gates, schemas other than the TTL bounds, logging, audit records, token history, CSV export, migrations, Helm charts: wiring or simple members.
- Role and ClusterRole editing, access review, kubeconfig files, the bootstrap script, namespace creation on demand: thin wrappers and templates.
- Reading and writing Vault secrets and its health check, certificate signing and its polling loop: foreign calls. A certificate user is modelled from the registry on.
- React pages, stores and hooks; clearing the session on a failed refresh is represented by the rejections only.
- Failures midway through ServiceAccount creation or deletion, after which Kubernetes and the registry differ until the call is repeated.
