# Dink: verified protocols and translations

Dink serves the Docker API on top of Kubernetes and an OCI registry. This project models, in Dafny,
the parts of it that have to stay right under concurrency, failure and hostile input, and proves what
they are for:

- **Images** (`ImageGraph`, `ImageCopy`, `ImageRuns`, `ImageDelete`, `ImageSizes`, `RepositoryScan`,
  `RepositoryNames`). Walking the graph of an image, copying it into a repository with concurrent blob
  workers and ordered manifest pushes, deleting an image, adding up its sizes, and listing a tenant's
  repositories from a paged catalogue.
- **Container names** (`ContainerLock`, `AliasServices`, `ContainerNames`, `NameUpdates`). The lock per
  container, alias Services, create, rename and remove as interleaved API calls, and the versioned
  write of a name from several replicas.
- **Builds** (`BuildSessions`, `BuildCredentials`). One build per session, the credential it is given,
  and the store that issues, checks, revokes and purges credentials.
- **Translations** (`NetworkIsolation`, `Resources`, `PodEvents`, `EnvHash`, `PluginHealth`). Docker
  networks as NetworkPolicies, Docker resource settings as Kubernetes quantities and back, Pod updates
  as Docker events, the encoding under the environment hash, and the pacing of plugin handshakes.

`dafny verify dfyconfig.toml` checks everything.

## How it is modelled

Sequential code that updates state is a class or a method with loops, tied by its postconditions to
functions of the old state. Code that runs concurrently is a transition system: every section under a
mutex, every channel operation and every API call is one step, threads are program counters, and the
theorems are about every state of every trace. A step that may fail has a failing branch; registry
calls of a copy or of a build may fail with or without having taken effect. A parameter `healthy`
separates the two halves of a contract: what holds whatever fails, and when the call must succeed.

Hypotheses, each visible as a predicate or a parameter:

- The source of a copy does not change during the run. Content addressing makes references acyclic
  (`ImageGraph.Acyclic`; needed for order only, not for termination or contents) and makes what a
  manifest names a function of its digest. No digest is both a blob and a manifest
  (`ImageGraph.RolesApart`); `ImageGraph.SharedDigestHides` shows why this is needed.
- Other clients of a destination only add content, push no manifest before what it names and leave the
  tag of the run alone (`ImageCopy.OtherClients`).
- The Kubernetes API is a map. A failed call has no effect, a create fails if the object is there, an
  update fails under a stale version, versions and UIDs are never reused. A Service has at most one
  owner reference.
- The index reports the closure of an image as `ImageDelete.ClosureOk` says and the tags of an image
  exactly; sizes are a function of the digest (`ImageSizes.SizesAgree`).
- Clocks do not run back; user names of credentials are new.
- Password hashes, name hashes, label syntax, quantity syntax and time formats are function parameters,
  and nothing is assumed of them.

## Where the code does less than one would expect

Each of these has a concrete counterexample and an exact condition.

- **Pull.** `AllDescriptors` appends the referrers of the chosen platform after the index. If one of
  them is also a child of the index that the selection left out, the index is pushed before that child
  (`ImageRuns.PullCanBreak`). A pull is safe in every state of every run if and only if no such child
  exists (`ImageRuns.PullIsSafeExactly`). Push and retag have no such case.
- **Inspect.** Creation keeps a user's own annotation `dink.io/requests.cpu` when there is no CPU
  request; inspection drops it (`Resources.AnnotationIsLost`). Inspection is a fixed point if and only
  if there is a CPU request or no such annotation (`Resources.InspectIsFixedPoint`); all other settings
  always survive.
- **Scoped listing.** `scoped.Repositories` stops at the first name outside the namespace, so a stored
  name that continues the namespace with a dot hides all of it: with "a.b/x" in the catalogue, tenant
  "a" is told that it has nothing (`RepositoryScan.ListBesideNeighbour`). With such a neighbour the
  listing is empty, without one it is exact (`RepositoryScan.ScopedRepositories`), and if every stored
  name begins with a valid namespace there is none (`RepositoryScan.TenantedHasNoNeighbour`).
- **Events.** Only the latest exit and the latest start are remembered, so an identity that comes back
  after another one, or after a status without any, is reported again (`PodEvents.ExitTwice`). There is
  exactly one event per identity if and only if the Pod's statuses show it without interruption
  (`PodEvents.EventStream.ExactlyOnce`).

## Model

| member | source | states |
|---|---|---|
| `ImageGraph.Walker.Visit` | core/registry/push.go:216-268 | The recursive closure, mutating `seen` and `descriptors` in place, is the pure walk on every graph, cyclic ones included, with the same error when it fails |
| `ImageGraph.ListImage` | core/registry/push.go:216-273 | The walk from the root over empty state, for every source and either value of `allowMissing` |
| `ImageGraph.ImageDescriptorsExact` | core/registry/push.go:214-273 | On success the list holds exactly the stored digests reachable from the root, each once, root last; without `allowMissing` everything reachable is stored; on an acyclic graph whatever a manifest names comes before it |
| `ImageGraph.FailureMeans` | core/registry/push.go:216-273 | Each way to fail has its reason in the graph: "not found" names something reachable that is not stored, which `allowMissing` excuses except for the root; a read error something reachable that is broken, unreadable or unresolved; the depth error a path of more than 32 edges; no other error occurs |
| `ImageGraph.SucceedsExactly` | core/registry/push.go:216-273 | Where no path has more than 32 edges, the walk succeeds if and only if nothing reachable is missing without excuse or faulty; so with `allowMissing` a partial image is listed |
| `ImageGraph.SuccessIsShallow` | core/registry/push.go:220-223 | A walk that succeeds reached every stored manifest on a path of at most 32 edges |
| `ImageGraph.RefsMeans` | core/registry/push.go:240-264 | What a manifest names: the entries of an index, the layers and the config of an image |
| `ImageGraph.WalkKeeps` | core/registry/push.go:220-268 | Invariant of the recursion: what is seen is reachable, finished digests have all they name seen, and open visits are ancestors |
| `ImageGraph.AddBlobsKeeps` | core/registry/push.go:252-264 | The blob loop keeps the invariant and leaves out only blobs that are not stored |
| `ImageGraph.ReachedIsSeen` | core/registry/push.go:216-273 | After the walk, whatever a path from the root leads to was seen, unless it is a blob that is not stored |
| `ImageGraph.SharedDigestHides` | core/registry/push.go:224-227 | A digest used as blob and as manifest makes a successful walk leave out reachable, stored content |
| `ImageCopy.CopySafe` | core/registry/pull.go:271-360 | In every state of every interleaving and failure of a list in order: at most three workers, no manifest before what it names and the list holds, the tag moves only to the root with the root stored, manifests only after every blob, and a run that ends well stored the whole list |
| `ImageCopy.TagIsSet` | core/registry/manifest.go:214-227 | In every state of every run, in order or not: once the push of the root has succeeded the tag names the root, and a run that ends well has set its tag |
| `ImageCopy.SpoiltNeverEndsWell` | core/registry/pull.go:329-335 | A run that was cancelled or met an error while copying blobs pushes no manifest and never ends well |
| `ImageCopy.NextKeeps` | core/registry/pull.go:316-432 | Every step of scheduler, workers, cancellation, manifest pushes and other clients keeps the invariant |
| `ImageCopy.AllHandled` | core/registry/pull.go:329-335 | With no error, no cancellation and no worker left, every blob of the list is in the destination |
| `ImageCopy.BlobsOfDigests` | core/registry/manifest.go:26-38 | The blob channel carries exactly the blobs of the list |
| `ImageCopy.PushedKeeps` | core/registry/manifest.go:214-227 | Pushing the next manifest of an ordered list keeps integrity, and the tag goes to nothing but the root |
| `ImageCopy.CopyStaysClosed` | core/registry/push.go:151-159 | A complete ordered list copied into a closed repository leaves it closed in every state |
| `ImageCopy.OrderIsSafety` | core/registry/manifest.go:214-227 | A list is in order if and only if no run of it, from any destination, ever holds a manifest without what it names and the list holds |
| `ImageCopy.UndisturbedPush` | core/registry/manifest.go:214-227 | The runs the converse needs exist: from any destination every prefix of the manifests can be reached |
| `ImageCopy.UndisturbedRun` | core/registry/pull.go:271-297 | Undisturbed, a run from any destination ends well, having added exactly the blobs and manifests of its list and set the tag to the root |
| `ImageRuns.WalkAll` | core/registry/manifest.go:132-151 | The loop over referrers is the concatenation of the single walks, or the first error |
| `ImageRuns.WalkEach` | core/registry/manifest.go:106-126 | The loop over selected children walks all of them and reports every failure |
| `ImageRuns.ErrorsMeans` | core/registry/manifest.go:106-126 | What is reported of the selected children is the fault of each one that fails: not found, or no readable image manifest |
| `ImageRuns.SelectEntries` | core/registry/manifest.go:252-293 | The two loops choose the first child for the platform and, in order, exactly the attestations about it |
| `ImageRuns.SelectedMeans` | core/registry/manifest.go:252-293 | The selection of an index is its first child for the platform and exactly the children that attest it |
| `ImageRuns.AttestationsMeans` | core/registry/manifest.go:277-293 | The attestations are exactly the children that name the platform's manifest, in their order |
| `ImageRuns.AllDescriptors` | core/registry/manifest.go:47-130 | The pull list, with the cases that fail; the failures of selected children are all reported |
| `ImageRuns.PullListHolds` | core/registry/manifest.go:47-151 | A pull list holds, of an index, the chosen children, the index and the referrers of the platform's manifest, and otherwise the manifest and its referrers; nothing else |
| `ImageRuns.PullSucceeds` | core/registry/manifest.go:47-151 | There is a pull list if and only if the index is stored and has a child for the platform, and everything to walk is a stored image manifest |
| `ImageRuns.PushDescriptors` | core/registry/push.go:127-150 | The root to push and its list: the original and its referrers, or, if platforms are requested or the graph of an index is incomplete, the chosen platform alone; with the cases that fail |
| `ImageRuns.PushListHolds` | core/registry/push.go:127-150 | A push list holds exactly the manifests reachable from its root and, when asked for, the referrers of the root |
| `ImageRuns.PushSucceeds` | core/registry/push.go:127-150 | On a graph that is not too deep a push has a list for its root if and only if all that is reachable is stored and sound and, when asked for, the referrers are stored image manifests |
| `ImageRuns.FallsBackExactly` | core/registry/push.go:131-141 | On a graph that is neither too deep nor faulty a push turns to one platform if and only if platforms are requested, or the root is an index and something reachable is not stored |
| `ImageRuns.TagDescriptors` | core/registry/pull.go:51-64 | The retag list: what is stored of the graph, then the referrers of every manifest in it, not of those appended |
| `ImageRuns.TagListHolds` | core/registry/pull.go:51-64 | A retag list holds exactly the stored manifests reachable from the root and the referrers of each of them |
| `ImageRuns.RetagSucceeds` | core/registry/pull.go:51-64 | On a graph that is not too deep a retag has a list, whatever children and blobs are missing, if and only if the root is stored, nothing reachable is faulty and the referrers of what is stored are stored image manifests |
| `ImageRuns.WalksExactly` | core/registry/manifest.go:132-194 | Walking manifests succeeds if and only if each is a stored image manifest |
| `ImageRuns.ReferrersMeans` | core/registry/manifest.go:132-151 | The referrers of a list are those of each manifest in it, and of no blob |
| `ImageRuns.WalkedAreWhole` | core/registry/manifest.go:153-194 | Walked manifests come with all of their blobs, and with no others |
| `ImageRuns.GraphThenImages` | core/registry/push.go:142-150 | A walked graph followed by whole images is in order, and complete if nothing was left out |
| `ImageRuns.PushKeepsClosed` | core/registry/push.go:117-159 | A push leaves a closed destination closed in every state of every run; the tag moves only to the root, and a push that ends well has moved it |
| `ImageRuns.RetagIsSafe` | core/registry/pull.go:31-70 | In every state of a retag of a partial graph no manifest precedes what it names and the list holds; a retag that ends well has set its tag |
| `ImageRuns.PullOrder` | core/registry/manifest.go:47-151 | The pull list is in order if and only if no unselected index child is a referrer of the platform manifest |
| `ImageRuns.PullIsSafeExactly` | core/registry/pull.go:271-297 | All states of all pulls of a list are safe under exactly that condition |
| `ImageRuns.PullSetsTag` | core/registry/pull.go:271-297 | A pull that ends well has set its tag, whatever the order of its list |
| `ImageRuns.PullCanBreak` | core/registry/manifest.go:73-77 | A concrete index whose pull succeeds with a child listed after the index, and has an unsafe state |
| `ContainerLock.LockIsExclusive` | core/translator/container_lock.go:14-59 | In every interleaving of lock, cancel and unlock: one holder per key, `users` is the number of registered threads, the locks in the map are exactly those with users, threads on one key share one lock, and a holder can always return the token |
| `ContainerLock.LockCanBeTaken` | core/translator/container_lock.go:14-48 | In every reachable state a container that nobody has locked can be locked, whoever else waits for it |
| `ContainerLock.LockCanBeLeft` | core/translator/container_lock.go:49-58 | A holder that nobody waits for can leave, and takes its entry out of the map |
| `ContainerLock.StepKeeps` | core/translator/container_lock.go:20-48 | Each critical section and token operation keeps the counts and the map |
| `ContainerLock.TraceKeeps` | core/translator/container_lock.go:14-59 | The invariant holds in every reachable state |
| `AliasServices.Cluster.ApplyAliasServices` | core/translator/container_aliases.go:89-153 | On success exactly the requested aliases are Services of the workload, each labelled as its alias and serving the requested ports unless it is the container's own name; Services of others, the primary one and the workload's other Services are untouched even on failure; a second run changes nothing; with a healthy API it succeeds if and only if no foreign Service is in the way |
| `AliasServices.EarlierAliasesGo` | core/translator/container_aliases.go:89-165 | After one successful run and then another, no alias of the first is left that the second did not request, except the primary Service and Services that carry the container's own name |
| `AliasServices.Cluster.DropUnwanted` | core/translator/container_aliases.go:90-110 | The first loop removes only alias Services that are not requested, on success all of them, stopping at one the workload does not own |
| `AliasServices.Cluster.ApplyAll` | core/translator/container_aliases.go:111-152 | The second loop settles every alias in turn without unsettling earlier ones |
| `AliasServices.Cluster.ApplyOne` | core/translator/container_aliases.go:112-150 | One alias: created with label, owner, selector and ports, rewritten or refused, and nothing else changes |
| `AliasServices.PathUntouched` | core/translator/container_aliases.go:99-110 | Along any sequence of such calls foreign Services and the primary one stay as they are |
| `AliasServices.Cluster.FinishRename` | core/translator/container_name.go:185-218 | After the switch: on success the primary Service is marked, the aliases are as requested and no other Service stands for the container, so the old name is free; every call is one that `ContainerNames` allows; nothing else changes even on failure; with a healthy API it succeeds if and only if the workload owns the primary Service and no foreign one is in the way of an alias |
| `AliasServices.Cluster.DropStale` | core/translator/container_name.go:203-217 | The last loop removes only Services that stood for the container under another name, on success all of them |
| `ContainerNames.NamesHold` | core/translator/container_name.go:132-219 | In every state of one server, between any two calls and after any failure: Docker names are pairwise distinct, and every created, not yet removed container has a Service of its own under its current name that selects its Pods |
| `ContainerNames.NameComesFromCall` | core/translator/container_name.go:132-184 | A name changes only by a rename of that container to that name, which found it free and its Service in place; a container that appears has the name its creation found free |
| `ContainerNames.SwitchRenames` | core/translator/container_name.go:172-185 | A rename that goes on has renamed its container, and it alone, and the new name leads to it |
| `ContainerNames.RenameCanHappen` | core/translator/container_name.go:132-185 | With no other operation under way a container can be renamed to every free name |
| `ContainerNames.CreateCanHappen` | core/translator/container_create.go:84-236 | With no other operation under way a container can be created under every free name |
| `ContainerNames.RemoveCanHappen` | core/translator/container_lifecycle.go:92-102 | With no other operation under way a container can be removed with all of its Services and with no other one |
| `ContainerNames.UndoCanHappen` | core/translator/container_name.go:178-183 | A rename that could not write the name can take back the Service it created |
| `ContainerNames.NextKeeps` | core/translator/container_name.go:77-219 | Every step of any thread, and everything Kubernetes does on its own, keeps the invariant |
| `ContainerNames.SwitchKeeps` | core/translator/container_name.go:175-184 | Writing the new name is safe because it is free and its Service already belongs to the container |
| `ContainerNames.RenameKeeps` | core/translator/container_name.go:142-184 | Check, create, switch and undo of a rename |
| `ContainerNames.ReconcileKeeps` | core/translator/container_name.go:185-218 | Marking the primary Service, reconciling aliases and removing stale Services never takes the current name away |
| `ContainerNames.CreateKeeps` | core/translator/container_create.go:84-236 | Reservation, workload and Service creation, with their clean-up |
| `ContainerNames.RemoveKeeps` | core/translator/container_lifecycle.go:92-102 | Removal deletes Services only of a container that is going |
| `ContainerNames.OthersKeep` | core/translator/container_lock.go:49-58 | A step leaves every other thread what it relies on, since mutex and locks keep them apart |
| `NameUpdates.NameChangeIsExact` | core/translator/container_name.go:221-248 | However replicas interleave, a change of a name is one call's write, on that call's UID, replacing exactly its old name by its new one |
| `NameUpdates.OkMeansRenamed` | core/translator/container_name.go:221-248 | A call that reports success found the object under its UID with the old name, or already the new one, and left it with the new name and nothing else changed |
| `NameUpdates.ThirdNameFails` | core/translator/container_name.go:227-232 | A call that read any other name can only fail, whatever the replicas do |
| `NameUpdates.UndisturbedRename` | core/translator/container_lifecycle.go:450-492 | Left alone, a call whose object has the old name, or already the new one, succeeds and leaves it with the new one |
| `NameUpdates.RenamesChain` | core/translator/container_lifecycle.go:450-492 | Over a whole run every rename starts where the previous one ended and the stored name is the last one written, so none is overwritten |
| `NameUpdates.UpdateKeeps` | core/translator/container_lifecycle.go:450-474 | A write under a version that is still current writes over what was read |
| `BuildSessions.SessionsSafe` | core/buildkit/gateway.go:260-335 | In every interleaving: a credential shows only while its owner's solve has the flag; one solve per bridge; only the owning identity has it; the deadline precedes expiry; every solve that was given a credential either still has it and the flag or has tried to revoke it; a credential still accepted belongs to a solve of the first kind or its issue or revocation reported a failure |
| `BuildSessions.OwnReadyBridge` | core/buildkit/session.go:49-78 | A solve goes on only with the bridge of its own session and identity, once that is ready and while it is connected |
| `BuildSessions.BuildGetsCredential` | core/buildkit/gateway.go:260-325 | Whenever a ready session of its identity has no build, a solve can get it, with a new credential on its bridge that is good for an hour and a deadline of 59 minutes |
| `BuildSessions.BuildCleansUp` | core/buildkit/gateway.go:268-335 | A build that ends with a registry that answers leaves no credential and frees its bridge |
| `BuildSessions.TraceKeeps` | core/buildkit/session.go:42-78 | The invariant behind it holds in every reachable state |
| `BuildSessions.SolveKeeps` | core/buildkit/gateway.go:260-335 | Every step of a solve keeps it |
| `BuildSessions.SessionKeeps` | core/buildkit/session.go:121-135 | So do registration, readiness and disconnection of a session |
| `BuildCredentials.Store.IssueBuild` | core/registry/pullauth/build.go:29-72 | Issues exactly when namespace and repositories are valid and the store works; then the records are the unexpired ones and the new one |
| `BuildCredentials.Store.RevokeBuild` | core/registry/pullauth/build.go:96-117 | Succeeds exactly for a well-formed user of that namespace or one that is gone; then the credential is gone |
| `BuildCredentials.PurgeIsInvisible` | core/registry/pullauth/build.go:48-94 | Over every run with a clock that does not run back, logins are answered as by a store that never purges |
| `BuildCredentials.KeptIsMade` | core/registry/pullauth/build.go:29-72 | Every record stems from one issue that nothing has revoked or replaced since |
| `BuildCredentials.LoginExactly` | core/registry/pullauth/build.go:29-128 | Over every run, a login is accepted with a namespace and repositories if and only if a credential for exactly these was issued to it, is unexpired, and was neither revoked nor replaced |
| `BuildCredentials.VerifiedScope` | core/registry/pullauth/build.go:74-128 | An accepted login may write to exactly the repositories of such a credential, and all of them lie under its namespace |
| `RepositoryScan.NamespaceRepositories` | core/registry/images.go:258-285 | For every sorted catalogue and page size the paged scan with its start key and early stop is the filter of the whole catalogue, in order |
| `RepositoryScan.ScanPage` | core/registry/images.go:271-279 | One page: collected, or stopped where nothing later can match |
| `RepositoryScan.RestMatchesNothing` | core/registry/images.go:272-275 | Once past the prefix no later name has it |
| `RepositoryScan.SkippedMatchNothing` | core/registry/images.go:259-264 | The start key skips no name of the namespace |
| `RepositoryScan.ScopedRepositories` | core/registry/pullauth/scope.go:133-158 | The listing is exactly the allowed names of the namespace after `startAfter`, or empty if a dotted neighbour is stored |
| `RepositoryScan.StoppedAt` | core/registry/pullauth/scope.go:147-149 | Where the loop stops, everything wanted was passed, or nothing of it if there is a dotted neighbour |
| `RepositoryScan.TenantedHasNoNeighbour` | core/registry/pullauth/scope.go:138-140 | When every stored name begins with a valid namespace there is no dotted neighbour |
| `RepositoryScan.ListBesideNeighbour` | core/registry/pullauth/scope.go:133-158 | For that catalogue the listing is empty |
| `RepositoryScan.KeptMeans` | core/registry/images.go:271-279 | The filter the listings are measured by: the names of the catalogue to be kept, each place once, in order |
| `RepositoryNames.LessMeans` | core/registry/pullauth/scope.go:133-158 | The order of names, told by their first difference |
| `RepositoryNames.ValidNamespaceMeans` | core/registry/pullauth/store.go:26-31 | A namespace is one lower-case letter or digit, or two with at most 61 of these or hyphens between |
| `RepositoryScan.NeighbourHides` | core/registry/pullauth/scope.go:147-149 | A concrete catalogue with a dotted neighbour and a repository that is wanted |
| `ImageDelete.Repository.ImageDelete` | core/registry/images.go:432-483 | Deleting a tag removes no other tag, and no content while another tag or manifest holds the image; after every prefix of the deletions no remaining manifest has lost content it names and what remaining tags reach is there; refuses exactly an unforced image with several tags; on success exactly the named tag, or all tags of the image, and the unretained content are gone |
| `ImageDelete.Repository.Untag` | core/registry/images.go:445-463 | The tag loop removes only the tags it was given, on success all of them |
| `ImageDelete.ProgressSpares` | core/registry/images.go:464-483 | At no point has anything outside the closure, or retained in it, been deleted |
| `ImageDelete.ProgressLosesNothing` | core/registry/images.go:464-483 | Parents first, then blobs: at no point of either pass has a remaining manifest lost anything |
| `ImageDelete.ProgressKeepsTagged` | core/registry/images.go:464-483 | Nor has a remaining tag |
| `ImageDelete.Repository.DeleteManifests` | core/registry/images.go:467-475 | The manifest pass has removed exactly the unretained manifests before the entry where it ended |
| `ImageDelete.Repository.DeleteBlobs` | core/registry/images.go:467-480 | The blob pass likewise |
| `ImageSizes.ListManifestSummaries` | core/registry/image_list.go:26-79 | Each platform has the size and availability that asking the store afresh for its distinct blobs gives; the total counts each stored digest once, in 64 bits; fails exactly when the lookup of a blob in use fails |
| `ImageSizes.Summarise` | core/registry/image_list.go:38-73 | One platform, with whatever memo earlier platforms left |
| `ImageSizes.Resolve` | core/registry/image_list.go:54-65 | The memo answers as the store would |
| `ImageSizes.Total` | core/registry/image_list.go:75-78 | The 64-bit sum over the distinct digests in the memo |
| `ImageSizes.BlobsMeans` | core/registry/image_list.go:44-53 | The blobs of a platform are the config and the layers of its stored manifest |
| `ImageSizes.ContentMeans` | core/registry/image_list.go:26-79 | What is counted of an image besides its root: the stored platforms and the blobs of each |
| `ImageSizes.WrapMeans` | core/registry/image_list.go:75-78 | 64-bit sums differ from the true ones by multiples of 2^64, and not at all if these fit |
| `NetworkIsolation.PoliciesAreNetworks` | core/translator/network_policy.go:34-151 | Ingress is allowed if and only if the Pods share a network other than `none` and `host` or the target publishes the port, whatever accepted user labels say |
| `NetworkIsolation.PodMetadata` | core/translator/pod_metadata.go:20-54 | Succeeds exactly when every requested key of every set is valid and unreserved and the annotations fit; the result is the merge with later sets winning, free of reserved keys; otherwise it reports the first bad key of the first bad set |
| `NetworkIsolation.ReservedMeans` | core/translator/pod_metadata.go:56-60 | A key is reserved if and only if it is one of Dink's two or its domain is dink.io or below it |
| `NetworkIsolation.AcceptableMeans` | core/translator/pod_metadata.go:26-46 | A label is acceptable if and only if it does not ask for Pod metadata under a reserved or malformed key, nor for a Pod label with a malformed value |
| `NetworkIsolation.MergedMeans` | core/translator/pod_metadata.go:20-54 | The merge holds a key if and only if some set asks for it, with what the last such set asks for |
| `NetworkIsolation.OwnLabels` | core/translator/container_create.go:132-134 | Copying user labels last cannot change the labels policies select by |
| `NetworkIsolation.OwnMembership` | core/translator/network_policy.go:70-89 | A Pod matches a network's selector exactly when it is on that network |
| `NetworkIsolation.NetworkKey` | core/translator/pod_metadata.go:56-60 | Every membership label is a reserved key |
| `Resources.SettingsAreExact` | core/translator/container.go:90-134 | Accepted settings become quantities without rounding: bytes, NanoCPUs, and millicores × period = 1000 × quota within 64 bits; requests stay within limits |
| `Resources.AcceptedMeans` | core/translator/container.go:90-155 | Settings are accepted if and only if nothing is negative but a quota of -1, the reservation is within the limit, at most one CPU limit is given and is whole millicores, a period stands beside a quota, and nothing else is set |
| `Resources.FitsCpuMeans` | core/config/config.go:101-105 | A CPU default fits if and only if it is a positive whole number of millicores whose NanoCPUs are a 64-bit number |
| `Resources.FitsMemoryMeans` | core/config/config.go:106-109 | A memory default fits if and only if it is a positive 64-bit number of whole bytes |
| `Resources.Validate` | core/config/config.go:81-125 | The two loops accept exactly defaults that parse, are positive, fit Docker's units and have requests within limits |
| `Resources.ApplyResourceDefaults` | core/translator/container_create.go:327-397 | With validated defaults it refuses exactly a reservation above the default limit; otherwise declared values stand, defaults fill in, clamped to limits, requests are within limits, products fit 64 bits and the stored settings describe the result |
| `Resources.DescribesMeaning` | core/translator/container_create.go:352-357 | Settings that describe requirements re-derive the same limits and memory request |
| `Resources.InspectTells` | core/translator/container_inspect.go:130-158 | Whatever the stored settings, and however the Pod was changed since, inspection tells the Pod's limits and memory request, puts its CPU request in the annotation, keeps every other annotation and, if the CPU limit is the same, the way it was written; inspecting again changes nothing |
| `Resources.CeilingMeans` | core/translator/container_inspect.go:138-148 | Quantities become Docker's numbers by rounding up: the least whole number of units that is not below |
| `Resources.InspectIsFixedPoint` | core/translator/container_inspect.go:130-158 | Inspection leaves such settings unchanged if and only if there is a CPU request or the user did not claim its annotation |
| `Resources.AnnotationIsLost` | core/translator/container_inspect.go:150-157 | The settings for which it does not |
| `PodEvents.EventStream.ExactlyOnce` | core/translator/events.go:177-245 | After any sequence of updates, deletions and polls, for every Pod whose workload was known throughout: the `die` events sent for an exit are its arrivals among the statuses shown since the Pod was last forgotten; an exit not there before the stream is reported, and once if and only if those statuses show it without interruption; likewise `start` and instances |
| `PodEvents.UpdateFaithful` | core/translator/events.go:224-245 | An update sends exactly what its Pod's history makes due, whether the Pod was remembered or is new |
| `PodEvents.SentIsDue` | core/translator/events.go:281-321 | Events sent for an identity, counted over all calls, are the observations that show it anew |
| `PodEvents.EventStream.Tick` | core/translator/events.go:181-194 | A poll re-observes exactly the starting Pods and reports exactly those that turned unhealthy, one event each |
| `PodEvents.PollIsUnhealthy` | core/translator/events.go:181-194 | A poll cannot report an exit, a start or health |
| `PodEvents.TransitionBatch` | core/translator/events.go:307-321 | At most one `die`, then at most one `start`, per update |
| `PodEvents.ReportsAreArrivals` | core/translator/events.go:309-316 | The observations that are due for an identity are its arrivals |
| `PodEvents.OnceIfContiguous` | core/translator/events.go:309-316 | An identity that is seen is due at least once, and exactly once if and only if it is not seen again after another one |
| `PodEvents.ExitTwice` | core/translator/events.go:281-316 | Three statuses for which two `die` events are sent for one exit |
| `PodEvents.RestartIsNoExit` | core/translator/container_inspect.go:226-231 | An exit that moves from current to last termination is not reported again |
| `PodEvents.HealthMeans` | core/translator/container_inspect.go:234-267 | Health by cases of the status: none without a probe, healthy exactly while running and ready, starting up to a fixed moment, unhealthy from then on or when not running |
| `PodEvents.GraceMeans` | core/translator/container_inspect.go:234-267 | The time to become ready is the start period and all retries, with periods of ten seconds and three retries where nothing is set |
| `PodEvents.RememberedHealth` | core/translator/events.go:281-305 | A running container of a known workload is remembered with its health, any other without |
| `PodEvents.HealthReported` | core/translator/events.go:307-321 | A change of health is reported exactly when the container has become healthy or unhealthy |
| `PodEvents.UnhealthyOnce` | core/translator/events.go:181-194 | Polls report once that a starting container turned unhealthy: none before its grace is over, the first one after, none after that |
| `EnvHash.SortedKeys` | core/translator/container_env.go:82-82 | Every map has an ascending listing of its keys, each once |
| `EnvHash.EnvStream` | core/translator/container_env.go:82-85 | The keys are sorted, and the loop writes the framed keys and values in that order, for every map |
| `EnvHash.StreamIdentifies` | core/translator/container_env.go:77-87 | Two environments have the same stream if and only if they are equal, whatever bytes they hold |
| `EnvHash.StreamDecodes` | core/translator/container_env.go:82-85 | Keys and values can be read back from the stream |
| `EnvHash.FrameEnds` | core/translator/container_env.go:83-84 | A length-prefixed string can be told from whatever follows it |
| `EnvHash.ListingIsUnique` | core/translator/container_env.go:82-82 | A map has one ascending listing of its keys |
| `PluginHealth.Plugin.EnsureReady` | core/plugins/plugins.go:131-154 | A handshake happens exactly when the plugin is usable, not ready and no failure is younger than the pause; any two are at least that far apart; a plugin that is not ready has an error or was never checked |
| `PluginHealth.Plugin.Observe` | core/plugins/plugins.go:115-128 | Only an unreachable plugin loses readiness, and that too delays the next handshake |

## Left out

- HTTP routers, gRPC and Connect transport, TLS, the command line, the SDK and generated code: plumbing.
- Swarm services: they write Services outside the name mutex, so the naming invariant does not cover them.
- Progress output, event filters, notifications of plugin changes, whether a copy transferred anything, status texts and the records `ImageDelete` returns: reporting only.
- Platform matching and `pushPlatform`: the matcher's verdict and the outcome of the choice are inputs of the lists.
- `hasPlatform` and `ensureTagged`: a pull that finds its image stored only adds a tag.
- JSON, digests as hashes of bytes, reference parsing, regular expressions and SHA-256: manifests are given decoded, and hashes are parameters.
- `ocistore`: the index and its closure are contracts, not code.
- Creating and updating NetworkPolicies, host-network Pods, and how `podPorts` drops duplicate ports: the policies are taken as present, one per network and per workload.
- `mergeNetworkAliases`, `distinctAliases` and the encoding of aliases in annotations: `ApplyAliasServices` takes the resulting list.
- Rewriting of a `Solve` request, history records and the session protocol itself: only flag, deadline, credential and bridge are modelled.
- `applyEnvSecret`, volumes, exec, logs, statistics and waiting for containers to stop.
- The bound on retries after a write conflict: `NameUpdates` allows any number.
- ImageRuns.AllDescriptors: a request cancelled during the walk is not modelled; cancellation starts with the copy.
- NetworkIsolation.PodMetadata: names the key that is reported, but not which of its problems the message describes.
- Resources.InspectIsFixedPoint: for Pods whose quantities do not fit 64 bits inspection has no result in the model.
- PodEvents.EventStream.ExactlyOnce: counts from where a Pod was last forgotten; a Pod that was deleted starts from an empty memory. While a workload is unknown nothing is sent, which `Valid` states.
- EnvHash.StreamIdentifies: is about the stream; that the hash of it is collision-free is not claimed, and the empty environment, whose hash is the empty string, has the empty stream.
- RepositoryScan.ScopedRepositories: a caller that stops reading early and an error in the middle of the underlying listing are not modelled.
