# Verified model of the Key Vault sync controller's convergence logic

The controller copies Azure Key Vault contents to Kubernetes in two tiers. A custom resource
names a vault; the controller turns its listing into a SecretProviderClass (SPC). A second
loop, the Secret watcher, copies annotations and labels from the SPC to the Secrets that the
CSI driver creates. This project models the parts that decide what gets written and proves
that they converge and leave other people's data alone.

| file | subject |
|---|---|
| GoStrings.dfy | Go's split, join, trim and sort |
| JsonPointer.dfy, JsonPatch.dfy | RFC 6901 pointers and the add and remove operations of RFC 6902 |
| SecretMetadata.dfy | a Secret's metadata document and what the emitted operation list does to it |
| TrackingList.dfy | the list of managed keys stored in an annotation |
| SecretSync.dfy | one pass of the watcher as a three-way merge |
| SecretRuns.dfy | runs of passes, vault changes and other writers |
| SecretReconciler.dfy | the watcher's methods, and the way of a tag from vault to Secret |
| TagCodec.dfy, SpcGeneration.dfy | tags carried in SPC annotations; the generated SPC |
| ObjectsYaml.dfy, YamlBlocks.dfy | the objects parameter as text, and what YAML reads from it |
| VaultObjects.dfy | annotation mode's printer, and change detection on its text |
| Spc.dfy, SecretObjects.dfy | SPC values and the comparators |
| SpcCache.dfy | the SPC cache with its reverse index, and the lookup that uses it |
| CrdSync.dfy | create, compare and update of the generated SPC |
| CircuitBreaker.dfy, RetryQueue.dfy, TokenCache.dfy | the breaker, retry accounting, the Azure token cache |

`dafny verify dfyconfig.toml` checks everything.

## Conventions

- Strings are sequences of code points; Go's byte order on UTF-8 text is code-point order.
- A nil Go map is `None`. Ranging over a map takes an arbitrary element each round, so results
  hold for every iteration order. Library sorts are a sorting function of which only "sorted
  permutation" matters where names are distinct.
- Answers of Kubernetes, Azure and the clock are parameters, failures included. A cluster is one
  map. json.Marshal of labels is a pair of functions that must be lossless; yaml.Marshal of one
  object is any function from names to text; where YAML must read the text, a condition on it is stated.
- A watcher pass is three atomic steps: listing the Secret, reading its owner, and patching it.
  A breaker call is two atomic steps, and so are a token check and the following read.
- Times are integers (nanoseconds). The renewal margin is 0.2 of the lifetime over the reals, cut to
  whole nanoseconds.

## Where the code differs from its description

- The breaker's comment allows a single call in half-open. The code admits every caller, and
  reopening takes maxFailures failures (HalfOpenAdmitsEveryone, FailuresThatOpen). The comment holds
  exactly for a threshold of one and one caller at a time (SingleTrialIff).
- README.md:499 says user-added metadata is preserved. A key that was ever desired is taken over and
  later removed (SecondPassCleansUp). Entries of a map that did not exist when the Secret was listed
  are lost if the pass puts anything in that map and the patch is accepted: StrangerSurvivesIff is the
  exact condition, StaleSnapshotLosesAnnotation the case of a Secret that has labels only, and
  StrangersKeepTheirValue says what is kept over whole runs. Other writers must leave the tracking
  annotations alone and not delete tracked keys, nor, during a pass, keys that the pass saw and the
  vault may ask for. Their own keys they may add, change and delete at any time.
- A tracked key that someone deleted stops all later patches (DeletedKeyBlocksPatches).
- A patch is sent on every pass while anything is managed (SilentPass).
- The reverse index can lose a claim (IndexIsCompleteIff), and a cached object from before reconcile's
  own patch can mislead the lookup (CachedBeforePatch).
- A key vault secret and a certificate of one name, both opted in, make annotation mode patch on every
  pass (GeneratedListSettlesIff).
- The second token lookup can miss when the renewal margin is short of the gap (MarginMakesItSafe).

## Model

The first 44 rows are the main results. The others are what they rest on and the operations.

| member | source | states |
|---|---|---|
| SecretRuns.RunIsSafe | internal/controller/controller.go:1313-1425 | in every run that mixes the three steps of a pass (list the Secret, read its owner, patch), vault changes and polite outside writers: tracked keys stay present on the Secret and within the keys the vault may ask for, and a patch is accepted exactly unless a map that the pass saw and adds to was removed as a whole |
| SecretRuns.StrangersKeepTheirValue | internal/controller/controller.go:1313-1425 | a non-tracking key that the vault never asks for holds exactly what other writers last gave it, deletions during a pass included; the one exception, a patch that replaces a map created under it, is part of the statement |
| SecretRuns.TrackedWasDesired | internal/controller/controller.go:1382-1392 | a key tracked at any time of such a run was tracked at its start, desired at an earlier time, or wanted by a pass already under way at the start |
| SecretRuns.PassConverges | internal/controller/controller.go:1280-1425 | a pass during which the vault rests and other writers touch only their own keys, at any moment and as they like, ends converged, exactly unless one of them removes a whole map that the patch adds to |
| SecretRuns.ConvergedStays | internal/controller/controller.go:1341-1404 | from a converged state, while the vault rests and nobody touches desired keys or tracking annotations, every patch of every later pass is accepted and changes nothing |
| SecretRuns.DeletedKeyBlocksPatches | internal/controller/controller.go:1366-1380 | once someone deleted a tracked, undesired key, every patch of every later pass is rejected until the key is back, desired again or untracked, whatever the tracking lists hold otherwise |
| SecretSync.PassThroughPatch | internal/controller/controller.go:1341-1404 | a whole pass through the JSON Patch interpreter, for any tracking annotations and every map iteration order: the document becomes exactly the merge if every tracked, undesired key is still present and none is to be removed twice, and is rejected otherwise |
| SecretMetadata.PatchRun | internal/controller/controller.go:1508-1578 | the emitted operation list on any live document, built from any older snapshot: rejected exactly when a remove has no target or an add no parent, else equal to a closed form, nothing else in the document changed |
| SecretSync.PatchAccepted | internal/controller/controller.go:1366-1404 | the patch, built from any earlier snapshot with the same tracking annotations, whatever they say, is accepted exactly when every tracked, undesired key is still on the live Secret, none is to be removed twice, and no map that the pass saw and adds to has gone |
| SecretSync.PatchIsMerge | internal/controller/controller.go:1341-1404 | the closed form is the three-way merge, key by key, on every live Secret with the same tracking annotations and desired keys as the snapshot, exactly unless it drops another writer's entry with a map created since |
| SecretSync.StrangerSurvivesIff | internal/controller/controller.go:1533-1597 | an entry of another writer survives the request exactly when it is not there, or its map existed at the listing, or the pass puts nothing in that map, or the server rejects the patch; annotations and labels |
| SecretReconciler.TagsReachTheSecret | internal/controller/controller.go:1090-1425 | vault to Secret: the CRD pass stores its object, the watcher finds it as owner of an unlabelled Secret through cache and listing, and the operations it sends turn the Secret's document into the merge, which shows every annotation and label tag |
| SecretReconciler.TagsReachTheLabelledSecret | internal/controller/controller.go:1313-1425 | vault to Secret for a Secret with the owner label: whatever is cached, whoever else claims it and whether or not the List call fails, the operations sent make its document the merge, which shows every tag |
| CircuitBreaker.AdmissionsAreBounded | internal/circuitbreaker/circuitbreaker.go:76-154 | over any time span, for every run with at most W calls in flight, at most (maxFailures + W - 1) * (span / (resetTimeout + 1) + 1) calls get through, plus maxFailures for each success, stale or not, and maxFailures + W - 1 for each Reset |
| CircuitBreaker.BoundIsReached | internal/circuitbreaker/circuitbreaker.go:76-130 | for every span, threshold and W some run of a new breaker without success or Reset admits exactly (maxFailures + W - 1) * (span / (resetTimeout + 1) + 1) calls, so that bound cannot be improved |
| CircuitBreaker.CountIsFailuresInARow | internal/circuitbreaker/circuitbreaker.go:76-130 | in every run, in every mode, the failure count is exactly the number of failures since the last success, Reset or half-open admission |
| CircuitBreaker.OpensOnlyAfterConsecutiveFailures | internal/circuitbreaker/circuitbreaker.go:99-121 | the circuit of a new breaker opens only by a failure, and only after maxFailures failures with no success and no Reset in between |
| CircuitBreaker.OpenCircuitStaysShut | internal/circuitbreaker/circuitbreaker.go:76-130 | after a failure at time t an open circuit admits nobody at or before t + resetTimeout without Reset, whatever stale failures and successes arrive: it stays open and its failure time never falls back |
| CircuitBreaker.HalfOpenTrialsIff | internal/circuitbreaker/circuitbreaker.go:76-121 | after the first trial call of a half-open circuit at most n more are admitted before it closes or opens, exactly when n is at least maxFailures + W - 2 |
| CircuitBreaker.SingleTrialIff | internal/circuitbreaker/circuitbreaker.go:20-21 | half-open means a single call, as the comment on the states says, exactly when maxFailures is 1 and callers come one at a time |
| CircuitBreaker.NewBreakerBelowThreshold | internal/circuitbreaker/circuitbreaker.go:36-130 | in every run of a new breaker a state that is not open has fewer than maxFailures failures |
| SpcCache.IndexIsSound | internal/cache/cache.go:27-69 | after every sequence of Set and Delete each index entry names a cached, non-nil object that lists the Secret |
| SpcCache.IndexIsCompleteIff | internal/cache/cache.go:27-69 | over a whole history every claimed Secret has an index entry at all times exactly when no operation takes it from one object while another claims it too |
| SpcCache.FindIsRightIff | internal/controller/controller.go:1468-1505 | for an unlabelled Secret the lookup agrees with a scan of the cluster exactly when the index has no entry or names an object that lists the Secret there |
| SpcCache.FindRefinesScan | internal/controller/controller.go:1468-1505 | the lookup refines the scan whenever cached claims on the Secret are still the cluster's, whatever else in the cached objects is out of date: empty exactly when no object lists the Secret, else one that does |
| SpcCache.CachedBeforePatch | internal/controller/controller.go:739-778 | after reconcile cached the object from before its own patch, the lookup of a Secret it claimed is right exactly when the patched object still claims it |
| SpcGeneration.TagFidelity | internal/azure/annotations.go:44-111 | over a whole listing with distinct dot-free names, extracting for a secret gives exactly its non-nil, non-empty-key tags if it is opted in, else nothing; labels likewise |
| TagCodec.BleedIff | internal/azure/annotations.go:87-111 | one name can read another's annotations exactly when one "name." is a prefix of the other |
| CrdSync.ReconcileReachesFixedPoint | internal/controller/controller.go:1156-1230 | from any stored object, with distinct names and unchanged listing and CRD: after n >= 1 passes the stored object is in sync, it is the old one if that was in sync and the whole desired one otherwise, and the number of writes is 0 or 1 accordingly |
| CrdSync.WriteIffOutOfSync | internal/controller/controller.go:1194-1212 | an object is written exactly when it is missing or differs in objects, secretObjects (as maps) or annotations |
| CrdSync.VaultReachesDriver | internal/controller/controller.go:870-957 | after n >= 1 passes from any stored object the stored parameters have objects, and what the driver reads there is exactly the texts of the secrets that opted in and pass the filters, in listing order |
| YamlBlocks.ArrayRoundTrip | internal/controller/controller.go:922-957 | a YAML reader with detected indentation and clipped line breaks gives every element back, with its final line break, exactly when each is printable, starts flush and ends in text; multi-line elements and the empty list included |
| SecretObjects.ExactIffProper | internal/controller/controller.go:1020-1063 | compareSecretObjects is exact against every existing list if and only if the desired list repeats neither names nor data keys |
| SpcGeneration.GeneratedListSettlesIff | internal/update/update.go:212-382 | annotation mode finds its own generated list unchanged exactly when no opted-in secret and certificate share a name; otherwise every stored list counts as changed |
| VaultObjects.ChangeDetectionIsCanonical | internal/update/update.go:31-117 | between two generated and printed lists a change is reported exactly when the sets of names per type differ, in any listing order |
| VaultObjects.FormatRoundTrip | internal/update/update.go:70-98 | from the printed text a YAML reader and a reader of field lines recover every object, name, type and version each under its own label, in order, versioned objects included |
| TrackingList.ListRoundTrip | internal/controller/controller.go:1428-1465 | reading back a written list gives its keys, sorted and complete, exactly when all keys are non-empty, comma-free and trimmed |
| JsonPointer.EscapeIsPerCharacter | internal/controller/controller.go:1515-1516 | replacing "~" then "/" in two passes equals escaping each character once |
| JsonPointer.EscapeRoundTrip | internal/controller/controller.go:1548-1549 | the escaped key has no "/", is a well-formed token, and decodes to the key by section 4 of RFC 6901 |
| RetryQueue.AttemptsPerKey | internal/controller/controller.go:718-737 | without new events a key is reconciled at most maxRetries + 1 times less what it used up, and has count 0 once it left the queue |
| RetryQueue.MeasureFalls | internal/controller/controller.go:718-737 | every processed item makes the sum of attempts left over the waiting keys fall: a failure by exactly one, a success by all that its key had left |
| RetryQueue.OnlyFailuresRepeat | internal/controller/controller.go:718-737 | without new events a key is reconciled at most once more than it fails |
| TokenCache.SecondLookupIsSafeIff | internal/azure/azure.go:72-80 | over all interleavings of other callers and cleanup, the second lookup can never miss exactly when the first entry outlives the read, and then what is read is unexpired |
| TokenCache.MarginMakesItSafe | internal/azure/azure.go:62-140 | check-then-read is safe for every caller and interleaving exactly when the renewal margin is at least the gap less one tick |
| SecretRuns.QuietPassConverges | internal/controller/controller.go:1313-1425 | from any reachable state the three steps in a row end in the intended merge, the tracking lists then name exactly the desired keys, and the Secret is converged |
| SecretRuns.PatchStep | internal/controller/controller.go:1508-1597 | one patch step of a run, built from an older listing: accepted exactly when every operation finds its target, and then the closed form of the two maps |
| SecretRuns.UnmanagedSecretStarts | internal/controller/controller.go:1428-1434 | a Secret without tracking annotations satisfies the invariant, so runs can start there |
| SecretSync.PassIsIdempotent | internal/controller/controller.go:1341-1404 | after a merge the next pass changes neither map, removes nothing and adds at most the tracking annotations |
| SecretSync.SilentPass | internal/controller/controller.go:1406-1409 | no patch is sent exactly when nothing is desired and no tracking annotation exists: "no patch when nothing changed" is false while anything is managed |
| SecretSync.MergeTracksDesired | internal/controller/controller.go:1382-1392 | after a merge the stored lists parse to the desired keys, sorted and without repetition |
| SecretSync.MergeIsTidy | internal/controller/controller.go:1382-1392 | so lists the controller wrote repeat no key and never name a tracking annotation |
| SecretSync.StaleSnapshotLosesAnnotation | internal/controller/controller.go:1296-1299 | any annotation added between listing and patch to a listed Secret without annotations is lost; the watcher asks a Secret for a label only |
| SecretSync.ShownIsSettled | internal/controller/controller.go:1341-1404 | a Secret that shows the desired values and lists is left alone, also by a patch built from an older listing that showed them |
| SecretSync.TidyRemovesOnce | internal/controller/controller.go:1366-1392 | no key is removed twice when the lists are as the controller writes them |
| SecretMetadata.DocumentSpelledOut | internal/controller/controller.go:1533-1556 | annotations and labels are objects of strings under their names in metadata; a nil map has no member |
| SecretMetadata.PathsSpelledOut | internal/controller/controller.go:1512-1556 | the paths of entries and maps |
| SecretReconciler.SecondPassCleansUp | internal/controller/controller.go:1366-1380 | two passes leave an entry as it was before the first exactly when the second wants the value it had, or, if the second does not want the key, it was not there or nobody managed it |
| SecretReconciler.PassCarriesTags | internal/controller/controller.go:881-909 | whatever object was stored, after one CRD pass the watcher extracts for a vault secret exactly what its tags ask for |
| SecretReconciler.ReconcileSecretAnnotations | internal/controller/controller.go:1313-1425 | the method's outcome in every case: lookup error, no owner, missing owner, nothing to do, or the patch of the plan |
| SecretReconciler.SyncMetadata | internal/controller/controller.go:1341-1425 | compare half: no request exactly for an empty plan, else the operation list of the plan for some iteration orders |
| SecretReconciler.FillPlan | internal/controller/controller.go:1345-1404 | the add maps and remove lists its loops fill equal the plan |
| SecretReconciler.PatchSecretMetadata | internal/controller/controller.go:1508-1578 | the operation list for some iteration order of each map: removes, then a map creation where the map was nil, then adds |
| SecretReconciler.PassClaims | internal/controller/controller.go:870-879 | after a CRD pass the stored object lists a Secret exactly when a vault secret of that name passes the filters and is tagged secret-object |
| SecretReconciler.UpToDateIff | internal/controller/controller.go:1406-1409 | a pass that found its owner sends no request exactly when nothing is desired and no tracking annotation exists, and otherwise sends the plan |
| SecretReconciler.SentOnlyForOwner | internal/controller/controller.go:1320-1340 | a request goes out only for an owner that was found and that the cluster has |
| TrackingList.ReadKeysAreClean | internal/controller/controller.go:1438-1446 | whatever the annotation holds, only non-empty, comma-free, trimmed keys are read from it |
| TrackingList.GetPreviouslyManagedMetadata | internal/controller/controller.go:1428-1448 | the split-and-trim loop returns the tracked keys; nil map, missing and empty annotation give none |
| TrackingList.BuildManagedMetadataList | internal/controller/controller.go:1451-1465 | whatever the iteration order, the text is the sorted keys joined with commas |
| JsonPointer.EscapeIsInjective | internal/update/update.go:148-153 | different keys have different tokens |
| JsonPointer.EntryPointer | internal/controller/controller.go:1518-1521 | the path of an entry parses to exactly the tokens metadata, section and the unescaped key |
| JsonPointer.EscapesByName | internal/controller/controller.go:1515-1516 | ~ is written ~0, / is written ~1, nothing else changes |
| JsonPointer.UnescapesByName | internal/controller/controller.go:1515-1516 | the reader of section 4 of RFC 6901 turns ~1 into / and ~0 into ~ |
| CircuitBreaker.FailureOpensUntil | internal/circuitbreaker/circuitbreaker.go:76-116 | a failure at time t that leaves the circuit open starts such a period: no interleaving admits a call at or before t + resetTimeout without Reset |
| CircuitBreaker.ClosedBelowThreshold | internal/circuitbreaker/circuitbreaker.go:99-130 | the invariant that a state which is not open has fewer than maxFailures failures is kept by every enabled event |
| CircuitBreaker.AdmissionsInOnePeriod | internal/circuitbreaker/circuitbreaker.go:76-130 | without a success or Reset, one period that is not open admits at most maxFailures + W - 1 calls with W in flight, less those counted already |
| CircuitBreaker.BrokenServiceIsSpared | internal/circuitbreaker/circuitbreaker.go:76-130 | a service that never succeeds receives at most (maxFailures + W - 1) * (span / (resetTimeout + 1) + 1) calls |
| CircuitBreaker.SequentialCallsToBrokenService | internal/circuitbreaker/circuitbreaker.go:63-72 | for sequential callers at most maxFailures * (span / (resetTimeout + 1) + 1) |
| CircuitBreaker.HalfOpenAdmitsEveryone | internal/circuitbreaker/circuitbreaker.go:76-82 | half-open admits any number of callers, against the comment on the states |
| CircuitBreaker.FailuresThatOpen | internal/circuitbreaker/circuitbreaker.go:103-121 | n failures open a closed or half-open circuit exactly when the count reaches maxFailures: one failed trial is not enough |
| CircuitBreaker.ResetStartsAfresh | internal/circuitbreaker/circuitbreaker.go:148-154 | after Reset calls pass at once and the full number of failures is needed to open again |
| CircuitBreaker.StaleSuccess | internal/circuitbreaker/circuitbreaker.go:124-129 | a success in a closed or half-open circuit wipes out the failures counted: n more failures then open the circuit exactly from n = maxFailures, where without it the missing ones would do |
| CircuitBreaker.CircuitBreaker.Before | internal/circuitbreaker/circuitbreaker.go:76-96 | admission and the new state, with the remaining time in a rejection |
| CircuitBreaker.CircuitBreaker.After | internal/circuitbreaker/circuitbreaker.go:99-130 | the whole new state after a failure and after a success |
| CircuitBreaker.CircuitBreaker.Call | internal/circuitbreaker/circuitbreaker.go:63-72 | a rejected call changes nothing and fails; an admitted one returns the outcome of fn and records it |
| CircuitBreaker.CircuitBreaker.Reset | internal/circuitbreaker/circuitbreaker.go:148-154 | closed with no failures; the failure time is kept |
| CircuitBreaker.ModeChanges | internal/circuitbreaker/circuitbreaker.go:76-154 | the whole transition table: which event leads from which mode to which |
| SpcCache.IndexIsCompleteWhenUncontested | internal/cache/cache.go:27-69 | for a Secret claimed by at most one cached object in every state, the entry is exactly the claimant's name |
| SpcCache.ContestedClaimIsLost | internal/cache/cache.go:53-60 | with two claimants, deleting the later one leaves the other without an entry |
| SpcCache.CacheKeyInjective | internal/cache/cache.go:10-12 | keys of slash-free namespaces do not collide |
| SpcCache.FindSpc | internal/controller/controller.go:1468-1505 | owner label first, then index, then the listing in order; a failed listing is an error |
| SpcCache.SecretProviderClassCache.Set | internal/cache/cache.go:27-51 | objects and index after storing: old claims dropped, new ones entered |
| SpcCache.SecretProviderClassCache.Delete | internal/cache/cache.go:53-69 | objects and index after deleting |
| SpcCache.OpKeepsIndexedIff | internal/cache/cache.go:27-69 | one Set or Delete keeps every claim on a Secret indexed exactly when it does not take the Secret from one object while another claims it too |
| SpcCache.IndexAnswersClaimant | internal/cache/cache.go:90-95 | on every reachable cache state the index lookup answers the empty string or a cached object that lists the Secret |
| SpcCache.CachedIffLastWasSet | internal/cache/cache.go:27-76 | what Has answers after any history: whether the last operation on that object was a Set, of a nil object too |
| SpcCache.LabelDecides | internal/controller/controller.go:1469-1474 | the owner of a labelled Secret is the label's value, whatever is cached and listed, and even if the List call fails |
| SpcCache.FindFailsIff | internal/controller/controller.go:1483-1494 | the lookup fails exactly when an unlabelled Secret without an index entry meets a failing List call |
| SpcCache.ScanFindsFirst | internal/controller/controller.go:1496-1504 | the linear scan answers the first listed object that has the Secret among its secretObjects, and nothing when there is none |
| TagCodec.TransformTagsToSPCAnnotations | internal/azure/annotations.go:44-72 | the loop's map, for every iteration order |
| TagCodec.ExtractAnnotationsForSecret | internal/azure/annotations.go:87-111 | exactly the entries under the secret's own prefix, with the prefix taken off |
| TagCodec.TransformTagsToSPCLabels | internal/azure/annotations.go:130-173 | one entry with the encoded labels, none when there are no labels |
| TagCodec.CarriedAnnotation | internal/azure/annotations.go:44-72 | the SPC annotation that carries a tag, with the secret's name and a dot between prefix and key |
| TagCodec.CarriedLabels | internal/azure/annotations.go:130-173 | one SPC annotation carries all labels, exactly when there is one, and decodes to them |
| TagCodec.ReadLabelsSpelledOut | internal/azure/annotations.go:188-206 | labels are the decoded text under the secret's own key, and none if it is missing, empty or malformed |
| SpcGeneration.NoBleed | internal/azure/annotations.go:87-111 | a dot-free name outside the listing receives nothing |
| SpcGeneration.CollectAnnotations | internal/controller/controller.go:885-901 | the merged annotations of all opted-in secrets |
| SpcGeneration.GenerateSecretProviderClass | internal/controller/controller.go:781-912 | the whole generated object |
| SpcGeneration.GeneratedIsValid | internal/controller/controller.go:961-1017 | the driver reads the marshalled elements from a generated object exactly when they are readable, and then the object passes validation, also for no secrets |
| SpcGeneration.DesiredObjects | internal/controller/controller.go:870-879 | its secretObjects are exactly the items tagged secret-object, without repeated names or keys |
| SpcGeneration.StatusCountsObjects | internal/controller/controller.go:1234-1245 | the secretObjects count in the status is the number of generated secretObjects |
| SpcGeneration.GenerateSecretObjectsFromVault | internal/update/update.go:324-382 | the filtered, sorted list its loops build |
| SpcGeneration.GeneratedObjectsAreProper | internal/update/update.go:324-382 | one object for each opted-in secret or certificate and no other; names and keys distinct when no opted-in pair shares a name |
| SpcGeneration.GeneratedObjectsAreCanonical | internal/update/update.go:372-375 | the list does not depend on listing order |
| SpcGeneration.GeneratedObjectsSpelledOut | internal/update/update.go:324-369 | an Opaque object with the secret under its own name for every secret tagged secret-object=true, a TLS object with key and certificate for every certificate tagged cert-object=true, nothing else |
| SpcGeneration.GeneratedObjectsAreSorted | internal/update/update.go:372-375 | the generated secretObjects come in Go's order of names |
| SpcGeneration.DesiredSpelledOut | internal/controller/controller.go:825-850 | provider, exactly the four parameters each with its own field of the custom resource, and the owner reference |
| SpcGeneration.TagFidelityByTag | internal/azure/annotations.go:44-173 | tag fidelity key by key: the watcher extracts the value of the secret's own k8s-annotation and k8s-label tags, nil ones not, when it is opted in by a true tag |
| SpcGeneration.GeneratedIsValidIff | internal/controller/controller.go:961-1017 | a generated object passes validation exactly when its objects text can be read as a list of strings |
| CrdSync.ParametersAloneAreNotWritten | internal/controller/controller.go:1195-1203 | a change of the vault name alone is not written although the parameters differ |
| CrdSync.OnlyCallsFail | internal/controller/controller.go:1159-1162 | when the marshalled elements are readable, only failing calls stop a pass, never validation |
| CrdSync.ReconcileAzureKeyVaultSync | internal/controller/controller.go:1090-1267 | stored objects, number of writes, status and result of a pass, for every combination of failing calls |
| CrdSync.CreateOrUpdate | internal/controller/controller.go:1164-1230 | created when missing, updated exactly when a compared part changed, untouched when the write fails |
| CrdSync.FilterSecretsByTags | internal/azure/vault.go:224-245 | the filtered listing; no filters keep everything |
| CrdSync.PassStoresAll | internal/controller/controller.go:1212-1230 | a write stores the whole desired object, owner and parameters included; without a write everything stays |
| CrdSync.PassFailsIff | internal/controller/controller.go:1156-1230 | a pass fails exactly when the driver could not read the objects text it would store, or the stored object cannot be read, or a write is needed and fails |
| SecretObjects.ComparisonIsExact | internal/controller/controller.go:1020-1063 | with distinct desired names and keys, compareSecretObjects says equal exactly when the lists agree as maps on name, type and data |
| SecretObjects.RepeatedNamesHideStaleEntry | internal/controller/controller.go:1020-1063 | how it errs otherwise: a repeated desired name, which CRD mode never produces, hides a stale entry |
| SecretObjects.CompareExistingWithDesired | internal/controller/controller.go:1020-1063 | the loops with early return decide that test |
| SecretObjects.CompareAnnotations | internal/controller/controller.go:1067-1082 | true exactly when the maps are equal, nil counting as empty |
| SecretObjects.GeneratedComparisonIsExact | internal/update/update.go:212-279 | against generated objects CompareSecretObjects is exact too; a non-nil labels map counts as a difference even when empty |
| SecretObjects.CompareWithGenerated | internal/update/update.go:212-242 | the loop with early return decides that test |
| SecretObjects.LabelTestIsExactIff | internal/update/update.go:245-262 | the label test, which reads a missing label as the empty text, is exact against all labels if and only if no label is empty |
| YamlBlocks.MarshalledRoundTrip | internal/controller/controller.go:936-957 | in terms of the marshalled texts, which end in a line break: the reader gives exactly those texts under that condition and no other |
| YamlBlocks.MisindentedIsRefused | internal/controller/controller.go:988-993 | an element whose first line is indented further than its second makes the whole text invalid |
| YamlBlocks.UsualElementIsReadable | internal/controller/controller.go:804-809 | the element marshalled for a plain name meets the condition |
| ObjectsYaml.ArrayTextIsInjective | internal/controller/controller.go:922-957 | equal texts come from equal element lists, readable or not |
| ObjectsYaml.BuildObjectsArrayString | internal/controller/controller.go:922-957 | the builder loops write that layout of the marshalled elements without their trailing newline |
| VaultObjects.GenerateObjectsFromVault | internal/update/update.go:31-61 | the append loops and the sort |
| VaultObjects.FormatObjectsYAML | internal/update/update.go:70-98 | the printed text, empty for no objects |
| VaultObjects.GeneratedIsSorted | internal/update/update.go:31-61 | the generated list holds every secret's name with type secret and every certificate's with type cert, nothing else and no versions, in Go's order of names |
| VaultObjects.SurroundingSpaceIsNoChange | internal/update/update.go:109-117 | white space around either text is not a change |
| GoStrings.LeqIsLexicographic | internal/update/update.go:372-375 | the order of the sorts is lexicographic |
| RetryQueue.WorkIsBounded | internal/controller/controller.go:700-737 | a run without new events processes at most that sum, at most (maxRetries + 1) per waiting key |
| RetryQueue.DroppedAfterLastRetry | internal/controller/controller.go:725-736 | a key that always fails is tried exactly maxRetries + 1 times and dropped with a clean count |
| RetryQueue.HandleReconcileResult | internal/controller/controller.go:718-737 | queue and counts after a success, a retry and a drop |
| RetryQueue.ProcessNextItem | internal/controller/controller.go:700-715 | queue and counts after one item |
| RetryQueue.KeyRoundTrip | internal/controller/controller.go:49-60 | parseKey undoes keyFor exactly when the namespace has no slash |
| RetryQueue.SuccessSettles | internal/controller/controller.go:719-722 | after a success the key is not queued, its count is 0, and no other key is touched |
| RetryQueue.ParseKeyIff | internal/controller/controller.go:52-60 | parseKey accepts exactly namespace + slash + name cut at the first slash, and fails exactly without a slash |
| TokenCache.MarginCoversGap | internal/azure/azure.go:130-139 | the margin covers the gap exactly when the token's lifetime is at least five times the gap |
| TokenCache.ShortLivedTokenVanishes | internal/azure/azure.go:72-76 | a concrete short-lived token that vanishes between check and read |
| TokenCache.AzureTokenCache.IsTokenValid | internal/azure/azure.go:111-140 | valid exactly when cached, not expired and with more than the renewal margin left |
| TokenCache.AzureTokenCache.GetToken | internal/azure/azure.go:62-108 | a single caller gets the cached token if valid, else the exchanged one, which is stored; a failed exchange changes nothing |
| TokenCache.AzureTokenCache.CleanupExpired | internal/azure/azure.go:181-200 | exactly the expired entries are deleted |
| TokenCache.ValidWhileFifthIsLeft | internal/azure/azure.go:111-140 | a token is used exactly while more than a fifth of its lifetime is left, at every moment |
| TokenCache.TokenKeyInjective | internal/azure/azure.go:70-70 | different service accounts never share a cache entry |
| TokenCache.StoreIsPrivate | internal/azure/azure.go:100-108 | storing a token leaves every other account's token as it is |

## Left out

- Clients of Kubernetes, Azure AD and Key Vault, the pager, HTTP handlers, watch loops, tickers, logging and configuration: plumbing over libraries.
- JSON values other than objects and strings, and the other RFC 6902 operations: the Secret patch uses none.
- PatchSecretProviderClass and the rest of annotation mode (reconcileResource): it skips changes of annotations alone and never removes stale ones, so convergence does not hold there; its generator, printer and comparators are modelled.
- The API server's own validation of metadata keys, its conflict detection and its omission of empty maps: an empty map that the server drops is one of the other writers' steps in a run.
- The text form of labels and of one marshalled object (json and yaml libraries).
- YAML beyond this layout: the reader of YamlBlocks knows one key, plain "|" headers, comments and blank lines, refuses everything else, and treats a carriage return as an error where YAML reads a line break; the library's extra complaint about a tab after the indentation is not modelled.
- The work queue's delays and its dirty and processing sets: a key waiting for its retry counts as queued.
- Mutexes: every critical section is one atomic step. Pointers to SPC objects are values, so aliasing of a cached object is not captured.
- Overflow of durations and float rounding of the renewal margin.
- MatchesTags, HealthChecker, validators of vault and tenant names, the Kubernetes token cache: they would only add easy members.
- The meaning of SecretCount in the status: it counts filtered secrets before the opt-in test, and no promise is attached to it.
