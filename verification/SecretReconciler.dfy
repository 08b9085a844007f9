/** The Secret watcher's methods, and the whole way of a tag from the vault to a Secret. */
module SecretReconciler {
  import opened GoStrings
  import opened JsonPatch
  import opened SecretMetadata
  import opened TrackingList
  import opened SecretSync
  import opened TagCodec
  import opened Spc
  import opened SpcCache
  import Generation = SpcGeneration
  import CrdSync
  import SecretObjects

  // ----- patchSecretMetadata

  lemma {:induction false} RemoveOpsAppend(section: Section, keys: seq<string>, key: string)
    ensures RemoveOps(section, keys + [key]) == RemoveOps(section, keys) + [Remove(EntryPath(section, key))]
  {
    if keys == [] {
      assert keys + [key] == [key];
    } else {
      assert (keys + [key])[1..] == keys[1..] + [key];
      RemoveOpsAppend(section, keys[1..], key);
    }
  }

  lemma {:induction false} AddOpsAppend(section: Section, order: seq<string>, key: string, add: StringMap)
    requires key in add && forall k <- order :: k in add
    ensures AddOps(section, order + [key], add) ==
            AddOps(section, order, add) + [Add(EntryPath(section, key), Text(add[key]))]
  {
    if order == [] {
      assert order + [key] == [key];
    } else {
      assert (order + [key])[1..] == order[1..] + [key];
      AddOpsAppend(section, order[1..], key, add);
    }
  }

  /** The removal loop over one list. */
  method AppendRemovals(ops: seq<Op>, section: Section, keys: seq<string>) returns (r: seq<Op>)
    ensures r == ops + RemoveOps(section, keys)
  {
    r := ops;
    assert keys[..0] == [];
    for i := 0 to |keys|
      invariant r == ops + RemoveOps(section, keys[..i])
    {
      assert keys[..i + 1] == keys[..i] + [keys[i]];
      RemoveOpsAppend(section, keys[..i], keys[i]);
      r := r + [Remove(EntryPath(section, keys[i]))];
    }
    assert keys[..|keys|] == keys;
  }

  /** The loop over one map of additions. */
  method AppendAdds(ops: seq<Op>, section: Section, add: StringMap) returns (r: seq<Op>)
    ensures exists order :: IterationOf(order, add) && r == ops + AddOps(section, order, add)
  {
    r := ops;
    ghost var order := [];
    var pending := add.Keys;
    while pending != {}
      invariant pending <= add.Keys
      invariant DistinctBy(order, Id)
      invariant forall k :: k in order <==> k in add.Keys - pending
      invariant r == ops + AddOps(section, order, add)
    {
      var key :| key in pending;
      AppendDistinct(order, key);
      AddOpsAppend(section, order, key, add);
      order := order + [key];
      r := r + [Add(EntryPath(section, key), Text(add[key]))];
      pending := pending - {key};
    }
    assert IterationOf(order, add);
  }

  /** Creating the map when it is nil, then that loop. */
  method AppendAdditions(ops: seq<Op>, secret: Secret, section: Section, add: StringMap) returns (r: seq<Op>)
    ensures exists order :: IterationOf(order, add) && r == ops + SectionAddOps(secret, section, add, order)
  {
    var needed := |add| > 0 && Get(secret, section).None?;
    assert needed <==> add != map[] && Get(secret, section).None?;
    if needed {
      var start := ops + [Add(MapPath(section), Object(map[]))];
      r := AppendAdds(start, section, add);
      ghost var order :| IterationOf(order, add) && r == start + AddOps(section, order, add);
      Associate(ops, [Add(MapPath(section), Object(map[]))], AddOps(section, order, add));
    } else {
      r := AppendAdds(ops, section, add);
      ghost var order :| IterationOf(order, add) && r == ops + AddOps(section, order, add);
      Associate(ops, [], AddOps(section, order, add));
    }
  }

  lemma Associate(a: seq<Op>, b: seq<Op>, c: seq<Op>)
    ensures a + b + c == a + (b + c)
    ensures b == [] ==> a + b == a
  {}

  /** patchSecretMetadata: the operation list it sends. */
  method PatchSecretMetadata(secret: Secret, c: Changes) returns (ops: seq<Op>)
    ensures IsPatchOf(ops, secret, c)
  {
    ops := AppendRemovals([], Annotations, c.annotationsToRemove);
    ghost var r1 := RemoveOps(Annotations, c.annotationsToRemove);
    ghost var r2 := RemoveOps(Labels, c.labelsToRemove);
    assert ops == r1;
    ops := AppendRemovals(ops, Labels, c.labelsToRemove);
    ops := AppendAdditions(ops, secret, Annotations, c.annotationsToAdd);
    ghost var annotationOrder :| IterationOf(annotationOrder, c.annotationsToAdd) &&
      ops == r1 + r2 + SectionAddOps(secret, Annotations, c.annotationsToAdd, annotationOrder);
    ghost var a1 := SectionAddOps(secret, Annotations, c.annotationsToAdd, annotationOrder);
    ops := AppendAdditions(ops, secret, Labels, c.labelsToAdd);
    ghost var labelOrder :| IterationOf(labelOrder, c.labelsToAdd) &&
      ops == r1 + r2 + a1 + SectionAddOps(secret, Labels, c.labelsToAdd, labelOrder);
    assert ops == PatchOps(secret, c, annotationOrder, labelOrder);
  }

  // ----- reconcileSecretAnnotations

  method FindStale(desired: StringMap, current: Option<StringMap>) returns (add: StringMap)
    ensures add == Stale(desired, current)
  {
    add := map[];
    var pending := desired.Keys;
    while pending != {}
      invariant pending <= desired.Keys
      invariant add == map k | k in Stale(desired, current) && k !in pending :: desired[k]
    {
      var key :| key in pending;
      pending := pending - {key};
      if current.None? || key !in current.value || current.value[key] != desired[key] {
        add := add[key := desired[key]];
      }
    }
  }

  lemma {:induction false} UnwantedAppend(keys: seq<string>, key: string, desired: StringMap)
    ensures Unwanted(keys + [key], desired) == Unwanted(keys, desired) + if key in desired then [] else [key]
  {
    if keys == [] {
      assert keys + [key] == [key];
    } else {
      assert (keys + [key])[1..] == keys[1..] + [key];
      UnwantedAppend(keys[1..], key, desired);
    }
  }

  method FindUnwanted(keys: seq<string>, desired: StringMap) returns (remove: seq<string>)
    ensures remove == Unwanted(keys, desired)
  {
    remove := [];
    assert keys[..0] == [];
    for i := 0 to |keys|
      invariant remove == Unwanted(keys[..i], desired)
    {
      assert keys[..i + 1] == keys[..i] + [keys[i]];
      UnwantedAppend(keys[..i], keys[i], desired);
      if keys[i] !in desired {
        remove := remove + [keys[i]];
      }
    }
    assert keys[..|keys|] == keys;
  }

  /** Everything reconcileSecretAnnotations computes before it compares. */
  method ReadLists(secret: Secret, d: Desired) returns (l: Lists)
    ensures l == ListsOf(secret, d)
  {
    var trackedAnnotations := GetPreviouslyManagedMetadata(secret.annotations, MANAGED_ANNOTATIONS);
    var trackedLabels := GetPreviouslyManagedMetadata(secret.annotations, MANAGED_LABELS);
    var annotationText := BuildManagedMetadataList(d.annotations);
    var labelText := BuildManagedMetadataList(d.labels);
    l := Lists(trackedAnnotations, trackedLabels, annotationText, labelText);
  }

  method AddTracking(add: StringMap, l: Lists, section: Section) returns (r: StringMap)
    ensures r == add + TrackingEntry(l, section)
  {
    if TextIn(l, section) != "" {
      return add[TrackingKey(section) := TextIn(l, section)];
    }
    return add;
  }

  method RemoveTracking(remove: seq<string>, secret: Secret, l: Lists, section: Section) returns (r: seq<string>)
    ensures r == remove + ObsoleteTracking(secret, l, section)
  {
    if TextIn(l, section) == "" && secret.annotations.Some? && TrackingKey(section) in secret.annotations.value {
      return remove + [TrackingKey(section)];
    }
    return remove;
  }

  method FillPlan(secret: Secret, d: Desired, l: Lists) returns (c: Changes)
    ensures c == PlanFor(secret, d, l)
  {
    var annotationsToAdd := FindStale(d.annotations, secret.annotations);
    var labelsToAdd := FindStale(d.labels, secret.labels);
    var annotationsToRemove := FindUnwanted(l.trackedAnnotations, d.annotations);
    var labelsToRemove := FindUnwanted(l.trackedLabels, d.labels);
    annotationsToAdd := AddTracking(annotationsToAdd, l, Annotations);
    annotationsToAdd := AddTracking(annotationsToAdd, l, Labels);
    annotationsToRemove := RemoveTracking(annotationsToRemove, secret, l, Annotations);
    annotationsToRemove := RemoveTracking(annotationsToRemove, secret, l, Labels);
    c := Changes(annotationsToAdd, labelsToAdd, annotationsToRemove, labelsToRemove);
  }

  function DesiredOf(codec: LabelCodec, spc: SecretProviderClass, name: string): Desired {
    var entries := Entries(spc.annotations);
    SecretSync.Desired(ExtractedAnnotations(entries, name), ExtractedLabels(codec, entries, name))
  }

  datatype Outcome = NoOwner | UpToDate | Sent(ops: seq<Op>) | Failed

  /** The outcome of a pass up to the patch request. */
  ghost predicate IsOutcome(r: Outcome, secret: Secret, d: Desired) {
    if IsEmptyPlan(Plan(secret, d)) then r == UpToDate else r.Sent? && IsEmittedPatch(r.ops, secret, d)
  }

  /** The compare-and-patch half of reconcileSecretAnnotations. */
  method SyncMetadata(secret: Secret, d: Desired) returns (r: Outcome)
    ensures IsOutcome(r, secret, d)
  {
    var l := ReadLists(secret, d);
    var c := FillPlan(secret, d, l);
    if |c.annotationsToAdd| == 0 && |c.labelsToAdd| == 0 && |c.annotationsToRemove| == 0 && |c.labelsToRemove| == 0 {
      assert c.annotationsToAdd == map[] && c.labelsToAdd == map[];
      return UpToDate;
    }
    var ops := PatchSecretMetadata(secret, c);
    return Sent(ops);
  }

  /** The outcome of reconcileSecretAnnotations. cluster is what a Get of a
      SecretProviderClass reads, listed what a List answers. */
  ghost predicate IsWatcherOutcome(
    r: Outcome, cached: CacheState, cluster: Cluster, codec: LabelCodec,
    namespace: string, name: string, secret: Secret, listed: Result<seq<Item>>, getFails: bool)
  {
    match FindFor(cached, secret.labels, namespace, name, listed)
    case Failed => r == Outcome.Failed
    case Ok(owner) =>
      if owner == "" then r == NoOwner
      else if getFails || (namespace, owner) !in cluster then r == Outcome.Failed
      else IsOutcome(r, secret, DesiredOf(codec, cluster[(namespace, owner)], name))
  }

  /** reconcileSecretAnnotations */
  method ReconcileSecretAnnotations(
    cache: SecretProviderClassCache, cluster: Cluster, codec: LabelCodec,
    namespace: string, name: string, secret: Secret,
    listed: Result<seq<Item>>, getFails: bool)
    returns (r: Outcome)
    ensures IsWatcherOutcome(r, cache.State(), cluster, codec, namespace, name, secret, listed, getFails)
  {
    var found := FindSpc(cache, secret.labels, namespace, name, listed);
    if found.Failed? {
      return Outcome.Failed;
    }
    if found.value == "" {
      return NoOwner;
    }
    var key := (namespace, found.value);
    if getFails || key !in cluster {
      return Outcome.Failed;
    }
    var spc := cluster[key];
    var desiredAnnotations := ExtractAnnotationsForSecret(Entries(spc.annotations), name);
    var desiredLabels := ExtractedLabels(codec, Entries(spc.annotations), name);
    r := SyncMetadata(secret, SecretSync.Desired(desiredAnnotations, desiredLabels));
  }

  // ----- From the vault to the Secret

  /** What the vault's tags ask for a Secret named like the vault secret s. */
  function VaultDesire(s: Generation.VaultItem): Desired {
    if Generation.ShouldSync(s.tags) then SecretSync.Desired(TagAnnotations(s.tags), TagLabels(s.tags))
    else SecretSync.Desired(map[], map[])
  }

  lemma EntriesOfCollected(m: StringMap)
    ensures Entries(if m == map[] then None else Some(m)) == m
  {}

  /** Whatever was stored before, after one CRD pass the watcher reads from the
      SecretProviderClass exactly what the tags of the vault secret ask for. */
  lemma PassCarriesTags(
    existing: Option<SecretProviderClass>, spec: Generation.SyncSpec, marshal: Generation.Marshal, codec: LabelCodec,
    listing: seq<Generation.VaultItem>, s: Generation.VaultItem)
    requires Lossless(codec) && Generation.DotFreeNames(listing) && DistinctBy(Generation.ItemNames(listing), Id)
    requires s in listing && CrdSync.MatchesAllFilters(s.tags, spec.filters)
    ensures var stored := CrdSync.AfterPass(existing, CrdSync.DesiredFor(spec, marshal, codec, listing));
            DesiredOf(codec, stored, s.name) == VaultDesire(s)
  {
    var secrets := CrdSync.Filtered(listing, spec.filters);
    CrdSync.FilteredIsSublist(listing, spec.filters);
    Generation.TagFidelity(codec, secrets, s);
    EntriesOfCollected(Generation.Collected(codec, secrets));
  }

  /** After a CRD pass the stored object lists a Secret exactly when a vault secret of that
      name passes the filters and is tagged secret-object. */
  lemma PassClaims(
    existing: Option<SecretProviderClass>, spec: Generation.SyncSpec, marshal: Generation.Marshal, codec: LabelCodec,
    listing: seq<Generation.VaultItem>, name: string)
    requires DistinctBy(Generation.ItemNames(listing), Id)
    ensures Claims(CrdSync.AfterPass(existing, CrdSync.DesiredFor(spec, marshal, codec, listing)), name) <==>
            exists s <- listing ::
              CrdSync.MatchesAllFilters(s.tags, spec.filters) && Generation.HasTag(s.tags, "secret-object") &&
              s.name == name
  {
    var secrets := CrdSync.Filtered(listing, spec.filters);
    var desired := CrdSync.DesiredFor(spec, marshal, codec, listing);
    var stored := CrdSync.AfterPass(existing, desired);
    CrdSync.FilteredIsSublist(listing, spec.filters);
    Generation.DesiredObjects(spec, marshal, codec, secrets);
    CrdSync.OnePassSyncs(existing, desired);
    ClaimsByName(stored, name);
    ClaimsByName(desired, name);
    if Claims(desired, name) {
      var o :| o in desired.secretObjects && o.secretName == name;
      var s :| s in secrets && Generation.HasTag(s.tags, "secret-object") && o == Generation.Opaque(s.name);
      assert s in listing;
    }
    if s :| s in listing && CrdSync.MatchesAllFilters(s.tags, spec.filters) &&
            Generation.HasTag(s.tags, "secret-object") && s.name == name {
      assert s in secrets;
      assert Generation.Opaque(s.name) in desired.secretObjects;
    }
  }

  lemma ClaimsByName(spc: SecretProviderClass, name: string)
    ensures Claims(spc, name) <==> name in SecretObjects.ObjectMap(spc.secretObjects)
  {
    var names := SecretObjects.Names(spc.secretObjects);
    if o :| o in spc.secretObjects && o.secretName == name {
      SecretObjects.NameListed(spc.secretObjects, o);
    }
    if name in SecretObjects.ObjectMap(spc.secretObjects) {
      var i :| 0 <= i < |names| && names[i] == name;
      assert spc.secretObjects[i] in spc.secretObjects;
    }
  }

  /** Cached claims on the Secret are the cluster's, and one object has it to itself. */
  ghost predicate HasSoleOwner(cached: CacheState, cluster: Cluster, namespace: string, owner: string, name: string) {
    (forall other :: HasClaim(cached, namespace, other, name) ==> Claimant(cluster, namespace, other, name)) &&
    forall other :: Claimant(cluster, namespace, other, name) ==> other == owner
  }

  lemma SoleOwnerIsFound(ops: seq<CacheOp>, cluster: Cluster, namespace: string, owner: string, secret: Secret,
      name: string, items: seq<Item>)
    requires SlashlessOps(ops) && Slashless(namespace) && Lookup(secret.labels, OWNER_LABEL).None?
    requires IsListing(cluster, namespace, items) && forall key <- cluster :: key.1 != ""
    requires HasSoleOwner(AfterOps(ops), cluster, namespace, owner, name) && Claimant(cluster, namespace, owner, name)
    ensures FindFor(AfterOps(ops), secret.labels, namespace, name, Ok(items)) == Ok(owner)
  {
    FindRefinesScan(ops, cluster, namespace, secret.labels, name, items);
  }

  /** The Secret shows every annotation and label tag. */
  ghost predicate TagsShown(s: Generation.VaultItem, secret: Secret) {
    (forall k <- TagAnnotations(s.tags) :: Lookup(secret.annotations, k) == Some(TagAnnotations(s.tags)[k])) &&
    forall k <- TagLabels(s.tags) :: Lookup(secret.labels, k) == Some(TagLabels(s.tags)[k])
  }

  lemma MergeShowsTags(before: Secret, s: Generation.VaultItem, after: Secret)
    requires Generation.ShouldSync(s.tags) && IsMerge(before, VaultDesire(s), after)
    ensures TagsShown(s, after)
  {
    var d := VaultDesire(s);
    forall k | k in d.annotations
      ensures Lookup(after.annotations, k) == Some(d.annotations[k])
    {
      assert Lookup(after.annotations, k) == ExpectedAnnotation(before, d, ListsOf(before, d), k);
    }
    forall k | k in d.labels
      ensures Lookup(after.labels, k) == Some(d.labels[k])
    {
      assert Lookup(after.labels, k) == ExpectedLabel(before, d, ListsOf(before, d), k);
    }
  }

  /** What a watcher's outcome does to the stored Secret. */
  ghost predicate Results(r: Outcome, before: Secret, after: Secret, rest: Rest) {
    match r
    case Sent(ops) => Apply(Document(before, rest), ops) == Some(Document(after, rest))
    case UpToDate => after == before
    case NoOwner => false
    case Failed => false
  }

  lemma OutcomeMerges(r: Outcome, before: Secret, d: Desired, rest: Rest) returns (after: Secret)
    requires IsOutcome(r, before, d)
    requires Mergeable(before, d)
    ensures Results(r, before, after, rest) && IsMerge(before, d, after)
  {
    after := Patched(before, before, Plan(before, d));
    PatchIsMerge(before, before, d);
    if r.Sent? {
      PatchAccepted(before, before, d);
      EmittedPatchRuns(before, before, d, r.ops, rest);
    }
  }

  /** The outcome of a pass that found this owner turns the Secret into the merge with what
      the tags of s ask for. */
  lemma OwnerFound(
    spcs: Cluster, namespace: string, spec: Generation.SyncSpec, marshal: Generation.Marshal, codec: LabelCodec,
    listing: seq<Generation.VaultItem>, s: Generation.VaultItem,
    cached: CacheState, cluster: Cluster, listed: Result<seq<Item>>, before: Secret, rest: Rest, r: Outcome)
    returns (after: Secret)
    requires Lossless(codec) && Generation.DotFreeNames(listing) && DistinctBy(Generation.ItemNames(listing), Id)
    requires s in listing && CrdSync.MatchesAllFilters(s.tags, spec.filters) && Generation.ShouldSync(s.tags)
    requires IsStoredPass(spcs, namespace, spec, marshal, codec, listing, cluster) && spec.name != ""
    requires FindFor(cached, before.labels, namespace, s.name, listed) == Ok(spec.name)
    requires IsWatcherOutcome(r, cached, cluster, codec, namespace, s.name, before, listed, false)
    requires Mergeable(before, VaultDesire(s))
    ensures Results(r, before, after, rest) && IsMerge(before, VaultDesire(s), after) && TagsShown(s, after)
  {
    var existing := CrdSync.Stored(spcs, (namespace, spec.name));
    assert (namespace, spec.name) in cluster;
    PassCarriesTags(existing, spec, marshal, codec, listing, s);
    after := OutcomeMerges(r, before, VaultDesire(s), rest);
    MergeShowsTags(before, s, after);
  }

  /** cluster is spcs after a CRD pass for spec. */
  ghost predicate IsStoredPass(
    spcs: Cluster, namespace: string, spec: Generation.SyncSpec, marshal: Generation.Marshal, codec: LabelCodec,
    listing: seq<Generation.VaultItem>, cluster: Cluster)
  {
    var key := (namespace, spec.name);
    var desired := CrdSync.DesiredFor(spec, marshal, codec, listing);
    cluster == spcs[key := CrdSync.AfterPass(CrdSync.Stored(spcs, key), desired)]
  }

  /** The server will accept the patch for these desired maps. */
  ghost predicate Mergeable(before: Secret, d: Desired) {
    NoTrackingKeyDesired(d) && UndesiredStillPresent(before, before, d) && RemovesOnce(Plan(before, d))
  }

  /** A tag on its whole way. A CRD pass stores its object in the cluster; then the watcher
      looks the Secret's owner up, through whatever the cache went through, and the operation
      list it sends turns the Secret's document into one that shows every annotation and
      label of the opted-in vault secret and is the merge. */
  lemma TagsReachTheSecret(
    spcs: Cluster, namespace: string, spec: Generation.SyncSpec, marshal: Generation.Marshal, codec: LabelCodec,
    listing: seq<Generation.VaultItem>, s: Generation.VaultItem,
    ops: seq<CacheOp>, cluster: Cluster, items: seq<Item>, before: Secret, rest: Rest, r: Outcome)
    requires Lossless(codec) && Generation.DotFreeNames(listing) && DistinctBy(Generation.ItemNames(listing), Id)
    requires s in listing && CrdSync.MatchesAllFilters(s.tags, spec.filters) &&
             Generation.HasTag(s.tags, "secret-object")
    requires IsStoredPass(spcs, namespace, spec, marshal, codec, listing, cluster)
    requires SlashlessOps(ops) && Slashless(namespace) && Lookup(before.labels, OWNER_LABEL).None?
    requires IsListing(cluster, namespace, items) && forall key <- cluster :: key.1 != ""
    requires HasSoleOwner(AfterOps(ops), cluster, namespace, spec.name, s.name)
    requires IsWatcherOutcome(r, AfterOps(ops), cluster, codec, namespace, s.name, before, Ok(items), false)
    requires Mergeable(before, VaultDesire(s))
    ensures exists after ::
              Results(r, before, after, rest) && IsMerge(before, VaultDesire(s), after) && TagsShown(s, after)
  {
    var existing := CrdSync.Stored(spcs, (namespace, spec.name));
    PassClaims(existing, spec, marshal, codec, listing, s.name);
    assert (namespace, spec.name) in cluster;
    assert Claimant(cluster, namespace, spec.name, s.name);
    SoleOwnerIsFound(ops, cluster, namespace, spec.name, before, s.name, items);
    var after := OwnerFound(spcs, namespace, spec, marshal, codec, listing, s,
        AfterOps(ops), cluster, Ok(items), before, rest, r);
  }

  /** The same for a Secret that carries the owner label, as the CSI driver's Secrets do: no
      matter what is cached, who else claims the Secret, and whether the List call fails. */
  lemma TagsReachTheLabelledSecret(
    spcs: Cluster, namespace: string, spec: Generation.SyncSpec, marshal: Generation.Marshal, codec: LabelCodec,
    listing: seq<Generation.VaultItem>, s: Generation.VaultItem,
    cached: CacheState, cluster: Cluster, listed: Result<seq<Item>>, before: Secret, rest: Rest, r: Outcome)
    requires Lossless(codec) && Generation.DotFreeNames(listing) && DistinctBy(Generation.ItemNames(listing), Id)
    requires s in listing && CrdSync.MatchesAllFilters(s.tags, spec.filters) && Generation.ShouldSync(s.tags)
    requires IsStoredPass(spcs, namespace, spec, marshal, codec, listing, cluster) && spec.name != ""
    requires Lookup(before.labels, "secrets-store.csi.k8s.io/secretProviderClass") == Some(spec.name)
    requires IsWatcherOutcome(r, cached, cluster, codec, namespace, s.name, before, listed, false)
    requires Mergeable(before, VaultDesire(s))
    ensures exists after ::
              Results(r, before, after, rest) && IsMerge(before, VaultDesire(s), after) && TagsShown(s, after)
  {
    LabelDecides(cached, before.labels, namespace, s.name, listed, spec.name);
    var after := OwnerFound(spcs, namespace, spec, marshal, codec, listing, s,
        cached, cluster, listed, before, rest, r);
  }

  /** A pass leaves the Secret alone without any request exactly when the owner asks for
      nothing and the Secret has no tracking annotation; any other pass that found its owner
      sends one. */
  lemma UpToDateIff(
    r: Outcome, cached: CacheState, cluster: Cluster, codec: LabelCodec,
    namespace: string, name: string, secret: Secret, listed: Result<seq<Item>>, getFails: bool, owner: string)
    requires IsWatcherOutcome(r, cached, cluster, codec, namespace, name, secret, listed, getFails)
    requires FindFor(cached, secret.labels, namespace, name, listed) == Ok(owner) && owner != ""
    requires !getFails && (namespace, owner) in cluster
    requires CleanDesired(DesiredOf(codec, cluster[(namespace, owner)], name))
    ensures var d := DesiredOf(codec, cluster[(namespace, owner)], name);
            (r == UpToDate <==>
               d.annotations == map[] && d.labels == map[] &&
               Lookup(secret.annotations, "azure-keyvault-sync.io/managed-annotations").None? &&
               Lookup(secret.annotations, "azure-keyvault-sync.io/managed-labels").None?) &&
            (r != UpToDate ==> r.Sent? && IsEmittedPatch(r.ops, secret, d))
  {
    SilentPass(secret, DesiredOf(codec, cluster[(namespace, owner)], name));
  }

  /** A request goes out only for an owner that the lookup named and the cluster has. */
  lemma SentOnlyForOwner(
    r: Outcome, cached: CacheState, cluster: Cluster, codec: LabelCodec,
    namespace: string, name: string, secret: Secret, listed: Result<seq<Item>>, getFails: bool)
    requires IsWatcherOutcome(r, cached, cluster, codec, namespace, name, secret, listed, getFails) && r.Sent?
    ensures var found := FindFor(cached, secret.labels, namespace, name, listed);
            found.Ok? && found.value != "" && !getFails && (namespace, found.value) in cluster
  {}

  lemma TwoMerges(before: Secret, d1: Desired, middle: Secret, d2: Desired, after: Secret,
      section: Section, key: string)
    requires CleanDesired(d1) && CleanDesired(d2) && !IsTrackingKey(key)
    requires IsMerge(before, d1, middle) && IsMerge(middle, d2, after)
    ensures Lookup(Get(after, section), key) ==
            if key in Wanted(d2, section) then Some(Wanted(d2, section)[key])
            else if key in Wanted(d1, section) || key in Tracked(before, section) then None
            else Lookup(Get(before, section), key)
  {
    MergeTracksDesired(before, d1, middle, section);
    var l1, l2 := ListsOf(before, d1), ListsOf(middle, d2);
    assert key in TrackedIn(l2, section) <==> key in Wanted(d1, section).Keys;
    MergeBySection(before, d1, l1, middle);
    MergeBySection(middle, d2, l2, after);
    assert Lookup(Get(middle, section), key) == ExpectedIn(before, d1, l1, section, key);
    assert Lookup(Get(after, section), key) == ExpectedIn(middle, d2, l2, section, key);
  }

  /** When two passes leave an entry as it was before the first: exactly when the second wants
      the value it had, or, if the second does not want the key, it was not there or nobody
      managed it. A key that was managed in between is gone in the end, also when its value
      had been the user's own before it was ever desired. */
  lemma SecondPassCleansUp(before: Secret, d1: Desired, middle: Secret, d2: Desired, after: Secret,
      section: Section, key: string)
    requires CleanDesired(d1) && CleanDesired(d2) && !IsTrackingKey(key)
    requires IsMerge(before, d1, middle) && IsMerge(middle, d2, after)
    ensures Lookup(Get(after, section), key) == Lookup(Get(before, section), key) <==>
            if key in Wanted(d2, section) then Lookup(Get(before, section), key) == Some(Wanted(d2, section)[key])
            else
              key in Wanted(d1, section) || key in Tracked(before, section) ==>
                Lookup(Get(before, section), key).None?
    ensures key in Wanted(d1, section) && key !in Wanted(d2, section) ==> Lookup(Get(after, section), key).None?
  {
    TwoMerges(before, d1, middle, d2, after, section, key);
  }
}
