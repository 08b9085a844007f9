/** reconcileAzureKeyVaultSync: create or update the generated SecretProviderClass. */
module CrdSync {
  import opened GoStrings
  import opened SecretMetadata
  import opened TagCodec
  import opened Spc
  import opened SecretObjects
  import opened ObjectsYaml
  import opened YamlBlocks
  import opened SpcGeneration
  import opened SpcCache

  // ----- The decision

  predicate NeedsWrite(existing: Option<SecretProviderClass>, desired: SecretProviderClass) {
    existing.None? ||
    ReadOrEmpty(existing.value.parameters, "objects") != ReadOrEmpty(desired.parameters, "objects") ||
    !LooksEqual(existing.value.secretObjects, desired.secretObjects) ||
    Entries(existing.value.annotations) != Entries(desired.annotations)
  }

  /** A write replaces the whole spec, the annotations and the owner references. */
  function AfterPass(existing: Option<SecretProviderClass>, desired: SecretProviderClass): SecretProviderClass {
    if NeedsWrite(existing, desired) then desired else existing.value
  }

  /** Stored and desired objects agree on the three compared parts, secretObjects up to order. */
  ghost predicate InSync(stored: SecretProviderClass, desired: SecretProviderClass) {
    (if "objects" in stored.parameters then stored.parameters["objects"] else "") ==
    (if "objects" in desired.parameters then desired.parameters["objects"] else "") &&
    Agree(stored.secretObjects, desired.secretObjects) &&
    Entries(stored.annotations) == Entries(desired.annotations)
  }

  // ----- FilterSecretsByTags

  predicate MatchesAllFilters(tags: Tags, filters: StringMap) {
    forall k <- filters :: k in tags && tags[k] == Some(filters[k])
  }

  function Filtered(secrets: seq<VaultItem>, filters: StringMap): seq<VaultItem> {
    if secrets == [] then []
    else
      var last := secrets[|secrets| - 1];
      Filtered(secrets[..|secrets| - 1], filters) + if MatchesAllFilters(last.tags, filters) then [last] else []
  }

  lemma {:induction false} NoFilters(secrets: seq<VaultItem>)
    ensures Filtered(secrets, map[]) == secrets
  {
    if secrets != [] {
      NoFilters(secrets[..|secrets| - 1]);
    }
  }

  method FilterSecretsByTags(secrets: seq<VaultItem>, filters: StringMap) returns (filtered: seq<VaultItem>)
    ensures filtered == Filtered(secrets, filters)
  {
    if |filters| == 0 {
      assert filters == map[];
      NoFilters(secrets);
      return secrets;
    }
    filtered := [];
    for i := 0 to |secrets|
      invariant filtered == Filtered(secrets[..i], filters)
    {
      assert secrets[..i + 1][..i] == secrets[..i];
      if MatchesAllFilters(secrets[i].tags, filters) {
        filtered := filtered + [secrets[i]];
      }
    }
    assert secrets[..|secrets|] == secrets;
  }

  lemma {:induction false} FilteredIsSublist(secrets: seq<VaultItem>, filters: StringMap)
    requires DistinctBy(ItemNames(secrets), Id)
    ensures DistinctBy(ItemNames(Filtered(secrets, filters)), Id)
    ensures forall s :: s in Filtered(secrets, filters) <==> s in secrets && MatchesAllFilters(s.tags, filters)
  {
    if secrets != [] {
      var n := |secrets| - 1;
      DistinctFront(secrets);
      FilteredIsSublist(secrets[..n], filters);
      assert secrets == secrets[..n] + [secrets[n]];
      var front := ItemNames(Filtered(secrets[..n], filters));
      if MatchesAllFilters(secrets[n].tags, filters) {
        forall m | m in front
          ensures m != secrets[n].name
        {
          var i :| 0 <= i < |front| && front[i] == m;
          assert Filtered(secrets[..n], filters)[i] in secrets[..n];
          NameInItems(secrets[..n], Filtered(secrets[..n], filters)[i]);
        }
        AppendDistinct(front, secrets[n].name);
        assert ItemNames(Filtered(secrets, filters)) == front + [secrets[n].name];
      }
    }
  }

  // ----- The pass

  datatype Status = Status(secretCount: nat, secretObjectCount: nat, generatedSpcName: string,
      observedGeneration: int, lastSyncTime: int)

  /** What the calls into Kubernetes and Azure answer during one pass: listing is the vault's
      secrets, or a failure of a token, the breaker or the vault; getFails is an error other
      than "not found". */
  datatype Answers = Answers(listing: Result<seq<VaultItem>>, getFails: bool, writeFails: bool, now: int)

  class AzureKeyVaultSync {
    const namespace: string
    const spec: SyncSpec
    const generation: int
    var status: Status

    constructor (namespace: string, spec: SyncSpec, generation: int, status: Status)
      ensures this.namespace == namespace && this.spec == spec && this.generation == generation && this.status == status
    {
      this.namespace, this.spec, this.generation, this.status := namespace, spec, generation, status;
    }
  }

  class ClusterStore {
    var spcs: Cluster
    var writes: nat

    constructor (spcs: Cluster)
      ensures this.spcs == spcs && writes == 0
    {
      this.spcs, this.writes := spcs, 0;
    }

    method Put(key: (string, string), spc: SecretProviderClass)
      modifies this
      ensures spcs == old(spcs)[key := spc] && writes == old(writes) + 1
    {
      spcs := spcs[key := spc];
      writes := writes + 1;
    }
  }

  function Stored(spcs: Cluster, key: (string, string)): Option<SecretProviderClass> {
    if key in spcs then Some(spcs[key]) else None
  }

  function DesiredFor(spec: SyncSpec, marshal: Marshal, codec: LabelCodec, listing: seq<VaultItem>)
    : SecretProviderClass
  {
    SpcGeneration.Desired(spec, marshal, codec, Filtered(listing, spec.filters))
  }

  method CountSecretObjects(secrets: seq<VaultItem>) returns (n: nat)
    ensures n == CountObjects(secrets)
  {
    n := 0;
    for i := 0 to |secrets|
      invariant n == CountObjects(secrets[..i])
    {
      assert secrets[..i + 1][..i] == secrets[..i];
      if HasTag(secrets[i].tags, "secret-object") {
        n := n + 1;
      }
    }
    assert secrets[..|secrets|] == secrets;
  }

  /** The pass fails before or while writing. */
  predicate PassFails(spcs: Cluster, key: (string, string), desired: SecretProviderClass, a: Answers) {
    !IsValid(desired) || a.getFails || (NeedsWrite(Stored(spcs, key), desired) && a.writeFails)
  }

  /** The compare part of step 6: is an update of an existing object needed? */
  method DetectSpcChanges(existing: SecretProviderClass, desired: SecretProviderClass) returns (changed: bool)
    ensures changed == NeedsWrite(Some(existing), desired)
    ensures "objects" in desired.parameters && desired.parameters["objects"] != "" && !changed ==>
              "objects" in existing.parameters && existing.parameters["objects"] == desired.parameters["objects"]
  {
    var objectsChanged := ReadOrEmpty(existing.parameters, "objects") != ReadOrEmpty(desired.parameters, "objects");
    var sameObjects := CompareExistingWithDesired(existing.secretObjects, desired.secretObjects);
    var sameAnnotations := CompareAnnotations(existing.annotations, desired.annotations);
    changed := objectsChanged || !sameObjects || !sameAnnotations;
  }

  /** Step 6 of the pass: create or update the stored object. */
  method CreateOrUpdate(store: ClusterStore, key: (string, string), desired: SecretProviderClass, writeFails: bool)
      returns (ok: bool)
    modifies store
    ensures ok <==> !(NeedsWrite(Stored(old(store.spcs), key), desired) && writeFails)
    ensures !ok ==> store.spcs == old(store.spcs) && store.writes == old(store.writes)
    ensures ok ==> store.spcs == old(store.spcs)[key := AfterPass(Stored(old(store.spcs), key), desired)]
    ensures ok ==>
            store.writes == old(store.writes) + if NeedsWrite(Stored(old(store.spcs), key), desired) then 1 else 0
  {
    if key !in store.spcs {
      if writeFails {
        return false;
      }
      store.Put(key, desired);
      return true;
    }
    var existing := store.spcs[key];
    var changed := DetectSpcChanges(existing, desired);
    if changed {
      if writeFails {
        return false;
      }
      store.Put(key, existing.(
        provider := desired.provider, parameters := desired.parameters, secretObjects := desired.secretObjects,
        annotations := desired.annotations, ownerReferences := desired.ownerReferences));
    } else {
      assert store.spcs == store.spcs[key := existing];
    }
    return true;
  }

  /** reconcileAzureKeyVaultSync */
  method ReconcileAzureKeyVaultSync(store: ClusterStore, akv: AzureKeyVaultSync, marshal: Marshal,
      codec: LabelCodec, a: Answers) returns (ok: bool)
    modifies store, akv
    ensures a.listing.Failed? ==> !ok
    ensures a.listing.Ok? ==>
            ok == !PassFails(old(store.spcs), (akv.namespace, akv.spec.name),
                DesiredFor(akv.spec, marshal, codec, a.listing.value), a)
    ensures !ok ==> store.spcs == old(store.spcs) && store.writes == old(store.writes) && akv.status == old(akv.status)
    ensures ok ==>
      var key := (akv.namespace, akv.spec.name);
      var desired := DesiredFor(akv.spec, marshal, codec, a.listing.value);
      var existing := Stored(old(store.spcs), key);
      store.spcs == old(store.spcs)[key := AfterPass(existing, desired)] &&
      store.writes == old(store.writes) + (if NeedsWrite(existing, desired) then 1 else 0)
    ensures ok ==>
      var filtered := Filtered(a.listing.value, akv.spec.filters);
      akv.status == Status(|filtered|, CountObjects(filtered), akv.spec.name, akv.generation, a.now)
  {
    if a.listing.Failed? {
      return false;
    }
    var filtered := FilterSecretsByTags(a.listing.value, akv.spec.filters);
    var desired := GenerateSecretProviderClass(akv.spec, marshal, codec, filtered);
    var valid := IsValid(desired);
    if !valid || a.getFails {
      return false;
    }
    ok := CreateOrUpdate(store, (akv.namespace, akv.spec.name), desired, a.writeFails);
    if !ok {
      return;
    }
    var secretObjectCount := CountSecretObjects(filtered);
    akv.status := Status(|filtered|, secretObjectCount, akv.spec.name, akv.generation, a.now);
  }

  // ----- The fixed point

  /** When a pass fails: exactly when the driver could not read the objects text it would
      store, or the stored object cannot be read, or a write is needed and fails. */
  lemma PassFailsIff(spcs: Cluster, key: (string, string), spec: SyncSpec, marshal: Marshal, codec: LabelCodec,
      listing: seq<VaultItem>, a: Answers)
    ensures var desired := DesiredFor(spec, marshal, codec, listing);
            "objects" in desired.parameters &&
            (PassFails(spcs, key, desired, a) <==>
               ReadObjects(desired.parameters["objects"]).None? || a.getFails ||
               (NeedsWrite(Stored(spcs, key), desired) && a.writeFails))
  {
    GeneratedIsValidIff(spec, marshal, codec, Filtered(listing, spec.filters));
  }

  /** When the library's texts are readable, validation never stops a pass: only failing calls do. */
  lemma OnlyCallsFail(spcs: Cluster, key: (string, string), spec: SyncSpec, marshal: Marshal, codec: LabelCodec,
      listing: seq<VaultItem>, a: Answers)
    requires MarshalsReadably(marshal, Filtered(listing, spec.filters))
    ensures PassFails(spcs, key, DesiredFor(spec, marshal, codec, listing), a) <==>
            a.getFails || (NeedsWrite(Stored(spcs, key), DesiredFor(spec, marshal, codec, listing)) && a.writeFails)
  {
    GeneratedIsValid(spec, marshal, codec, Filtered(listing, spec.filters));
  }

  /** A write happens exactly when something compared differs: the counting comparison
      neither misses a difference nor reports one that is not there. */
  lemma WriteIffOutOfSync(existing: Option<SecretProviderClass>, desired: SecretProviderClass)
    requires Proper(desired.secretObjects)
    ensures NeedsWrite(existing, desired) <==> existing.None? || !InSync(existing.value, desired)
  {
    if existing.Some? {
      ComparisonIsExact(existing.value.secretObjects, desired.secretObjects);
    }
  }

  /** One pass brings the stored object in sync, whatever was stored. */
  lemma OnePassSyncs(existing: Option<SecretProviderClass>, desired: SecretProviderClass)
    requires Proper(desired.secretObjects)
    ensures InSync(AfterPass(existing, desired), desired)
  {
    WriteIffOutOfSync(existing, desired);
    AgreesWithItself(desired.secretObjects);
  }

  /** n successful passes with the same listing and CRD. */
  function AfterPasses(existing: Option<SecretProviderClass>, desired: SecretProviderClass, n: nat)
    : Option<SecretProviderClass>
  {
    if n == 0 then existing else Some(AfterPass(AfterPasses(existing, desired, n - 1), desired))
  }

  function WritesDuring(existing: Option<SecretProviderClass>, desired: SecretProviderClass, n: nat): nat {
    if n == 0 then 0
    else
      var before := AfterPasses(existing, desired, n - 1);
      WritesDuring(existing, desired, n - 1) + if NeedsWrite(before, desired) then 1 else 0
  }

  lemma {:induction false} PassesStay(existing: Option<SecretProviderClass>, desired: SecretProviderClass, n: nat)
    requires !NeedsWrite(Some(AfterPass(existing, desired)), desired) && n >= 1
    ensures AfterPasses(existing, desired, n) == Some(AfterPass(existing, desired))
    ensures WritesDuring(existing, desired, n) == if NeedsWrite(existing, desired) then 1 else 0
  {
    if n == 1 {
      assert AfterPasses(existing, desired, 0) == existing;
      assert WritesDuring(existing, desired, 0) == 0;
    } else {
      PassesStay(existing, desired, n - 1);
    }
  }

  lemma PassesSettle(existing: Option<SecretProviderClass>, desired: SecretProviderClass, n: nat)
    requires Proper(desired.secretObjects) && n >= 1
    ensures AfterPasses(existing, desired, n) == Some(AfterPass(existing, desired))
    ensures InSync(AfterPass(existing, desired), desired)
    ensures WritesDuring(existing, desired, n) == if existing.Some? && InSync(existing.value, desired) then 0 else 1
  {
    OnePassSyncs(existing, desired);
    WriteIffOutOfSync(existing, desired);
    WriteIffOutOfSync(Some(AfterPass(existing, desired)), desired);
    PassesStay(existing, desired, n);
  }

  /** A write stores the desired object as a whole, with its provider, all parameters and its
      owner; without a write everything stays. */
  lemma PassStoresAll(existing: Option<SecretProviderClass>, desired: SecretProviderClass)
    requires Proper(desired.secretObjects)
    ensures AfterPass(existing, desired) ==
            if existing.Some? && InSync(existing.value, desired) then existing.value else desired
  {
    WriteIffOutOfSync(existing, desired);
  }

  /** From any stored object, with an unchanged listing without repeated names and an
      unchanged CRD: the first pass writes at most once, every later pass writes nothing, and
      what is stored matches the vault, so the events that a write triggers cannot loop. */
  lemma ReconcileReachesFixedPoint(existing: Option<SecretProviderClass>, spec: SyncSpec, marshal: Marshal,
      codec: LabelCodec, listing: seq<VaultItem>, n: nat)
    requires DistinctBy(ItemNames(listing), Id) && n >= 1
    ensures var desired := DesiredFor(spec, marshal, codec, listing);
            AfterPasses(existing, desired, n).Some? &&
            InSync(AfterPasses(existing, desired, n).value, desired) &&
            AfterPasses(existing, desired, n).value ==
              (if existing.Some? && InSync(existing.value, desired) then existing.value else desired) &&
            WritesDuring(existing, desired, n) == (if existing.Some? && InSync(existing.value, desired) then 0 else 1)
  {
    FilteredIsSublist(listing, spec.filters);
    DesiredObjects(spec, marshal, codec, Filtered(listing, spec.filters));
    PassesSettle(existing, DesiredFor(spec, marshal, codec, listing), n);
    PassStoresAll(existing, DesiredFor(spec, marshal, codec, listing));
  }

  /** The vault secret opted in and passes the filters. */
  ghost predicate IsWanted(s: VaultItem, filters: StringMap) {
    (("sync" in s.tags && s.tags["sync"] == Some("true")) ||
     ("secret-object" in s.tags && s.tags["secret-object"] == Some("true"))) &&
    forall k <- filters :: k in s.tags && s.tags[k] == Some(filters[k])
  }

  lemma WantedIff(s: VaultItem, filters: StringMap)
    ensures IsWanted(s, filters) <==> ShouldSync(s.tags) && MatchesAllFilters(s.tags, filters)
  {}

  lemma SyncedNext(front: seq<VaultItem>, last: VaultItem, filters: StringMap)
    ensures Synced(Filtered(front + [last], filters)) ==
            Synced(Filtered(front, filters)) +
            if ShouldSync(last.tags) && MatchesAllFilters(last.tags, filters) then [last] else []
  {
    assert (front + [last])[..|front|] == front;
    var before := Filtered(front, filters);
    if MatchesAllFilters(last.tags, filters) {
      assert (before + [last])[..|before|] == before;
    } else {
      assert Filtered(front + [last], filters) == before;
    }
  }

  lemma {:induction false} SyncedSelects(listing: seq<VaultItem>, filters: StringMap)
    ensures IsSelection(Synced(Filtered(listing, filters)), listing, s => IsWanted(s, filters))
  {
    var p := s => IsWanted(s, filters);
    if listing == [] {
      NothingSelected(p);
    } else {
      var n := |listing| - 1;
      var front, last := listing[..n], listing[n];
      assert listing == front + [last];
      SyncedSelects(front, filters);
      SelectionGrows(Synced(Filtered(front, filters)), front, last, p);
      SyncedNext(front, last, filters);
      WantedIff(last, filters);
      assert p(last) == IsWanted(last, filters);
      if !p(last) {
        assert Synced(Filtered(front, filters)) + [] == Synced(Filtered(front, filters));
      }
    }
  }

  /** What the driver reads for these secrets: the marshalled texts, each with one line break. */
  function DriverTexts(marshal: Marshal, secrets: seq<VaultItem>): seq<string> {
    seq(|secrets|, i requires 0 <= i < |secrets| => TrimSuffix(marshal(secrets[i].name), '\n') + "\n")
  }

  lemma {:induction false} DriverTextsAre(marshal: Marshal, secrets: seq<VaultItem>)
    ensures WithBreaks(TrimmedElements(Marshalled(marshal, secrets))) == DriverTexts(marshal, secrets)
  {
    if secrets != [] {
      var elements := TrimmedElements(Marshalled(marshal, secrets));
      assert elements[1..] == TrimmedElements(Marshalled(marshal, secrets[1..]));
      DriverTextsAre(marshal, secrets[1..]);
      assert DriverTexts(marshal, secrets) == [elements[0] + "\n"] + DriverTexts(marshal, secrets[1..]);
    }
  }

  /** The vault's contents reach the driver. After n >= 1 passes from any stored object, the
      stored parameters have "objects", and what the driver reads there is exactly the texts
      of the secrets that opted in and pass the filters, in listing order. */
  lemma VaultReachesDriver(existing: Option<SecretProviderClass>, spec: SyncSpec, marshal: Marshal,
      codec: LabelCodec, listing: seq<VaultItem>, n: nat) returns (chosen: seq<VaultItem>)
    requires DistinctBy(ItemNames(listing), Id) && n >= 1
    requires MarshalsReadably(marshal, Filtered(listing, spec.filters))
    ensures IsSelection(chosen, listing, s => IsWanted(s, spec.filters))
    ensures var stored := AfterPasses(existing, DesiredFor(spec, marshal, codec, listing), n);
            stored.Some? && "objects" in stored.value.parameters &&
            ReadObjects(stored.value.parameters["objects"]) == Some(DriverTexts(marshal, chosen))
  {
    var secrets := Filtered(listing, spec.filters);
    chosen := Synced(secrets);
    SyncedSelects(listing, spec.filters);
    DriverTextsAre(marshal, chosen);
    GeneratedIsValid(spec, marshal, codec, secrets);
    ReconcileReachesFixedPoint(existing, spec, marshal, codec, listing, n);
    assert ReadObjects("").None?;
  }

  /** Only the compared parts are watched: a new vault, tenant or client alone is not written,
      although the parameters differ. */
  lemma ParametersAloneAreNotWritten(spec: SyncSpec, other: SyncSpec, marshal: Marshal, codec: LabelCodec,
      listing: seq<VaultItem>)
    requires DistinctBy(ItemNames(listing), Id)
    requires spec.filters == other.filters && spec.keyvaultName != other.keyvaultName
    ensures var stored := DesiredFor(spec, marshal, codec, listing);
            var desired := DesiredFor(other, marshal, codec, listing);
            !NeedsWrite(Some(stored), desired) && stored.parameters != desired.parameters
  {
    FilteredIsSublist(listing, spec.filters);
    var secrets := Filtered(listing, spec.filters);
    DesiredObjects(other, marshal, codec, secrets);
    var stored, desired := DesiredFor(spec, marshal, codec, listing), DesiredFor(other, marshal, codec, listing);
    ParametersOf(spec, marshal, codec, secrets);
    ParametersOf(other, marshal, codec, secrets);
    AgreesWithItself(desired.secretObjects);
    WriteIffOutOfSync(Some(stored), desired);
  }

  lemma ParametersOf(spec: SyncSpec, marshal: Marshal, codec: LabelCodec, secrets: seq<VaultItem>)
    ensures var p := SpcGeneration.Desired(spec, marshal, codec, secrets).parameters;
            "objects" in p && p["objects"] == ObjectsText(marshal, secrets) &&
            "keyvaultName" in p && p["keyvaultName"] == spec.keyvaultName
  {
    assert |"keyvaultName"| == 12 && |"tenantId"| == 8 && |"objects"| == 7;
    assert "clientID"[0] == 'c' && "tenantId"[0] == 't';
  }
}
