/** The SecretProviderClass generated from a vault listing. */
module SpcGeneration {
  import opened GoStrings
  import opened SecretMetadata
  import opened TagCodec
  import opened Spc
  import opened SecretObjects
  import opened ObjectsYaml
  import opened YamlBlocks

  /** A vault secret or certificate with its tags. */
  datatype VaultItem = VaultItem(name: string, tags: Tags)

  predicate HasTag(tags: Tags, key: string) {
    key in tags && tags[key] == Some("true")
  }

  predicate ShouldSync(tags: Tags) {
    HasTag(tags, "sync") || HasTag(tags, "secret-object")
  }

  function ItemNames(items: seq<VaultItem>): (r: seq<string>)
    ensures |r| == |items|
    ensures forall i :: 0 <= i < |r| ==> r[i] == items[i].name
  {
    seq(|items|, i requires 0 <= i < |items| => items[i].name)
  }

  // ----- secretObjects

  function Opaque(name: string): SecretObject {
    SecretObject(name, "Opaque", [SecretObjectData(name, name)], None)
  }

  function Tls(name: string): SecretObject {
    var data := [SecretObjectData("tls.key", name), SecretObjectData("tls.crt", name)];
    SecretObject(name, "kubernetes.io/tls", data, None)
  }

  function OpaqueObjects(secrets: seq<VaultItem>): seq<SecretObject> {
    if secrets == [] then []
    else
      var last := secrets[|secrets| - 1];
      OpaqueObjects(secrets[..|secrets| - 1]) + if HasTag(last.tags, "secret-object") then [Opaque(last.name)] else []
  }

  function TlsObjects(certs: seq<VaultItem>): seq<SecretObject> {
    if certs == [] then []
    else
      var last := certs[|certs| - 1];
      TlsObjects(certs[..|certs| - 1]) + if HasTag(last.tags, "cert-object") then [Tls(last.name)] else []
  }

  function SecretNameOf(o: SecretObject): string { o.secretName }

  function GeneratedObjects(secrets: seq<VaultItem>, certs: seq<VaultItem>): seq<SecretObject> {
    SortBy(OpaqueObjects(secrets) + TlsObjects(certs), SecretNameOf)
  }

  /** GenerateSecretObjectsFromVault */
  method GenerateSecretObjectsFromVault(secrets: seq<VaultItem>, certs: seq<VaultItem>)
      returns (objects: seq<SecretObject>)
    ensures objects == GeneratedObjects(secrets, certs)
  {
    objects := [];
    for i := 0 to |secrets|
      invariant objects == OpaqueObjects(secrets[..i])
    {
      assert secrets[..i + 1][..i] == secrets[..i];
      if HasTag(secrets[i].tags, "secret-object") {
        var data := [SecretObjectData(secrets[i].name, secrets[i].name)];
        objects := objects + [SecretObject(secrets[i].name, "Opaque", data, None)];
      }
    }
    assert secrets[..|secrets|] == secrets;
    for i := 0 to |certs|
      invariant objects == OpaqueObjects(secrets) + TlsObjects(certs[..i])
    {
      assert certs[..i + 1][..i] == certs[..i];
      if HasTag(certs[i].tags, "cert-object") {
        objects := objects + [Tls(certs[i].name)];
      }
    }
    assert certs[..|certs|] == certs;
    objects := SortBy(objects, SecretNameOf);
  }

  lemma {:induction false} OpaqueObjectsAre(secrets: seq<VaultItem>, o: SecretObject)
    ensures o in OpaqueObjects(secrets) <==>
            exists s <- secrets :: HasTag(s.tags, "secret-object") && o == Opaque(s.name)
  {
    if secrets != [] {
      var n := |secrets| - 1;
      OpaqueObjectsAre(secrets[..n], o);
      assert secrets == secrets[..n] + [secrets[n]];
    }
  }

  lemma {:induction false} TlsObjectsAre(certs: seq<VaultItem>, o: SecretObject)
    ensures o in TlsObjects(certs) <==> exists c <- certs :: HasTag(c.tags, "cert-object") && o == Tls(c.name)
  {
    if certs != [] {
      var n := |certs| - 1;
      TlsObjectsAre(certs[..n], o);
      assert certs == certs[..n] + [certs[n]];
    }
  }

  lemma NameInItems(items: seq<VaultItem>, item: VaultItem)
    requires item in items
    ensures item.name in ItemNames(items)
  {
    var i :| 0 <= i < |items| && items[i] == item;
    assert ItemNames(items)[i] == item.name;
  }

  lemma DistinctFront(items: seq<VaultItem>)
    requires items != [] && DistinctBy(ItemNames(items), Id)
    ensures DistinctBy(ItemNames(items[..|items| - 1]), Id)
    ensures items[|items| - 1].name !in ItemNames(items[..|items| - 1])
  {
    var n := |items| - 1;
    var names := ItemNames(items);
    DistinctPrefix(names, n);
    assert ItemNames(items[..n]) == names[..n];
    forall i | 0 <= i < n
      ensures names[..n][i] != items[n].name
    {
      assert Id(names[i]) != Id(names[n]);
    }
  }

  lemma {:induction false} OpaqueDistinct(secrets: seq<VaultItem>)
    requires DistinctBy(ItemNames(secrets), Id)
    ensures DistinctBy(OpaqueObjects(secrets), SecretNameOf)
  {
    if secrets != [] {
      var n := |secrets| - 1;
      DistinctFront(secrets);
      OpaqueDistinct(secrets[..n]);
      forall o | o in OpaqueObjects(secrets[..n])
        ensures o.secretName != secrets[n].name
      {
        OpaqueObjectsAre(secrets[..n], o);
        var s :| s in secrets[..n] && o == Opaque(s.name);
        NameInItems(secrets[..n], s);
      }
      AppendObject(OpaqueObjects(secrets[..n]), Opaque(secrets[n].name));
    }
  }

  lemma {:induction false} TlsDistinct(certs: seq<VaultItem>)
    requires DistinctBy(ItemNames(certs), Id)
    ensures DistinctBy(TlsObjects(certs), SecretNameOf)
  {
    if certs != [] {
      var n := |certs| - 1;
      DistinctFront(certs);
      TlsDistinct(certs[..n]);
      forall o | o in TlsObjects(certs[..n])
        ensures o.secretName != certs[n].name
      {
        TlsObjectsAre(certs[..n], o);
        var c :| c in certs[..n] && o == Tls(c.name);
        NameInItems(certs[..n], c);
      }
      AppendObject(TlsObjects(certs[..n]), Tls(certs[n].name));
    }
  }

  lemma AppendObject(objects: seq<SecretObject>, o: SecretObject)
    requires DistinctBy(objects, SecretNameOf) && forall p <- objects :: p.secretName != o.secretName
    ensures DistinctBy(objects + [o], SecretNameOf)
  {
    var all := objects + [o];
    forall i, j | 0 <= i < j < |all|
      ensures SecretNameOf(all[i]) != SecretNameOf(all[j])
    {
      assert all[i] == objects[i] && all[i] in objects;
      if j < |objects| {
        assert SecretNameOf(objects[i]) != SecretNameOf(objects[j]);
      }
    }
  }

  /** No secret and certificate that both opted in share a name. */
  ghost predicate NamesApart(secrets: seq<VaultItem>, certs: seq<VaultItem>) {
    forall s <- secrets, c <- certs :: HasTag(s.tags, "secret-object") && HasTag(c.tags, "cert-object") ==>
        s.name != c.name
  }

  ghost predicate DistinctListing(secrets: seq<VaultItem>, certs: seq<VaultItem>) {
    DistinctBy(ItemNames(secrets), Id) && DistinctBy(ItemNames(certs), Id) && NamesApart(secrets, certs)
  }

  lemma ConcatObjects(a: seq<SecretObject>, b: seq<SecretObject>)
    requires DistinctBy(a, SecretNameOf) && DistinctBy(b, SecretNameOf)
    requires forall o <- a, p <- b :: o.secretName != p.secretName
    ensures DistinctBy(a + b, SecretNameOf)
  {
    forall i, j | 0 <= i < j < |a + b|
      ensures SecretNameOf((a + b)[i]) != SecretNameOf((a + b)[j])
    {
      if i < |a| <= j {
        assert a[i] in a && b[j - |a|] in b;
      } else if j < |a| {
        assert SecretNameOf(a[i]) != SecretNameOf(a[j]);
      } else {
        assert SecretNameOf(b[i - |a|]) != SecretNameOf(b[j - |a|]);
      }
    }
  }

  lemma UnsortedDistinct(secrets: seq<VaultItem>, certs: seq<VaultItem>)
    requires DistinctListing(secrets, certs)
    ensures DistinctBy(OpaqueObjects(secrets) + TlsObjects(certs), SecretNameOf)
  {
    OpaqueDistinct(secrets);
    TlsDistinct(certs);
    forall o, p | o in OpaqueObjects(secrets) && p in TlsObjects(certs)
      ensures o.secretName != p.secretName
    {
      OpaqueObjectsAre(secrets, o);
      TlsObjectsAre(certs, p);
    }
    ConcatObjects(OpaqueObjects(secrets), TlsObjects(certs));
  }

  /** From a listing without repeated names: one object for each opted-in item and no other,
      no name or key repeated, no labels. */
  lemma GeneratedObjectsAreProper(secrets: seq<VaultItem>, certs: seq<VaultItem>)
    requires DistinctListing(secrets, certs)
    ensures Proper(GeneratedObjects(secrets, certs))
    ensures forall o <- GeneratedObjects(secrets, certs) :: o.labels.None?
    ensures forall o :: o in GeneratedObjects(secrets, certs) <==>
              (exists s <- secrets :: HasTag(s.tags, "secret-object") && o == Opaque(s.name)) ||
              (exists c <- certs :: HasTag(c.tags, "cert-object") && o == Tls(c.name))
  {
    var objects := GeneratedObjects(secrets, certs);
    var unsorted := OpaqueObjects(secrets) + TlsObjects(certs);
    UnsortedDistinct(secrets, certs);
    SortKeepsDistinct(unsorted, SecretNameOf);
    SortKeepsElements(unsorted, SecretNameOf);
    forall o
      ensures o in objects <==>
              (exists s <- secrets :: HasTag(s.tags, "secret-object") && o == Opaque(s.name)) ||
              (exists c <- certs :: HasTag(c.tags, "cert-object") && o == Tls(c.name))
    {
      OpaqueObjectsAre(secrets, o);
      TlsObjectsAre(certs, o);
    }
    forall i, j | 0 <= i < j < |objects|
      ensures Id(Names(objects)[i]) != Id(Names(objects)[j])
    {
      assert SecretNameOf(objects[i]) != SecretNameOf(objects[j]);
    }
    forall o | o in objects
      ensures DistinctBy(DataKeys(o.data), Id) && o.labels.None?
    {
      KeysOfGenerated(o, secrets, certs);
    }
  }

  lemma KeysOfGenerated(o: SecretObject, secrets: seq<VaultItem>, certs: seq<VaultItem>)
    requires (exists s <- secrets :: HasTag(s.tags, "secret-object") && o == Opaque(s.name)) ||
             (exists c <- certs :: HasTag(c.tags, "cert-object") && o == Tls(c.name))
    ensures DistinctBy(DataKeys(o.data), Id) && o.labels.None?
  {
    assert "tls.key"[4] == 'k' && "tls.crt"[4] == 'c';
    assert |o.data| == 1 || (|o.data| == 2 && DataKeys(o.data)[0] == "tls.key" && DataKeys(o.data)[1] == "tls.crt");
  }

  lemma SharedNameNeverMatches(existing: seq<SecretObject>, secrets: seq<VaultItem>, certs: seq<VaultItem>)
    requires !NamesApart(secrets, certs)
    ensures !Unchanged(existing, GeneratedObjects(secrets, certs))
  {
    var s, c :| s in secrets && c in certs &&
      HasTag(s.tags, "secret-object") && HasTag(c.tags, "cert-object") && s.name == c.name;
    var unsorted := OpaqueObjects(secrets) + TlsObjects(certs);
    OpaqueObjectsAre(secrets, Opaque(s.name));
    TlsObjectsAre(certs, Tls(c.name));
    SortKeepsElements(unsorted, SecretNameOf);
    assert Opaque(s.name) in unsorted && Tls(c.name) in unsorted;
    assert "Opaque"[0] != "kubernetes.io/tls"[0];
    var m := ObjectMap(existing);
    assert !(Matches(m, Opaque(s.name)) && Matches(m, Tls(c.name)));
  }

  /** Annotation mode settles on the generated list exactly when no secret and certificate
      that both opted in share a name. Otherwise every stored list, the generated one itself
      included, counts as changed, and every pass sends a patch. */
  lemma GeneratedListSettlesIff(secrets: seq<VaultItem>, certs: seq<VaultItem>)
    requires DistinctBy(ItemNames(secrets), Id) && DistinctBy(ItemNames(certs), Id)
    ensures Unchanged(GeneratedObjects(secrets, certs), GeneratedObjects(secrets, certs)) <==>
            NamesApart(secrets, certs)
    ensures (exists existing :: Unchanged(existing, GeneratedObjects(secrets, certs))) <==> NamesApart(secrets, certs)
  {
    var objects := GeneratedObjects(secrets, certs);
    if NamesApart(secrets, certs) {
      GeneratedObjectsAreProper(secrets, certs);
      AgreesWithItself(objects);
      GeneratedComparisonIsExact(objects, objects);
    } else {
      forall existing
        ensures !Unchanged(existing, objects)
      {
        SharedNameNeverMatches(existing, secrets, certs);
      }
    }
  }

  /** The generated list does not depend on listing order. */
  lemma GeneratedObjectsAreCanonical(s1: seq<VaultItem>, c1: seq<VaultItem>, s2: seq<VaultItem>, c2: seq<VaultItem>)
    requires DistinctListing(s1, c1) && DistinctListing(s2, c2)
    requires (forall s :: s in s1 <==> s in s2) && (forall c :: c in c1 <==> c in c2)
    ensures GeneratedObjects(s1, c1) == GeneratedObjects(s2, c2)
  {
    UnsortedDistinct(s1, c1);
    UnsortedDistinct(s2, c2);
    forall o
      ensures o in OpaqueObjects(s1) + TlsObjects(c1) <==> o in OpaqueObjects(s2) + TlsObjects(c2)
    {
      OpaqueObjectsAre(s1, o);
      OpaqueObjectsAre(s2, o);
      TlsObjectsAre(c1, o);
      TlsObjectsAre(c2, o);
    }
    SortIsCanonical(OpaqueObjects(s1) + TlsObjects(c1), OpaqueObjects(s2) + TlsObjects(c2), SecretNameOf);
  }

  // ----- Annotations collected from tags

  function Collected(codec: LabelCodec, secrets: seq<VaultItem>): StringMap {
    if secrets == [] then map[]
    else
      var last := secrets[|secrets| - 1];
      var before := Collected(codec, secrets[..|secrets| - 1]);
      if ShouldSync(last.tags)
      then before + TransformedAnnotations(last.name, last.tags) + TransformedLabels(codec, last.name, last.tags)
      else before
  }

  /** The range loop that copies one map into another. */
  method CopyInto(target: StringMap, source: StringMap) returns (r: StringMap)
    ensures r == target + source
  {
    r := target;
    var pending := source.Keys;
    while pending != {}
      invariant pending <= source.Keys
      invariant r == target + (map k | k in source && k !in pending :: source[k])
    {
      var k :| k in pending;
      r := r[k := source[k]];
      pending := pending - {k};
    }
    assert (map k | k in source && k !in pending :: source[k]) == source;
  }

  method CollectAnnotations(codec: LabelCodec, secrets: seq<VaultItem>) returns (collected: StringMap)
    ensures collected == Collected(codec, secrets)
  {
    collected := map[];
    for i := 0 to |secrets|
      invariant collected == Collected(codec, secrets[..i])
    {
      assert secrets[..i + 1][..i] == secrets[..i];
      if ShouldSync(secrets[i].tags) {
        var annotations := TransformTagsToSPCAnnotations(secrets[i].name, secrets[i].tags);
        collected := CopyInto(collected, annotations);
        var labels := TransformTagsToSPCLabels(codec, secrets[i].name, secrets[i].tags);
        collected := CopyInto(collected, labels);
      }
    }
    assert secrets[..|secrets|] == secrets;
  }

  // ----- Tag fidelity

  /** What the vault asks for a Secret of this name. */
  function WantedAnnotations(secrets: seq<VaultItem>, name: string): StringMap {
    if secrets == [] then map[]
    else
      var last := secrets[|secrets| - 1];
      if last.name == name && ShouldSync(last.tags) then TagAnnotations(last.tags)
      else WantedAnnotations(secrets[..|secrets| - 1], name)
  }

  function WantedLabels(secrets: seq<VaultItem>, name: string): StringMap {
    if secrets == [] then map[]
    else
      var last := secrets[|secrets| - 1];
      if last.name == name && ShouldSync(last.tags) then TagLabels(last.tags)
      else WantedLabels(secrets[..|secrets| - 1], name)
  }

  predicate DotFreeNames(secrets: seq<VaultItem>) {
    forall s <- secrets :: DotFree(s.name)
  }

  lemma {:induction false} NothingWanted(secrets: seq<VaultItem>, name: string)
    requires name !in ItemNames(secrets)
    ensures WantedAnnotations(secrets, name) == map[] && WantedLabels(secrets, name) == map[]
  {
    if secrets != [] {
      var n := |secrets| - 1;
      NameInItems(secrets, secrets[n]);
      assert ItemNames(secrets[..n]) == ItemNames(secrets)[..n];
      NothingWanted(secrets[..n], name);
    }
  }

  lemma {:induction false} WantedOf(secrets: seq<VaultItem>, s: VaultItem)
    requires DistinctBy(ItemNames(secrets), Id) && s in secrets
    ensures WantedAnnotations(secrets, s.name) == if ShouldSync(s.tags) then TagAnnotations(s.tags) else map[]
    ensures WantedLabels(secrets, s.name) == if ShouldSync(s.tags) then TagLabels(s.tags) else map[]
  {
    var n := |secrets| - 1;
    DistinctFront(secrets);
    assert secrets == secrets[..n] + [secrets[n]];
    if s == secrets[n] {
      NothingWanted(secrets[..n], s.name);
    } else {
      NameInItems(secrets[..n], s);
      WantedOf(secrets[..n], s);
    }
  }

  lemma NotRead(p: string, labels: StringMap)
    requires forall k <- labels :: !(p <= k)
    ensures StripPrefix(p, labels) == map[]
  {
    var r := StripPrefix(p, labels);
    assert forall k :: p <= p + k;
    assert r.Keys == {};
  }

  lemma PlusEmpty(m: StringMap)
    ensures m + map[] == m && map[] + m == m
  {}

  lemma ReadParts(p: string, acc: StringMap, own: StringMap, labels: StringMap)
    requires forall k <- labels :: !(p <= k)
    ensures StripPrefix(p, acc + own + labels) == StripPrefix(p, acc) + StripPrefix(p, own)
  {
    StripUnion(p, acc + own, labels);
    StripUnion(p, acc, own);
    NotRead(p, labels);
    PlusEmpty(StripPrefix(p, acc) + StripPrefix(p, own));
  }

  lemma OwnPart(owner: string, m: StringMap, reader: string)
    requires DotFree(reader) && DotFree(owner) && "" !in m
    ensures StripPrefix(OwnPrefix(reader), AddPrefix(OwnPrefix(owner), m)) == if owner == reader then m else map[]
  {
    if owner == reader {
      StripAdded(OwnPrefix(reader), m);
    } else {
      DotFreeNamesApart(reader, owner);
      OwnPrefixesApart(reader, owner);
      StripApart(OwnPrefix(reader), OwnPrefix(owner), m);
    }
  }

  /** One secret's contribution, seen by a reader. */
  lemma ReadOwnAnnotations(acc: StringMap, owner: VaultItem, labels: StringMap, reader: string)
    requires DotFree(reader) && DotFree(owner.name)
    requires forall k <- labels :: k == SPC_LABEL_PREFIX + owner.name
    requires owner.name == reader ==> ExtractedAnnotations(acc, reader) == map[]
    ensures ExtractedAnnotations(acc + TransformedAnnotations(owner.name, owner.tags) + labels, reader) ==
            if owner.name == reader then TagAnnotations(owner.tags) else ExtractedAnnotations(acc, reader)
  {
    PlusEmpty(ExtractedAnnotations(acc, reader));
    PlusEmpty(TagAnnotations(owner.tags));
    LabelKeysApart(reader, owner.name);
    ReadParts(OwnPrefix(reader), acc, TransformedAnnotations(owner.name, owner.tags), labels);
    OwnPart(owner.name, TagAnnotations(owner.tags), reader);
  }

  lemma ReadLabelParts(codec: LabelCodec, acc: StringMap, own: StringMap, ownerKey: string, labels: StringMap,
      key: string)
    requires Lossless(codec) && key !in own
    requires key == ownerKey ==> key !in acc
    ensures ReadLabels(codec, acc + own + LabelEntry(codec, ownerKey, labels), key) ==
            if key == ownerKey then labels else ReadLabels(codec, acc, key)
  {}

  lemma ReadOwnLabels(codec: LabelCodec, acc: StringMap, owner: VaultItem, reader: string)
    requires Lossless(codec)
    requires owner.name == reader ==> SPC_LABEL_PREFIX + reader !in acc
    ensures ExtractedLabels(
              codec, acc + TransformedAnnotations(owner.name, owner.tags) +
                     TransformedLabels(codec, owner.name, owner.tags), reader) ==
            if owner.name == reader then TagLabels(owner.tags) else ExtractedLabels(codec, acc, reader)
  {
    var key, ownerKey := SPC_LABEL_PREFIX + reader, SPC_LABEL_PREFIX + owner.name;
    LabelKeysApart(owner.name, reader);
    if key == ownerKey {
      LabelKeyInjective(reader, owner.name);
    }
    ReadLabelParts(codec, acc, TransformedAnnotations(owner.name, owner.tags), ownerKey, TagLabels(owner.tags), key);
  }

  lemma {:induction false} LabelKeysCollected(codec: LabelCodec, secrets: seq<VaultItem>, name: string)
    requires name !in ItemNames(secrets)
    ensures SPC_LABEL_PREFIX + name !in Collected(codec, secrets)
  {
    if secrets != [] {
      var n := |secrets| - 1;
      var last := secrets[n];
      NameInItems(secrets, last);
      assert ItemNames(secrets[..n]) == ItemNames(secrets)[..n];
      LabelKeysCollected(codec, secrets[..n], name);
      LabelKeysApart(last.name, name);
      if SPC_LABEL_PREFIX + name == SPC_LABEL_PREFIX + last.name {
        LabelKeyInjective(name, last.name);
      }
    }
  }

  lemma {:induction false} CollectedReads(codec: LabelCodec, secrets: seq<VaultItem>, reader: string)
    requires Lossless(codec) && DotFree(reader) && DotFreeNames(secrets) && DistinctBy(ItemNames(secrets), Id)
    ensures ExtractedAnnotations(Collected(codec, secrets), reader) == WantedAnnotations(secrets, reader)
    ensures ExtractedLabels(codec, Collected(codec, secrets), reader) == WantedLabels(secrets, reader)
  {
    if secrets == [] {
      assert ExtractedAnnotations(map[], reader).Keys == {};
    } else {
      var n := |secrets| - 1;
      var front, last := secrets[..n], secrets[n];
      DistinctFront(secrets);
      CollectedReads(codec, front, reader);
      if last.name == reader {
        LabelKeysCollected(codec, front, reader);
        NothingWanted(front, reader);
      }
      if ShouldSync(last.tags) {
        var acc := Collected(codec, front);
        ReadOwnAnnotations(acc, last, TransformedLabels(codec, last.name, last.tags), reader);
        ReadOwnLabels(codec, acc, last, reader);
      }
    }
  }

  /** End to end over the whole listing: extracting for a vault secret gives exactly its own
      non-nil, non-empty-key tags when it is opted in, and nothing otherwise. */
  lemma TagFidelity(codec: LabelCodec, secrets: seq<VaultItem>, s: VaultItem)
    requires Lossless(codec) && DotFreeNames(secrets) && DistinctBy(ItemNames(secrets), Id) && s in secrets
    ensures ExtractedAnnotations(Collected(codec, secrets), s.name) ==
            if ShouldSync(s.tags) then TagAnnotations(s.tags) else map[]
    ensures ExtractedLabels(codec, Collected(codec, secrets), s.name) ==
            if ShouldSync(s.tags) then TagLabels(s.tags) else map[]
  {
    CollectedReads(codec, secrets, s.name);
    WantedOf(secrets, s);
  }

  /** A name that is not in the vault receives nothing. */
  lemma NoBleed(codec: LabelCodec, secrets: seq<VaultItem>, name: string)
    requires Lossless(codec) && DotFreeNames(secrets) && DistinctBy(ItemNames(secrets), Id)
    requires DotFree(name) && name !in ItemNames(secrets)
    ensures ExtractedAnnotations(Collected(codec, secrets), name) == map[]
    ensures ExtractedLabels(codec, Collected(codec, secrets), name) == map[]
  {
    CollectedReads(codec, secrets, name);
    NothingWanted(secrets, name);
  }

  // ----- generateSecretProviderClass

  datatype SyncSpec = SyncSpec(
    apiVersion: string, kind: string, name: string, uid: string,
    keyvaultName: string, tenantId: string, clientId: string,
    cascade: bool,
    filters: StringMap)

  function Synced(secrets: seq<VaultItem>): seq<VaultItem> {
    if secrets == [] then []
    else
      var last := secrets[|secrets| - 1];
      Synced(secrets[..|secrets| - 1]) + if ShouldSync(last.tags) then [last] else []
  }

  /** yaml.Marshal of {objectName: name, objectType: secret}, kept abstract. */
  type Marshal = string -> string

  function Marshalled(marshal: Marshal, secrets: seq<VaultItem>): (r: seq<string>)
    ensures |r| == |secrets|
  {
    seq(|secrets|, i requires 0 <= i < |secrets| => marshal(secrets[i].name))
  }

  function ObjectsText(marshal: Marshal, secrets: seq<VaultItem>): string {
    ArrayText(TrimmedElements(Marshalled(marshal, Synced(secrets))))
  }

  function Owner(spec: SyncSpec): OwnerReference {
    OwnerReference(spec.apiVersion, spec.kind, spec.name, spec.uid, true, spec.cascade)
  }

  function Desired(spec: SyncSpec, marshal: Marshal, codec: LabelCodec, secrets: seq<VaultItem>): SecretProviderClass {
    var collected := Collected(codec, secrets);
    SecretProviderClass(
      "azure",
      map["keyvaultName" := spec.keyvaultName, "tenantId" := spec.tenantId,
          "clientID" := spec.clientId, "objects" := ObjectsText(marshal, secrets)],
      GeneratedObjects(Synced(secrets), []),
      if collected == map[] then None else Some(collected),
      [Owner(spec)])
  }

  /** generateSecretProviderClass */
  method GenerateSecretProviderClass(spec: SyncSpec, marshal: Marshal, codec: LabelCodec, secrets: seq<VaultItem>)
      returns (spc: SecretProviderClass)
    ensures spc == Desired(spec, marshal, codec, secrets)
  {
    var objects: seq<string> := [];
    var secretsWithTags: seq<VaultItem> := [];
    for i := 0 to |secrets|
      invariant secretsWithTags == Synced(secrets[..i])
      invariant objects == Marshalled(marshal, secretsWithTags)
    {
      assert secrets[..i + 1][..i] == secrets[..i];
      if ShouldSync(secrets[i].tags) {
        objects := objects + [marshal(secrets[i].name)];
        secretsWithTags := secretsWithTags + [secrets[i]];
      }
    }
    assert secrets[..|secrets|] == secrets;
    var parameters :=
        map["keyvaultName" := spec.keyvaultName, "tenantId" := spec.tenantId, "clientID" := spec.clientId];
    var objectsYaml := BuildObjectsArrayString(objects);
    parameters := parameters["objects" := objectsYaml];
    var secretObjects := GenerateSecretObjectsFromVault(secretsWithTags, []);
    var collected := CollectAnnotations(codec, secrets);
    var annotations: Option<StringMap> := None;
    if |collected| > 0 {
      annotations := Some(collected);
    }
    spc := SecretProviderClass("azure", parameters, secretObjects, annotations,
        [OwnerReference(spec.apiVersion, spec.kind, spec.name, spec.uid, true, spec.cascade)]);
  }

  /** validateSecretProviderClass, with the reader of YamlBlocks for the YAML library. */
  predicate IsValid(spc: SecretProviderClass) {
    spc.provider == "azure" &&
    (forall p <- ["objects", "keyvaultName", "tenantId", "clientID"] :: p in spc.parameters) &&
    "objects" in spc.parameters && spc.parameters["objects"] != "" &&
    ReadObjects(spc.parameters["objects"]).Some?
  }

  /** The library's text for every opted-in secret keeps its shape in a literal scalar. */
  ghost predicate MarshalsReadably(marshal: Marshal, secrets: seq<VaultItem>) {
    forall s <- Synced(secrets) :: Readable(TrimSuffix(marshal(s.name), '\n'))
  }

  lemma ElementsReadable(marshal: Marshal, secrets: seq<VaultItem>)
    ensures (forall e <- TrimmedElements(Marshalled(marshal, Synced(secrets))) :: Readable(e)) <==>
            MarshalsReadably(marshal, secrets)
  {
    var synced := Synced(secrets);
    var marshalled := Marshalled(marshal, synced);
    TrimmedReadable(marshalled);
    if forall m <- marshalled :: Readable(TrimSuffix(m, '\n')) {
      forall s | s in synced
        ensures Readable(TrimSuffix(marshal(s.name), '\n'))
      {
        var i :| 0 <= i < |synced| && synced[i] == s;
        assert marshalled[i] in marshalled;
      }
    }
    if MarshalsReadably(marshal, secrets) {
      forall m | m in marshalled
        ensures Readable(TrimSuffix(m, '\n'))
      {
        var i :| 0 <= i < |marshalled| && marshalled[i] == m;
        assert synced[i] in synced;
      }
    }
  }

  /** The driver reads from a generated object exactly the marshalled elements if and only if
      these are readable, and then the object passes validation, the empty listing included. */
  lemma GeneratedIsValid(spec: SyncSpec, marshal: Marshal, codec: LabelCodec, secrets: seq<VaultItem>)
    ensures var spc := Desired(spec, marshal, codec, secrets);
            var elements := TrimmedElements(Marshalled(marshal, Synced(secrets)));
            "objects" in spc.parameters &&
            (ReadObjects(spc.parameters["objects"]) == Some(WithBreaks(elements)) <==>
                MarshalsReadably(marshal, secrets))
    ensures MarshalsReadably(marshal, secrets) ==> IsValid(Desired(spec, marshal, codec, secrets))
  {
    var spc := Desired(spec, marshal, codec, secrets);
    ElementsReadable(marshal, secrets);
    ArrayRoundTrip(TrimmedElements(Marshalled(marshal, Synced(secrets))));
    assert spc.parameters["objects"] == ObjectsText(marshal, secrets);
    assert ReadObjects("").None?;
  }

  /** A generated object passes validation exactly when its objects text can be read. */
  lemma GeneratedIsValidIff(spec: SyncSpec, marshal: Marshal, codec: LabelCodec, secrets: seq<VaultItem>)
    ensures "objects" in Desired(spec, marshal, codec, secrets).parameters
    ensures IsValid(Desired(spec, marshal, codec, secrets)) <==>
            ReadObjects(Desired(spec, marshal, codec, secrets).parameters["objects"]).Some?
  {
    assert ReadObjects("").None?;
  }

  lemma {:induction false} SyncedIsSublist(secrets: seq<VaultItem>)
    requires DistinctBy(ItemNames(secrets), Id)
    ensures DistinctBy(ItemNames(Synced(secrets)), Id)
    ensures forall s :: s in Synced(secrets) <==> s in secrets && ShouldSync(s.tags)
  {
    if secrets != [] {
      var n := |secrets| - 1;
      DistinctFront(secrets);
      SyncedIsSublist(secrets[..n]);
      assert secrets == secrets[..n] + [secrets[n]];
      var front := ItemNames(Synced(secrets[..n]));
      if ShouldSync(secrets[n].tags) {
        forall m | m in front
          ensures m != secrets[n].name
        {
          var i :| 0 <= i < |front| && front[i] == m;
          assert Synced(secrets[..n])[i] in secrets[..n];
          NameInItems(secrets[..n], Synced(secrets[..n])[i]);
        }
        AppendDistinct(front, secrets[n].name);
        assert ItemNames(Synced(secrets)) == front + [secrets[n].name];
      }
    }
  }

  /** The secretObjects of a generated object: exactly the items tagged secret-object. */
  lemma DesiredObjects(spec: SyncSpec, marshal: Marshal, codec: LabelCodec, secrets: seq<VaultItem>)
    requires DistinctBy(ItemNames(secrets), Id)
    ensures Proper(Desired(spec, marshal, codec, secrets).secretObjects)
    ensures forall o :: o in Desired(spec, marshal, codec, secrets).secretObjects <==>
              exists s <- secrets :: HasTag(s.tags, "secret-object") && o == Opaque(s.name)
  {
    SyncedIsSublist(secrets);
    GeneratedObjectsAreProper(Synced(secrets), []);
    var objects := GeneratedObjects(Synced(secrets), []);
    forall o
      ensures o in objects <==> exists s <- secrets :: HasTag(s.tags, "secret-object") && o == Opaque(s.name)
    {
      if s :| s in secrets && HasTag(s.tags, "secret-object") && o == Opaque(s.name) {
        assert s in Synced(secrets);
      }
    }
  }

  function CountObjects(secrets: seq<VaultItem>): nat {
    if secrets == [] then 0
    else CountObjects(secrets[..|secrets| - 1]) + if HasTag(secrets[|secrets| - 1].tags, "secret-object") then 1 else 0
  }

  lemma OpaqueAppend(secrets: seq<VaultItem>, s: VaultItem)
    ensures OpaqueObjects(secrets + [s]) ==
            OpaqueObjects(secrets) + if HasTag(s.tags, "secret-object") then [Opaque(s.name)] else []
  {
    assert (secrets + [s])[..|secrets|] == secrets;
  }

  /** The tag secret-object implies the sync opt-in, so counting tags counts the objects. */
  lemma {:induction false} TagsCountObjects(secrets: seq<VaultItem>)
    ensures |OpaqueObjects(Synced(secrets))| == CountObjects(secrets)
  {
    if secrets != [] {
      var n := |secrets| - 1;
      TagsCountObjects(secrets[..n]);
      OpaqueAppend(Synced(secrets[..n]), secrets[n]);
      assert !ShouldSync(secrets[n].tags) ==> Synced(secrets) == Synced(secrets[..n]);
    }
  }

  /** The count in the CRD's status is the number of secretObjects generated. */
  lemma StatusCountsObjects(spec: SyncSpec, marshal: Marshal, codec: LabelCodec, secrets: seq<VaultItem>)
    ensures |Desired(spec, marshal, codec, secrets).secretObjects| == CountObjects(secrets)
  {
    TagsCountObjects(secrets);
  }

  // ----- The generated object in the source's own terms

  /** The tag is there with the value "true". */
  ghost predicate IsTrue(tags: Tags, key: string) {
    key in tags && tags[key].Some? && tags[key].value == "true"
  }

  /** An Opaque object with the secret under its own name for every secret tagged
      secret-object=true, a TLS object with key and certificate for every certificate tagged
      cert-object=true, and nothing else. */
  lemma GeneratedObjectsSpelledOut(secrets: seq<VaultItem>, certs: seq<VaultItem>, o: SecretObject)
    ensures o in GeneratedObjects(secrets, certs) <==>
            (exists s <- secrets :: IsTrue(s.tags, "secret-object") &&
               o == SecretObject(s.name, "Opaque", [SecretObjectData(s.name, s.name)], None)) ||
            (exists c <- certs :: IsTrue(c.tags, "cert-object") &&
               o == SecretObject(c.name, "kubernetes.io/tls",
                      [SecretObjectData("tls.key", c.name), SecretObjectData("tls.crt", c.name)], None))
  {
    SortKeepsElements(OpaqueObjects(secrets) + TlsObjects(certs), SecretNameOf);
    OpaqueObjectsAre(secrets, o);
    TlsObjectsAre(certs, o);
  }

  /** They come in Go's order of names. */
  lemma GeneratedObjectsAreSorted(secrets: seq<VaultItem>, certs: seq<VaultItem>)
    ensures var objects := GeneratedObjects(secrets, certs);
            forall i, j :: 0 <= i < j < |objects| ==> Leq(objects[i].secretName, objects[j].secretName)
  {}

  lemma ParameterNamesDiffer()
    ensures "keyvaultName" != "tenantId" && "keyvaultName" != "clientID" && "keyvaultName" != "objects"
    ensures "tenantId" != "clientID" && "tenantId" != "objects" && "clientID" != "objects"
  {
    assert |"keyvaultName"| == 12 && |"tenantId"| == 8 && |"clientID"| == 8 && |"objects"| == 7;
    assert "clientID"[0] == 'c' && "tenantId"[0] == 't';
  }

  lemma FourParameters(vault: string, tenant: string, client: string, objects: string)
    ensures var m := map["keyvaultName" := vault, "tenantId" := tenant, "clientID" := client, "objects" := objects];
            m.Keys == {"keyvaultName", "tenantId", "clientID", "objects"} &&
            m["keyvaultName"] == vault && m["tenantId"] == tenant && m["clientID"] == client
  {
    ParameterNamesDiffer();
  }

  /** Provider, parameters and owner of the generated object: each field of the custom
      resource under its own key, and no other parameter. */
  lemma DesiredSpelledOut(spec: SyncSpec, marshal: Marshal, codec: LabelCodec, secrets: seq<VaultItem>)
    ensures var spc := Desired(spec, marshal, codec, secrets);
            spc.provider == "azure" &&
            spc.parameters.Keys == {"keyvaultName", "tenantId", "clientID", "objects"} &&
            spc.parameters["keyvaultName"] == spec.keyvaultName &&
            spc.parameters["tenantId"] == spec.tenantId &&
            spc.parameters["clientID"] == spec.clientId &&
            (spc.annotations == if Collected(codec, secrets) == map[] then None else Some(Collected(codec, secrets))) &&
            |spc.ownerReferences| == 1
    ensures var owner := Desired(spec, marshal, codec, secrets).ownerReferences[0];
            owner.apiVersion == spec.apiVersion && owner.kind == spec.kind && owner.name == spec.name &&
            owner.uid == spec.uid && owner.controller && (owner.blockOwnerDeletion <==> spec.cascade)
  {
    FourParameters(spec.keyvaultName, spec.tenantId, spec.clientId, ObjectsText(marshal, secrets));
  }

  /** Tag fidelity tag by tag: what the watcher extracts for a vault secret is, for every key,
      the value of its own tag, if the secret opted in. */
  lemma TagFidelityByTag(codec: LabelCodec, secrets: seq<VaultItem>, s: VaultItem, k: string)
    requires Lossless(codec) && DotFreeNames(secrets) && DistinctBy(ItemNames(secrets), Id) && s in secrets
    ensures var optedIn := IsTrue(s.tags, "sync") || IsTrue(s.tags, "secret-object");
            Lookup(Some(ExtractedAnnotations(Collected(codec, secrets), s.name)), k) ==
              (if optedIn && k != "" && "k8s-annotation." + k in s.tags then s.tags["k8s-annotation." + k] else None) &&
            Lookup(Some(ExtractedLabels(codec, Collected(codec, secrets), s.name)), k) ==
              (if optedIn && k != "" && "k8s-label." + k in s.tags then s.tags["k8s-label." + k] else None)
  {
    TagFidelity(codec, secrets, s);
    AnnotationTag(s.tags, k);
    LabelTag(s.tags, k);
  }
}
