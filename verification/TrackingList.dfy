/** The comma-joined list of managed keys that the controller stores in a tracking annotation. */
module TrackingList {
  import opened GoStrings
  import opened SecretMetadata

  const MANAGED_ANNOTATIONS := "azure-keyvault-sync.io/managed-annotations"
  const MANAGED_LABELS := "azure-keyvault-sync.io/managed-labels"

  /** A key that survives the trip through a comma-joined list. */
  predicate CleanKey(key: string) {
    key != "" && ',' !in key && Trimmed(key)
  }

  ghost predicate CleanKeys(keys: set<string>) {
    forall k <- keys :: CleanKey(k)
  }

  /** The entries of a split list: trimmed, blank ones dropped. */
  function TrimmedEntries(parts: seq<string>): seq<string> {
    if parts == [] then []
    else
      var trimmed := TrimSpace(parts[0]);
      (if trimmed != "" then [trimmed] else []) + TrimmedEntries(parts[1..])
  }

  function KeysIn(text: string): seq<string> {
    TrimmedEntries(Split(text, ','))
  }

  /** The keys a Secret's tracking annotation names; none when the annotation is absent. */
  function ManagedKeys(annotations: Option<StringMap>, trackingKey: string): seq<string> {
    match Lookup(annotations, trackingKey)
    case None => []
    case Some(text) => KeysIn(text)
  }

  /** The list text for a set of keys. */
  ghost function ManagedText(keys: set<string>): string {
    Join(SortedKeys(keys), ',')
  }

  lemma {:induction false} EntriesAppend(first: seq<string>, last: string)
    ensures TrimmedEntries(first + [last]) == TrimmedEntries(first) + TrimmedEntries([last])
  {
    if first == [] {
      assert first + [last] == [last];
      assert TrimmedEntries(first) == [];
    } else {
      assert (first + [last])[0] == first[0] && (first + [last])[1..] == first[1..] + [last];
      EntriesAppend(first[1..], last);
    }
  }

  lemma {:induction false} CleanEntries(parts: seq<string>)
    requires forall p <- parts :: CleanKey(p)
    ensures TrimmedEntries(parts) == parts
  {
    if parts != [] {
      assert CleanKey(parts[0]);
      CleanEntries(parts[1..]);
    }
  }

  lemma {:induction false} EntriesAreClean(parts: seq<string>)
    requires forall p <- parts :: ',' !in p
    ensures forall k <- TrimmedEntries(parts) :: CleanKey(k)
  {
    if parts != [] {
      EntriesAreClean(parts[1..]);
      assert ',' !in parts[0];
      assert ',' !in TrimSpace(parts[0]);
    }
  }

  /** Whatever text the annotation holds, every key read from it is clean. */
  lemma ReadKeysAreClean(text: string)
    ensures forall k <- KeysIn(text) :: CleanKey(k)
  {
    SplitPartsAreClean(text, ',');
    EntriesAreClean(Split(text, ','));
  }

  /** Reading back a written list gives the keys, sorted, complete and without repetition,
      exactly when every key is clean. */
  lemma ListRoundTrip(keys: set<string>)
    ensures KeysIn(ManagedText(keys)) == SortedKeys(keys) <==> CleanKeys(keys)
  {
    var sorted := SortedKeys(keys);
    if CleanKeys(keys) {
      if keys == {} {
        assert sorted == [];
        assert Split("", ',') == [""];
        assert TrimmedEntries([""]) == [];
      } else {
        assert sorted != [];
        assert forall p <- sorted :: CleanKey(p);
        SplitJoin(sorted, ',');
        CleanEntries(sorted);
      }
    } else {
      ReadKeysAreClean(ManagedText(keys));
    }
  }

  lemma TextIsEmptyOnlyForNoKeys(keys: set<string>)
    requires "" !in keys
    ensures ManagedText(keys) == "" <==> keys == {}
  {
    var sorted := SortedKeys(keys);
    if keys != {} {
      assert sorted != [];
      assert sorted[0] in keys;
    }
  }

  /** getPreviouslyManagedMetadata */
  method GetPreviouslyManagedMetadata(annotations: Option<StringMap>, trackingKey: string) returns (result: seq<string>)
    ensures result == ManagedKeys(annotations, trackingKey)
  {
    if annotations.None? {
      return [];
    }
    if trackingKey !in annotations.value || annotations.value[trackingKey] == "" {
      assert Split("", ',') == [""];
      assert TrimmedEntries([""]) == [];
      return [];
    }
    var keys := Split(annotations.value[trackingKey], ',');
    result := [];
    for i := 0 to |keys|
      invariant result == TrimmedEntries(keys[..i])
    {
      assert keys[..i + 1] == keys[..i] + [keys[i]];
      EntriesAppend(keys[..i], keys[i]);
      var trimmed := TrimSpace(keys[i]);
      if trimmed != "" {
        result := result + [trimmed];
      }
    }
    assert keys[..|keys|] == keys;
  }

  /** buildManagedMetadataList */
  method BuildManagedMetadataList(metadata: StringMap) returns (text: string)
    ensures text == ManagedText(metadata.Keys)
  {
    if |metadata| == 0 {
      assert metadata.Keys == {};
      assert SortedKeys(metadata.Keys) == [];
      return "";
    }
    var keys: seq<string> := [];
    var pending := metadata.Keys;
    while pending != {}
      invariant pending <= metadata.Keys
      invariant DistinctBy(keys, Id)
      invariant forall k :: k in keys <==> k in metadata.Keys - pending
    {
      var key :| key in pending;
      AppendDistinct(keys, key);
      keys := keys + [key];
      pending := pending - {key};
    }
    var sorted := SortBy(keys, Id);
    SortKeepsDistinct(keys, Id);
    SortKeepsElements(keys, Id);
    SortedOrderIsUnique(sorted, SortedKeys(metadata.Keys), Id);
    text := Join(sorted, ',');
  }
}
