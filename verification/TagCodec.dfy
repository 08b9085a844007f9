/** Vault tags carried to Kubernetes metadata through the annotations of a
    SecretProviderClass. */
module TagCodec {
  import opened GoStrings
  import opened SecretMetadata

  const TAG_ANNOTATION_PREFIX := "k8s-annotation."
  const TAG_LABEL_PREFIX := "k8s-label."
  const SPC_ANNOTATION_PREFIX := "secret-metadata.azure-keyvault-sync.io/"
  const SPC_LABEL_PREFIX := "secret-label.azure-keyvault-sync.io/"

  /** Tag values are pointers in the source; None is the nil pointer. */
  type Tags = map<string, Option<string>>

  function NonNil(tags: Tags): StringMap {
    map t | t in tags && tags[t].Some? :: tags[t].value
  }

  function Suffixes(prefix: string, m: StringMap): (keys: set<string>)
    ensures forall k :: k in keys <==> k != "" && prefix + k in m
  {
    var keys := set t | t in m && prefix <= t && |t| > |prefix| :: t[|prefix|..];
    assert forall k :: prefix <= prefix + k && (prefix + k)[|prefix|..] == k;
    assert forall t :: prefix <= t ==> prefix + t[|prefix|..] == t;
    assert forall k :: k != "" && prefix + k in m ==> k in keys by {
      forall k | k != "" && prefix + k in m
        ensures k in keys
      {
        assert (prefix + k)[|prefix|..] == k;
      }
    }
    keys
  }

  /** The entries under a prefix, with the prefix taken off and empty rests dropped. */
  function StripPrefix(prefix: string, m: StringMap): (r: StringMap)
    ensures forall k :: k in r <==> k != "" && prefix + k in m
    ensures forall k :: k in r ==> r[k] == m[prefix + k]
  {
    map k | k in Suffixes(prefix, m) :: m[prefix + k]
  }

  function Prefixed(prefix: string, m: StringMap): (keys: set<string>)
    ensures forall t :: t in keys <==> prefix <= t && t[|prefix|..] in m
  {
    var keys := set k | k in m :: prefix + k;
    assert forall t :: t in keys ==> prefix <= t && t[|prefix|..] in m by {
      forall t | t in keys
        ensures prefix <= t && t[|prefix|..] in m
      {
        var k :| k in m && t == prefix + k;
        assert t[|prefix|..] == k;
      }
    }
    assert forall t :: prefix <= t ==> prefix + t[|prefix|..] == t;
    keys
  }

  /** The same entries under longer keys. */
  function AddPrefix(prefix: string, m: StringMap): (r: StringMap)
    ensures forall t :: t in r <==> prefix <= t && t[|prefix|..] in m
    ensures forall t :: t in r ==> r[t] == m[t[|prefix|..]]
  {
    map t | t in Prefixed(prefix, m) :: m[t[|prefix|..]]
  }

  /** The annotations the vault asks for: non-nil tags with a non-empty key after the prefix. */
  function TagAnnotations(tags: Tags): StringMap {
    StripPrefix(TAG_ANNOTATION_PREFIX, NonNil(tags))
  }

  function TagLabels(tags: Tags): StringMap {
    StripPrefix(TAG_LABEL_PREFIX, NonNil(tags))
  }

  function OwnPrefix(secretName: string): string {
    SPC_ANNOTATION_PREFIX + secretName + "."
  }

  function TransformedAnnotations(secretName: string, tags: Tags): StringMap {
    AddPrefix(OwnPrefix(secretName), TagAnnotations(tags))
  }

  function ExtractedAnnotations(spcAnnotations: StringMap, secretName: string): StringMap {
    StripPrefix(OwnPrefix(secretName), spcAnnotations)
  }

  /** JSON text of a string map, kept abstract: what json.Marshal and json.Unmarshal do. */
  datatype LabelCodec = LabelCodec(encode: StringMap -> string, decode: string -> Option<StringMap>)

  ghost predicate Lossless(codec: LabelCodec) {
    forall m: StringMap :: codec.encode(m) != "" && codec.decode(codec.encode(m)) == Some(m)
  }

  function LabelEntry(codec: LabelCodec, key: string, labels: StringMap): StringMap {
    if labels == map[] then map[] else map[key := codec.encode(labels)]
  }

  function TransformedLabels(codec: LabelCodec, secretName: string, tags: Tags): StringMap {
    LabelEntry(codec, SPC_LABEL_PREFIX + secretName, TagLabels(tags))
  }

  function ReadLabels(codec: LabelCodec, spcAnnotations: StringMap, key: string): StringMap {
    if key !in spcAnnotations || spcAnnotations[key] == "" then map[]
    else match codec.decode(spcAnnotations[key])
      case Some(labels) => labels
      case None => map[]
  }

  /** ExtractLabelsForSecret */
  function ExtractedLabels(codec: LabelCodec, spcAnnotations: StringMap, secretName: string): StringMap {
    ReadLabels(codec, spcAnnotations, SPC_LABEL_PREFIX + secretName)
  }

  // ----- The loops

  lemma AddPrefixNext(prefix: string, m: StringMap, k: string, v: string)
    ensures AddPrefix(prefix, m[k := v]) == AddPrefix(prefix, m)[prefix + k := v]
  {
    var a, b := AddPrefix(prefix, m[k := v]), AddPrefix(prefix, m)[prefix + k := v];
    assert (prefix + k)[|prefix|..] == k;
    forall t
      ensures t in a <==> t in b
      ensures t in a ==> a[t] == b[t]
    {
      if prefix <= t && t[|prefix|..] == k {
        assert t == prefix + k;
      }
    }
    assert a.Keys == b.Keys;
  }

  predicate IsLonger(prefix: string, key: string) {
    prefix <= key && key[|prefix|..] != ""
  }

  lemma StripNextAt(prefix: string, m: StringMap, key: string, v: string, k: string)
    ensures Lookup(Some(StripPrefix(prefix, m[key := v])), k) ==
            if k != "" && prefix + k == key then Some(v) else Lookup(Some(StripPrefix(prefix, m)), k)
  {}

  lemma SuffixIff(prefix: string, key: string, k: string)
    ensures prefix + k == key <==> prefix <= key && key[|prefix|..] == k
  {
    assert (prefix + k)[|prefix|..] == k;
    assert prefix <= key ==> prefix + key[|prefix|..] == key;
  }

  lemma SameLookups(a: StringMap, b: StringMap)
    requires forall k :: Lookup(Some(a), k) == Lookup(Some(b), k)
    ensures a == b
  {
    forall k
      ensures k in a <==> k in b
      ensures k in a ==> a[k] == b[k]
    {
      assert Lookup(Some(a), k) == Lookup(Some(b), k);
    }
    assert a.Keys == b.Keys;
  }

  lemma StripNext(prefix: string, m: StringMap, key: string, v: string)
    ensures StripPrefix(prefix, m[key := v]) ==
            if IsLonger(prefix, key) then StripPrefix(prefix, m)[key[|prefix|..] := v] else StripPrefix(prefix, m)
  {
    var a, s := StripPrefix(prefix, m[key := v]), StripPrefix(prefix, m);
    var b := if IsLonger(prefix, key) then s[key[|prefix|..] := v] else s;
    forall k
      ensures Lookup(Some(a), k) == Lookup(Some(b), k)
    {
      StripNextAt(prefix, m, key, v, k);
      SuffixIff(prefix, key, k);
    }
    SameLookups(a, b);
  }

  /** The part of a map that a range loop has visited when these keys are still to come. */
  function Visited(m: StringMap, pending: set<string>): StringMap {
    m - pending
  }

  lemma VisitNext(m: StringMap, pending: set<string>, key: string)
    requires key in pending
    ensures key in m ==> Visited(m, pending - {key}) == Visited(m, pending)[key := m[key]]
    ensures key !in m ==> Visited(m, pending - {key}) == Visited(m, pending)
  {}

  lemma NothingVisited(prefix: string, m: StringMap, pending: set<string>)
    requires m.Keys <= pending
    ensures StripPrefix(prefix, Visited(m, pending)) == map[] && AddPrefix(prefix, map[]) == map[]
  {
    assert Visited(m, pending).Keys == {};
    assert StripPrefix(prefix, Visited(m, pending)).Keys == {};
    var none: StringMap := map[];
    assert AddPrefix(prefix, none).Keys == {};
  }

  /** TransformTagsToSPCAnnotations */
  method TransformTagsToSPCAnnotations(secretName: string, tags: Tags) returns (annotations: StringMap)
    ensures annotations == TransformedAnnotations(secretName, tags)
  {
    ghost var m := NonNil(tags);
    var own := OwnPrefix(secretName);
    var p := TAG_ANNOTATION_PREFIX;
    annotations := map[];
    var pending := tags.Keys;
    NothingVisited(p, m, pending);
    NothingVisited(own, m, pending);
    while pending != {}
      invariant pending <= tags.Keys
      invariant annotations == AddPrefix(own, StripPrefix(p, Visited(m, pending)))
    {
      var tagKey :| tagKey in pending;
      VisitNext(m, pending, tagKey);
      if tags[tagKey].Some? {
        StripNext(p, Visited(m, pending), tagKey, tags[tagKey].value);
      }
      ghost var before := StripPrefix(p, Visited(m, pending));
      pending := pending - {tagKey};
      if !(p <= tagKey) || tags[tagKey].None? || tagKey[|p|..] == "" {
        continue;
      }
      var annotationKey := tagKey[|p|..];
      AddPrefixNext(own, before, annotationKey, tags[tagKey].value);
      var spcKey := own + annotationKey;
      annotations := annotations[spcKey := tags[tagKey].value];
    }
    assert Visited(m, {}) == m;
  }

  /** ExtractAnnotationsForSecret */
  method ExtractAnnotationsForSecret(spcAnnotations: StringMap, secretName: string) returns (annotations: StringMap)
    ensures annotations == ExtractedAnnotations(spcAnnotations, secretName)
  {
    var prefix := OwnPrefix(secretName);
    annotations := map[];
    var pending := spcAnnotations.Keys;
    NothingVisited(prefix, spcAnnotations, pending);
    while pending != {}
      invariant pending <= spcAnnotations.Keys
      invariant annotations == StripPrefix(prefix, Visited(spcAnnotations, pending))
    {
      var spcKey :| spcKey in pending;
      VisitNext(spcAnnotations, pending, spcKey);
      StripNext(prefix, Visited(spcAnnotations, pending), spcKey, spcAnnotations[spcKey]);
      pending := pending - {spcKey};
      if !(prefix <= spcKey) || spcKey[|prefix|..] == "" {
        continue;
      }
      annotations := annotations[spcKey[|prefix|..] := spcAnnotations[spcKey]];
    }
    assert Visited(spcAnnotations, {}) == spcAnnotations;
  }

  /** The loop of TransformTagsToSPCLabels. */
  method CollectLabels(tags: Tags) returns (labels: StringMap)
    ensures labels == TagLabels(tags)
  {
    ghost var m := NonNil(tags);
    var p := TAG_LABEL_PREFIX;
    labels := map[];
    var pending := tags.Keys;
    NothingVisited(p, m, pending);
    while pending != {}
      invariant pending <= tags.Keys
      invariant labels == StripPrefix(p, Visited(m, pending))
    {
      var tagKey :| tagKey in pending;
      VisitNext(m, pending, tagKey);
      if tags[tagKey].Some? {
        StripNext(p, Visited(m, pending), tagKey, tags[tagKey].value);
      }
      pending := pending - {tagKey};
      if !(p <= tagKey) || tags[tagKey].None? || tagKey[|p|..] == "" {
        continue;
      }
      labels := labels[tagKey[|p|..] := tags[tagKey].value];
    }
    assert Visited(m, {}) == m;
  }

  /** TransformTagsToSPCLabels */
  method TransformTagsToSPCLabels(codec: LabelCodec, secretName: string, tags: Tags) returns (annotations: StringMap)
    ensures annotations == TransformedLabels(codec, secretName, tags)
  {
    var labels := CollectLabels(tags);
    if |labels| == 0 {
      assert labels == map[];
      return map[];
    }
    return map[SPC_LABEL_PREFIX + secretName := codec.encode(labels)];
  }

  // ----- Who reads whose entries

  lemma AddedEntry(prefix: string, m: StringMap, k: string)
    ensures prefix + k in AddPrefix(prefix, m) <==> k in m
    ensures k in m ==> AddPrefix(prefix, m)[prefix + k] == m[k]
  {
    assert (prefix + k)[|prefix|..] == k;
  }

  lemma StripAdded(prefix: string, m: StringMap)
    requires "" !in m
    ensures StripPrefix(prefix, AddPrefix(prefix, m)) == m
  {
    var added := AddPrefix(prefix, m);
    var r := StripPrefix(prefix, added);
    forall k
      ensures k in r <==> k in m
      ensures k in m ==> r[k] == m[k]
    {
      AddedEntry(prefix, m, k);
    }
    assert r.Keys == m.Keys;
  }

  lemma StripUnion(prefix: string, a: StringMap, b: StringMap)
    ensures StripPrefix(prefix, a + b) == StripPrefix(prefix, a) + StripPrefix(prefix, b)
  {}

  /** Neither text begins with the other. */
  predicate Apart(a: string, b: string) {
    !(a <= b) && !(b <= a)
  }

  lemma StripApart(p: string, q: string, m: StringMap)
    requires Apart(p, q)
    ensures StripPrefix(p, AddPrefix(q, m)) == map[]
  {
    var r := StripPrefix(p, AddPrefix(q, m));
    forall k
      ensures k !in r
    {
      if q <= p + k {
        TwoPrefixes(p, q, p + k);
      }
    }
    assert r.Keys == {};
  }

  lemma TwoPrefixes(p: string, q: string, t: string)
    requires p <= t && q <= t
    ensures p <= q || q <= p
  {
    assert p == t[..|p|] && q == t[..|q|];
    if |p| <= |q| {
      assert q[..|p|] == p;
    } else {
      assert p[..|q|] == q;
    }
  }

  lemma OwnPrefixesApart(a: string, b: string)
    ensures Apart(OwnPrefix(a), OwnPrefix(b)) <==> Apart(a + ".", b + ".")
  {
    PrependPrefix(SPC_ANNOTATION_PREFIX, a + ".", b + ".");
    PrependPrefix(SPC_ANNOTATION_PREFIX, b + ".", a + ".");
    assert OwnPrefix(a) == SPC_ANNOTATION_PREFIX + (a + ".");
    assert OwnPrefix(b) == SPC_ANNOTATION_PREFIX + (b + ".");
  }

  lemma PrependPrefix(p: string, a: string, b: string)
    ensures p + a <= p + b <==> a <= b
  {
    if p + a <= p + b {
      assert a == (p + a)[|p|..] && b == (p + b)[|p|..];
      assert (p + b)[..|p + a|] == p + a;
      assert b[..|a|] == (p + b)[|p|..|p + a|] == a;
    }
    if a <= b {
      assert (p + b)[..|p + a|] == p + b[..|a|];
    }
  }

  /** A secret's annotations never show up under another name, whatever the tags, exactly
      when neither "name." is a prefix of the other. */
  lemma BleedIff(reader: string, owner: string)
    ensures (forall m: StringMap :: "" !in m ==>
            StripPrefix(OwnPrefix(reader), AddPrefix(OwnPrefix(owner), m)) == map[])
            <==> Apart(reader + ".", owner + ".")
  {
    OwnPrefixesApart(reader, owner);
    var p, q := OwnPrefix(reader), OwnPrefix(owner);
    if Apart(p, q) {
      forall m: StringMap {
        StripApart(p, q, m);
      }
    } else {
      var m, k := BleedWitness(p, q);
      assert k in StripPrefix(p, AddPrefix(q, m));
    }
  }

  lemma BleedWitness(p: string, q: string) returns (m: StringMap, key: string)
    requires !Apart(p, q)
    ensures "" !in m && key in StripPrefix(p, AddPrefix(q, m))
  {
    if p <= q {
      m, key := map["k" := "v"], q[|p|..] + "k";
      assert p + key == q + "k";
      AddedEntry(q, m, "k");
    } else {
      key := "k";
      var rest := p[|q|..] + key;
      m := map[rest := "v"];
      assert q + rest == p + key;
      AddedEntry(q, m, rest);
    }
  }

  predicate DotFree(name: string) {
    '.' !in name
  }

  lemma DotFreeNamesApart(a: string, b: string)
    requires DotFree(a) && DotFree(b) && a != b
    ensures Apart(a + ".", b + ".")
  {
    if a + "." <= b + "." {
      DottedPrefix(a, b);
    }
    if b + "." <= a + "." {
      DottedPrefix(b, a);
    }
  }

  lemma DottedPrefix(a: string, b: string)
    requires a + "." <= b + "." && a != b
    ensures '.' in b
  {
    assert (b + ".")[..|a|] == (a + ".")[..|a|] == a;
    assert (b + ".")[..|b|] == b;
    assert (b + ".")[|a|] == (a + ".")[|a|] == '.';
    assert (b + ".")[|a|] == b[|a|];
  }

  lemma LabelKeysApart(name: string, key: string)
    ensures !(OwnPrefix(name) <= SPC_LABEL_PREFIX + key)
    ensures forall m: StringMap :: SPC_LABEL_PREFIX + key !in AddPrefix(OwnPrefix(name), m)
  {
    assert SPC_ANNOTATION_PREFIX[7] == 'm' && SPC_LABEL_PREFIX[7] == 'l';
    assert OwnPrefix(name)[7] == 'm' && (SPC_LABEL_PREFIX + key)[7] == 'l';
  }

  lemma LabelKeyInjective(a: string, b: string)
    requires SPC_LABEL_PREFIX + a == SPC_LABEL_PREFIX + b
    ensures a == b
  {
    assert a == (SPC_LABEL_PREFIX + a)[|SPC_LABEL_PREFIX|..];
    assert b == (SPC_LABEL_PREFIX + b)[|SPC_LABEL_PREFIX|..];
  }

  /** Which tags ask for an annotation: the value of "k8s-annotation.k", unless it is nil. */
  lemma AnnotationTag(tags: Tags, k: string)
    ensures Lookup(Some(TagAnnotations(tags)), k) ==
            if k != "" && "k8s-annotation." + k in tags then tags["k8s-annotation." + k] else None
  {}

  /** And which for a label: the value of "k8s-label.k". */
  lemma LabelTag(tags: Tags, k: string)
    ensures Lookup(Some(TagLabels(tags)), k) ==
            if k != "" && "k8s-label." + k in tags then tags["k8s-label." + k] else None
  {}

  /** The SecretProviderClass annotation that carries one: the secret's name and a dot stand
      between the fixed prefix and the key. */
  lemma CarriedAnnotation(secretName: string, tags: Tags, k: string)
    ensures Lookup(Some(TransformedAnnotations(secretName, tags)),
                   "secret-metadata.azure-keyvault-sync.io/" + secretName + "." + k) ==
            if k != "" && "k8s-annotation." + k in tags then tags["k8s-annotation." + k] else None
  {
    AddedEntry(OwnPrefix(secretName), TagAnnotations(tags), k);
    AnnotationTag(tags, k);
  }

  /** The one that carries all labels, and when it is there. */
  lemma CarriedLabels(codec: LabelCodec, secretName: string, tags: Tags)
    requires Lossless(codec)
    ensures var key := "secret-label.azure-keyvault-sync.io/" + secretName;
            var carried := TransformedLabels(codec, secretName, tags);
            (key in carried <==> exists k :: k != "" && "k8s-label." + k in tags && tags["k8s-label." + k].Some?) &&
            (key in carried ==> codec.decode(carried[key]) == Some(TagLabels(tags))) &&
            forall other <- carried :: other == key
  {
    if TagLabels(tags) != map[] {
      var k :| k in TagLabels(tags);
      LabelTag(tags, k);
    }
    if k :| k != "" && "k8s-label." + k in tags && tags["k8s-label." + k].Some? {
      LabelTag(tags, k);
      assert k in TagLabels(tags);
    }
  }

  /** What is read back as labels: the decoded text under the secret's own key, and none if it
      is missing, empty or cannot be decoded. */
  lemma ReadLabelsSpelledOut(codec: LabelCodec, spcAnnotations: StringMap, secretName: string)
    ensures var key := "secret-label.azure-keyvault-sync.io/" + secretName;
            ExtractedLabels(codec, spcAnnotations, secretName) ==
            if key in spcAnnotations && spcAnnotations[key] != "" && codec.decode(spcAnnotations[key]).Some?
            then codec.decode(spcAnnotations[key]).value
            else map[]
  {}
}
