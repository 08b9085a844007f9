/** The annotations and labels of a Secret, the JSON document the API server patches, and
    the operation list of patchSecretMetadata. */
module SecretMetadata {
  import opened GoStrings
  import opened JsonPointer
  import opened JsonPatch

  type StringMap = map<string, string>

  /** A Secret's two metadata maps. None is Go's nil map: the document then has no such member. */
  datatype Secret = Secret(annotations: Option<StringMap>, labels: Option<StringMap>)

  datatype Section = Annotations | Labels

  function SectionName(section: Section): string {
    match section
    case Annotations => "annotations"
    case Labels => "labels"
  }

  function Get(s: Secret, section: Section): Option<StringMap> {
    match section
    case Annotations => s.annotations
    case Labels => s.labels
  }

  function Put(s: Secret, section: Section, m: Option<StringMap>): (t: Secret)
    ensures Get(t, section) == m
    ensures forall other :: other != section ==> Get(t, other) == Get(s, other)
  {
    match section
    case Annotations => s.(annotations := m)
    case Labels => s.(labels := m)
  }

  /** Reading a Go map: nil maps have no entries. */
  function Lookup(m: Option<StringMap>, key: string): Option<string> {
    if m.Some? && key in m.value then Some(m.value[key]) else None
  }

  // ----- The document

  /** Everything in the document that the controller never touches. */
  datatype Rest = Rest(top: map<string, Json>, metadata: map<string, Json>)

  function ToJson(m: StringMap): Json {
    Object(map k | k in m :: Text(m[k]))
  }

  function Member(section: Section, m: Option<StringMap>): map<string, Json> {
    if m.None? then map[] else map[SectionName(section) := ToJson(m.value)]
  }

  function MetadataMembers(s: Secret, rest: Rest): map<string, Json> {
    (rest.metadata - {"annotations", "labels"}) + Member(Annotations, s.annotations) + Member(Labels, s.labels)
  }

  function Document(s: Secret, rest: Rest): Json {
    Object(rest.top["metadata" := Object(MetadataMembers(s, rest))])
  }

  lemma NamesDiffer()
    ensures SectionName(Annotations) != SectionName(Labels)
    ensures PlainName("metadata") && PlainName(SectionName(Annotations)) && PlainName(SectionName(Labels))
  {
    assert SectionName(Annotations)[0] == 'a' && SectionName(Labels)[0] == 'l';
  }

  lemma MemberOf(s: Secret, rest: Rest, section: Section)
    ensures Get(s, section).None? ==> SectionName(section) !in MetadataMembers(s, rest)
    ensures Get(s, section).Some? ==>
              SectionName(section) in MetadataMembers(s, rest) &&
              MetadataMembers(s, rest)[SectionName(section)] == ToJson(Get(s, section).value)
  {
    NamesDiffer();
  }

  lemma MemberUpdate(s: Secret, rest: Rest, section: Section, m: StringMap)
    ensures MetadataMembers(s, rest)[SectionName(section) := ToJson(m)] ==
            MetadataMembers(Put(s, section, Some(m)), rest)
  {
    NamesDiffer();
    var before := MetadataMembers(s, rest);
    var after := MetadataMembers(Put(s, section, Some(m)), rest);
    assert before[SectionName(section) := ToJson(m)].Keys == after.Keys;
  }

  lemma ToJsonInjective(a: StringMap, b: StringMap)
    requires ToJson(a) == ToJson(b)
    ensures a == b
  {
    var ja, jb := ToJson(a).members, ToJson(b).members;
    assert a.Keys == ja.Keys && b.Keys == jb.Keys;
    forall k | k in a
      ensures a[k] == b[k]
    {
      assert ja[k] == Text(a[k]) && jb[k] == Text(b[k]);
    }
  }

  /** The stored document determines the Secret. */
  lemma DocumentInjective(a: Secret, b: Secret, rest: Rest)
    requires Document(a, rest) == Document(b, rest)
    ensures a == b
  {
    assert rest.top["metadata" := Object(MetadataMembers(a, rest))]["metadata"] ==
           rest.top["metadata" := Object(MetadataMembers(b, rest))]["metadata"];
    forall section: Section
      ensures Get(a, section) == Get(b, section)
    {
      MemberOf(a, rest, section);
      MemberOf(b, rest, section);
      if Get(a, section).Some? && Get(b, section).Some? {
        ToJsonInjective(Get(a, section).value, Get(b, section).value);
      }
    }
    assert Get(a, Annotations) == Get(b, Annotations) && Get(a, Labels) == Get(b, Labels);
  }

  // ----- One operation on the document

  function EntryPath(section: Section, key: string): string {
    "/metadata/" + SectionName(section) + "/" + EscapeToken(key)
  }

  function MapPath(section: Section): string {
    "/metadata/" + SectionName(section)
  }

  lemma MetadataPrefix()
    ensures "/metadata/" == "/" + "metadata" + "/"
  {}

  lemma EntryPathTokens(section: Section, key: string)
    ensures ParsePointer(EntryPath(section, key)) == Some(["metadata", SectionName(section), key])
  {
    NamesDiffer();
    EntryPointer("metadata", SectionName(section), key);
    MetadataPrefix();
  }

  lemma MapPathTokens(section: Section)
    ensures ParsePointer(MapPath(section)) == Some(["metadata", SectionName(section)])
  {
    NamesDiffer();
    PlainPointer("metadata", SectionName(section));
    MetadataPrefix();
  }

  lemma ReplaceMetadata(s: Secret, rest: Rest, section: Section, m: StringMap)
    ensures Object(rest.top["metadata" := Object(MetadataMembers(s, rest))]
                   ["metadata" := Object(MetadataMembers(s, rest)[SectionName(section) := ToJson(m)])]) ==
            Document(Put(s, section, Some(m)), rest)
  {
    MemberUpdate(s, rest, section, m);
    var inner := Object(MetadataMembers(s, rest)[SectionName(section) := ToJson(m)]);
    assert rest.top["metadata" := Object(MetadataMembers(s, rest))]["metadata" := inner] ==
           rest.top["metadata" := inner];
  }

  lemma RemoveEntry(s: Secret, rest: Rest, section: Section, key: string)
    ensures ApplyOp(Document(s, rest), Remove(EntryPath(section, key))) ==
            if Lookup(Get(s, section), key).Some?
            then Some(Document(Put(s, section, Some(Get(s, section).value - {key})), rest))
            else None
  {
    EntryPathTokens(section, key);
    MemberOf(s, rest, section);
    var at := ["metadata", SectionName(section), key];
    assert at[1..] == [SectionName(section), key] && at[1..][1..] == [key];
    var doc := Document(s, rest);
    var meta := Object(MetadataMembers(s, rest));
    assert doc.members["metadata"] == meta;
    if Get(s, section).Some? {
      var m := Get(s, section).value;
      assert ToJson(m).members - {key} == ToJson(m - {key}).members;
      assert RemoveAt(ToJson(m), [key]) == if key in m then Some(ToJson(m - {key})) else None;
      if key in m {
        assert RemoveAt(meta, at[1..]) == Some(Object(meta.members[SectionName(section) := ToJson(m - {key})]));
        ReplaceMetadata(s, rest, section, m - {key});
      } else {
        assert RemoveAt(meta, at[1..]).None?;
      }
    } else {
      assert RemoveAt(meta, at[1..]).None?;
    }
  }

  lemma AddEntry(s: Secret, rest: Rest, section: Section, key: string, value: string)
    ensures ApplyOp(Document(s, rest), Add(EntryPath(section, key), Text(value))) ==
            if Get(s, section).Some?
            then Some(Document(Put(s, section, Some(Get(s, section).value[key := value])), rest))
            else None
  {
    EntryPathTokens(section, key);
    MemberOf(s, rest, section);
    var at := ["metadata", SectionName(section), key];
    assert at[1..] == [SectionName(section), key] && at[1..][1..] == [key];
    var doc := Document(s, rest);
    var meta := Object(MetadataMembers(s, rest));
    assert doc.members["metadata"] == meta;
    if Get(s, section).Some? {
      var m := Get(s, section).value;
      assert ToJson(m).members[key := Text(value)] == ToJson(m[key := value]).members;
      assert AddAt(ToJson(m), [key], Text(value)) == Some(ToJson(m[key := value]));
      assert AddAt(meta, at[1..], Text(value)) ==
             Some(Object(meta.members[SectionName(section) := ToJson(m[key := value])]));
      ReplaceMetadata(s, rest, section, m[key := value]);
    } else {
      assert AddAt(meta, at[1..], Text(value)).None?;
    }
  }

  lemma AddEmptyMap(s: Secret, rest: Rest, section: Section)
    ensures ApplyOp(Document(s, rest), Add(MapPath(section), Object(map[]))) ==
            Some(Document(Put(s, section, Some(map[])), rest))
  {
    MapPathTokens(section);
    var at := ["metadata", SectionName(section)];
    assert at[1..] == [SectionName(section)];
    var doc := Document(s, rest);
    var meta := Object(MetadataMembers(s, rest));
    assert doc.members["metadata"] == meta;
    var none: StringMap := map[];
    assert Object(map[]) == ToJson(none);
    assert AddAt(meta, at[1..], ToJson(none)) == Some(Object(meta.members[SectionName(section) := ToJson(none)]));
    ReplaceMetadata(s, rest, section, map[]);
  }

  // ----- The operation list of patchSecretMetadata

  /** The four arguments of patchSecretMetadata. */
  datatype Changes = Changes(
    annotationsToAdd: StringMap,
    labelsToAdd: StringMap,
    annotationsToRemove: seq<string>,
    labelsToRemove: seq<string>)

  function ToAdd(c: Changes, section: Section): StringMap {
    match section
    case Annotations => c.annotationsToAdd
    case Labels => c.labelsToAdd
  }

  function ToRemove(c: Changes, section: Section): seq<string> {
    match section
    case Annotations => c.annotationsToRemove
    case Labels => c.labelsToRemove
  }

  function RemoveOps(section: Section, keys: seq<string>): seq<Op> {
    if keys == [] then [] else [Remove(EntryPath(section, keys[0]))] + RemoveOps(section, keys[1..])
  }

  function AddOps(section: Section, order: seq<string>, add: StringMap): seq<Op>
    requires forall k <- order :: k in add
  {
    if order == [] then []
    else [Add(EntryPath(section, order[0]), Text(add[order[0]]))] + AddOps(section, order[1..], add)
  }

  function EnsureMapOps(section: Section, needed: bool): seq<Op> {
    if needed then [Add(MapPath(section), Object(map[]))] else []
  }

  /** order is one possible iteration of Go's range over the map. */
  ghost predicate IterationOf(order: seq<string>, m: StringMap) {
    DistinctBy(order, Id) && forall k :: k in order <==> k in m
  }

  function SectionAddOps(snapshot: Secret, section: Section, add: StringMap, order: seq<string>): seq<Op>
    requires forall k <- order :: k in add
  {
    EnsureMapOps(section, add != map[] && Get(snapshot, section).None?) + AddOps(section, order, add)
  }

  /** The operations, in the order the controller appends them. */
  function PatchOps(snapshot: Secret, c: Changes, annotationOrder: seq<string>, labelOrder: seq<string>): seq<Op>
    requires forall k <- annotationOrder :: k in c.annotationsToAdd
    requires forall k <- labelOrder :: k in c.labelsToAdd
  {
    RemoveOps(Annotations, c.annotationsToRemove) + RemoveOps(Labels, c.labelsToRemove) +
    SectionAddOps(snapshot, Annotations, c.annotationsToAdd, annotationOrder) +
    SectionAddOps(snapshot, Labels, c.labelsToAdd, labelOrder)
  }

  /** ops is what patchSecretMetadata builds for some iteration order of each map. */
  ghost predicate IsPatchOf(ops: seq<Op>, snapshot: Secret, c: Changes) {
    exists annotationOrder, labelOrder ::
      IterationOf(annotationOrder, c.annotationsToAdd) && IterationOf(labelOrder, c.labelsToAdd) &&
      ops == PatchOps(snapshot, c, annotationOrder, labelOrder)
  }

  // ----- What the operation list does to a live Secret

  /** Every remove finds its target: the map exists, each key is there, none is listed twice. */
  ghost predicate CanRemove(m: Option<StringMap>, keys: seq<string>) {
    keys == [] || (m.Some? && DistinctBy(keys, Id) && forall k <- keys :: k in m.value)
  }

  function Removed(m: Option<StringMap>, keys: seq<string>): Option<StringMap> {
    if keys == [] || m.None? then m else Some(m.value - SetOf(keys))
  }

  /** Every add finds its parent. snapshot is the map the controller saw, m the live one. */
  ghost predicate CanAdd(m: Option<StringMap>, snapshot: Option<StringMap>, add: StringMap) {
    add == map[] || snapshot.None? || m.Some?
  }

  function Added(m: Option<StringMap>, snapshot: Option<StringMap>, add: StringMap): Option<StringMap> {
    if add == map[] then m
    else if snapshot.None? || m.None? then Some(add)
    else Some(m.value + add)
  }

  /** The condition under which the server accepts the patch. */
  ghost predicate Applies(live: Secret, snapshot: Secret, c: Changes) {
    forall section: Section ::
      CanRemove(Get(live, section), ToRemove(c, section)) &&
      CanAdd(Get(live, section), Get(snapshot, section), ToAdd(c, section))
  }

  function Patched(live: Secret, snapshot: Secret, c: Changes): Secret {
    Secret(Added(Removed(live.annotations, c.annotationsToRemove), snapshot.annotations, c.annotationsToAdd),
           Added(Removed(live.labels, c.labelsToRemove), snapshot.labels, c.labelsToAdd))
  }

  lemma PutTwice(s: Secret, section: Section, a: Option<StringMap>, b: Option<StringMap>)
    ensures Put(Put(s, section, a), section, b) == Put(s, section, b)
    ensures Put(s, section, Get(s, section)) == s
  {}

  lemma {:induction false} RemoveRun(s: Secret, rest: Rest, section: Section, keys: seq<string>)
    ensures Apply(Document(s, rest), RemoveOps(section, keys)) ==
            if CanRemove(Get(s, section), keys)
            then Some(Document(Put(s, section, Removed(Get(s, section), keys)), rest))
            else None
    decreases |keys|
  {
    var m := Get(s, section);
    PutTwice(s, section, m, m);
    if keys != [] {
      var ops := RemoveOps(section, keys);
      RemoveEntry(s, rest, section, keys[0]);
      assert ops[0] == Remove(EntryPath(section, keys[0])) && ops[1..] == RemoveOps(section, keys[1..]);
      if Lookup(m, keys[0]).Some? {
        var smaller := Some(m.value - {keys[0]});
        RemoveRun(Put(s, section, smaller), rest, section, keys[1..]);
        RemoveSplit(m.value, keys);
        PutTwice(s, section, smaller, Removed(smaller, keys[1..]));
      } else {
        assert keys[0] in keys;
        assert !CanRemove(m, keys);
      }
    }
  }

  lemma RemoveSplit(m: StringMap, keys: seq<string>)
    requires keys != [] && keys[0] in m
    ensures CanRemove(Some(m), keys) <==> CanRemove(Some(m - {keys[0]}), keys[1..])
    ensures Removed(Some(m), keys) == Removed(Some(m - {keys[0]}), keys[1..])
  {
    var rest := keys[1..];
    assert keys == [keys[0]] + rest;
    assert SetOf(keys) == {keys[0]} + SetOf(rest);
    assert rest == [] ==> SetOf(keys) == {keys[0]};
    assert m - SetOf(keys) == (m - {keys[0]}) - SetOf(rest);
    if CanRemove(Some(m - {keys[0]}), rest) {
      forall i, j | 0 <= i < j < |keys|
        ensures keys[i] != keys[j]
      {
        assert keys[j] == rest[j - 1];
        if i > 0 { assert keys[i] == rest[i - 1]; }
      }
      assert DistinctBy(keys, Id);
    }
    if CanRemove(Some(m), keys) {
      forall k | k in rest
        ensures k in m - {keys[0]}
      {
        var j :| 0 <= j < |rest| && rest[j] == k;
        assert Id(keys[0]) != Id(keys[j + 1]);
      }
      forall i, j | 0 <= i < j < |rest|
        ensures Id(rest[i]) != Id(rest[j])
      {
        assert Id(keys[i + 1]) != Id(keys[j + 1]);
      }
    }
  }

  function Picked(order: seq<string>, add: StringMap): StringMap
    requires forall k <- order :: k in add
  {
    map k | k in order :: add[k]
  }

  lemma PickedSplit(m: StringMap, order: seq<string>, add: StringMap)
    requires order != [] && forall k <- order :: k in add
    ensures m[order[0] := add[order[0]]] + Picked(order[1..], add) == m + Picked(order, add)
  {
    assert order == [order[0]] + order[1..];
  }

  lemma {:induction false} AddRun(s: Secret, rest: Rest, section: Section, order: seq<string>, add: StringMap)
    requires forall k <- order :: k in add
    requires Get(s, section).Some?
    ensures Apply(Document(s, rest), AddOps(section, order, add)) ==
            Some(Document(Put(s, section, Some(Get(s, section).value + Picked(order, add))), rest))
    decreases |order|
  {
    var m := Get(s, section).value;
    if order == [] {
      assert m + Picked(order, add) == m;
      assert Put(s, section, Some(m)) == s;
    } else {
      AddEntry(s, rest, section, order[0], add[order[0]]);
      assert AddOps(section, order, add)[1..] == AddOps(section, order[1..], add);
      var s' := Put(s, section, Some(m[order[0] := add[order[0]]]));
      AddRun(s', rest, section, order[1..], add);
      PickedSplit(m, order, add);
      assert Put(s', section, Some(m + Picked(order, add))) == Put(s, section, Some(m + Picked(order, add)));
    }
  }

  lemma AddRunWhole(s: Secret, rest: Rest, section: Section, order: seq<string>, add: StringMap)
    requires IterationOf(order, add) && add != map[]
    ensures Apply(Document(s, rest), AddOps(section, order, add)) ==
            if Get(s, section).Some?
            then Some(Document(Put(s, section, Some(Get(s, section).value + add)), rest))
            else None
  {
    var k :| k in add;
    assert k in order;
    assert Picked(order, add) == add;
    if Get(s, section).Some? {
      AddRun(s, rest, section, order, add);
    } else {
      AddEntry(s, rest, section, order[0], add[order[0]]);
    }
  }

  lemma NonEmptyIteration(order: seq<string>, m: StringMap)
    requires IterationOf(order, m) && order != []
    ensures m != map[]
  {
    assert order[0] in m;
  }

  lemma EmptyTheMap(s: Secret, rest: Rest, section: Section)
    ensures Apply(Document(s, rest), EnsureMapOps(section, true)) == Some(Document(Put(s, section, Some(map[])), rest))
  {
    ApplyOne(Document(s, rest), Add(MapPath(section), Object(map[])));
    AddEmptyMap(s, rest, section);
  }

  lemma FillEmptied(s: Secret, rest: Rest, section: Section, add: StringMap, order: seq<string>)
    requires IterationOf(order, add) && add != map[]
    ensures Apply(Document(Put(s, section, Some(map[])), rest), AddOps(section, order, add)) ==
            Some(Document(Put(s, section, Some(add)), rest))
  {
    AddRunWhole(Put(s, section, Some(map[])), rest, section, order, add);
    assert map[] + add == add;
    PutTwice(s, section, Some(map[]), Some(add));
  }

  /** Adding to a map the controller saw as nil: whatever is there now is replaced. */
  lemma AddToMissing(s: Secret, rest: Rest, section: Section, add: StringMap, order: seq<string>)
    requires IterationOf(order, add) && add != map[]
    ensures Apply(Document(s, rest), EnsureMapOps(section, true) + AddOps(section, order, add)) ==
            Some(Document(Put(s, section, Some(add)), rest))
  {
    ApplyConcat(Document(s, rest), EnsureMapOps(section, true), AddOps(section, order, add));
    EmptyTheMap(s, rest, section);
    FillEmptied(s, rest, section, add, order);
  }

  lemma SectionAddRun(s: Secret, rest: Rest, snapshot: Secret, section: Section, add: StringMap, order: seq<string>)
    requires IterationOf(order, add)
    ensures Apply(Document(s, rest), SectionAddOps(snapshot, section, add, order)) ==
            if CanAdd(Get(s, section), Get(snapshot, section), add)
            then Some(Document(Put(s, section, Added(Get(s, section), Get(snapshot, section), add)), rest))
            else None
  {
    PutTwice(s, section, Get(s, section), Get(s, section));
    if add != map[] && Get(snapshot, section).None? {
      AddToMissing(s, rest, section, add, order);
    } else {
      assert SectionAddOps(snapshot, section, add, order) == AddOps(section, order, add);
      if add != map[] {
        AddRunWhole(s, rest, section, order, add);
      } else if order != [] {
        NonEmptyIteration(order, add);
      }
    }
  }

  /** The operation list, run by the RFC 6902 interpreter on any live document, against
      its closed form: it is rejected exactly when Applies fails, whatever the map
      iteration orders, and otherwise changes the two maps as Patched says and nothing else. */
  lemma PatchRun(live: Secret, rest: Rest, snapshot: Secret, c: Changes, annotationOrder: seq<string>,
      labelOrder: seq<string>)
    requires IterationOf(annotationOrder, c.annotationsToAdd) && IterationOf(labelOrder, c.labelsToAdd)
    ensures Apply(Document(live, rest), PatchOps(snapshot, c, annotationOrder, labelOrder)) ==
            if Applies(live, snapshot, c) then Some(Document(Patched(live, snapshot, c), rest)) else None
  {
    var r1 := RemoveOps(Annotations, c.annotationsToRemove);
    var r2 := RemoveOps(Labels, c.labelsToRemove);
    var a1 := SectionAddOps(snapshot, Annotations, c.annotationsToAdd, annotationOrder);
    var a2 := SectionAddOps(snapshot, Labels, c.labelsToAdd, labelOrder);
    var doc := Document(live, rest);
    ApplyConcat(doc, r1 + r2 + a1, a2);
    ApplyConcat(doc, r1 + r2, a1);
    ApplyConcat(doc, r1, r2);
    AppliesBySection(live, snapshot, c);
    RemoveRun(live, rest, Annotations, c.annotationsToRemove);
    if CanRemove(live.annotations, c.annotationsToRemove) {
      var s1 := Put(live, Annotations, Removed(live.annotations, c.annotationsToRemove));
      RemoveRun(s1, rest, Labels, c.labelsToRemove);
      if CanRemove(live.labels, c.labelsToRemove) {
        var s2 := Put(s1, Labels, Removed(live.labels, c.labelsToRemove));
        SectionAddRun(s2, rest, snapshot, Annotations, c.annotationsToAdd, annotationOrder);
        if CanAdd(live.annotations, snapshot.annotations, c.annotationsToAdd) {
          var s3 := Put(s2, Annotations, Added(s2.annotations, snapshot.annotations, c.annotationsToAdd));
          SectionAddRun(s3, rest, snapshot, Labels, c.labelsToAdd, labelOrder);
        }
      }
    }
  }

  lemma AppliesBySection(live: Secret, snapshot: Secret, c: Changes)
    ensures Applies(live, snapshot, c) <==>
            CanRemove(live.annotations, c.annotationsToRemove) && CanRemove(live.labels, c.labelsToRemove) &&
            CanAdd(live.annotations, snapshot.annotations, c.annotationsToAdd) &&
            CanAdd(live.labels, snapshot.labels, c.labelsToAdd)
  {
    assert Applies(live, snapshot, c) ==>
      CanRemove(Get(live, Annotations), ToRemove(c, Annotations)) &&
      CanRemove(Get(live, Labels), ToRemove(c, Labels)) &&
      CanAdd(Get(live, Annotations), Get(snapshot, Annotations), ToAdd(c, Annotations)) &&
      CanAdd(Get(live, Labels), Get(snapshot, Labels), ToAdd(c, Labels));
  }

  // ----- The document in Kubernetes' own terms

  /** Annotations and labels stand under these names in "metadata", as objects of strings, and
      a nil map has no member. */
  lemma DocumentSpelledOut(s: Secret, rest: Rest)
    ensures Document(s, rest).Object? && "metadata" in Document(s, rest).members
    ensures Document(s, rest).members["metadata"].Object?
    ensures var metadata := Document(s, rest).members["metadata"].members;
            ("annotations" in metadata <==> s.annotations.Some?) && ("labels" in metadata <==> s.labels.Some?) &&
            (s.annotations.Some? ==> metadata["annotations"] == ToJson(s.annotations.value)) &&
            (s.labels.Some? ==> metadata["labels"] == ToJson(s.labels.value))
  {
    MemberOf(s, rest, Annotations);
    MemberOf(s, rest, Labels);
  }

  /** And these are the paths of their entries. */
  lemma PathsSpelledOut(key: string)
    ensures EntryPath(Annotations, key) == "/metadata/annotations/" + EscapeToken(key)
    ensures EntryPath(Labels, key) == "/metadata/labels/" + EscapeToken(key)
    ensures MapPath(Annotations) == "/metadata/annotations" && MapPath(Labels) == "/metadata/labels"
  {
    assert "/metadata/" + "annotations" + "/" == "/metadata/annotations/";
    assert "/metadata/" + "labels" + "/" == "/metadata/labels/";
    assert "/metadata/" + "annotations" == "/metadata/annotations" && "/metadata/" + "labels" == "/metadata/labels";
  }
}
