/** The comparators of secretObjects lists and annotation maps. */
module SecretObjects {
  import opened GoStrings
  import opened SecretMetadata
  import opened Spc

  // ----- Lists as maps

  function DataKeys(data: seq<SecretObjectData>): (r: seq<string>)
    ensures |r| == |data|
    ensures forall i :: 0 <= i < |r| ==> r[i] == data[i].key
  {
    seq(|data|, i requires 0 <= i < |data| => data[i].key)
  }

  function Names(objects: seq<SecretObject>): (r: seq<string>)
    ensures |r| == |objects|
    ensures forall i :: 0 <= i < |r| ==> r[i] == objects[i].secretName
  {
    seq(|objects|, i requires 0 <= i < |objects| => objects[i].secretName)
  }

  /** Go's map filled in list order: the last entry with a key wins. */
  function DataMap(data: seq<SecretObjectData>): (m: StringMap)
    ensures forall k :: k in m <==> k in DataKeys(data)
  {
    if data == [] then map[]
    else
      var last := data[|data| - 1];
      assert data == data[..|data| - 1] + [last];
      DataMap(data[..|data| - 1])[last.key := last.objectName]
  }

  function ObjectMap(objects: seq<SecretObject>): (m: map<string, SecretObject>)
    ensures forall k :: k in m <==> k in Names(objects)
    ensures forall k :: k in m ==> m[k] in objects && m[k].secretName == k
  {
    if objects == [] then map[]
    else
      var last := objects[|objects| - 1];
      assert objects == objects[..|objects| - 1] + [last];
      ObjectMap(objects[..|objects| - 1])[last.secretName := last]
  }

  lemma DistinctPrefix(xs: seq<string>, n: nat)
    requires DistinctBy(xs, Id) && n <= |xs|
    ensures DistinctBy(xs[..n], Id)
  {
    forall i, j | 0 <= i < j < n
      ensures Id(xs[..n][i]) != Id(xs[..n][j])
    {
      assert Id(xs[i]) != Id(xs[j]);
    }
  }

  lemma {:induction false} DataMapOfDistinct(data: seq<SecretObjectData>, d: SecretObjectData)
    requires DistinctBy(DataKeys(data), Id) && d in data
    ensures DataMap(data)[d.key] == d.objectName
  {
    var n := |data| - 1;
    var last := data[n];
    var keys := DataKeys(data);
    if d != last {
      var j :| 0 <= j < |data| && data[j] == d;
      assert Id(keys[j]) != Id(keys[n]);
      DistinctPrefix(keys, n);
      assert DataKeys(data[..n]) == keys[..n];
      DataMapOfDistinct(data[..n], d);
    }
  }

  lemma {:induction false} ObjectMapOfDistinct(objects: seq<SecretObject>, o: SecretObject)
    requires DistinctBy(Names(objects), Id) && o in objects
    ensures ObjectMap(objects)[o.secretName] == o
  {
    var n := |objects| - 1;
    var last := objects[n];
    var names := Names(objects);
    if o != last {
      var j :| 0 <= j < |objects| && objects[j] == o;
      assert Id(names[j]) != Id(names[n]);
      DistinctPrefix(names, n);
      assert Names(objects[..n]) == names[..n];
      ObjectMapOfDistinct(objects[..n], o);
    }
  }

  /** No name twice, and no key twice in any one object. */
  ghost predicate Proper(objects: seq<SecretObject>) {
    DistinctBy(Names(objects), Id) &&
    forall o <- objects :: DistinctBy(DataKeys(o.data), Id)
  }

  // ----- What the loops test

  predicate DataCovered(existing: StringMap, desired: seq<SecretObjectData>) {
    forall d <- desired :: d.key in existing && existing[d.key] == d.objectName
  }

  /** compareSecretObjects on one pair: type and data, not labels. */
  predicate SameContent(existing: SecretObject, desired: SecretObject) {
    existing.kind == desired.kind &&
    |existing.data| == |desired.data| &&
    DataCovered(DataMap(existing.data), desired.data)
  }

  predicate LooksEqual(existing: seq<SecretObject>, desired: seq<SecretObject>) {
    |existing| == |desired| &&
    var m := ObjectMap(existing);
    forall d <- desired :: d.secretName in m && SameContent(m[d.secretName], d)
  }

  // ----- What it means

  /** Two objects agree on type and on data as a map, and the first repeats no key. */
  ghost predicate SameObject(a: SecretObject, b: SecretObject) {
    a.kind == b.kind && DataMap(a.data) == DataMap(b.data) && DistinctBy(DataKeys(a.data), Id)
  }

  /** Two lists agree as maps from name to object, in any order. */
  ghost predicate Agree(existing: seq<SecretObject>, desired: seq<SecretObject>) {
    DistinctBy(Names(existing), Id) &&
    ObjectMap(existing).Keys == ObjectMap(desired).Keys &&
    forall k <- ObjectMap(desired) :: SameObject(ObjectMap(existing)[k], ObjectMap(desired)[k])
  }

  lemma DistinctCount(xs: seq<string>, ys: seq<string>)
    requires DistinctBy(xs, Id) && DistinctBy(ys, Id)
    requires forall k :: k in xs <==> k in ys
    ensures |xs| == |ys|
  {
    SetOfSize(xs);
    SetOfSize(ys);
    assert SetOf(xs) == SetOf(ys);
  }

  lemma DataEntry(data: seq<SecretObjectData>, k: string)
    requires DistinctBy(DataKeys(data), Id)
    ensures k in DataKeys(data) ==> SecretObjectData(k, DataMap(data)[k]) in data
  {
    if k in DataKeys(data) {
      var j :| 0 <= j < |data| && DataKeys(data)[j] == k;
      DataMapOfDistinct(data, data[j]);
      assert data[j] == SecretObjectData(k, DataMap(data)[k]);
    }
  }

  /** Covering the desired entries is having their keys with their values. */
  lemma CoveredIff(existing: StringMap, data: seq<SecretObjectData>)
    requires DistinctBy(DataKeys(data), Id)
    ensures DataCovered(existing, data) <==>
            forall k <- DataMap(data) :: k in existing && existing[k] == DataMap(data)[k]
  {
    if DataCovered(existing, data) {
      forall k | k in DataMap(data)
        ensures k in existing && existing[k] == DataMap(data)[k]
      {
        DataEntry(data, k);
        var d := SecretObjectData(k, DataMap(data)[k]);
        assert d in data && d.key == k;
      }
    } else {
      var d :| d in data && !(d.key in existing && existing[d.key] == d.objectName);
      DataMapOfDistinct(data, d);
      var j :| 0 <= j < |data| && data[j] == d;
      assert DataKeys(data)[j] == d.key;
      assert d.key in DataMap(data);
    }
  }

  lemma DataExactIf(a: seq<SecretObjectData>, b: seq<SecretObjectData>)
    requires DistinctBy(DataKeys(b), Id)
    requires |a| == |b| && forall k <- DataMap(b) :: k in DataMap(a) && DataMap(a)[k] == DataMap(b)[k]
    ensures DataMap(a) == DataMap(b) && DistinctBy(DataKeys(a), Id)
  {
    var ka, kb := DataKeys(a), DataKeys(b);
    forall k | k in kb
      ensures k in ka
    {
      assert k in DataMap(b);
    }
    CoveringListIsDistinct(ka, kb);
    forall k
      ensures k in DataMap(a) <==> k in DataMap(b)
    {
      assert k in ka <==> k in SetOf(ka);
      assert k in kb <==> k in SetOf(kb);
    }
  }

  lemma DataExact(a: seq<SecretObjectData>, b: seq<SecretObjectData>)
    requires DistinctBy(DataKeys(b), Id)
    ensures |a| == |b| && DataCovered(DataMap(a), b) <==> DataMap(a) == DataMap(b) && DistinctBy(DataKeys(a), Id)
  {
    CoveredIff(DataMap(a), b);
    if |a| == |b| && DataCovered(DataMap(a), b) {
      DataExactIf(a, b);
    }
    if DataMap(a) == DataMap(b) && DistinctBy(DataKeys(a), Id) {
      assert forall k :: k in DataKeys(a) <==> k in DataMap(a);
      DistinctCount(DataKeys(a), DataKeys(b));
    }
  }

  lemma SameContentExact(a: SecretObject, b: SecretObject)
    requires DistinctBy(DataKeys(b.data), Id)
    ensures SameContent(a, b) <==> SameObject(a, b)
  {
    DataExact(a.data, b.data);
  }

  /** The counting comparison is exact when the desired list repeats neither names nor keys:
      it says "equal" exactly when the lists agree as maps on name, type and data. */
  lemma ComparisonIsExact(existing: seq<SecretObject>, desired: seq<SecretObject>)
    requires Proper(desired)
    ensures LooksEqual(existing, desired) <==> Agree(existing, desired)
  {
    var me, md := ObjectMap(existing), ObjectMap(desired);
    forall d | d in desired
      ensures d.secretName in md && md[d.secretName] == d
    {
      ObjectMapOfDistinct(desired, d);
      var j :| 0 <= j < |desired| && desired[j] == d;
      assert Names(desired)[j] == d.secretName;
    }
    forall d | d in desired && d.secretName in me
      ensures SameContent(me[d.secretName], d) <==> SameObject(me[d.secretName], d)
    {
      SameContentExact(me[d.secretName], d);
    }
    if LooksEqual(existing, desired) {
      forall n | n in Names(desired)
        ensures n in Names(existing)
      {
        assert md[n] in desired;
      }
      CoveringListIsDistinct(Names(existing), Names(desired));
      assert forall n :: n in Names(existing) <==> n in SetOf(Names(existing));
      assert me.Keys == md.Keys;
      forall k | k in md
        ensures SameObject(me[k], md[k])
      {
        assert md[k] in desired;
      }
    }
    if Agree(existing, desired) {
      DistinctCount(Names(existing), Names(desired));
    }
  }

  // ----- Exactly when the comparison is exact

  lemma AgreesWithItself(objects: seq<SecretObject>)
    requires Proper(objects)
    ensures Agree(objects, objects)
  {
    forall k | k in ObjectMap(objects)
      ensures SameObject(ObjectMap(objects)[k], ObjectMap(objects)[k])
    {
      assert ObjectMap(objects)[k] in objects;
    }
  }

  /** The entries of a data list as Go's map has them, each key once. */
  ghost function CanonicalData(data: seq<SecretObjectData>): (r: seq<SecretObjectData>)
    ensures DataKeys(r) == SortedKeys(DataMap(data).Keys)
    ensures forall d <- r :: d.key in DataMap(data) && d.objectName == DataMap(data)[d.key]
  {
    var keys := SortedKeys(DataMap(data).Keys);
    seq(|keys|, i requires 0 <= i < |keys| => SecretObjectData(keys[i], DataMap(data)[keys[i]]))
  }

  lemma CanonicalDataMap(data: seq<SecretObjectData>)
    ensures DataMap(CanonicalData(data)) == DataMap(data)
    ensures DistinctBy(DataKeys(CanonicalData(data)), Id)
  {
    var canonical := CanonicalData(data);
    forall k | k in DataMap(data)
      ensures k in DataMap(canonical) && DataMap(canonical)[k] == DataMap(data)[k]
    {
      assert k in DataKeys(canonical);
      DataEntry(canonical, k);
    }
  }

  ghost function CanonicalObject(o: SecretObject): SecretObject {
    SecretObject(o.secretName, o.kind, CanonicalData(o.data), None)
  }

  ghost function CanonicalFor(keys: seq<string>, m: map<string, SecretObject>): (r: seq<SecretObject>)
    requires forall k <- keys :: k in m
    ensures |r| == |keys|
    ensures forall i :: 0 <= i < |r| ==> r[i] == CanonicalObject(m[keys[i]])
  {
    seq(|keys|, i requires 0 <= i < |keys| => CanonicalObject(m[keys[i]]))
  }

  /** The objects of a list as Go's map has them, each name once. */
  ghost function Canonical(objects: seq<SecretObject>): (r: seq<SecretObject>) {
    CanonicalFor(SortedKeys(ObjectMap(objects).Keys), ObjectMap(objects))
  }

  lemma CanonicalForNames(keys: seq<string>, m: map<string, SecretObject>)
    requires forall k <- keys :: k in m && m[k].secretName == k
    ensures Names(CanonicalFor(keys, m)) == keys
    ensures forall o <- CanonicalFor(keys, m) :: o.secretName in m && o == CanonicalObject(m[o.secretName])
  {
    var r := CanonicalFor(keys, m);
    forall i | 0 <= i < |keys|
      ensures r[i].secretName == keys[i] && r[i] == CanonicalObject(m[keys[i]])
    {
      assert keys[i] in keys;
    }
    assert forall o <- r :: exists i :: 0 <= i < |keys| && r[i] == o;
  }

  lemma CanonicalNames(objects: seq<SecretObject>)
    ensures Names(Canonical(objects)) == SortedKeys(ObjectMap(objects).Keys)
    ensures forall o <- Canonical(objects) ::
              o.secretName in ObjectMap(objects) && o == CanonicalObject(ObjectMap(objects)[o.secretName])
  {
    CanonicalForNames(SortedKeys(ObjectMap(objects).Keys), ObjectMap(objects));
  }

  lemma CanonicalAgrees(objects: seq<SecretObject>)
    ensures Agree(Canonical(objects), objects)
  {
    var canonical := Canonical(objects);
    CanonicalNames(objects);
    assert ObjectMap(canonical).Keys == ObjectMap(objects).Keys;
    forall k | k in ObjectMap(objects)
      ensures SameObject(ObjectMap(canonical)[k], ObjectMap(objects)[k])
    {
      var o := ObjectMap(canonical)[k];
      assert o in canonical && o.secretName == k;
      CanonicalDataMap(ObjectMap(objects)[k].data);
    }
  }

  /** As many keys as a sorted list of the set of them has: none is repeated. */
  lemma AsManyAsDistinct(xs: seq<string>, keys: set<string>)
    requires (forall k :: k in xs <==> k in keys) && |SortedKeys(keys)| == |xs|
    ensures DistinctBy(xs, Id)
  {
    SetOfSize(SortedKeys(keys));
    assert SetOf(SortedKeys(keys)) == keys == SetOf(xs);
    SetOfSize(xs);
  }

  lemma CanonicalLooksEqualOnlyIfProper(desired: seq<SecretObject>)
    requires LooksEqual(Canonical(desired), desired)
    ensures Proper(desired)
  {
    var canonical := Canonical(desired);
    CanonicalNames(desired);
    AsManyAsDistinct(Names(desired), ObjectMap(desired).Keys);
    forall d | d in desired
      ensures DistinctBy(DataKeys(d.data), Id)
    {
      ObjectMapOfDistinct(desired, d);
      var e := ObjectMap(canonical)[d.secretName];
      assert SameContent(e, d) && e in canonical;
      assert |DataKeys(e.data)| == |DataKeys(d.data)|;
      AsManyAsDistinct(DataKeys(d.data), DataMap(d.data).Keys);
    }
  }

  /** The comparison is exact against every existing list if and only if the desired list
      repeats neither names nor keys. */
  lemma ExactIffProper(desired: seq<SecretObject>)
    ensures (forall existing :: LooksEqual(existing, desired) <==> Agree(existing, desired)) <==> Proper(desired)
  {
    if Proper(desired) {
      forall existing
        ensures LooksEqual(existing, desired) <==> Agree(existing, desired)
      {
        ComparisonIsExact(existing, desired);
      }
    } else {
      CanonicalAgrees(desired);
      if LooksEqual(Canonical(desired), desired) {
        CanonicalLooksEqualOnlyIfProper(desired);
      }
    }
  }

  /** What goes wrong without: a repeated desired name can also hide a stale entry. CRD mode
      never asks for one name twice. */
  lemma RepeatedNamesHideStaleEntry(a: SecretObject, stale: SecretObject)
    requires a.secretName != stale.secretName
    requires DistinctBy(DataKeys(a.data), Id)
    ensures LooksEqual([a, stale], [a, a]) && !Agree([a, stale], [a, a])
  {
    var existing, desired := [a, stale], [a, a];
    assert existing[..1] == [a] && desired[..1] == [a];
    assert [a][..0] == [];
    assert ObjectMap([a]) == map[a.secretName := a];
    assert ObjectMap(existing) == map[a.secretName := a, stale.secretName := stale];
    assert ObjectMap(desired) == map[a.secretName := a];
    SameContentExact(a, a);
    assert stale.secretName in ObjectMap(existing) && stale.secretName !in ObjectMap(desired);
  }

  // ----- The methods

  method FillDataMap(data: seq<SecretObjectData>) returns (m: StringMap)
    ensures m == DataMap(data)
  {
    m := map[];
    for i := 0 to |data|
      invariant m == DataMap(data[..i])
    {
      assert data[..i + 1][..i] == data[..i];
      m := m[data[i].key := data[i].objectName];
    }
    assert data[..|data|] == data;
  }

  method FillObjectMap(objects: seq<SecretObject>) returns (m: map<string, SecretObject>)
    ensures m == ObjectMap(objects)
  {
    m := map[];
    for i := 0 to |objects|
      invariant m == ObjectMap(objects[..i])
    {
      assert objects[..i + 1][..i] == objects[..i];
      m := m[objects[i].secretName := objects[i]];
    }
    assert objects[..|objects|] == objects;
  }

  /** compareSecretObjects */
  method CompareExistingWithDesired(existing: seq<SecretObject>, desired: seq<SecretObject>) returns (same: bool)
    ensures same <==> LooksEqual(existing, desired)
  {
    if |existing| != |desired| {
      return false;
    }
    var existingMap := FillObjectMap(existing);
    for i := 0 to |desired|
      invariant forall d <- desired[..i] :: d.secretName in existingMap && SameContent(existingMap[d.secretName], d)
    {
      var d := desired[i];
      assert d in desired;
      if d.secretName !in existingMap {
        return false;
      }
      var e := existingMap[d.secretName];
      if e.kind != d.kind || |e.data| != |d.data| {
        return false;
      }
      var sameData := DataEqual(e.data, d.data);
      if !sameData {
        return false;
      }
      assert desired[..i + 1] == desired[..i] + [d];
    }
    assert desired[..|desired|] == desired;
    return true;
  }

  /** compareAnnotations: exact on all maps, nil ones included. */
  method CompareAnnotations(existing: Option<StringMap>, desired: Option<StringMap>) returns (same: bool)
    ensures same <==> Entries(existing) == Entries(desired)
  {
    var e, d := Entries(existing), Entries(desired);
    if |e| != |d| {
      return false;
    }
    var pending := d.Keys;
    while pending != {}
      invariant pending <= d.Keys
      invariant forall k :: k in d.Keys - pending ==> k in e && e[k] == d[k]
    {
      var key :| key in pending;
      if key !in e || e[key] != d[key] {
        return false;
      }
      pending := pending - {key};
    }
    SubsetOfSameSize(d.Keys, e.Keys);
    return true;
  }

  // ----- The annotation-mode comparator of internal/update, which also looks at labels

  /** Reading a missing key of a Go map gives "". */
  function ReadOrEmpty(m: StringMap, key: string): string {
    if key in m then m[key] else ""
  }

  predicate LabelsLookEqual(a: Option<StringMap>, b: Option<StringMap>) {
    |Entries(a)| == |Entries(b)| &&
    (a.Some? <==> b.Some?) &&
    (a.Some? ==> forall k <- a.value :: ReadOrEmpty(b.value, k) == a.value[k])
  }

  predicate ContentLooksEqual(a: SecretObject, b: SecretObject) {
    a.secretName == b.secretName && a.kind == b.kind && |a.data| == |b.data| &&
    LabelsLookEqual(a.labels, b.labels) && DataCovered(DataMap(a.data), b.data)
  }

  predicate Matches(m: map<string, SecretObject>, g: SecretObject) {
    g.secretName in m && ContentLooksEqual(m[g.secretName], g)
  }

  predicate Unchanged(existing: seq<SecretObject>, generated: seq<SecretObject>) {
    |existing| == |generated| &&
    var m := ObjectMap(existing);
    forall g <- generated :: Matches(m, g)
  }

  method LabelsEqual(a: Option<StringMap>, b: Option<StringMap>) returns (same: bool)
    requires |Entries(a)| == |Entries(b)|
    ensures same <==> LabelsLookEqual(a, b)
  {
    if a.Some? && b.Some? {
      var pending := a.value.Keys;
      while pending != {}
        invariant pending <= a.value.Keys
        invariant forall k :: k in a.value.Keys - pending ==> ReadOrEmpty(b.value, k) == a.value[k]
      {
        var k :| k in pending;
        if ReadOrEmpty(b.value, k) != a.value[k] {
          return false;
        }
        pending := pending - {k};
      }
      return true;
    }
    return a.None? && b.None?;
  }

  method DataEqual(a: seq<SecretObjectData>, b: seq<SecretObjectData>) returns (same: bool)
    ensures same <==> DataCovered(DataMap(a), b)
  {
    var aData := FillDataMap(a);
    for j := 0 to |b|
      invariant forall i :: 0 <= i < j ==> b[i].key in aData && aData[b[i].key] == b[i].objectName
    {
      if b[j].key !in aData || aData[b[j].key] != b[j].objectName {
        assert b[j] in b;
        return false;
      }
    }
    return true;
  }

  /** secretObjectsEqual */
  method SecretObjectsEqual(a: SecretObject, b: SecretObject) returns (same: bool)
    ensures same <==> ContentLooksEqual(a, b)
  {
    if a.secretName != b.secretName || a.kind != b.kind || |a.data| != |b.data| ||
        |Entries(a.labels)| != |Entries(b.labels)| {
      return false;
    }
    var sameLabels := LabelsEqual(a.labels, b.labels);
    if !sameLabels {
      return false;
    }
    if |a.data| == 0 {
      return true;
    }
    same := DataEqual(a.data, b.data);
  }

  lemma OneMismatch(existing: seq<SecretObject>, generated: seq<SecretObject>, g: SecretObject)
    requires g in generated && !Matches(ObjectMap(existing), g)
    ensures !Unchanged(existing, generated)
  {}

  lemma AllMatch(existing: seq<SecretObject>, generated: seq<SecretObject>)
    requires |existing| == |generated|
    requires forall j :: 0 <= j < |generated| ==> Matches(ObjectMap(existing), generated[j])
    ensures Unchanged(existing, generated)
  {}

  /** CompareSecretObjects: true means different. */
  method CompareWithGenerated(existing: seq<SecretObject>, generated: seq<SecretObject>) returns (changed: bool)
    ensures changed <==> !Unchanged(existing, generated)
  {
    if |existing| != |generated| {
      return true;
    }
    if |existing| == 0 {
      return false;
    }
    var existingMap := FillObjectMap(existing);
    for i := 0 to |generated|
      invariant forall j :: 0 <= j < i ==> Matches(existingMap, generated[j])
    {
      var g := generated[i];
      assert g in generated;
      if g.secretName !in existingMap {
        OneMismatch(existing, generated, g);
        return true;
      }
      var same := SecretObjectsEqual(existingMap[g.secretName], g);
      if !same {
        OneMismatch(existing, generated, g);
        return true;
      }
    }
    AllMatch(existing, generated);
    return false;
  }

  ghost predicate AgreeWithoutLabels(existing: seq<SecretObject>, generated: seq<SecretObject>) {
    Agree(existing, generated) && forall o <- existing :: o.labels.None?
  }

  /** Against generated objects, whose labels are nil, this comparison too is exact: a
      non-nil labels map on an existing object counts as a difference even when empty. */
  lemma GeneratedComparisonIsExact(existing: seq<SecretObject>, generated: seq<SecretObject>)
    requires Proper(generated) && forall g <- generated :: g.labels.None?
    ensures Unchanged(existing, generated) <==> AgreeWithoutLabels(existing, generated)
  {
    ComparisonIsExact(existing, generated);
    var me := ObjectMap(existing);
    if Unchanged(existing, generated) {
      assert LooksEqual(existing, generated);
      forall o | o in existing
        ensures o.labels.None?
      {
        ObjectMapOfDistinct(existing, o);
        NameListed(existing, o);
        var g := ObjectMap(generated)[o.secretName];
        assert g in generated && Matches(me, g);
      }
    }
    if AgreeWithoutLabels(existing, generated) {
      forall g | g in generated
        ensures Matches(me, g)
      {
        assert g.secretName in me && SameContent(me[g.secretName], g);
        assert me[g.secretName] in existing;
      }
    }
  }

  lemma NameListed(objects: seq<SecretObject>, o: SecretObject)
    requires o in objects
    ensures o.secretName in ObjectMap(objects)
  {
    var j :| 0 <= j < |objects| && objects[j] == o;
    assert Names(objects)[j] == o.secretName;
  }

  // ----- The label test, which reads a missing label as ""

  lemma LabelsAgreeIf(a: StringMap, b: Option<StringMap>)
    requires (forall k <- a :: a[k] != "") && LabelsLookEqual(Some(a), b)
    ensures b == Some(a)
  {
    assert a.Keys <= b.value.Keys;
    SubsetOfSameSize(a.Keys, b.value.Keys);
    assert a == b.value;
  }

  /** A label that is neither in the map nor empty. */
  ghost function LongestKey(keys: set<string>): (k: string)
    ensures forall other <- keys :: |other| < |k|
  {
    if keys == {} then "x"
    else
      var one :| one in keys;
      var rest := LongestKey(keys - {one});
      if |one| < |rest| then rest else one + "x"
  }

  lemma EmptyLabelIsMissed(a: StringMap, key: string) returns (b: StringMap)
    requires key in a && a[key] == ""
    ensures LabelsLookEqual(Some(a), Some(b)) && b != a
  {
    var added := LongestKey(a.Keys);
    assert added !in a;
    var rest := a - {key};
    b := rest[added := ""];
    assert |rest| == |a| - 1 by {
      assert rest.Keys == a.Keys - {key};
      assert |rest.Keys| == |rest| && |a.Keys| == |a|;
    }
    assert b.Keys == rest.Keys + {added} && |b.Keys| == |b| && |rest.Keys| == |rest|;
    assert added in b;
  }

  /** Non-nil labels are compared exactly against every other labels if and only if none of
      them has an empty value: an empty label can be exchanged for another one unnoticed. */
  lemma LabelTestIsExactIff(a: StringMap)
    ensures (forall b: Option<StringMap> :: LabelsLookEqual(Some(a), b) <==> b == Some(a)) <==>
            forall k <- a :: a[k] != ""
  {
    if forall k <- a :: a[k] != "" {
      forall b: Option<StringMap>
        ensures LabelsLookEqual(Some(a), b) <==> b == Some(a)
      {
        if LabelsLookEqual(Some(a), b) {
          LabelsAgreeIf(a, b);
        }
      }
    } else {
      var key :| key in a && a[key] == "";
      var b := EmptyLabelIsMissed(a, key);
      assert LabelsLookEqual(Some(a), Some(b)) && Some(b) != Some(a);
    }
  }
}
