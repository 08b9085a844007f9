/** The cache of SecretProviderClass objects with its reverse index from Secret to owner. */
module SpcCache {
  import opened GoStrings
  import opened SecretMetadata
  import opened Spc

  function CacheKey(namespace: string, name: string): string {
    namespace + "/" + name
  }

  /** Kubernetes namespaces contain no "/". */
  predicate Slashless(namespace: string) {
    '/' !in namespace
  }

  lemma CacheKeyInjective(ns1: string, n1: string, ns2: string, n2: string)
    requires Slashless(ns1) && Slashless(ns2) && CacheKey(ns1, n1) == CacheKey(ns2, n2)
    ensures ns1 == ns2 && n1 == n2
  {
    assert CacheKey(ns1, n1) == ns1 + ['/'] + n1 && CacheKey(ns2, n2) == ns2 + ['/'] + n2;
    SplitFirst(ns1, '/', n1);
    SplitFirst(ns2, '/', n2);
    var key := CacheKey(ns1, n1);
    assert ns1 == Split(key, '/')[0] == ns2;
    assert n1 == key[|ns1| + 1..] == n2;
  }

  /** A cached nil pointer is None. */
  datatype CacheState = CacheState(objects: map<string, Option<SecretProviderClass>>, index: map<string, string>)

  function KeysOf(namespace: string, objects: seq<SecretObject>): set<string> {
    set o | o in objects :: CacheKey(namespace, o.secretName)
  }

  function ClaimKeys(namespace: string, obj: Option<SecretProviderClass>): set<string> {
    if obj.None? then {} else KeysOf(namespace, obj.value.secretObjects)
  }

  function NamedBy(keys: set<string>, name: string): map<string, string> {
    map k | k in keys :: name
  }

  lemma NamedByNext(base: map<string, string>, keys: set<string>, k: string, name: string)
    ensures base + NamedBy(keys + {k}, name) == (base + NamedBy(keys, name))[k := name]
  {}

  lemma KeysOfNext(namespace: string, objects: seq<SecretObject>, i: nat)
    requires i < |objects|
    ensures KeysOf(namespace, objects[..i + 1]) ==
            KeysOf(namespace, objects[..i]) + {CacheKey(namespace, objects[i].secretName)}
  {
    assert objects[..i + 1] == objects[..i] + [objects[i]];
  }

  function OldClaims(st: CacheState, namespace: string, name: string): set<string> {
    var key := CacheKey(namespace, name);
    if key in st.objects then ClaimKeys(namespace, st.objects[key]) else {}
  }

  function AfterSet(st: CacheState, namespace: string, name: string, obj: Option<SecretProviderClass>): CacheState {
    CacheState(
      st.objects[CacheKey(namespace, name) := obj],
      (st.index - OldClaims(st, namespace, name)) + NamedBy(ClaimKeys(namespace, obj), name))
  }

  function AfterDelete(st: CacheState, namespace: string, name: string): CacheState {
    CacheState(st.objects - {CacheKey(namespace, name)}, st.index - OldClaims(st, namespace, name))
  }

  class SecretProviderClassCache {
    var objects: map<string, Option<SecretProviderClass>>
    var secretToSpc: map<string, string>

    function State(): CacheState
      reads this
    {
      CacheState(objects, secretToSpc)
    }

    constructor ()
      ensures State() == CacheState(map[], map[])
    {
      objects := map[];
      secretToSpc := map[];
    }

    /** The loop that both Set and Delete run over the old object's secretObjects. */
    method DropClaims(namespace: string, name: string)
      modifies this`secretToSpc
      ensures secretToSpc == old(secretToSpc) - OldClaims(old(State()), namespace, name)
    {
      var key := CacheKey(namespace, name);
      if key in objects && objects[key].Some? {
        var spc := objects[key].value;
        for i := 0 to |spc.secretObjects|
          invariant secretToSpc == old(secretToSpc) - KeysOf(namespace, spc.secretObjects[..i])
        {
          var secretKey := CacheKey(namespace, spc.secretObjects[i].secretName);
          KeysOfNext(namespace, spc.secretObjects, i);
          secretToSpc := secretToSpc - {secretKey};
        }
        assert spc.secretObjects[..|spc.secretObjects|] == spc.secretObjects;
      }
    }

    /** The loop that enters the new object's secretObjects. */
    method EnterClaims(namespace: string, name: string, list: seq<SecretObject>)
      modifies this`secretToSpc
      ensures secretToSpc == old(secretToSpc) + NamedBy(KeysOf(namespace, list), name)
    {
      ghost var base := secretToSpc;
      assert base + NamedBy(KeysOf(namespace, list[..0]), name) == base;
      for i := 0 to |list|
        invariant secretToSpc == base + NamedBy(KeysOf(namespace, list[..i]), name)
      {
        var secretKey := CacheKey(namespace, list[i].secretName);
        KeysOfNext(namespace, list, i);
        NamedByNext(base, KeysOf(namespace, list[..i]), secretKey, name);
        secretToSpc := secretToSpc[secretKey := name];
      }
      assert list[..|list|] == list;
    }

    method Set(namespace: string, name: string, obj: Option<SecretProviderClass>)
      modifies this
      ensures State() == AfterSet(old(State()), namespace, name, obj)
    {
      DropClaims(namespace, name);
      objects := objects[CacheKey(namespace, name) := obj];
      if obj.Some? {
        EnterClaims(namespace, name, obj.value.secretObjects);
      } else {
        assert secretToSpc + NamedBy({}, name) == secretToSpc;
      }
    }

    method Delete(namespace: string, name: string)
      modifies this
      ensures State() == AfterDelete(old(State()), namespace, name)
    {
      DropClaims(namespace, name);
      objects := objects - {CacheKey(namespace, name)};
    }

    method Has(namespace: string, name: string) returns (exists_: bool)
      ensures exists_ <==> CacheKey(namespace, name) in State().objects
    {
      return CacheKey(namespace, name) in objects;
    }

    /** A missing entry reads as "". */
    method FindSpcForSecret(namespace: string, secretName: string) returns (name: string)
      ensures name == IndexEntry(State(), namespace, secretName)
    {
      var secretKey := CacheKey(namespace, secretName);
      return if secretKey in secretToSpc then secretToSpc[secretKey] else "";
    }
  }

  function IndexEntry(st: CacheState, namespace: string, secretName: string): string {
    var key := CacheKey(namespace, secretName);
    if key in st.index then st.index[key] else ""
  }

  // ----- The index is never wrong

  /** The cache holds a non-nil object under this name that lists the Secret. */
  predicate HasClaim(st: CacheState, namespace: string, name: string, secretName: string) {
    var key := CacheKey(namespace, name);
    key in st.objects && st.objects[key].Some? && Claims(st.objects[key].value, secretName)
  }

  ghost predicate EntrySound(st: CacheState, namespace: string, secretName: string) {
    var key := CacheKey(namespace, secretName);
    key in st.index ==> HasClaim(st, namespace, st.index[key], secretName)
  }

  ghost predicate Sound(st: CacheState) {
    forall namespace, secretName :: Slashless(namespace) ==> EntrySound(st, namespace, secretName)
  }

  lemma ClaimKeyIff(namespace: string, obj: Option<SecretProviderClass>, otherNamespace: string, secretName: string)
    requires Slashless(namespace) && Slashless(otherNamespace)
    ensures CacheKey(otherNamespace, secretName) in ClaimKeys(namespace, obj) <==>
            namespace == otherNamespace && obj.Some? && Claims(obj.value, secretName)
  {
    var key := CacheKey(otherNamespace, secretName);
    if key in ClaimKeys(namespace, obj) {
      var o :| o in obj.value.secretObjects && CacheKey(namespace, o.secretName) == key;
      CacheKeyInjective(namespace, o.secretName, otherNamespace, secretName);
    }
    if namespace == otherNamespace && obj.Some? && Claims(obj.value, secretName) {
      var o :| o in obj.value.secretObjects && o.secretName == secretName;
      assert CacheKey(namespace, o.secretName) in ClaimKeys(namespace, obj);
    }
  }

  lemma OldClaimIff(st: CacheState, namespace: string, name: string, otherNamespace: string, secretName: string)
    requires Slashless(namespace) && Slashless(otherNamespace)
    ensures CacheKey(otherNamespace, secretName) in OldClaims(st, namespace, name) <==>
            namespace == otherNamespace && HasClaim(st, namespace, name, secretName)
  {
    var key := CacheKey(namespace, name);
    if key in st.objects {
      ClaimKeyIff(namespace, st.objects[key], otherNamespace, secretName);
    }
  }

  lemma OtherClaimsKept(st: CacheState, namespace: string, name: string, obj: Option<SecretProviderClass>,
      ns: string, n: string, secretName: string)
    requires Slashless(namespace) && Slashless(ns) && !(ns == namespace && n == name)
    ensures HasClaim(AfterSet(st, namespace, name, obj), ns, n, secretName) <==> HasClaim(st, ns, n, secretName)
    ensures HasClaim(AfterDelete(st, namespace, name), ns, n, secretName) <==> HasClaim(st, ns, n, secretName)
  {
    if CacheKey(namespace, name) == CacheKey(ns, n) {
      CacheKeyInjective(namespace, name, ns, n);
    }
  }

  lemma SetKeepsSound(st: CacheState, namespace: string, name: string, obj: Option<SecretProviderClass>)
    requires Sound(st) && Slashless(namespace)
    ensures Sound(AfterSet(st, namespace, name, obj))
  {
    var after := AfterSet(st, namespace, name, obj);
    forall ns, secretName | Slashless(ns)
      ensures EntrySound(after, ns, secretName)
    {
      var key := CacheKey(ns, secretName);
      ClaimKeyIff(namespace, obj, ns, secretName);
      OldClaimIff(st, namespace, name, ns, secretName);
      if key in after.index && key !in ClaimKeys(namespace, obj) {
        assert EntrySound(st, ns, secretName);
        OtherClaimsKept(st, namespace, name, obj, ns, st.index[key], secretName);
      }
    }
  }

  lemma DeleteKeepsSound(st: CacheState, namespace: string, name: string)
    requires Sound(st) && Slashless(namespace)
    ensures Sound(AfterDelete(st, namespace, name))
  {
    var after := AfterDelete(st, namespace, name);
    forall ns, secretName | Slashless(ns)
      ensures EntrySound(after, ns, secretName)
    {
      var key := CacheKey(ns, secretName);
      OldClaimIff(st, namespace, name, ns, secretName);
      if key in after.index {
        assert EntrySound(st, ns, secretName);
        OtherClaimsKept(st, namespace, name, None, ns, st.index[key], secretName);
      }
    }
  }

  // ----- Runs

  datatype CacheOp =
    | SetOp(namespace: string, name: string, obj: Option<SecretProviderClass>)
    | DeleteOp(namespace: string, name: string)

  function AfterOp(st: CacheState, op: CacheOp): CacheState {
    match op
    case SetOp(namespace, name, obj) => AfterSet(st, namespace, name, obj)
    case DeleteOp(namespace, name) => AfterDelete(st, namespace, name)
  }

  function AfterOps(ops: seq<CacheOp>): CacheState {
    if ops == [] then CacheState(map[], map[]) else AfterOp(AfterOps(ops[..|ops| - 1]), ops[|ops| - 1])
  }

  ghost predicate SlashlessOps(ops: seq<CacheOp>) {
    forall op <- ops :: Slashless(op.namespace)
  }

  /** After every sequence of Set and Delete, each index entry names a cached, non-nil object
      that really lists the Secret. */
  lemma {:induction false} IndexIsSound(ops: seq<CacheOp>)
    requires SlashlessOps(ops)
    ensures Sound(AfterOps(ops))
  {
    if ops != [] {
      var op := ops[|ops| - 1];
      assert op in ops;
      IndexIsSound(ops[..|ops| - 1]);
      match op
      case SetOp(namespace, name, obj) => SetKeepsSound(AfterOps(ops[..|ops| - 1]), namespace, name, obj);
      case DeleteOp(namespace, name) => DeleteKeepsSound(AfterOps(ops[..|ops| - 1]), namespace, name);
    }
  }

  /** The last operation on this object stored it. */
  predicate LastWasSet(ops: seq<CacheOp>, namespace: string, name: string)
    decreases |ops|
  {
    ops != [] &&
    var last := ops[|ops| - 1];
    if last.namespace == namespace && last.name == name then last.SetOp?
    else LastWasSet(ops[..|ops| - 1], namespace, name)
  }

  /** What Has answers after any history: whether the last operation on the object was a Set,
      of a nil object too. Operations on other objects never disturb it. */
  lemma {:induction false} CachedIffLastWasSet(ops: seq<CacheOp>, namespace: string, name: string)
    requires SlashlessOps(ops) && Slashless(namespace)
    ensures CacheKey(namespace, name) in AfterOps(ops).objects <==> LastWasSet(ops, namespace, name)
    decreases |ops|
  {
    if ops != [] {
      var last := ops[|ops| - 1];
      assert last in ops;
      CachedIffLastWasSet(ops[..|ops| - 1], namespace, name);
      if CacheKey(last.namespace, last.name) == CacheKey(namespace, name) {
        CacheKeyInjective(last.namespace, last.name, namespace, name);
      }
    }
  }

  /** At most one cached object claims the Secret. */
  ghost predicate Uncontested(st: CacheState, namespace: string, secretName: string) {
    forall n1, n2 :: HasClaim(st, namespace, n1, secretName) && HasClaim(st, namespace, n2, secretName) ==> n1 == n2
  }

  ghost predicate EntryComplete(st: CacheState, namespace: string, secretName: string) {
    forall name :: HasClaim(st, namespace, name, secretName) ==>
      CacheKey(namespace, secretName) in st.index && st.index[CacheKey(namespace, secretName)] == name
  }

  lemma OpKeepsComplete(st: CacheState, op: CacheOp, namespace: string, secretName: string)
    requires Slashless(op.namespace) && Slashless(namespace)
    requires EntryComplete(st, namespace, secretName)
    requires Uncontested(st, namespace, secretName) && Uncontested(AfterOp(st, op), namespace, secretName)
    ensures EntryComplete(AfterOp(st, op), namespace, secretName)
  {
    var after := AfterOp(st, op);
    forall name | HasClaim(after, namespace, name, secretName)
      ensures CacheKey(namespace, secretName) in after.index && after.index[CacheKey(namespace, secretName)] == name
    {
      OldClaimIff(st, op.namespace, op.name, namespace, secretName);
      if op.SetOp? {
        ClaimKeyIff(op.namespace, op.obj, namespace, secretName);
      }
      if !(namespace == op.namespace && name == op.name) {
        OtherClaimsKept(st, op.namespace, op.name, if op.SetOp? then op.obj else None, namespace, name, secretName);
        if op.SetOp? && CacheKey(namespace, secretName) in ClaimKeys(op.namespace, op.obj) {
          assert HasClaim(after, namespace, op.name, secretName);
        }
      }
    }
  }

  /** While a Secret is claimed by at most one cached object, the index entry is exact: it is
      the claimant's name, and absent when nobody claims the Secret. */
  lemma IndexIsCompleteWhenUncontested(ops: seq<CacheOp>, namespace: string, secretName: string)
    requires SlashlessOps(ops) && Slashless(namespace)
    requires forall i :: 0 <= i <= |ops| ==> Uncontested(AfterOps(ops[..i]), namespace, secretName)
    ensures forall name :: HasClaim(AfterOps(ops), namespace, name, secretName) <==>
              CacheKey(namespace, secretName) in AfterOps(ops).index &&
              AfterOps(ops).index[CacheKey(namespace, secretName)] == name
  {
    CompleteRun(ops, namespace, secretName);
    IndexIsSound(ops);
    assert EntrySound(AfterOps(ops), namespace, secretName);
  }

  lemma {:induction false} CompleteRun(ops: seq<CacheOp>, namespace: string, secretName: string)
    requires SlashlessOps(ops) && Slashless(namespace)
    requires forall i :: 0 <= i <= |ops| ==> Uncontested(AfterOps(ops[..i]), namespace, secretName)
    ensures EntryComplete(AfterOps(ops), namespace, secretName)
  {
    assert ops[..|ops|] == ops;
    if ops != [] {
      var before := ops[..|ops| - 1];
      assert ops[|ops| - 1] in ops;
      forall i | 0 <= i <= |before|
        ensures Uncontested(AfterOps(before[..i]), namespace, secretName)
      {
        assert before[..i] == ops[..i];
      }
      CompleteRun(before, namespace, secretName);
      assert before[..|before|] == before;
      OpKeepsComplete(AfterOps(before), ops[|ops| - 1], namespace, secretName);
    }
  }

  // ----- When the index is complete

  ghost predicate IsClaimed(st: CacheState, namespace: string, secretName: string) {
    exists name :: HasClaim(st, namespace, name, secretName)
  }

  /** If some cached object claims the Secret, the index has an entry for it. */
  ghost predicate Indexed(st: CacheState, namespace: string, secretName: string) {
    IsClaimed(st, namespace, secretName) ==> CacheKey(namespace, secretName) in st.index
  }

  function NewObject(op: CacheOp): Option<SecretProviderClass> {
    match op
    case SetOp(_, _, obj) => obj
    case DeleteOp(_, _) => None
  }

  /** The operation takes the Secret away from an object while another one claims it too. */
  ghost predicate Orphans(st: CacheState, op: CacheOp, namespace: string, secretName: string) {
    op.namespace == namespace && HasClaim(st, namespace, op.name, secretName) &&
    !(NewObject(op).Some? && Claims(NewObject(op).value, secretName)) &&
    exists other :: other != op.name && HasClaim(st, namespace, other, secretName)
  }

  lemma ClaimAfterOp(st: CacheState, op: CacheOp, namespace: string, name: string, secretName: string)
    requires Slashless(op.namespace) && Slashless(namespace)
    ensures HasClaim(AfterOp(st, op), namespace, name, secretName) <==>
            if namespace == op.namespace && name == op.name
            then NewObject(op).Some? && Claims(NewObject(op).value, secretName)
            else HasClaim(st, namespace, name, secretName)
  {
    if !(namespace == op.namespace && name == op.name) {
      OtherClaimsKept(st, op.namespace, op.name, NewObject(op), namespace, name, secretName);
    }
  }

  lemma EntryAfterOp(st: CacheState, op: CacheOp, namespace: string, secretName: string)
    requires Slashless(op.namespace) && Slashless(namespace)
    ensures CacheKey(namespace, secretName) in AfterOp(st, op).index <==>
            if namespace == op.namespace && NewObject(op).Some? && Claims(NewObject(op).value, secretName) then true
            else if namespace == op.namespace && HasClaim(st, namespace, op.name, secretName) then false
            else CacheKey(namespace, secretName) in st.index
  {
    OldClaimIff(st, op.namespace, op.name, namespace, secretName);
    ClaimKeyIff(op.namespace, NewObject(op), namespace, secretName);
  }

  /** One operation keeps the index complete for a Secret exactly when it orphans no other
      claimant. */
  lemma OpKeepsIndexedIff(st: CacheState, op: CacheOp, namespace: string, secretName: string)
    requires Slashless(op.namespace) && Slashless(namespace) && Indexed(st, namespace, secretName)
    ensures Indexed(AfterOp(st, op), namespace, secretName) <==> !Orphans(st, op, namespace, secretName)
  {
    var after := AfterOp(st, op);
    EntryAfterOp(st, op, namespace, secretName);
    forall name
      ensures HasClaim(after, namespace, name, secretName) <==>
              if namespace == op.namespace && name == op.name
              then NewObject(op).Some? && Claims(NewObject(op).value, secretName)
              else HasClaim(st, namespace, name, secretName)
    {
      ClaimAfterOp(st, op, namespace, name, secretName);
    }
    if Orphans(st, op, namespace, secretName) {
      var other :| other != op.name && HasClaim(st, namespace, other, secretName);
      assert HasClaim(after, namespace, other, secretName);
    }
  }

  ghost predicate IndexedThroughout(ops: seq<CacheOp>, namespace: string, secretName: string) {
    forall i :: 0 <= i <= |ops| ==> Indexed(AfterOps(ops[..i]), namespace, secretName)
  }

  ghost predicate NeverOrphans(ops: seq<CacheOp>, namespace: string, secretName: string) {
    forall i :: 0 <= i < |ops| ==> !Orphans(AfterOps(ops[..i]), ops[i], namespace, secretName)
  }

  lemma AfterOpsNext(ops: seq<CacheOp>, i: nat)
    requires i < |ops|
    ensures AfterOps(ops[..i + 1]) == AfterOp(AfterOps(ops[..i]), ops[i])
  {
    assert ops[..i + 1][..i] == ops[..i] && ops[..i + 1][i] == ops[i];
  }

  lemma {:induction false} IndexedUpTo(ops: seq<CacheOp>, namespace: string, secretName: string, i: nat)
    requires SlashlessOps(ops) && Slashless(namespace) && NeverOrphans(ops, namespace, secretName) && i <= |ops|
    ensures Indexed(AfterOps(ops[..i]), namespace, secretName)
    decreases i
  {
    if i > 0 {
      IndexedUpTo(ops, namespace, secretName, i - 1);
      AfterOpsNext(ops, i - 1);
      assert ops[i - 1] in ops;
      OpKeepsIndexedIff(AfterOps(ops[..i - 1]), ops[i - 1], namespace, secretName);
    }
  }

  /** Over a whole history the index stays complete for a Secret exactly when no operation
      of it orphans a claimant. */
  lemma IndexIsCompleteIff(ops: seq<CacheOp>, namespace: string, secretName: string)
    requires SlashlessOps(ops) && Slashless(namespace)
    ensures IndexedThroughout(ops, namespace, secretName) <==> NeverOrphans(ops, namespace, secretName)
  {
    if NeverOrphans(ops, namespace, secretName) {
      forall i | 0 <= i <= |ops|
        ensures Indexed(AfterOps(ops[..i]), namespace, secretName)
      {
        IndexedUpTo(ops, namespace, secretName, i);
      }
    }
    if IndexedThroughout(ops, namespace, secretName) {
      forall i | 0 <= i < |ops|
        ensures !Orphans(AfterOps(ops[..i]), ops[i], namespace, secretName)
      {
        AfterOpsNext(ops, i);
        assert ops[i] in ops;
        assert Indexed(AfterOps(ops[..i + 1]), namespace, secretName);
        OpKeepsIndexedIff(AfterOps(ops[..i]), ops[i], namespace, secretName);
      }
    }
  }

  /** Two objects that claimed one Secret: deleting one orphans the other. */
  lemma ContestedClaimIsLost(namespace: string, a: string, b: string, spc: SecretProviderClass, secretName: string)
    requires Slashless(namespace) && a != b && Claims(spc, secretName)
    ensures var ops := [SetOp(namespace, a, Some(spc)), SetOp(namespace, b, Some(spc)), DeleteOp(namespace, b)];
            var st := AfterOps(ops);
            HasClaim(st, namespace, a, secretName) && IndexEntry(st, namespace, secretName) == ""
  {
    var ops := [SetOp(namespace, a, Some(spc)), SetOp(namespace, b, Some(spc)), DeleteOp(namespace, b)];
    AfterOpsNext(ops, 0);
    AfterOpsNext(ops, 1);
    AfterOpsNext(ops, 2);
    assert ops[..3] == ops;
    ClaimAfterOp(AfterOps(ops[..0]), ops[0], namespace, a, secretName);
    ClaimAfterOp(AfterOps(ops[..1]), ops[1], namespace, a, secretName);
    ClaimAfterOp(AfterOps(ops[..1]), ops[1], namespace, b, secretName);
    ClaimAfterOp(AfterOps(ops[..2]), ops[2], namespace, a, secretName);
    EntryAfterOp(AfterOps(ops[..2]), ops[2], namespace, secretName);
  }

  // ----- findSPCForSecret

  const OWNER_LABEL := "secrets-store.csi.k8s.io/secretProviderClass"

  type Cluster = map<(string, string), SecretProviderClass>

  datatype Item = Item(name: string, spc: SecretProviderClass)

  /** items is what the API server lists for a namespace, in some order. */
  ghost predicate IsListing(cluster: Cluster, namespace: string, items: seq<Item>) {
    forall name, spc :: Item(name, spc) in items <==> (namespace, name) in cluster && cluster[(namespace, name)] == spc
  }

  function Scan(items: seq<Item>, secretName: string): string {
    if items == [] then ""
    else if Claims(items[0].spc, secretName) then items[0].name
    else Scan(items[1..], secretName)
  }

  function FindFor(st: CacheState, labels: Option<StringMap>, namespace: string, secretName: string,
      listed: Result<seq<Item>>): Result<string>
  {
    if Lookup(labels, OWNER_LABEL).Some? then Ok(Lookup(labels, OWNER_LABEL).value)
    else if IndexEntry(st, namespace, secretName) != "" then Ok(IndexEntry(st, namespace, secretName))
    else match listed
      case Failed => Failed
      case Ok(items) => Ok(Scan(items, secretName))
  }

  /** findSPCForSecret; listed is the answer of the API server's List call. */
  method FindSpc(cache: SecretProviderClassCache, labels: Option<StringMap>, namespace: string, secretName: string,
      listed: Result<seq<Item>>)
    returns (r: Result<string>)
    ensures r == FindFor(cache.State(), labels, namespace, secretName, listed)
    ensures labels.Some? && OWNER_LABEL in labels.value ==> r == Ok(labels.value[OWNER_LABEL])
  {
    if labels.Some? && OWNER_LABEL in labels.value {
      return Ok(labels.value[OWNER_LABEL]);
    }
    var spcName := cache.FindSpcForSecret(namespace, secretName);
    if spcName != "" {
      return Ok(spcName);
    }
    if listed.Failed? {
      return Failed;
    }
    var items := listed.value;
    for i := 0 to |items|
      invariant Scan(items, secretName) == Scan(items[i..], secretName)
    {
      var objects := items[i].spc.secretObjects;
      for j := 0 to |objects|
        invariant forall k :: 0 <= k < j ==> objects[k].secretName != secretName
      {
        if objects[j].secretName == secretName {
          assert objects[j] in objects;
          return Ok(items[i].name);
        }
      }
    }
    return Ok("");
  }

  /** A labelled Secret belongs to the object its label names, whatever the cache went through
      and whatever the API server lists, even if the List call fails. */
  lemma LabelDecides(st: CacheState, labels: Option<StringMap>, namespace: string, secretName: string,
      listed: Result<seq<Item>>, owner: string)
    requires Lookup(labels, "secrets-store.csi.k8s.io/secretProviderClass") == Some(owner)
    ensures FindFor(st, labels, namespace, secretName, listed) == Ok(owner)
  {}

  /** Only an unlabelled Secret without an index entry needs the List call: the lookup fails
      exactly when that call does then. */
  lemma FindFailsIff(ops: seq<CacheOp>, labels: Option<StringMap>, namespace: string, secretName: string,
      listed: Result<seq<Item>>)
    requires SlashlessOps(ops) && Slashless(namespace)
    requires forall name :: HasClaim(AfterOps(ops), namespace, name, secretName) ==> name != ""
    ensures FindFor(AfterOps(ops), labels, namespace, secretName, listed).Failed? <==>
            Lookup(labels, "secrets-store.csi.k8s.io/secretProviderClass").None? && listed.Failed? &&
            CacheKey(namespace, secretName) !in AfterOps(ops).index
  {
    IndexIsSound(ops);
    assert EntrySound(AfterOps(ops), namespace, secretName);
  }

  ghost predicate Claimant(cluster: Cluster, namespace: string, name: string, secretName: string) {
    (namespace, name) in cluster && Claims(cluster[(namespace, name)], secretName)
  }

  lemma {:induction false} ScanFinds(items: seq<Item>, secretName: string)
    requires forall item <- items :: item.name != ""
    ensures Scan(items, secretName) == "" <==> forall item <- items :: !Claims(item.spc, secretName)
    ensures Scan(items, secretName) != "" ==>
            exists item <- items :: item.name == Scan(items, secretName) && Claims(item.spc, secretName)
  {
    if items != [] {
      assert items[0] in items;
      ScanFinds(items[1..], secretName);
      if Claims(items[0].spc, secretName) {
      } else {
        assert items == [items[0]] + items[1..];
      }
    }
  }

  /** The scan answers the first listed object that has the Secret among its secretObjects. */
  lemma {:induction false} ScanFindsFirst(items: seq<Item>, secretName: string) returns (i: nat)
    ensures i <= |items|
    ensures forall j, o :: 0 <= j < i && o in items[j].spc.secretObjects ==> o.secretName != secretName
    ensures i == |items| ==> Scan(items, secretName) == ""
    ensures i < |items| ==> Scan(items, secretName) == items[i].name
    ensures i < |items| ==> exists o :: o in items[i].spc.secretObjects && o.secretName == secretName
  {
    if items == [] || Claims(items[0].spc, secretName) {
      i := 0;
    } else {
      i := ScanFindsFirst(items[1..], secretName);
      i := i + 1;
      forall j, o | 0 <= j < i && o in items[j].spc.secretObjects
        ensures o.secretName != secretName
      {
        if j > 0 {
          assert o in items[1..][j - 1].spc.secretObjects;
        }
      }
    }
  }

  /** The answer is empty exactly when no object of the namespace lists the Secret, and
      otherwise names one that does. */
  ghost predicate IsRightAnswer(r: Result<string>, cluster: Cluster, namespace: string, secretName: string) {
    r.Ok? &&
    (r.value == "" <==> forall name :: !Claimant(cluster, namespace, name, secretName)) &&
    (r.value != "" ==> Claimant(cluster, namespace, r.value, secretName))
  }

  lemma ScanIsRight(cluster: Cluster, namespace: string, secretName: string, items: seq<Item>)
    requires IsListing(cluster, namespace, items) && forall key <- cluster :: key.1 != ""
    ensures IsRightAnswer(Ok(Scan(items, secretName)), cluster, namespace, secretName)
  {
    forall item | item in items
      ensures item.name != ""
    {
      assert item == Item(item.name, item.spc);
      assert (namespace, item.name) in cluster;
    }
    ScanFinds(items, secretName);
    if Scan(items, secretName) == "" {
      forall name
        ensures !Claimant(cluster, namespace, name, secretName)
      {
        if (namespace, name) in cluster {
          assert Item(name, cluster[(namespace, name)]) in items;
        }
      }
    } else {
      var item :| item in items && item.name == Scan(items, secretName) && Claims(item.spc, secretName);
      assert item == Item(item.name, item.spc);
      assert Claimant(cluster, namespace, item.name, secretName);
    }
  }

  /** For a Secret without the owner label the indexed lookup is right exactly when the index
      has no entry or names an object that lists the Secret in the cluster. */
  lemma FindIsRightIff(st: CacheState, cluster: Cluster, namespace: string, labels: Option<StringMap>,
      secretName: string, items: seq<Item>)
    requires Lookup(labels, OWNER_LABEL).None?
    requires IsListing(cluster, namespace, items) && forall key <- cluster :: key.1 != ""
    ensures var entry := IndexEntry(st, namespace, secretName);
            IsRightAnswer(FindFor(st, labels, namespace, secretName, Ok(items)), cluster, namespace, secretName) <==>
            entry == "" || Claimant(cluster, namespace, entry, secretName)
  {
    ScanIsRight(cluster, namespace, secretName, items);
  }

  /** On every reachable cache state the index answers nothing or a cached claimant. */
  lemma IndexAnswersClaimant(ops: seq<CacheOp>, namespace: string, secretName: string)
    requires SlashlessOps(ops) && Slashless(namespace)
    ensures var name := IndexEntry(AfterOps(ops), namespace, secretName);
            name == "" || HasClaim(AfterOps(ops), namespace, name, secretName)
  {
    IndexIsSound(ops);
    assert EntrySound(AfterOps(ops), namespace, secretName);
  }

  /** The lookup refines the linear scan, also when several objects list the Secret, as long
      as cached claims on the Secret are still the cluster's; all else in the cached objects
      may be out of date. */
  lemma FindRefinesScan(ops: seq<CacheOp>, cluster: Cluster, namespace: string, labels: Option<StringMap>,
      secretName: string, items: seq<Item>)
    requires SlashlessOps(ops) && Slashless(namespace)
    requires Lookup(labels, OWNER_LABEL).None?
    requires IsListing(cluster, namespace, items) && forall key <- cluster :: key.1 != ""
    requires forall name ::
               HasClaim(AfterOps(ops), namespace, name, secretName) ==> Claimant(cluster, namespace, name, secretName)
    ensures var r := FindFor(AfterOps(ops), labels, namespace, secretName, Ok(items));
            IsRightAnswer(r, cluster, namespace, secretName)
  {
    IndexAnswersClaimant(ops, namespace, secretName);
    FindIsRightIff(AfterOps(ops), cluster, namespace, labels, secretName, items);
  }

  /** reconcile caches the object as it was before its own patch. After any history of the
      cache, the lookup for a Secret that this object claimed is then right exactly when the
      object still claims it: a claim that the patch drops makes the entry mislead. */
  lemma CachedBeforePatch(
    ops: seq<CacheOp>, cluster: Cluster, namespace: string, name: string,
    before: SecretProviderClass, after: SecretProviderClass,
    labels: Option<StringMap>, secretName: string, items: seq<Item>)
    requires SlashlessOps(ops) && Slashless(namespace) && name != "" && Claims(before, secretName)
    requires Lookup(labels, OWNER_LABEL).None? && forall key <- cluster :: key.1 != ""
    requires IsListing(cluster[(namespace, name) := after], namespace, items)
    ensures var st := AfterOps(ops + [SetOp(namespace, name, Some(before))]);
            var r := FindFor(st, labels, namespace, secretName, Ok(items));
            r == Ok(name) &&
            (IsRightAnswer(r, cluster[(namespace, name) := after], namespace, secretName) <==>
                Claims(after, secretName))
  {
    var all := ops + [SetOp(namespace, name, Some(before))];
    assert all[..|ops|] == ops && all[|all| - 1] == SetOp(namespace, name, Some(before));
    ClaimKeyIff(namespace, Some(before), namespace, secretName);
    FindIsRightIff(AfterOps(all), cluster[(namespace, name) := after], namespace, labels, secretName, items);
  }
}
