/** One reconcile pass over a Secret's metadata: a three-way merge of the live maps, the
    tracking lists stored in them, and the desired maps. */
module SecretSync {
  import opened GoStrings
  import opened JsonPatch
  import opened SecretMetadata
  import opened TrackingList

  datatype Desired = Desired(annotations: StringMap, labels: StringMap)

  function Wanted(d: Desired, section: Section): StringMap {
    match section
    case Annotations => d.annotations
    case Labels => d.labels
  }

  function TrackingKey(section: Section): string {
    match section
    case Annotations => MANAGED_ANNOTATIONS
    case Labels => MANAGED_LABELS
  }

  predicate IsTrackingKey(key: string) {
    key == MANAGED_ANNOTATIONS || key == MANAGED_LABELS
  }

  /** Both lists live in annotations, also the one about labels. */
  function Tracked(s: Secret, section: Section): seq<string> {
    ManagedKeys(s.annotations, TrackingKey(section))
  }

  // ----- The plan

  function Stale(desired: StringMap, current: Option<StringMap>): StringMap {
    map k | k in desired && Lookup(current, k) != Some(desired[k]) :: desired[k]
  }

  function Unwanted(keys: seq<string>, desired: StringMap): seq<string> {
    if keys == [] then []
    else (if keys[0] in desired then [] else [keys[0]]) + Unwanted(keys[1..], desired)
  }

  /** What a pass reads and computes before it compares: the keys tracked so far and the
      texts of the new tracking lists. */
  datatype Lists = Lists(trackedAnnotations: seq<string>, trackedLabels: seq<string>, annotationText: string,
      labelText: string)

  function TrackedIn(l: Lists, section: Section): seq<string> {
    match section
    case Annotations => l.trackedAnnotations
    case Labels => l.trackedLabels
  }

  function TextIn(l: Lists, section: Section): string {
    match section
    case Annotations => l.annotationText
    case Labels => l.labelText
  }

  ghost function ListsOf(s: Secret, d: Desired): Lists {
    Lists(Tracked(s, Annotations), Tracked(s, Labels), ManagedText(d.annotations.Keys), ManagedText(d.labels.Keys))
  }

  function TrackingEntry(l: Lists, section: Section): StringMap {
    if TextIn(l, section) != "" then map[TrackingKey(section) := TextIn(l, section)] else map[]
  }

  function ObsoleteTracking(s: Secret, l: Lists, section: Section): seq<string> {
    if TextIn(l, section) == "" && Lookup(s.annotations, TrackingKey(section)).Some? then [TrackingKey(section)] else []
  }

  function PlanFor(s: Secret, d: Desired, l: Lists): Changes {
    Changes(
      Stale(d.annotations, s.annotations) + TrackingEntry(l, Annotations) + TrackingEntry(l, Labels),
      Stale(d.labels, s.labels),
      Unwanted(l.trackedAnnotations, d.annotations) +
        ObsoleteTracking(s, l, Annotations) + ObsoleteTracking(s, l, Labels),
      Unwanted(l.trackedLabels, d.labels))
  }

  ghost function Plan(s: Secret, d: Desired): Changes {
    PlanFor(s, d, ListsOf(s, d))
  }

  predicate IsEmptyPlan(c: Changes) {
    c.annotationsToAdd == map[] && c.labelsToAdd == map[] && c.annotationsToRemove == [] && c.labelsToRemove == []
  }

  /** ops is a patch the controller may send after reading snapshot. */
  ghost predicate IsEmittedPatch(ops: seq<Op>, snapshot: Secret, d: Desired) {
    IsPatchOf(ops, snapshot, Plan(snapshot, d))
  }

  // ----- The intended merge, key by key

  function TrackingValue(l: Lists, section: Section): Option<string> {
    if TextIn(l, section) == "" then None else Some(TextIn(l, section))
  }

  function ExpectedAnnotation(before: Secret, d: Desired, l: Lists, key: string): Option<string> {
    if key in d.annotations then Some(d.annotations[key])
    else if key == MANAGED_ANNOTATIONS then TrackingValue(l, Annotations)
    else if key == MANAGED_LABELS then TrackingValue(l, Labels)
    else if key in l.trackedAnnotations then None
    else Lookup(before.annotations, key)
  }

  function ExpectedLabel(before: Secret, d: Desired, l: Lists, key: string): Option<string> {
    if key in d.labels then Some(d.labels[key])
    else if key in l.trackedLabels then None
    else Lookup(before.labels, key)
  }

  /** Desired values set, tracked-undesired keys gone, tracking annotations rewritten or
      removed, every other key as before. */
  ghost predicate IsMergeFor(before: Secret, d: Desired, l: Lists, after: Secret) {
    (forall k :: Lookup(after.annotations, k) == ExpectedAnnotation(before, d, l, k)) &&
    (forall k :: Lookup(after.labels, k) == ExpectedLabel(before, d, l, k))
  }

  ghost predicate IsMerge(before: Secret, d: Desired, after: Secret) {
    IsMergeFor(before, d, ListsOf(before, d), after)
  }

  ghost predicate NoTrackingKeyDesired(d: Desired) {
    MANAGED_ANNOTATIONS !in d.annotations && MANAGED_LABELS !in d.annotations
  }

  /** What the tags of a vault should satisfy for tracking to work. */
  ghost predicate CleanDesired(d: Desired) {
    NoTrackingKeyDesired(d) && CleanKeys(d.annotations.Keys) && CleanKeys(d.labels.Keys)
  }

  lemma TrackingKeysDiffer()
    ensures MANAGED_ANNOTATIONS != MANAGED_LABELS
  {
    assert |MANAGED_ANNOTATIONS| != |MANAGED_LABELS|;
  }

  lemma {:induction false} UnwantedKeys(keys: seq<string>, desired: StringMap)
    ensures forall k :: k in Unwanted(keys, desired) <==> k in keys && k !in desired
  {
    if keys != [] {
      UnwantedKeys(keys[1..], desired);
      assert keys == [keys[0]] + keys[1..];
    }
  }

  lemma {:induction false} UnwantedDistinct(keys: seq<string>, desired: StringMap)
    requires DistinctBy(keys, Id)
    ensures DistinctBy(Unwanted(keys, desired), Id)
  {
    if keys != [] {
      forall i, j | 0 <= i < j < |keys[1..]|
        ensures Id(keys[1..][i]) != Id(keys[1..][j])
      {
        assert Id(keys[i + 1]) != Id(keys[j + 1]);
      }
      UnwantedDistinct(keys[1..], desired);
      UnwantedKeys(keys[1..], desired);
      var tail := Unwanted(keys[1..], desired);
      forall j | 0 <= j < |tail|
        ensures tail[j] != keys[0]
      {
        assert tail[j] in keys[1..];
        var m :| 0 <= m < |keys[1..]| && keys[1..][m] == tail[j];
        assert Id(keys[0]) != Id(keys[m + 1]);
      }
    }
  }

  lemma RemovalKeys(s: Secret, d: Desired, l: Lists)
    ensures forall k :: k in PlanFor(s, d, l).annotationsToRemove <==>
              (k in l.trackedAnnotations && k !in d.annotations) ||
              k in ObsoleteTracking(s, l, Annotations) || k in ObsoleteTracking(s, l, Labels)
    ensures forall k :: k in PlanFor(s, d, l).labelsToRemove <==> k in l.trackedLabels && k !in d.labels
  {
    UnwantedKeys(l.trackedAnnotations, d.annotations);
    UnwantedKeys(l.trackedLabels, d.labels);
  }

  lemma PatchedLookup(live: Option<StringMap>, snapshot: Option<StringMap>, add: StringMap, remove: seq<string>,
      key: string)
    ensures Lookup(Added(Removed(live, remove), snapshot, add), key) ==
            if key in add then Some(add[key])
            else if key in remove || (snapshot.None? && add != map[]) then None
            else Lookup(live, key)
  {}

  /** The tracking annotations are as the pass saw them. */
  ghost predicate SameTracking(live: Secret, snapshot: Secret) {
    forall section: Section ::
      Lookup(live.annotations, TrackingKey(section)) == Lookup(snapshot.annotations, TrackingKey(section))
  }

  lemma SameTrackingFacts(live: Secret, snapshot: Secret)
    requires SameTracking(live, snapshot)
    ensures Lookup(live.annotations, MANAGED_ANNOTATIONS) == Lookup(snapshot.annotations, MANAGED_ANNOTATIONS)
    ensures Lookup(live.annotations, MANAGED_LABELS) == Lookup(snapshot.annotations, MANAGED_LABELS)
    ensures forall section: Section :: Tracked(live, section) == Tracked(snapshot, section)
    ensures forall d :: ListsOf(live, d) == ListsOf(snapshot, d)
  {
    assert Lookup(live.annotations, TrackingKey(Annotations)) == Lookup(snapshot.annotations, TrackingKey(Annotations));
    assert Lookup(live.annotations, TrackingKey(Labels)) == Lookup(snapshot.annotations, TrackingKey(Labels));
  }

  /** The live Secret is as the pass saw it where that matters: the tracking annotations and
      the desired keys are unchanged. */
  ghost predicate Undisturbed(live: Secret, snapshot: Secret, d: Desired) {
    SameTracking(live, snapshot) &&
    forall section: Section, k :: k in Wanted(d, section) ==>
      Lookup(Get(live, section), k) == Lookup(Get(snapshot, section), k)
  }

  /** A map that came into being since the pass looked is about to be replaced: the patch
      first adds the empty map. */
  predicate Overwrites(live: Secret, snapshot: Secret, c: Changes, section: Section) {
    Get(snapshot, section).None? && Get(live, section).Some? && ToAdd(c, section) != map[]
  }

  /** A map that the pass saw has gone, and the patch adds an entry to it. */
  predicate LostItsMap(live: Secret, snapshot: Secret, c: Changes, section: Section) {
    Get(snapshot, section).Some? && Get(live, section).None? && ToAdd(c, section) != map[]
  }

  /** A key that the pass has no business with. */
  predicate IsStranger(d: Desired, l: Lists, section: Section, key: string) {
    key !in Wanted(d, section) && key !in TrackedIn(l, section) && !(section == Annotations && IsTrackingKey(key))
  }

  lemma PlannedAdds(s: Secret, d: Desired, l: Lists, key: string)
    requires NoTrackingKeyDesired(d)
    ensures Lookup(Some(PlanFor(s, d, l).annotationsToAdd), key) ==
            if key == MANAGED_ANNOTATIONS then TrackingValue(l, Annotations)
            else if key == MANAGED_LABELS then TrackingValue(l, Labels)
            else if key in d.annotations && Lookup(s.annotations, key) != Some(d.annotations[key])
            then Some(d.annotations[key])
            else None
  {
    TrackingKeysDiffer();
  }

  lemma PlannedRemovals(s: Secret, d: Desired, l: Lists, key: string)
    ensures key in PlanFor(s, d, l).annotationsToRemove <==>
            (key in l.trackedAnnotations && key !in d.annotations) ||
            (key == MANAGED_ANNOTATIONS && TrackingValue(l, Annotations).None? && Lookup(s.annotations, key).Some?) ||
            (key == MANAGED_LABELS && TrackingValue(l, Labels).None? && Lookup(s.annotations, key).Some?)
  {
    UnwantedKeys(l.trackedAnnotations, d.annotations);
  }

  lemma AnnotationAfter(live: Secret, snapshot: Secret, d: Desired, l: Lists, key: string)
    requires NoTrackingKeyDesired(d)
    requires key in d.annotations || IsTrackingKey(key) ==>
             Lookup(live.annotations, key) == Lookup(snapshot.annotations, key)
    ensures var c := PlanFor(snapshot, d, l);
            Lookup(Patched(live, snapshot, c).annotations, key) ==
            if IsStranger(d, l, Annotations, key) && Overwrites(live, snapshot, c, Annotations) then None
            else ExpectedAnnotation(live, d, l, key)
  {
    var c := PlanFor(snapshot, d, l);
    PlannedAdds(snapshot, d, l, key);
    PlannedRemovals(snapshot, d, l, key);
    PatchedLookup(live.annotations, snapshot.annotations, c.annotationsToAdd, c.annotationsToRemove, key);
  }

  lemma LabelAfter(live: Secret, snapshot: Secret, d: Desired, l: Lists, key: string)
    requires key in d.labels ==> Lookup(live.labels, key) == Lookup(snapshot.labels, key)
    ensures var c := PlanFor(snapshot, d, l);
            Lookup(Patched(live, snapshot, c).labels, key) ==
            if IsStranger(d, l, Labels, key) && Overwrites(live, snapshot, c, Labels) then None
            else ExpectedLabel(live, d, l, key)
  {
    var c := PlanFor(snapshot, d, l);
    UnwantedKeys(l.trackedLabels, d.labels);
    PatchedLookup(live.labels, snapshot.labels, c.labelsToAdd, c.labelsToRemove, key);
  }

  function ExpectedIn(before: Secret, d: Desired, l: Lists, section: Section, key: string): Option<string> {
    match section
    case Annotations => ExpectedAnnotation(before, d, l, key)
    case Labels => ExpectedLabel(before, d, l, key)
  }

  lemma EntryAfter(live: Secret, snapshot: Secret, d: Desired, l: Lists, section: Section, key: string)
    requires NoTrackingKeyDesired(d) && Undisturbed(live, snapshot, d)
    ensures var c := PlanFor(snapshot, d, l);
            Lookup(Get(Patched(live, snapshot, c), section), key) ==
            if IsStranger(d, l, section, key) && Overwrites(live, snapshot, c, section) then None
            else ExpectedIn(live, d, l, section, key)
  {
    SameTrackingFacts(live, snapshot);
    assert key in Wanted(d, section) ==> Lookup(Get(live, section), key) == Lookup(Get(snapshot, section), key);
    match section
    case Annotations => AnnotationAfter(live, snapshot, d, l, key);
    case Labels => LabelAfter(live, snapshot, d, l, key);
  }

  /** Some other writer's entry would be dropped together with the map it is in. */
  ghost predicate LosesStrangers(live: Secret, snapshot: Secret, d: Desired, l: Lists, section: Section) {
    Overwrites(live, snapshot, PlanFor(snapshot, d, l), section) &&
    exists k :: Lookup(Get(live, section), k).Some? && IsStranger(d, l, section, k)
  }

  lemma StrangerExpected(before: Secret, d: Desired, l: Lists, section: Section, key: string)
    requires IsStranger(d, l, section, key)
    ensures ExpectedIn(before, d, l, section, key) == Lookup(Get(before, section), key)
  {}

  lemma MergeFor(live: Secret, snapshot: Secret, d: Desired, l: Lists)
    requires NoTrackingKeyDesired(d) && Undisturbed(live, snapshot, d)
    ensures IsMergeFor(live, d, l, Patched(live, snapshot, PlanFor(snapshot, d, l))) <==>
            forall section: Section :: !LosesStrangers(live, snapshot, d, l, section)
  {
    var c := PlanFor(snapshot, d, l);
    var after := Patched(live, snapshot, c);
    MergeBySection(live, d, l, after);
    if forall section: Section :: !LosesStrangers(live, snapshot, d, l, section) {
      forall section: Section, k
        ensures Lookup(Get(after, section), k) == ExpectedIn(live, d, l, section, k)
      {
        EntryAfter(live, snapshot, d, l, section, k);
        if IsStranger(d, l, section, k) && Overwrites(live, snapshot, c, section) {
          StrangerExpected(live, d, l, section, k);
          assert !LosesStrangers(live, snapshot, d, l, section);
        }
      }
    } else {
      var section: Section :| LosesStrangers(live, snapshot, d, l, section);
      var k :| Lookup(Get(live, section), k).Some? && IsStranger(d, l, section, k);
      EntryAfter(live, snapshot, d, l, section, k);
      StrangerExpected(live, d, l, section, k);
      assert Lookup(Get(after, section), k) != ExpectedIn(live, d, l, section, k);
    }
  }

  lemma MergeBySection(before: Secret, d: Desired, l: Lists, after: Secret)
    ensures IsMergeFor(before, d, l, after) <==>
            forall section: Section, k :: Lookup(Get(after, section), k) == ExpectedIn(before, d, l, section, k)
  {
    if forall section: Section, k :: Lookup(Get(after, section), k) == ExpectedIn(before, d, l, section, k) {
      forall k
        ensures Lookup(after.annotations, k) == ExpectedAnnotation(before, d, l, k)
        ensures Lookup(after.labels, k) == ExpectedLabel(before, d, l, k)
      {
        assert Lookup(Get(after, Annotations), k) == ExpectedIn(before, d, l, Annotations, k);
        assert Lookup(Get(after, Labels), k) == ExpectedIn(before, d, l, Labels, k);
      }
    }
  }

  /** A pass computes the intended merge, on the snapshot it read and on every live Secret
      that is undisturbed since, exactly unless it overwrites a map in which another writer
      meanwhile put an entry. All other keys may have changed and keep their live value. */
  lemma PatchIsMerge(live: Secret, snapshot: Secret, d: Desired)
    requires NoTrackingKeyDesired(d) && Undisturbed(live, snapshot, d)
    ensures IsMerge(live, d, Patched(live, snapshot, Plan(snapshot, d))) <==>
            forall section: Section :: !LosesStrangers(live, snapshot, d, ListsOf(snapshot, d), section)
  {
    SameTrackingFacts(live, snapshot);
    MergeFor(live, snapshot, d, ListsOf(snapshot, d));
  }

  // ----- What happens to other writers' entries

  /** The pass has nothing to put in this map. The tracking lists are annotations too. */
  predicate NothingToAdd(d: Desired, section: Section) {
    d.labels == map[] && (section == Annotations ==> d.annotations == map[])
  }

  lemma AddsNothingFor(snapshot: Secret, d: Desired, l: Lists, section: Section)
    requires Get(snapshot, section).None?
    requires d.annotations == map[] <==> l.annotationText == ""
    requires d.labels == map[] <==> l.labelText == ""
    ensures ToAdd(PlanFor(snapshot, d, l), section) == map[] <==> NothingToAdd(d, section)
  {
    var c := PlanFor(snapshot, d, l);
    match section
    case Annotations =>
      assert l.annotationText != "" ==> MANAGED_ANNOTATIONS in c.annotationsToAdd;
      assert l.labelText != "" ==> MANAGED_LABELS in c.annotationsToAdd;
      assert d.annotations == map[] ==> Stale(d.annotations, snapshot.annotations) == map[];
    case Labels =>
      assert d.labels.Keys == c.labelsToAdd.Keys;
  }

  lemma TextsTell(d: Desired)
    requires CleanDesired(d)
    ensures d.annotations == map[] <==> ManagedText(d.annotations.Keys) == ""
    ensures d.labels == map[] <==> ManagedText(d.labels.Keys) == ""
  {
    TextIsEmptyOnlyForNoKeys(d.annotations.Keys);
    TextIsEmptyOnlyForNoKeys(d.labels.Keys);
    assert d.annotations == map[] <==> d.annotations.Keys == {};
    assert d.labels == map[] <==> d.labels.Keys == {};
  }

  lemma StrangerInClosedForm(live: Secret, snapshot: Secret, d: Desired, section: Section, key: string)
    requires CleanDesired(d) && IsStranger(d, ListsOf(snapshot, d), section, key)
    ensures Lookup(Get(Patched(live, snapshot, Plan(snapshot, d)), section), key) ==
            Lookup(Get(live, section), key) <==>
            Lookup(Get(live, section), key).None? || Get(snapshot, section).Some? || NothingToAdd(d, section)
  {
    var l := ListsOf(snapshot, d);
    match section
    case Annotations => AnnotationAfter(live, snapshot, d, l, key);
    case Labels => LabelAfter(live, snapshot, d, l, key);
    TextsTell(d);
    if Get(snapshot, section).None? {
      AddsNothingFor(snapshot, d, l, section);
    }
  }

  // ----- When the server accepts the patch

  /** No key is removed twice. */
  ghost predicate RemovesOnce(c: Changes) {
    DistinctBy(c.annotationsToRemove, Id) && DistinctBy(c.labelsToRemove, Id)
  }

  /** Tracking lists as the controller writes them: no repetition, no tracking key inside. */
  ghost predicate TidyLists(l: Lists) {
    DistinctBy(l.trackedAnnotations, Id) && DistinctBy(l.trackedLabels, Id) &&
    MANAGED_ANNOTATIONS !in l.trackedAnnotations && MANAGED_LABELS !in l.trackedAnnotations
  }

  ghost predicate TidyTracking(s: Secret) {
    TidyLists(Lists(Tracked(s, Annotations), Tracked(s, Labels), "", ""))
  }

  /** Every key the pass would remove is still on the live Secret. */
  ghost predicate StillPresent(live: Secret, d: Desired, l: Lists) {
    forall section: Section, k ::
      k in TrackedIn(l, section) && k !in Wanted(d, section) ==> Lookup(Get(live, section), k).Some?
  }

  ghost predicate UndesiredStillPresent(live: Secret, snapshot: Secret, d: Desired) {
    StillPresent(live, d, ListsOf(snapshot, d))
  }

  lemma ConcatDistinct(a: seq<string>, b: seq<string>)
    requires DistinctBy(a, Id) && DistinctBy(b, Id)
    requires forall k <- a :: k !in b
    ensures DistinctBy(a + b, Id)
  {
    forall i, j | 0 <= i < j < |a + b|
      ensures (a + b)[i] != (a + b)[j]
    {
      if i < |a| <= j {
        assert (a + b)[i] in a && (a + b)[j] in b;
      } else if i >= |a| {
        assert Id(b[i - |a|]) != Id(b[j - |a|]);
      } else {
        assert Id(a[i]) != Id(a[j]);
      }
    }
  }

  lemma RemovalsDistinct(s: Secret, d: Desired, l: Lists)
    requires TidyLists(l)
    ensures RemovesOnce(PlanFor(s, d, l))
  {
    UnwantedDistinct(l.trackedAnnotations, d.annotations);
    UnwantedDistinct(l.trackedLabels, d.labels);
    UnwantedKeys(l.trackedAnnotations, d.annotations);
    TrackingKeysDiffer();
    var own := Unwanted(l.trackedAnnotations, d.annotations);
    assert MANAGED_ANNOTATIONS !in own && MANAGED_LABELS !in own;
    ConcatDistinct(own, ObsoleteTracking(s, l, Annotations));
    ConcatDistinct(own + ObsoleteTracking(s, l, Annotations), ObsoleteTracking(s, l, Labels));
  }

  lemma RemovableIff(m: Option<StringMap>, keys: seq<string>)
    requires DistinctBy(keys, Id)
    ensures CanRemove(m, keys) <==> forall k <- keys :: Lookup(m, k).Some?
  {
    assert keys == [] || keys[0] in keys;
  }

  lemma AcceptedOnlyIf(live: Secret, snapshot: Secret, d: Desired, l: Lists)
    requires Applies(live, snapshot, PlanFor(snapshot, d, l))
    ensures StillPresent(live, d, l) && RemovesOnce(PlanFor(snapshot, d, l))
  {
    var c := PlanFor(snapshot, d, l);
    AppliesBySection(live, snapshot, c);
    RemovalKeys(snapshot, d, l);
    forall section: Section, k | k in TrackedIn(l, section) && k !in Wanted(d, section)
      ensures Lookup(Get(live, section), k).Some?
    {
      assert k in ToRemove(c, section);
      assert CanRemove(Get(live, section), ToRemove(c, section));
    }
  }

  lemma CanRemoveIf(live: Secret, snapshot: Secret, d: Desired, l: Lists)
    requires SameTracking(live, snapshot) && StillPresent(live, d, l) && RemovesOnce(PlanFor(snapshot, d, l))
    ensures CanRemove(live.annotations, PlanFor(snapshot, d, l).annotationsToRemove)
    ensures CanRemove(live.labels, PlanFor(snapshot, d, l).labelsToRemove)
  {
    var c := PlanFor(snapshot, d, l);
    SameTrackingFacts(live, snapshot);
    RemovalKeys(snapshot, d, l);
    forall k | k in c.annotationsToRemove
      ensures Lookup(live.annotations, k).Some?
    {
      if k in TrackedIn(l, Annotations) && k !in Wanted(d, Annotations) {
        assert Lookup(Get(live, Annotations), k).Some?;
      }
    }
    forall k | k in c.labelsToRemove
      ensures Lookup(live.labels, k).Some?
    {
      assert k in TrackedIn(l, Labels) && k !in Wanted(d, Labels);
      assert Lookup(Get(live, Labels), k).Some?;
    }
    RemovableIff(live.annotations, c.annotationsToRemove);
    RemovableIff(live.labels, c.labelsToRemove);
  }

  lemma AcceptedFor(live: Secret, snapshot: Secret, d: Desired, l: Lists)
    requires SameTracking(live, snapshot)
    ensures Applies(live, snapshot, PlanFor(snapshot, d, l)) <==>
            StillPresent(live, d, l) && RemovesOnce(PlanFor(snapshot, d, l)) &&
            forall section: Section :: !LostItsMap(live, snapshot, PlanFor(snapshot, d, l), section)
  {
    var c := PlanFor(snapshot, d, l);
    AppliesBySection(live, snapshot, c);
    LostBySection(live, snapshot, c);
    if StillPresent(live, d, l) && RemovesOnce(c) {
      CanRemoveIf(live, snapshot, d, l);
    }
    if Applies(live, snapshot, c) {
      AcceptedOnlyIf(live, snapshot, d, l);
    }
  }

  lemma LostBySection(live: Secret, snapshot: Secret, c: Changes)
    ensures (forall section: Section :: !LostItsMap(live, snapshot, c, section)) <==>
            CanAdd(live.annotations, snapshot.annotations, c.annotationsToAdd) &&
            CanAdd(live.labels, snapshot.labels, c.labelsToAdd)
  {
    assert LostItsMap(live, snapshot, c, Annotations) <==>
           !CanAdd(live.annotations, snapshot.annotations, c.annotationsToAdd);
    assert LostItsMap(live, snapshot, c, Labels) <==> !CanAdd(live.labels, snapshot.labels, c.labelsToAdd);
  }

  /** The patch is accepted exactly when every tracked, undesired key is still on the live
      Secret, none is to be removed twice, and no map that the pass saw and adds to has gone.
      A key is removed twice only if someone edited a tracking annotation: see TidyRemovesOnce. */
  lemma PatchAccepted(live: Secret, snapshot: Secret, d: Desired)
    requires SameTracking(live, snapshot)
    ensures Applies(live, snapshot, Plan(snapshot, d)) <==>
            UndesiredStillPresent(live, snapshot, d) && RemovesOnce(Plan(snapshot, d)) &&
            forall section: Section :: !LostItsMap(live, snapshot, Plan(snapshot, d), section)
  {
    AcceptedFor(live, snapshot, d, ListsOf(snapshot, d));
  }

  lemma TidyRemovesOnce(s: Secret, d: Desired)
    requires TidyTracking(s)
    ensures RemovesOnce(Plan(s, d))
  {
    RemovalsDistinct(s, d, ListsOf(s, d));
  }

  /** The whole pass, through the operation list and the JSON Patch interpreter: for every
      map iteration order it yields exactly the merge, or is rejected because a key to be
      removed has gone or is to be removed twice. */
  lemma PassThroughPatch(s: Secret, rest: Rest, d: Desired, annotationOrder: seq<string>, labelOrder: seq<string>)
    requires NoTrackingKeyDesired(d)
    requires IterationOf(annotationOrder, Plan(s, d).annotationsToAdd) &&
             IterationOf(labelOrder, Plan(s, d).labelsToAdd)
    ensures var outcome := Apply(Document(s, rest), PatchOps(s, Plan(s, d), annotationOrder, labelOrder));
            if UndesiredStillPresent(s, s, d) && RemovesOnce(Plan(s, d))
            then exists after :: outcome == Some(Document(after, rest)) && IsMerge(s, d, after)
            else outcome == None
  {
    PatchRun(s, rest, s, Plan(s, d), annotationOrder, labelOrder);
    PatchAccepted(s, s, d);
    PatchIsMerge(s, s, d);
  }

  lemma EmittedPatchRuns(live: Secret, snapshot: Secret, d: Desired, ops: seq<Op>, rest: Rest)
    requires IsEmittedPatch(ops, snapshot, d)
    ensures Apply(Document(live, rest), ops) ==
            if Applies(live, snapshot, Plan(snapshot, d))
            then Some(Document(Patched(live, snapshot, Plan(snapshot, d)), rest))
            else None
  {
    var c := Plan(snapshot, d);
    var annotationOrder, labelOrder :|
      IterationOf(annotationOrder, c.annotationsToAdd) && IterationOf(labelOrder, c.labelsToAdd) &&
      ops == PatchOps(snapshot, c, annotationOrder, labelOrder);
    PatchRun(live, rest, snapshot, c, annotationOrder, labelOrder);
  }

  /** after is what the server stores once it answered the request: a rejected patch changes
      nothing. */
  ghost predicate IsAfterRequest(after: Secret, live: Secret, ops: seq<Op>, rest: Rest) {
    match Apply(Document(live, rest), ops)
    case Some(doc) => Document(after, rest) == doc
    case None => after == live
  }

  lemma RequestOutcome(live: Secret, snapshot: Secret, d: Desired, ops: seq<Op>, after: Secret, rest: Rest)
    requires IsEmittedPatch(ops, snapshot, d) && IsAfterRequest(after, live, ops, rest)
    ensures Apply(Document(live, rest), ops).Some? <==> Applies(live, snapshot, Plan(snapshot, d))
    ensures after ==
            if Applies(live, snapshot, Plan(snapshot, d)) then Patched(live, snapshot, Plan(snapshot, d)) else live
  {
    EmittedPatchRuns(live, snapshot, d, ops, rest);
    if Applies(live, snapshot, Plan(snapshot, d)) {
      DocumentInjective(after, Patched(live, snapshot, Plan(snapshot, d)), rest);
    }
  }

  /** When another writer's entry survives the request, whatever happened since the listing:
      exactly when it is not there, or the map was there when the pass looked, or the pass
      has nothing to put in this map, or the server rejects the patch. */
  lemma StrangerSurvivesIff(
    live: Secret, snapshot: Secret, d: Desired, ops: seq<Op>, after: Secret, rest: Rest, section: Section, key: string)
    requires CleanDesired(d) && IsStranger(d, ListsOf(snapshot, d), section, key)
    requires IsEmittedPatch(ops, snapshot, d) && IsAfterRequest(after, live, ops, rest)
    ensures Lookup(Get(after, section), key) == Lookup(Get(live, section), key) <==>
            Lookup(Get(live, section), key).None? || Get(snapshot, section).Some? || NothingToAdd(d, section) ||
            Apply(Document(live, rest), ops).None?
  {
    RequestOutcome(live, snapshot, d, ops, after, rest);
    StrangerInClosedForm(live, snapshot, d, section, key);
  }

  lemma UntrackedApplies(live: Secret, snapshot: Secret, d: Desired)
    requires snapshot.annotations.None? && live.annotations.Some? && (snapshot.labels.Some? ==> live.labels.Some?)
    ensures Applies(live, snapshot, Plan(snapshot, d))
    ensures forall key :: key !in d.annotations && !IsTrackingKey(key) ==>
              IsStranger(d, ListsOf(snapshot, d), Annotations, key)
  {
    var l := ListsOf(snapshot, d);
    assert l.trackedAnnotations == [] && l.trackedLabels == [];
    UntrackedAppliesFor(live, snapshot, d, l);
  }

  lemma UntrackedAppliesFor(live: Secret, snapshot: Secret, d: Desired, l: Lists)
    requires snapshot.annotations.None? && live.annotations.Some? && (snapshot.labels.Some? ==> live.labels.Some?)
    requires l.trackedAnnotations == [] && l.trackedLabels == []
    ensures Applies(live, snapshot, PlanFor(snapshot, d, l))
  {
    AppliesBySection(live, snapshot, PlanFor(snapshot, d, l));
  }

  /** So any annotation that others gave a Secret between listing and patch is lost if the
      Secret had none when it was listed. The watcher does list such Secrets: it asks for a
      label only. */
  lemma StaleSnapshotLosesAnnotation(
    live: Secret, snapshot: Secret, d: Desired, ops: seq<Op>, after: Secret, rest: Rest, key: string)
    requires CleanDesired(d) && !NothingToAdd(d, Annotations)
    requires snapshot.annotations.None? && (snapshot.labels.Some? ==> live.labels.Some?)
    requires key !in d.annotations && !IsTrackingKey(key) && Lookup(live.annotations, key).Some?
    requires IsEmittedPatch(ops, snapshot, d) && IsAfterRequest(after, live, ops, rest)
    ensures Apply(Document(live, rest), ops).Some?
    ensures Lookup(after.annotations, key) != Lookup(live.annotations, key)
  {
    UntrackedApplies(live, snapshot, d);
    EmittedPatchRuns(live, snapshot, d, ops, rest);
    StrangerSurvivesIff(live, snapshot, d, ops, after, rest, Annotations, key);
  }

  // ----- Doing it twice

  /** A tracking annotation with the text the controller writes names exactly the desired keys. */
  lemma ListTracksDesired(s: Secret, d: Desired, section: Section)
    requires CleanDesired(d) && Lookup(s.annotations, TrackingKey(section)) == TrackingValue(ListsOf(s, d), section)
    ensures Tracked(s, section) == SortedKeys(Wanted(d, section).Keys)
  {
    var keys := Wanted(d, section).Keys;
    assert CleanKeys(keys);
    ListRoundTrip(keys);
    TextIsEmptyOnlyForNoKeys(keys);
    assert TextIn(ListsOf(s, d), section) == ManagedText(keys);
    if keys == {} {
      assert SortedKeys(keys) == [];
    }
  }

  /** The tracking lists after a merge name exactly the desired keys. */
  lemma MergeTracksDesired(before: Secret, d: Desired, after: Secret, section: Section)
    requires CleanDesired(d) && IsMerge(before, d, after)
    ensures Tracked(after, section) == SortedKeys(Wanted(d, section).Keys)
  {
    MergeShows(before, d, ListsOf(before, d), after, ListsOf(after, d));
    ListTracksDesired(after, d, section);
  }

  /** So the lists the controller writes are always tidy. */
  lemma MergeIsTidy(before: Secret, d: Desired, after: Secret)
    requires CleanDesired(d) && IsMerge(before, d, after)
    ensures TidyTracking(after)
  {
    MergeTracksDesired(before, d, after, Annotations);
    MergeTracksDesired(before, d, after, Labels);
    assert MANAGED_ANNOTATIONS !in d.annotations.Keys && MANAGED_LABELS !in d.annotations.Keys;
  }

  lemma {:induction false} NothingUnwanted(keys: seq<string>, desired: StringMap)
    requires forall k <- keys :: k in desired
    ensures Unwanted(keys, desired) == []
  {
    if keys != [] {
      assert keys[0] in desired;
      NothingUnwanted(keys[1..], desired);
    }
  }

  lemma AbsorbedAdd(m: Option<StringMap>, snapshot: Option<StringMap>, add: StringMap)
    requires forall k :: k in add ==> Lookup(m, k) == Some(add[k]) && Lookup(snapshot, k).Some?
    ensures Added(m, snapshot, add) == m && CanAdd(m, snapshot, add)
  {
    if add != map[] {
      var k :| k in add;
      assert m.Some? && snapshot.Some?;
      assert m.value + add == m.value;
    }
  }

  /** The patch removes nothing and adds at most the tracking annotations. */
  ghost predicate OnlyTracking(c: Changes) {
    c.labelsToAdd == map[] && c.annotationsToRemove == [] && c.labelsToRemove == [] &&
    forall k <- c.annotationsToAdd :: IsTrackingKey(k)
  }

  /** The Secret shows the desired values and the tracking texts. */
  ghost predicate Shows(s: Secret, d: Desired, l: Lists) {
    (forall section: Section :: Lookup(s.annotations, TrackingKey(section)) == TrackingValue(l, section)) &&
    forall section: Section, k :: k in Wanted(d, section) ==> Lookup(Get(s, section), k) == Some(Wanted(d, section)[k])
  }

  lemma ShowsFacts(s: Secret, d: Desired, l: Lists)
    requires Shows(s, d, l)
    ensures Lookup(s.annotations, MANAGED_ANNOTATIONS) == TrackingValue(l, Annotations)
    ensures Lookup(s.annotations, MANAGED_LABELS) == TrackingValue(l, Labels)
    ensures Stale(d.annotations, s.annotations) == map[] && Stale(d.labels, s.labels) == map[]
  {
    assert Lookup(s.annotations, TrackingKey(Annotations)) == TrackingValue(l, Annotations);
    assert Lookup(s.annotations, TrackingKey(Labels)) == TrackingValue(l, Labels);
    forall k | k in d.annotations
      ensures Lookup(s.annotations, k) == Some(d.annotations[k])
    {
      assert k in Wanted(d, Annotations);
    }
    forall k | k in d.labels
      ensures Lookup(s.labels, k) == Some(d.labels[k])
    {
      assert k in Wanted(d, Labels);
    }
  }

  /** A Secret that showed the merge, tracking included, when the pass looked and still does
      is left alone. */
  lemma SettledFor(live: Secret, snapshot: Secret, d: Desired, l: Lists)
    requires NoTrackingKeyDesired(d) && Shows(live, d, l) && Shows(snapshot, d, l)
    requires forall section: Section, k :: k in TrackedIn(l, section) ==> k in Wanted(d, section)
    ensures Applies(live, snapshot, PlanFor(snapshot, d, l)) && Patched(live, snapshot, PlanFor(snapshot, d, l)) == live
    ensures OnlyTracking(PlanFor(snapshot, d, l))
  {
    var c := PlanFor(snapshot, d, l);
    forall k | k in l.trackedAnnotations
      ensures k in d.annotations
    {
      assert k in TrackedIn(l, Annotations);
    }
    forall k | k in l.trackedLabels
      ensures k in d.labels
    {
      assert k in TrackedIn(l, Labels);
    }
    NothingUnwanted(l.trackedAnnotations, d.annotations);
    NothingUnwanted(l.trackedLabels, d.labels);
    ShowsFacts(live, d, l);
    ShowsFacts(snapshot, d, l);
    assert c.labelsToAdd == map[];
    assert c.annotationsToRemove == [] && c.labelsToRemove == [];
    TrackingKeysDiffer();
    AbsorbedAdd(live.annotations, snapshot.annotations, c.annotationsToAdd);
    AppliesBySection(live, snapshot, c);
  }

  lemma MergeShows(before: Secret, d: Desired, l0: Lists, after: Secret, l: Lists)
    requires NoTrackingKeyDesired(d) && IsMergeFor(before, d, l0, after)
    requires l.annotationText == l0.annotationText && l.labelText == l0.labelText
    ensures Shows(after, d, l)
  {
    TrackingKeysDiffer();
    forall section: Section
      ensures Lookup(after.annotations, TrackingKey(section)) == TrackingValue(l, section)
    {
      assert Lookup(after.annotations, TrackingKey(section)) == ExpectedAnnotation(before, d, l0, TrackingKey(section));
    }
    forall section: Section, k | k in Wanted(d, section)
      ensures Lookup(Get(after, section), k) == Some(Wanted(d, section)[k])
    {
      match section
      case Annotations => assert Lookup(after.annotations, k) == ExpectedAnnotation(before, d, l0, k);
      case Labels => assert Lookup(after.labels, k) == ExpectedLabel(before, d, l0, k);
    }
  }

  /** A Secret that shows what is desired is settled: every patch, also one built from an
      older listing that showed it already, is accepted, changes neither map, removes nothing
      and adds at most the tracking annotations. */
  lemma ShownIsSettled(live: Secret, snapshot: Secret, d: Desired)
    requires CleanDesired(d) && Shows(live, d, ListsOf(live, d)) && Shows(snapshot, d, ListsOf(snapshot, d))
    ensures Applies(live, snapshot, Plan(snapshot, d)) && Patched(live, snapshot, Plan(snapshot, d)) == live
    ensures OnlyTracking(Plan(snapshot, d))
  {
    var l, l' := ListsOf(snapshot, d), ListsOf(live, d);
    assert l.annotationText == l'.annotationText && l.labelText == l'.labelText;
    assert forall section: Section :: TrackingValue(l, section) == TrackingValue(l', section);
    forall section: Section, k | k in TrackedIn(l, section)
      ensures k in Wanted(d, section)
    {
      ListTracksDesired(snapshot, d, section);
      assert TrackedIn(l, section) == SortedKeys(Wanted(d, section).Keys);
    }
    SettledFor(live, snapshot, d, l);
  }

  lemma PatchShowsFor(live: Secret, snapshot: Secret, d: Desired, l: Lists)
    requires NoTrackingKeyDesired(d) && Undisturbed(live, snapshot, d)
    ensures Shows(Patched(live, snapshot, PlanFor(snapshot, d, l)), d, l)
  {
    var after := Patched(live, snapshot, PlanFor(snapshot, d, l));
    TrackingKeysDiffer();
    forall section: Section
      ensures Lookup(after.annotations, TrackingKey(section)) == TrackingValue(l, section)
    {
      EntryAfter(live, snapshot, d, l, Annotations, TrackingKey(section));
    }
    forall section: Section, k | k in Wanted(d, section)
      ensures Lookup(Get(after, section), k) == Some(Wanted(d, section)[k])
    {
      EntryAfter(live, snapshot, d, l, section, k);
    }
  }

  lemma ShowsSameTexts(s: Secret, d: Desired, l: Lists, l': Lists)
    requires Shows(s, d, l) && l.annotationText == l'.annotationText && l.labelText == l'.labelText
    ensures Shows(s, d, l')
  {
    assert forall section: Section :: TrackingValue(l, section) == TrackingValue(l', section);
  }

  /** On an undisturbed Secret the patch makes the Secret show what is desired. */
  lemma PatchShows(live: Secret, snapshot: Secret, d: Desired)
    requires CleanDesired(d) && Undisturbed(live, snapshot, d)
    ensures var after := Patched(live, snapshot, Plan(snapshot, d));
            Shows(after, d, ListsOf(after, d))
  {
    var after := Patched(live, snapshot, Plan(snapshot, d));
    PatchShowsFor(live, snapshot, d, ListsOf(snapshot, d));
    ShowsSameTexts(after, d, ListsOf(snapshot, d), ListsOf(after, d));
  }

  /** The maps reach a fixed point after one pass: the next pass re-sends at most the
      tracking annotations, with the values they already have. */
  lemma PassIsIdempotent(s: Secret, d: Desired, after: Secret)
    requires CleanDesired(d) && IsMerge(s, d, after)
    ensures Applies(after, after, Plan(after, d)) && Patched(after, after, Plan(after, d)) == after
    ensures OnlyTracking(Plan(after, d))
  {
    MergeShows(s, d, ListsOf(s, d), after, ListsOf(after, d));
    ShownIsSettled(after, after, d);
  }

  lemma SilentFor(s: Secret, d: Desired, l: Lists)
    requires NoTrackingKeyDesired(d)
    requires d.annotations == map[] <==> l.annotationText == ""
    requires d.labels == map[] <==> l.labelText == ""
    requires Lookup(s.annotations, MANAGED_ANNOTATIONS).None? ==> l.trackedAnnotations == []
    requires Lookup(s.annotations, MANAGED_LABELS).None? ==> l.trackedLabels == []
    ensures IsEmptyPlan(PlanFor(s, d, l)) <==>
            d.annotations == map[] && d.labels == map[] &&
            Lookup(s.annotations, MANAGED_ANNOTATIONS).None? && Lookup(s.annotations, MANAGED_LABELS).None?
  {
    var c := PlanFor(s, d, l);
    assert l.annotationText != "" ==> MANAGED_ANNOTATIONS in c.annotationsToAdd;
    assert l.labelText != "" ==> MANAGED_LABELS in c.annotationsToAdd;
    if d.annotations == map[] && d.labels == map[] {
      assert Stale(d.annotations, s.annotations) == map[];
      assert Stale(d.labels, s.labels) == map[];
    }
  }

  /** A pass sends no patch at all exactly when nothing is desired and nothing is tracked:
      while anything is managed, every pass sends one. */
  lemma SilentPass(s: Secret, d: Desired)
    requires CleanDesired(d)
    ensures IsEmptyPlan(Plan(s, d)) <==>
            d.annotations == map[] && d.labels == map[] &&
            Lookup(s.annotations, MANAGED_ANNOTATIONS).None? && Lookup(s.annotations, MANAGED_LABELS).None?
  {
    TextsTell(d);
    SilentFor(s, d, ListsOf(s, d));
  }
}
