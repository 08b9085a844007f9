/** Runs of the Secret watcher. A pass lists the Secret, later reads its owner, and later
    still patches the Secret; other writers and vault changes may come in between. */
module SecretRuns {
  import opened GoStrings
  import opened JsonPatch
  import opened SecretMetadata
  import opened TrackingList
  import opened SecretSync

  /** How far the watcher's pass over the Secret has come. */
  datatype Pass =
    | Idle
    | Listed(snapshot: Secret)
    | Ready(snapshot: Secret, wanted: Desired)

  /** desired is what the owner's annotations ask for now. */
  datatype World = World(live: Secret, desired: Desired, pass: Pass)

  datatype Event =
    | Outside(after: Secret)        // another writer updates the Secret
    | VaultChange(desired: Desired) // the SecretProviderClass annotations change
    | ListSecret                    // the watcher reads the Secret
    | ReadOwner                     // the watcher reads the SecretProviderClass
    | PatchSecret(ops: seq<Op>)     // the watcher's patch reaches the server

  /** What can happen. Other writers may do anything. A pass may end without a patch. */
  ghost predicate Step(w: World, e: Event, w': World, rest: Rest) {
    match e
    case Outside(after) => w' == w.(live := after)
    case VaultChange(d) => w' == w.(desired := d)
    case ListSecret => w' == w.(pass := Listed(w.live))
    case ReadOwner => w.pass.Listed? && w' == w.(pass := Ready(w.pass.snapshot, w.desired))
    case PatchSecret(ops) =>
      w.pass.Ready? && IsEmittedPatch(ops, w.pass.snapshot, w.pass.wanted) &&
      IsAfterRequest(w'.live, w.live, ops, rest) &&
      w' == w.(live := w'.live, pass := Idle)
  }

  ghost predicate IsRun(ws: seq<World>, es: seq<Event>, rest: Rest) {
    |ws| == |es| + 1 && forall i :: 0 <= i < |es| ==> Step(ws[i], es[i], ws[i + 1], rest)
  }

  ghost predicate Accepted(w: World, ops: seq<Op>, rest: Rest) {
    Apply(Document(w.live, rest), ops).Some?
  }

  /** The changes that the pass is about to request. */
  ghost function Planned(w: World): Changes
    requires w.pass.Ready?
  {
    Plan(w.pass.snapshot, w.pass.wanted)
  }

  /** A patch step on the level of the two maps. */
  lemma PatchStep(w: World, ops: seq<Op>, w': World, rest: Rest)
    requires Step(w, PatchSecret(ops), w', rest)
    ensures Accepted(w, ops, rest) <==> Applies(w.live, w.pass.snapshot, Planned(w))
    ensures w'.live == if Accepted(w, ops, rest) then Patched(w.live, w.pass.snapshot, Planned(w)) else w.live
  {
    RequestOutcome(w.live, w.pass.snapshot, w.pass.wanted, ops, w'.live, rest);
  }

  lemma StepAt(ws: seq<World>, es: seq<Event>, rest: Rest, i: nat)
    requires IsRun(ws, es, rest) && i < |es|
    ensures Step(ws[i], es[i], ws[i + 1], rest)
  {}

  /** What every step keeps holds all along. */
  lemma {:induction false} Chain(p: World -> bool, ws: seq<World>, n: nat)
    requires n < |ws| && p(ws[0])
    requires forall j :: 0 <= j < n && p(ws[j]) ==> p(ws[j + 1])
    ensures p(ws[n])
    decreases n
  {
    if n > 0 {
      Chain(p, ws, n - 1);
    }
  }

  // ----- Polite writers

  /** The keys that the vault may ask for during a run. */
  datatype Scope = Scope(annotations: set<string>, labels: set<string>)

  function In(scope: Scope, section: Section): set<string> {
    match section
    case Annotations => scope.annotations
    case Labels => scope.labels
  }

  /** A key other writers must not delete now: it is tracked, or the pass under way saw it
      and may find it desired. */
  ghost predicate Guarded(scope: Scope, w: World, section: Section, key: string) {
    key in Tracked(w.live, section) ||
    (!w.pass.Idle? && key in In(scope, section) && Lookup(Get(w.pass.snapshot, section), key).Some?)
  }

  /** Other writers leave the tracking annotations alone and do not delete guarded keys.
      Everything else, their own keys above all, they may add, change and delete at any time. */
  ghost predicate PoliteWrite(scope: Scope, w: World, after: Secret) {
    SameTracking(after, w.live) &&
    forall section: Section, k ::
      Guarded(scope, w, section, k) && Lookup(Get(w.live, section), k).Some? ==> Lookup(Get(after, section), k).Some?
  }

  /** The vault asks for clean keys of the scope only. */
  ghost predicate AsksWithin(scope: Scope, d: Desired) {
    CleanDesired(d) && forall section: Section :: Wanted(d, section).Keys <= In(scope, section)
  }

  ghost predicate Polite(scope: Scope, w: World, e: Event) {
    match e
    case Outside(after) => PoliteWrite(scope, w, after)
    case VaultChange(d) => AsksWithin(scope, d)
    case _ => true
  }

  ghost predicate IsPoliteRun(scope: Scope, ws: seq<World>, es: seq<Event>, rest: Rest) {
    IsRun(ws, es, rest) && forall i :: 0 <= i < |es| ==> Polite(scope, ws[i], es[i])
  }

  // ----- The invariant

  ghost predicate TrackedWell(scope: Scope, live: Secret, section: Section) {
    DistinctBy(Tracked(live, section), Id) &&
    forall k <- Tracked(live, section) :: Lookup(Get(live, section), k).Some? && k in In(scope, section)
  }

  ghost predicate SnapshotFits(scope: Scope, live: Secret, snapshot: Secret) {
    SameTracking(live, snapshot) &&
    forall section: Section, k ::
      k in In(scope, section) && Lookup(Get(snapshot, section), k).Some? ==> Lookup(Get(live, section), k).Some?
  }

  /** Tracked keys are present and in scope; nothing tracks a tracking key. */
  ghost predicate Inv(scope: Scope, w: World) {
    AsksWithin(scope, w.desired) && (w.pass.Ready? ==> AsksWithin(scope, w.pass.wanted)) &&
    MANAGED_ANNOTATIONS !in scope.annotations && MANAGED_LABELS !in scope.annotations &&
    (forall section: Section :: TrackedWell(scope, w.live, section)) &&
    (!w.pass.Idle? ==> SnapshotFits(scope, w.live, w.pass.snapshot))
  }

  lemma OutsideKeepsInv(scope: Scope, w: World, after: Secret)
    requires Inv(scope, w) && PoliteWrite(scope, w, after)
    ensures Inv(scope, w.(live := after))
  {
    SameTrackingFacts(after, w.live);
    forall section: Section
      ensures TrackedWell(scope, after, section)
    {
      assert TrackedWell(scope, w.live, section);
      forall k | k in Tracked(after, section)
        ensures Lookup(Get(after, section), k).Some? && k in In(scope, section)
      {
        assert Guarded(scope, w, section, k);
      }
    }
    if !w.pass.Idle? {
      forall section: Section, k | k in In(scope, section) && Lookup(Get(w.pass.snapshot, section), k).Some?
        ensures Lookup(Get(after, section), k).Some?
      {
        assert Guarded(scope, w, section, k);
      }
    }
  }

  /** A map that the pass under way saw and wants to add to has gone. */
  ghost predicate Blocked(w: World) {
    w.pass.Ready? && exists section: Section :: LostItsMap(w.live, w.pass.snapshot, Planned(w), section)
  }

  /** The patch is accepted exactly unless it is blocked, because the tracked keys are all
      present. */
  lemma AcceptedUnlessBlocked(scope: Scope, w: World)
    requires Inv(scope, w) && w.pass.Ready?
    ensures Applies(w.live, w.pass.snapshot, Planned(w)) <==> !Blocked(w)
  {
    var snapshot, d := w.pass.snapshot, w.pass.wanted;
    SameTrackingFacts(w.live, snapshot);
    assert TrackedWell(scope, w.live, Annotations) && TrackedWell(scope, w.live, Labels);
    TidyRemovesOnce(snapshot, d);
    PatchAccepted(w.live, snapshot, d);
    var l := ListsOf(snapshot, d);
    forall section: Section, k | k in TrackedIn(l, section)
      ensures Lookup(Get(w.live, section), k).Some?
    {
      assert TrackedWell(scope, w.live, section);
      assert k in Tracked(w.live, section);
    }
  }

  lemma DesiredPresentFor(live: Secret, snapshot: Secret, d: Desired, l: Lists, section: Section, key: string)
    requires NoTrackingKeyDesired(d) && key in Wanted(d, section)
    requires Lookup(Get(snapshot, section), key).Some? ==> Lookup(Get(live, section), key).Some?
    ensures Lookup(Get(Patched(live, snapshot, PlanFor(snapshot, d, l)), section), key).Some?
  {
    var c := PlanFor(snapshot, d, l);
    match section
    case Annotations =>
      PlannedAdds(snapshot, d, l, key);
      PlannedRemovals(snapshot, d, l, key);
      PatchedLookup(live.annotations, snapshot.annotations, c.annotationsToAdd, c.annotationsToRemove, key);
    case Labels =>
      UnwantedKeys(l.trackedLabels, d.labels);
      PatchedLookup(live.labels, snapshot.labels, c.labelsToAdd, c.labelsToRemove, key);
  }

  /** After the patch the lists name exactly the desired keys. */
  lemma PatchTracksDesired(live: Secret, snapshot: Secret, d: Desired, section: Section)
    requires CleanDesired(d) && SameTracking(live, snapshot)
    ensures Tracked(Patched(live, snapshot, Plan(snapshot, d)), section) == SortedKeys(Wanted(d, section).Keys)
  {
    var after := Patched(live, snapshot, Plan(snapshot, d));
    SameTrackingFacts(live, snapshot);
    TrackingKeysDiffer();
    AnnotationAfter(live, snapshot, d, ListsOf(snapshot, d), TrackingKey(section));
    ListTracksDesired(after, d, section);
  }

  lemma PatchKeepsInv(scope: Scope, w: World, ops: seq<Op>, w': World, rest: Rest)
    requires Inv(scope, w) && Step(w, PatchSecret(ops), w', rest)
    ensures Inv(scope, w')
  {
    PatchStep(w, ops, w', rest);
    var snapshot, d := w.pass.snapshot, w.pass.wanted;
    if Accepted(w, ops, rest) {
      forall section: Section
        ensures TrackedWell(scope, w'.live, section)
      {
        PatchTracksDesired(w.live, snapshot, d, section);
        forall k | k in Wanted(d, section)
          ensures Lookup(Get(w'.live, section), k).Some? && k in In(scope, section)
        {
          assert Wanted(d, section).Keys <= In(scope, section);
          DesiredPresentFor(w.live, snapshot, d, ListsOf(snapshot, d), section, k);
        }
      }
    }
  }

  lemma StepKeepsInv(scope: Scope, w: World, e: Event, w': World, rest: Rest)
    requires Inv(scope, w) && Polite(scope, w, e) && Step(w, e, w', rest)
    ensures Inv(scope, w')
  {
    match e
    case Outside(after) => OutsideKeepsInv(scope, w, after);
    case VaultChange(d) =>
    case ListSecret =>
    case ReadOwner =>
    case PatchSecret(ops) => PatchKeepsInv(scope, w, ops, w', rest);
  }

  // ----- Whole runs

  lemma InvAt(scope: Scope, ws: seq<World>, es: seq<Event>, rest: Rest, i: nat)
    requires IsPoliteRun(scope, ws, es, rest) && Inv(scope, ws[0]) && i < |ws|
    ensures Inv(scope, ws[i])
  {
    forall j | 0 <= j < i && Inv(scope, ws[j])
      ensures Inv(scope, ws[j + 1])
    {
      StepAt(ws, es, rest, j);
      StepKeepsInv(scope, ws[j], es[j], ws[j + 1], rest);
    }
    Chain(w => Inv(scope, w), ws, i);
  }

  /** In every run tracked keys stay a subset of the keys present and of the keys the vault
      may ask for, and a patch is accepted exactly unless a whole map disappeared under it. */
  lemma RunIsSafe(scope: Scope, ws: seq<World>, es: seq<Event>, rest: Rest)
    requires IsPoliteRun(scope, ws, es, rest) && Inv(scope, ws[0])
    ensures forall i :: 0 <= i < |ws| ==> Inv(scope, ws[i])
    ensures forall i :: 0 <= i < |es| && es[i].PatchSecret? ==> (Accepted(ws[i], es[i].ops, rest) <==> !Blocked(ws[i]))
  {
    forall i | 0 <= i < |ws|
      ensures Inv(scope, ws[i])
    {
      InvAt(scope, ws, es, rest, i);
    }
    forall i | 0 <= i < |es| && es[i].PatchSecret?
      ensures Accepted(ws[i], es[i].ops, rest) <==> !Blocked(ws[i])
    {
      InvAt(scope, ws, es, rest, i);
      StepAt(ws, es, rest, i);
      PatchStep(ws[i], es[i].ops, ws[i + 1], rest);
      AcceptedUnlessBlocked(scope, ws[i]);
    }
  }

  /** What a pass wants was desired before. */
  lemma {:induction false} WantedWasDesired(ws: seq<World>, es: seq<Event>, rest: Rest, i: nat)
    requires IsRun(ws, es, rest) && i < |ws| && ws[i].pass.Ready?
    ensures (ws[0].pass.Ready? && ws[i].pass.wanted == ws[0].pass.wanted) ||
            exists j :: 0 <= j < i && ws[i].pass.wanted == ws[j].desired
    decreases i
  {
    if i > 0 {
      StepAt(ws, es, rest, i - 1);
      if !es[i - 1].ReadOwner? {
        WantedWasDesired(ws, es, rest, i - 1);
      }
    }
  }

  /** A key tracked at some point was tracked at the start, or desired at a time before, or
      about to be tracked by a pass under way at the start. */
  lemma {:induction false} TrackedWasDesired(scope: Scope, ws: seq<World>, es: seq<Event>, rest: Rest, i: nat,
      section: Section, key: string)
    requires IsPoliteRun(scope, ws, es, rest) && Inv(scope, ws[0]) && i < |ws|
    requires key in Tracked(ws[i].live, section)
    ensures key in Tracked(ws[0].live, section) ||
            (ws[0].pass.Ready? && key in Wanted(ws[0].pass.wanted, section)) ||
            exists j :: 0 <= j < i && key in Wanted(ws[j].desired, section)
    decreases i
  {
    if i > 0 {
      var n := i - 1;
      InvAt(scope, ws, es, rest, n);
      StepAt(ws, es, rest, n);
      assert Polite(scope, ws[n], es[n]);
      if es[n].Outside? {
        SameTrackingFacts(ws[i].live, ws[n].live);
      }
      if es[n].PatchSecret? {
        PatchStep(ws[n], es[n].ops, ws[i], rest);
        PatchTracksDesired(ws[n].live, ws[n].pass.snapshot, ws[n].pass.wanted, section);
        WantedWasDesired(ws, es, rest, n);
      }
      if key in Tracked(ws[n].live, section) {
        TrackedWasDesired(scope, ws, es, rest, n, section, key);
      }
    }
  }

  // ----- Other writers' keys

  /** The patch under way is accepted and replaces a map that came into being meanwhile. */
  ghost predicate Clobbers(w: World, section: Section) {
    w.pass.Ready? && !Blocked(w) && Overwrites(w.live, w.pass.snapshot, Planned(w), section)
  }

  ghost function GivenAfter(w: World, e: Event, section: Section, key: string, before: Option<string>): Option<string> {
    match e
    case Outside(after) => Lookup(Get(after, section), key)
    case VaultChange(_) => before
    case ListSecret => before
    case ReadOwner => before
    case PatchSecret(_) => if Clobbers(w, section) then None else before
  }

  /** The value other writers last gave a key, none if a patch replaced the whole map since. */
  ghost function GivenByOthers(ws: seq<World>, es: seq<Event>, section: Section, key: string): Option<string>
    requires |ws| == |es| + 1
    decreases |es|
  {
    if es == [] then Lookup(Get(ws[0].live, section), key)
    else
      var n := |es| - 1;
      GivenAfter(ws[n], es[n], section, key, GivenByOthers(ws[..n + 1], es[..n], section, key))
  }

  lemma PatchAndStrangers(scope: Scope, w: World, ops: seq<Op>, w': World, rest: Rest, section: Section, key: string)
    requires Inv(scope, w) && Step(w, PatchSecret(ops), w', rest)
    requires key !in In(scope, section) && !IsTrackingKey(key)
    ensures Lookup(Get(w'.live, section), key) ==
            if Clobbers(w, section) then None else Lookup(Get(w.live, section), key)
  {
    PatchStep(w, ops, w', rest);
    AcceptedUnlessBlocked(scope, w);
    var snapshot, d := w.pass.snapshot, w.pass.wanted;
    SameTrackingFacts(w.live, snapshot);
    assert TrackedWell(scope, w.live, section);
    assert Wanted(d, section).Keys <= In(scope, section);
    var l := ListsOf(snapshot, d);
    assert IsStranger(d, l, section, key);
    match section
    case Annotations => AnnotationAfter(w.live, snapshot, d, l, key);
    case Labels => LabelAfter(w.live, snapshot, d, l, key);
  }

  lemma GivenNext(ws: seq<World>, es: seq<Event>, section: Section, key: string, n: nat)
    requires n < |es| && |ws| == |es| + 1
    ensures GivenByOthers(ws[..n + 2], es[..n + 1], section, key) ==
            GivenAfter(ws[n], es[n], section, key, GivenByOthers(ws[..n + 1], es[..n], section, key))
  {
    assert es[..n + 1][..n] == es[..n] && es[..n + 1][n] == es[n];
    assert ws[..n + 2][..n + 1] == ws[..n + 1] && ws[..n + 2][n] == ws[n];
  }

  lemma StrangerStep(scope: Scope, w: World, e: Event, w': World, rest: Rest, section: Section, key: string)
    requires Inv(scope, w) && Step(w, e, w', rest)
    requires key !in In(scope, section) && !IsTrackingKey(key)
    ensures Lookup(Get(w'.live, section), key) == GivenAfter(w, e, section, key, Lookup(Get(w.live, section), key))
  {
    if e.PatchSecret? {
      PatchAndStrangers(scope, w, e.ops, w', rest, section, key);
    }
  }

  /** Every step treats the key as GivenAfter says. */
  ghost predicate FollowsOthers(ws: seq<World>, es: seq<Event>, section: Section, key: string)
    requires |ws| == |es| + 1
  {
    forall j :: 0 <= j < |es| ==>
      Lookup(Get(ws[j + 1].live, section), key) ==
      GivenAfter(ws[j], es[j], section, key, Lookup(Get(ws[j].live, section), key))
  }

  lemma {:induction false} FollowedUpTo(ws: seq<World>, es: seq<Event>, section: Section, key: string, i: nat)
    requires |ws| == |es| + 1 && FollowsOthers(ws, es, section, key) && i <= |es|
    ensures Lookup(Get(ws[i].live, section), key) == GivenByOthers(ws[..i + 1], es[..i], section, key)
    decreases i
  {
    if i > 0 {
      FollowedUpTo(ws, es, section, key, i - 1);
      GivenNext(ws, es, section, key, i - 1);
    }
  }

  /** A key that is not a tracking annotation and that the vault never asks for holds exactly
      what other writers gave it, whatever they do with it and whenever. Only a patch that
      replaces a map created under it makes a difference. */
  lemma StrangersKeepTheirValue(scope: Scope, ws: seq<World>, es: seq<Event>, rest: Rest, section: Section, key: string)
    requires IsPoliteRun(scope, ws, es, rest) && Inv(scope, ws[0])
    requires key !in In(scope, section) && !IsTrackingKey(key)
    ensures Lookup(Get(ws[|es|].live, section), key) == GivenByOthers(ws, es, section, key)
  {
    forall j | 0 <= j < |es|
      ensures Lookup(Get(ws[j + 1].live, section), key) ==
              GivenAfter(ws[j], es[j], section, key, Lookup(Get(ws[j].live, section), key))
    {
      InvAt(scope, ws, es, rest, j);
      StepAt(ws, es, rest, j);
      StrangerStep(scope, ws[j], es[j], ws[j + 1], rest, section, key);
    }
    FollowedUpTo(ws, es, section, key, |es|);
    assert es[..|es|] == es && ws[..|es| + 1] == ws;
  }

  // ----- Convergence

  /** The Secret shows what is desired, and so it did when a pass under way looked. */
  ghost predicate Converged(w: World) {
    CleanDesired(w.desired) && Shows(w.live, w.desired, ListsOf(w.live, w.desired)) &&
    (!w.pass.Idle? ==> Shows(w.pass.snapshot, w.desired, ListsOf(w.pass.snapshot, w.desired))) &&
    (w.pass.Ready? ==> w.pass.wanted == w.desired)
  }

  /** The vault rests, and other writers leave the tracking annotations and the desired keys
      alone. */
  ghost predicate Calm(w: World, e: Event) {
    match e
    case Outside(after) => Undisturbed(after, w.live, w.desired)
    case VaultChange(_) => false
    case _ => true
  }

  /** A pass under way whose view of the tracking annotations and the desired keys is current. */
  ghost predicate OnCourse(w: World) {
    !w.pass.Idle? && Undisturbed(w.live, w.pass.snapshot, w.desired) && (w.pass.Ready? ==> w.pass.wanted == w.desired)
  }

  lemma {:induction false} PassStaysOnCourse(ws: seq<World>, es: seq<Event>, rest: Rest, i: nat)
    requires IsRun(ws, es, rest) && 1 <= i < |ws| && es[0].ListSecret?
    requires forall j :: 1 <= j < i ==> Calm(ws[j], es[j]) && !es[j].PatchSecret?
    ensures OnCourse(ws[i]) && ws[i].desired == ws[0].desired
    decreases i
  {
    StepAt(ws, es, rest, i - 1);
    if i > 1 {
      PassStaysOnCourse(ws, es, rest, i - 1);
      assert Calm(ws[i - 1], es[i - 1]);
    }
  }

  lemma PatchOnCourse(scope: Scope, w: World, ops: seq<Op>, w': World, rest: Rest)
    requires Inv(scope, w) && OnCourse(w) && Step(w, PatchSecret(ops), w', rest)
    ensures Accepted(w, ops, rest) <==> !Blocked(w)
    ensures Accepted(w, ops, rest) ==> Converged(w')
    ensures Accepted(w, ops, rest) ==>
              (IsMerge(w.live, w.desired, w'.live) <==>
               forall section: Section ::
                 !LosesStrangers(w.live, w.pass.snapshot, w.desired, ListsOf(w.pass.snapshot, w.desired), section))
  {
    PatchStep(w, ops, w', rest);
    AcceptedUnlessBlocked(scope, w);
    if Accepted(w, ops, rest) {
      PatchShows(w.live, w.pass.snapshot, w.desired);
      PatchIsMerge(w.live, w.pass.snapshot, w.desired);
    }
  }

  /** A pass converges although other writers are at work: from listing to patch they may do
      to their own keys what they like, as long as the vault rests and nobody touches the
      desired keys. Only removing a whole map that the patch adds to stops it. */
  lemma PassConverges(scope: Scope, ws: seq<World>, es: seq<Event>, rest: Rest)
    requires IsPoliteRun(scope, ws, es, rest) && Inv(scope, ws[0])
    requires |es| >= 2 && es[0].ListSecret? && es[|es| - 1].PatchSecret?
    requires forall j :: 1 <= j < |es| - 1 ==> Calm(ws[j], es[j]) && !es[j].PatchSecret?
    ensures var w, ops := ws[|es| - 1], es[|es| - 1].ops;
            (Accepted(w, ops, rest) <==> !Blocked(w)) && (Accepted(w, ops, rest) ==> Converged(ws[|es|]))
    ensures ws[|es|].desired == ws[0].desired
  {
    var n := |es| - 1;
    PassStaysOnCourse(ws, es, rest, n);
    InvAt(scope, ws, es, rest, n);
    StepAt(ws, es, rest, n);
    PatchOnCourse(scope, ws[n], es[n].ops, ws[|es|], rest);
  }

  /** A pass nobody interferes with ends in the intended merge, from any reachable state. */
  lemma QuietPassConverges(scope: Scope, w: World, w1: World, w2: World, ops: seq<Op>, w3: World, rest: Rest)
    requires Inv(scope, w) && Step(w, ListSecret, w1, rest) && Step(w1, ReadOwner, w2, rest)
    requires Step(w2, PatchSecret(ops), w3, rest)
    ensures Accepted(w2, ops, rest) && IsMerge(w.live, w.desired, w3.live) && Converged(w3)
    ensures forall section: Section :: Tracked(w3.live, section) == SortedKeys(Wanted(w.desired, section).Keys)
  {
    StepKeepsInv(scope, w, ListSecret, w1, rest);
    StepKeepsInv(scope, w1, ReadOwner, w2, rest);
    PatchOnCourse(scope, w2, ops, w3, rest);
    forall section: Section
      ensures Tracked(w3.live, section) == SortedKeys(Wanted(w.desired, section).Keys)
    {
      MergeTracksDesired(w.live, w.desired, w3.live, section);
    }
  }

  lemma CalmStep(w: World, e: Event, w': World, rest: Rest)
    requires Converged(w) && Calm(w, e) && Step(w, e, w', rest)
    ensures Converged(w') && w'.desired == w.desired
    ensures e.PatchSecret? ==> Accepted(w, e.ops, rest) && w'.live == w.live
  {
    match e
    case Outside(after) =>
      var l, l' := ListsOf(w.live, w.desired), ListsOf(after, w.desired);
      assert forall section: Section :: TrackingValue(l, section) == TrackingValue(l', section);
    case VaultChange(_) =>
    case ListSecret =>
    case ReadOwner =>
    case PatchSecret(ops) =>
      PatchStep(w, ops, w', rest);
      ShownIsSettled(w.live, w.pass.snapshot, w.desired);
  }

  /** A converged Secret stays so: while the vault rests and nobody touches the desired keys,
      every patch is accepted and changes nothing, also when other writers change their own
      keys, or whole maps of them, between listing and patch. */
  lemma ConvergedStays(ws: seq<World>, es: seq<Event>, rest: Rest, i: nat)
    requires IsRun(ws, es, rest) && Converged(ws[0]) && i < |ws|
    requires forall j :: 0 <= j < |es| ==> Calm(ws[j], es[j])
    ensures Converged(ws[i]) && ws[i].desired == ws[0].desired
    ensures i < |es| && es[i].PatchSecret? ==> Accepted(ws[i], es[i].ops, rest) && ws[i + 1].live == ws[i].live
  {
    var d := ws[0].desired;
    forall j | 0 <= j < i && Converged(ws[j]) && ws[j].desired == d
      ensures Converged(ws[j + 1]) && ws[j + 1].desired == d
    {
      StepAt(ws, es, rest, j);
      CalmStep(ws[j], es[j], ws[j + 1], rest);
    }
    Chain(w => Converged(w) && w.desired == d, ws, i);
    if i < |es| {
      StepAt(ws, es, rest, i);
      CalmStep(ws[i], es[i], ws[i + 1], rest);
    }
  }

  // ----- A deleted key blocks the watcher

  /** The Secret tracks a key that is neither desired nor there any more. */
  ghost predicate Stuck(w: World, section: Section, key: string) {
    key in Tracked(w.live, section) && Lookup(Get(w.live, section), key).None? &&
    key !in Wanted(w.desired, section) && (w.pass.Ready? ==> key !in Wanted(w.pass.wanted, section)) &&
    (!w.pass.Idle? ==> SameTracking(w.live, w.pass.snapshot))
  }

  /** Nobody brings the key back, asks for it, or edits the tracking annotations. */
  ghost predicate NoRescue(w: World, e: Event, section: Section, key: string) {
    match e
    case Outside(after) => SameTracking(after, w.live) && Lookup(Get(after, section), key).None?
    case VaultChange(d) => key !in Wanted(d, section)
    case _ => true
  }

  lemma StuckStep(w: World, e: Event, w': World, rest: Rest, section: Section, key: string)
    requires Stuck(w, section, key) && NoRescue(w, e, section, key) && Step(w, e, w', rest)
    ensures Stuck(w', section, key)
    ensures e.PatchSecret? ==> !Accepted(w, e.ops, rest) && w'.live == w.live
  {
    if e.Outside? {
      SameTrackingFacts(e.after, w.live);
    }
    if e.PatchSecret? {
      var snapshot, d := w.pass.snapshot, w.pass.wanted;
      SameTrackingFacts(w.live, snapshot);
      PatchStep(w, e.ops, w', rest);
      assert key in TrackedIn(ListsOf(snapshot, d), section);
      if Applies(w.live, snapshot, Planned(w)) {
        AcceptedOnlyIf(w.live, snapshot, d, ListsOf(snapshot, d));
      }
    }
  }

  /** Once a tracked, undesired key has been deleted by someone else, every patch of every
      later pass is rejected, and the vault's other changes do not reach the Secret either,
      until the key reappears, is desired again or leaves the tracking list. */
  lemma DeletedKeyBlocksPatches(ws: seq<World>, es: seq<Event>, rest: Rest, section: Section, key: string, i: nat)
    requires IsRun(ws, es, rest) && Stuck(ws[0], section, key) && i < |ws|
    requires forall j :: 0 <= j < |es| ==> NoRescue(ws[j], es[j], section, key)
    ensures Stuck(ws[i], section, key)
    ensures i < |es| && es[i].PatchSecret? ==> !Accepted(ws[i], es[i].ops, rest) && ws[i + 1].live == ws[i].live
  {
    forall j | 0 <= j < i && Stuck(ws[j], section, key)
      ensures Stuck(ws[j + 1], section, key)
    {
      StepAt(ws, es, rest, j);
      StuckStep(ws[j], es[j], ws[j + 1], rest, section, key);
    }
    Chain(w => Stuck(w, section, key), ws, i);
    if i < |es| {
      StepAt(ws, es, rest, i);
      StuckStep(ws[i], es[i], ws[i + 1], rest, section, key);
    }
  }

  /** A Secret without tracking annotations starts a run. */
  lemma UnmanagedSecretStarts(scope: Scope, s: Secret, d: Desired)
    requires AsksWithin(scope, d)
    requires MANAGED_ANNOTATIONS !in scope.annotations && MANAGED_LABELS !in scope.annotations
    requires Lookup(s.annotations, MANAGED_ANNOTATIONS).None? && Lookup(s.annotations, MANAGED_LABELS).None?
    ensures Inv(scope, World(s, d, Idle))
  {
    assert Tracked(s, Annotations) == [] && Tracked(s, Labels) == [];
  }
}
