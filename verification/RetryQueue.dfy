/** Retry accounting of the work queue: handleReconcileResult over the queue's requeue
    counts. */
module RetryQueue {
  import opened GoStrings

  const MAX_RETRIES := 5

  // ----- Queue keys

  function KeyFor(namespace: string, name: string): string {
    namespace + "/" + name
  }

  /** parseKey: cut at the first "/"; a key without one is an error. */
  function ParseKey(key: string): Result<(string, string)> {
    var parts := Split(key, '/');
    FirstPartFits(key, '/');
    if |parts| < 2 then Failed else Ok((parts[0], key[|parts[0]| + 1..]))
  }

  lemma {:induction false} FirstPartFits(s: string, sep: char)
    ensures |Split(s, sep)[0]| <= |s|
    ensures |Split(s, sep)| >= 2 ==> |Split(s, sep)[0]| < |s|
    ensures sep !in Split(s, sep)[0]
  {
    if s != [] {
      FirstPartFits(s[1..], sep);
    }
  }

  /** A key gives back the pair it was made from exactly when the namespace has no "/"; names
      may have one. */
  lemma KeyRoundTrip(namespace: string, name: string)
    ensures ParseKey(KeyFor(namespace, name)) == Ok((namespace, name)) <==> '/' !in namespace
  {
    var key := KeyFor(namespace, name);
    assert key == namespace + ['/'] + name;
    FirstPartFits(key, '/');
    if '/' !in namespace {
      SplitFirst(namespace, '/', name);
      assert key[|namespace| + 1..] == name;
    }
  }

  /** What parseKey accepts: the text before the first "/", and all that follows it. */
  lemma ParseKeyIff(key: string, namespace: string, name: string)
    ensures ParseKey(key) == Ok((namespace, name)) <==> key == namespace + "/" + name && '/' !in namespace
    ensures ParseKey(key) == Failed <==> '/' !in key
  {
    FirstPartFits(key, '/');
    if '/' !in key {
      SplitNoSeparator(key, '/');
    } else {
      var rest := FirstCut(key, '/');
      assert key[|Split(key, '/')[0]| + 1..] == rest;
    }
    if key == namespace + "/" + name && '/' !in namespace {
      KeyRoundTrip(namespace, name);
    }
  }

  lemma {:induction false} FirstCut(s: string, sep: char) returns (rest: string)
    requires sep in s
    ensures |Split(s, sep)| >= 2 && sep !in Split(s, sep)[0]
    ensures s == Split(s, sep)[0] + [sep] + rest
  {
    if s[0] == sep {
      rest := s[1..];
      assert s == [] + [sep] + rest;
    } else {
      assert s == [s[0]] + s[1..];
      rest := FirstCut(s[1..], sep);
      assert s == [s[0]] + (Split(s[1..], sep)[0] + [sep] + rest);
    }
  }

  // ----- Counts

  datatype QueueState = QueueState(queued: set<string>, requeues: map<string, nat>)

  function Count(st: QueueState, key: string): nat {
    if key in st.requeues then st.requeues[key] else 0
  }

  predicate Retries(st: QueueState, key: string, failed: bool) {
    failed && Count(st, key) < MAX_RETRIES
  }

  /** One item taken from the queue, reconciled, and its result handled. */
  function AfterItem(st: QueueState, key: string, failed: bool): QueueState {
    if Retries(st, key, failed)
    then QueueState(st.queued + {key}, st.requeues[key := Count(st, key) + 1])
    else QueueState(st.queued - {key}, st.requeues - {key})
  }

  /** The queue's contract as the controller uses it: a set of waiting keys and a requeue
      count per key. */
  class WorkQueue {
    var queued: set<string>
    var requeues: map<string, nat>

    function State(): QueueState
      reads this
    {
      QueueState(queued, requeues)
    }

    constructor ()
      ensures State() == QueueState({}, map[])
    {
      queued, requeues := {}, map[];
    }

    method Add(key: string)
      modifies this
      ensures State() == QueueState(old(queued) + {key}, old(requeues))
    {
      queued := queued + {key};
    }

    method AddRateLimited(key: string)
      modifies this
      ensures State() == QueueState(old(queued) + {key}, old(requeues)[key := Count(old(State()), key) + 1])
    {
      var n := NumRequeues(key);
      requeues := requeues[key := n + 1];
      queued := queued + {key};
    }

    method Forget(key: string)
      modifies this
      ensures State() == QueueState(old(queued), old(requeues) - {key})
    {
      requeues := requeues - {key};
    }

    method NumRequeues(key: string) returns (n: nat)
      ensures n == Count(State(), key)
    {
      return if key in requeues then requeues[key] else 0;
    }
  }

  /** handleReconcileResult, called after the key was taken from the queue. */
  method HandleReconcileResult(queue: WorkQueue, key: string, failed: bool)
    modifies queue
    ensures var n := Count(old(queue.State()), key);
            if failed && n < 5
            then queue.State() == QueueState(old(queue.queued) + {key}, old(queue.requeues)[key := n + 1])
            else queue.State() == QueueState(old(queue.queued), old(queue.requeues) - {key})
  {
    if !failed {
      queue.Forget(key);
      return;
    }
    var numRequeues := queue.NumRequeues(key);
    if numRequeues < MAX_RETRIES {
      queue.AddRateLimited(key);
      return;
    }
    queue.Forget(key);
  }

  /** processNextItem, for the key that Get returned and the result of its reconciliation. */
  method ProcessNextItem(queue: WorkQueue, key: string, failed: bool)
    requires key in queue.queued
    modifies queue
    ensures queue.State() == AfterItem(old(queue.State()), key, failed)
  {
    queue.queued := queue.queued - {key};
    HandleReconcileResult(queue, key, failed);
    assert old(queue.queued) - {key} + {key} == old(queue.queued) + {key};
  }

  // ----- Runs without new events

  datatype Item = Item(key: string, failed: bool)

  predicate IsRun(st: QueueState, items: seq<Item>)
    decreases |items|
  {
    items == [] || (items[0].key in st.queued && IsRun(AfterItem(st, items[0].key, items[0].failed), items[1..]))
  }

  function AfterItems(st: QueueState, items: seq<Item>): QueueState
    decreases |items|
  {
    if items == [] then st else AfterItems(AfterItem(st, items[0].key, items[0].failed), items[1..])
  }

  function Times(items: seq<Item>, key: string): nat {
    if items == [] then 0 else (if items[0].key == key then 1 else 0) + Times(items[1..], key)
  }

  /** Counts stay within the limit, and only waiting keys have one. */
  ghost predicate Inv(st: QueueState) {
    forall k :: Count(st, k) <= MAX_RETRIES && (k !in st.queued ==> Count(st, k) == 0)
  }

  function Left(st: QueueState, key: string): int {
    if key in st.queued then MAX_RETRIES + 1 - Count(st, key) else 0
  }

  /** The attempts left over all waiting keys. */
  ghost function Measure(st: QueueState, keys: set<string>): int {
    if keys == {} then 0
    else
      var k :| k in keys;
      Left(st, k) + Measure(st, keys - {k})
  }

  lemma {:induction false} MeasureSplit(st: QueueState, keys: set<string>, key: string)
    requires key in keys
    ensures Measure(st, keys) == Left(st, key) + Measure(st, keys - {key})
    decreases keys
  {
    var k :| k in keys && Measure(st, keys) == Left(st, k) + Measure(st, keys - {k});
    if k != key {
      MeasureSplit(st, keys - {k}, key);
      MeasureSplit(st, keys - {key}, k);
      assert keys - {k} - {key} == keys - {key} - {k};
    }
  }

  lemma {:induction false} MeasureSame(a: QueueState, b: QueueState, keys: set<string>)
    requires forall k <- keys :: Left(a, k) == Left(b, k)
    ensures Measure(a, keys) == Measure(b, keys)
    decreases keys
  {
    if keys != {} {
      var k :| k in keys;
      MeasureSplit(a, keys, k);
      MeasureSplit(b, keys, k);
      MeasureSame(a, b, keys - {k});
    }
  }

  lemma ItemKeepsInv(st: QueueState, key: string, failed: bool)
    requires Inv(st) && key in st.queued
    ensures Inv(AfterItem(st, key, failed))
  {
    var after := AfterItem(st, key, failed);
    forall k
      ensures Count(after, k) <= MAX_RETRIES && (k !in after.queued ==> Count(after, k) == 0)
    {
      assert Count(st, k) <= MAX_RETRIES && (k !in st.queued ==> Count(st, k) == 0);
    }
  }

  /** Every processed item makes the measure over the waiting keys fall: a failure uses up one
      attempt, a success gives up all that the key had left. */
  lemma MeasureFalls(st: QueueState, key: string, failed: bool)
    requires Inv(st) && key in st.queued
    ensures Measure(AfterItem(st, key, failed), st.queued) ==
            Measure(st, st.queued) - if failed then 1 else Left(st, key)
    ensures Measure(AfterItem(st, key, failed), st.queued) < Measure(st, st.queued)
    ensures AfterItem(st, key, failed).queued <= st.queued
  {
    var after := AfterItem(st, key, failed);
    assert Count(st, key) <= MAX_RETRIES;
    MeasureSplit(st, st.queued, key);
    MeasureSplit(after, st.queued, key);
    MeasureSame(st, after, st.queued - {key});
  }

  lemma {:induction false} MeasureNonNegative(st: QueueState, keys: set<string>)
    requires Inv(st)
    ensures 0 <= Measure(st, keys) <= (MAX_RETRIES + 1) * |keys|
    decreases keys
  {
    if keys != {} {
      var k :| k in keys;
      MeasureSplit(st, keys, k);
      MeasureNonNegative(st, keys - {k});
      assert Count(st, k) <= MAX_RETRIES;
    }
  }

  lemma {:induction false} WorkIsBoundedFrom(st: QueueState, items: seq<Item>, keys: set<string>)
    requires Inv(st) && IsRun(st, items) && st.queued <= keys
    ensures |items| <= Measure(st, keys)
    ensures Inv(AfterItems(st, items))
    decreases |items|
  {
    if items == [] {
      MeasureNonNegative(st, keys);
    } else {
      var key, failed := items[0].key, items[0].failed;
      var after := AfterItem(st, key, failed);
      ItemKeepsInv(st, key, failed);
      assert Count(st, key) <= MAX_RETRIES;
      MeasureSplit(st, keys, key);
      MeasureSplit(after, keys, key);
      MeasureSame(st, after, keys - {key});
      WorkIsBoundedFrom(after, items[1..], keys);
    }
  }

  /** Without new events the queue processes at most maxRetries + 1 items per waiting key. */
  lemma WorkIsBounded(st: QueueState, items: seq<Item>)
    requires Inv(st) && IsRun(st, items)
    ensures |items| <= Measure(st, st.queued) <= (MAX_RETRIES + 1) * |st.queued|
  {
    WorkIsBoundedFrom(st, items, st.queued);
    MeasureNonNegative(st, st.queued);
  }

  /** Each key is reconciled at most maxRetries + 1 times, less what it already used up, and
      once it has left the queue its count is 0 again. */
  lemma {:induction false} AttemptsPerKey(st: QueueState, items: seq<Item>, key: string)
    requires Inv(st) && IsRun(st, items)
    ensures Times(items, key) + Left(AfterItems(st, items), key) <= Left(st, key)
    ensures Left(AfterItems(st, items), key) >= 0
    ensures key !in AfterItems(st, items).queued ==> Count(AfterItems(st, items), key) == 0
    decreases |items|
  {
    assert Count(st, key) <= MAX_RETRIES && (key !in st.queued ==> Count(st, key) == 0);
    if items != [] {
      ItemKeepsInv(st, items[0].key, items[0].failed);
      AttemptsPerKey(AfterItem(st, items[0].key, items[0].failed), items[1..], key);
    }
  }

  /** After a success the key is neither waiting nor counted, and no other key is touched. */
  lemma SuccessSettles(st: QueueState, key: string)
    requires Inv(st) && key in st.queued
    ensures var after := AfterItem(st, key, false);
            key !in after.queued && Count(after, key) == 0 && after.queued + {key} == st.queued &&
            forall other :: other != key ==> Count(after, other) == Count(st, other)
  {}

  function TimesFailed(items: seq<Item>, key: string): nat {
    if items == [] then 0
    else (if items[0].key == key && items[0].failed then 1 else 0) + TimesFailed(items[1..], key)
  }

  lemma {:induction false} GoneStaysGone(st: QueueState, items: seq<Item>, key: string)
    requires IsRun(st, items) && key !in st.queued
    ensures Times(items, key) == 0
    decreases |items|
  {
    if items != [] {
      GoneStaysGone(AfterItem(st, items[0].key, items[0].failed), items[1..], key);
    }
  }

  /** Without new events only failures make a key come back: it is reconciled at most once
      more than it fails, whatever the others do. */
  lemma {:induction false} OnlyFailuresRepeat(st: QueueState, items: seq<Item>, key: string)
    requires IsRun(st, items)
    ensures Times(items, key) <= 1 + TimesFailed(items, key)
    decreases |items|
  {
    if items != [] {
      var after := AfterItem(st, items[0].key, items[0].failed);
      if items[0] == Item(key, false) {
        GoneStaysGone(after, items[1..], key);
      } else {
        OnlyFailuresRepeat(after, items[1..], key);
      }
    }
  }

  function Failing(key: string, n: nat): seq<Item> {
    if n == 0 then [] else [Item(key, true)] + Failing(key, n - 1)
  }

  /** A key that never succeeds is tried exactly maxRetries + 1 times and then dropped with a
      clean count, so a later event starts afresh. */
  lemma {:induction false} DroppedAfterLastRetry(st: QueueState, key: string, n: nat)
    requires Inv(st) && key in st.queued
    requires n == MAX_RETRIES + 1 - Count(st, key)
    ensures IsRun(st, Failing(key, n))
    ensures AfterItems(st, Failing(key, n)) == QueueState(st.queued - {key}, st.requeues - {key})
    decreases n
  {
    assert Count(st, key) <= MAX_RETRIES;
    var items := Failing(key, n);
    var after := AfterItem(st, key, true);
    assert items[0] == Item(key, true) && items[1..] == Failing(key, n - 1);
    if n > 1 {
      ItemKeepsInv(st, key, true);
      DroppedAfterLastRetry(after, key, n - 1);
      assert after.queued - {key} == st.queued - {key};
      assert after.requeues - {key} == st.requeues - {key};
    } else {
      assert AfterItems(after, Failing(key, 0)) == after;
    }
  }
}
