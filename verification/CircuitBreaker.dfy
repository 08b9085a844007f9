/** The circuit breaker as an interleaved step machine. The lock is not held while the
    protected call runs, so every call is two atomic steps, before and after, with any steps
    of other calls in between. */
module CircuitBreaker {

  datatype Mode = Closed | Open | HalfOpen

  datatype Settings = Settings(maxFailures: int, resetTimeout: int)

  datatype Breaker = Breaker(mode: Mode, failures: int, lastFailTime: int)

  predicate Admits(c: Settings, b: Breaker, now: int) {
    b.mode != Open || now - b.lastFailTime > c.resetTimeout
  }

  function AfterBefore(c: Settings, b: Breaker, now: int): Breaker {
    if b.mode == Open && Admits(c, b, now) then b.(mode := HalfOpen, failures := 0) else b
  }

  function AfterFailure(c: Settings, b: Breaker, now: int): Breaker {
    Breaker(if b.failures + 1 >= c.maxFailures then Open else b.mode, b.failures + 1, now)
  }

  function AfterSuccess(b: Breaker): Breaker {
    b.(mode := if b.mode == HalfOpen then Closed else b.mode, failures := 0)
  }

  function AfterReset(b: Breaker): Breaker {
    b.(mode := Closed, failures := 0)
  }

  const INITIAL := Breaker(Closed, 0, 0)

  datatype Admission = Admitted | Rejected(retryIn: int)

  class CircuitBreaker {
    const settings: Settings
    var state: Mode
    var failures: int
    var lastFailTime: int

    function View(): Breaker
      reads this
    {
      Breaker(state, failures, lastFailTime)
    }

    constructor (maxFailures: int, resetTimeout: int)
      ensures settings == Settings(maxFailures, resetTimeout) && View() == INITIAL
    {
      settings := Settings(maxFailures, resetTimeout);
      state, failures, lastFailTime := Closed, 0, 0;
    }

    /** now is the clock reading of this step. */
    method Before(now: int) returns (r: Admission)
      modifies this
      ensures View() == AfterBefore(settings, old(View()), now)
      ensures old(state) == Open && r.Admitted? ==> state == HalfOpen && failures == 0
      ensures old(state) != Open ==> r.Admitted?
      ensures r.Admitted? <==> Admits(settings, old(View()), now)
      ensures r.Rejected? ==> r.retryIn == old(lastFailTime) + settings.resetTimeout - now && r.retryIn >= 0
    {
      if state != Open {
        return Admitted;
      }
      var timeSinceFail := now - lastFailTime;
      if timeSinceFail <= settings.resetTimeout {
        return Rejected(settings.resetTimeout - timeSinceFail);
      }
      state := HalfOpen;
      failures := 0;
      return Admitted;
    }

    method After(failed: bool, now: int)
      modifies this
      ensures View() == if failed then AfterFailure(settings, old(View()), now) else AfterSuccess(old(View()))
      ensures failed ==> failures == old(failures) + 1 && lastFailTime == now
      ensures failed ==> state == if failures >= settings.maxFailures then Open else old(state)
      ensures !failed ==> failures == 0 && lastFailTime == old(lastFailTime)
      ensures !failed ==> state == if old(state) == HalfOpen then Closed else old(state)
    {
      if failed {
        failures := failures + 1;
        lastFailTime := now;
        if failures >= settings.maxFailures {
          state := Open;
        }
        return;
      }
      if state == HalfOpen {
        state := Closed;
      }
      failures := 0;
    }

    /** Call by a single caller: fails says how fn ends, start and finish are the clock
        readings of the two steps. Other callers' steps in between are runs below. */
    method Call(fails: bool, start: int, finish: int) returns (r: Admission, failed: bool)
      modifies this
      ensures r.Admitted? <==> Admits(settings, old(View()), start)
      ensures r.Rejected? ==> failed && View() == old(View())
      ensures r.Admitted? ==> failed == fails
      ensures r.Admitted? ==>
                var b := AfterBefore(settings, old(View()), start);
                View() == if fails then AfterFailure(settings, b, finish) else AfterSuccess(b)
    {
      r := Before(start);
      if r.Rejected? {
        return r, true;
      }
      After(fails, finish);
      failed := fails;
    }

    method Reset()
      modifies this
      ensures View() == AfterReset(old(View()))
      ensures state == Closed && failures == 0
    {
      state := Closed;
      failures := 0;
    }
  }

  // ----- Interleavings

  /** Begin is one caller's before step; Fail and Succeed are the after step of some call in
      flight. */
  datatype Kind = Begin | Fail | Succeed | Reset

  datatype Event = Event(kind: Kind, now: int)

  datatype World = World(breaker: Breaker, clock: int, inFlight: int)

  /** The clock is monotone, and only a call in flight can finish. */
  predicate Enabled(w: World, e: Event) {
    w.clock <= e.now && (e.kind == Fail || e.kind == Succeed ==> w.inFlight > 0)
  }

  predicate IsAdmission(c: Settings, w: World, e: Event) {
    e.kind == Begin && Admits(c, w.breaker, e.now)
  }

  function Next(c: Settings, w: World, e: Event): World {
    match e.kind
    case Begin =>
      World(AfterBefore(c, w.breaker, e.now), e.now, w.inFlight + if Admits(c, w.breaker, e.now) then 1 else 0)
    case Fail => World(AfterFailure(c, w.breaker, e.now), e.now, w.inFlight - 1)
    case Succeed => World(AfterSuccess(w.breaker), e.now, w.inFlight - 1)
    case Reset => World(AfterReset(w.breaker), e.now, w.inFlight)
  }

  function Run(c: Settings, w: World, es: seq<Event>): World
    decreases |es|
  {
    if es == [] then w else Run(c, Next(c, w, es[0]), es[1..])
  }

  predicate IsRun(c: Settings, w: World, es: seq<Event>)
    decreases |es|
  {
    es == [] || (Enabled(w, es[0]) && IsRun(c, Next(c, w, es[0]), es[1..]))
  }

  /** Calls admitted during a run. */
  function Admissions(c: Settings, w: World, es: seq<Event>): nat
    decreases |es|
  {
    if es == [] then 0
    else (if IsAdmission(c, w, es[0]) then 1 else 0) + Admissions(c, Next(c, w, es[0]), es[1..])
  }

  function Begins(n: nat, now: int): seq<Event> {
    if n == 0 then [] else [Event(Begin, now)] + Begins(n - 1, now)
  }

  function Failures(n: nat, now: int): seq<Event> {
    if n == 0 then [] else [Event(Fail, now)] + Failures(n - 1, now)
  }

  predicate Without(es: seq<Event>, kind: Kind) {
    forall e <- es :: e.kind != kind
  }

  // ----- An open circuit stays shut

  /** However other calls finish, a circuit that a failure at time t left open admits nobody
      at or before t + resetTimeout, unless Reset runs. */
  lemma {:induction false} OpenCircuitStaysShut(c: Settings, w: World, es: seq<Event>, t: int)
    requires IsRun(c, w, es) && Without(es, Reset)
    requires w.breaker.mode == Open && w.breaker.lastFailTime >= t && w.clock >= t
    requires forall e <- es :: e.now <= t + c.resetTimeout
    ensures Admissions(c, w, es) == 0
    ensures Run(c, w, es).breaker.mode == Open && Run(c, w, es).breaker.lastFailTime >= t
    decreases |es|
  {
    if es != [] {
      var w' := Next(c, w, es[0]);
      assert es[0] in es;
      assert forall e <- es[1..] :: e in es;
      OpenCircuitStaysShut(c, w', es[1..], t);
    }
  }

  /** The failure that opens the circuit starts such a period. */
  lemma FailureOpensUntil(c: Settings, w: World, es: seq<Event>, t: int)
    requires Enabled(w, Event(Fail, t)) && Next(c, w, Event(Fail, t)).breaker.mode == Open
    requires IsRun(c, Next(c, w, Event(Fail, t)), es) && Without(es, Reset)
    requires forall e <- es :: e.now <= t + c.resetTimeout
    ensures Admissions(c, Next(c, w, Event(Fail, t)), es) == 0
  {
    OpenCircuitStaysShut(c, Next(c, w, Event(Fail, t)), es, t);
  }

  // ----- Reachable states

  ghost predicate Inv(c: Settings, w: World) {
    0 <= w.breaker.failures && 0 <= w.inFlight &&
    (w.breaker.mode != Open ==> w.breaker.failures < c.maxFailures) &&
    (w.breaker.mode == Open ==> w.breaker.lastFailTime <= w.clock)
  }

  /** Every reachable state that is not open has fewer failures than the threshold. */
  lemma {:induction false} ClosedBelowThreshold(c: Settings, w: World, es: seq<Event>)
    requires c.maxFailures >= 1 && Inv(c, w) && IsRun(c, w, es)
    ensures Inv(c, Run(c, w, es))
    decreases |es|
  {
    if es != [] {
      ClosedBelowThreshold(c, Next(c, w, es[0]), es[1..]);
    }
  }

  /** So it is in every run of a new breaker. */
  lemma NewBreakerBelowThreshold(c: Settings, clock: int, es: seq<Event>)
    requires c.maxFailures >= 1 && IsRun(c, World(INITIAL, clock, 0), es)
    ensures var b := Run(c, World(INITIAL, clock, 0), es).breaker;
            b.mode != Open ==> 0 <= b.failures < c.maxFailures
  {
    ClosedBelowThreshold(c, World(INITIAL, clock, 0), es);
  }

  // ----- How many calls a broken service receives

  /** At no time more than limit calls are in flight. */
  ghost predicate AtMostInFlight(c: Settings, w: World, es: seq<Event>, limit: int)
    decreases |es|
  {
    w.inFlight <= limit && (es != [] ==> AtMostInFlight(c, Next(c, w, es[0]), es[1..], limit))
  }

  /** No event of the run finds the circuit open. */
  ghost predicate NeverOpen(c: Settings, w: World, es: seq<Event>)
    decreases |es|
  {
    es != [] ==> w.breaker.mode != Open && NeverOpen(c, Next(c, w, es[0]), es[1..])
  }

  /** In one period without an open circuit, without a success and without Reset: the calls
      in flight beyond the first may all have been admitted before the failures were seen. */
  lemma {:induction false} AdmissionsInOnePeriod(c: Settings, w: World, es: seq<Event>, limit: int)
    requires Inv(c, w) && IsRun(c, w, es) && Without(es, Succeed) && Without(es, Reset)
    requires AtMostInFlight(c, w, es, limit) && NeverOpen(c, w, es) && w.breaker.mode != Open
    ensures Admissions(c, w, es) <= c.maxFailures - 1 - w.breaker.failures + limit - w.inFlight
    decreases |es|
  {
    if es != [] {
      assert es[0] in es;
      assert forall e <- es[1..] :: e in es;
      var w' := Next(c, w, es[0]);
      assert AtMostInFlight(c, w', es[1..], limit);
      if w'.breaker.mode == Open {
        NothingWhenOpen(c, w', es[1..]);
      } else {
        AdmissionsInOnePeriod(c, w', es[1..], limit);
      }
    }
  }

  lemma NothingWhenOpen(c: Settings, w: World, es: seq<Event>)
    requires NeverOpen(c, w, es) && w.breaker.mode == Open
    ensures es == []
  {}

  /** The shortest time from a failure that leaves the circuit open to the next admission. */
  function Pause(c: Settings): int {
    c.resetTimeout + 1
  }

  /** The earliest time at which an open circuit can let a call through again. */
  function Earliest(c: Settings, w: World): int {
    if w.breaker.lastFailTime + Pause(c) > w.clock then w.breaker.lastFailTime + Pause(c) else w.clock
  }

  /** How often the circuit can still become half-open by the end. */
  function Reopenings(c: Settings, w: World, end: int): int
    requires c.resetTimeout >= 0
  {
    if w.breaker.mode != Open then (end - w.clock) / Pause(c)
    else if end < Earliest(c, w) then 0
    else 1 + (end - Earliest(c, w)) / Pause(c)
  }

  /** Calls that one period of a closed or half-open circuit can admit. */
  function PerPeriod(c: Settings, limit: int): int {
    c.maxFailures + limit - 1
  }

  /** Calls that can still be admitted in the present period. */
  function Remaining(c: Settings, w: World, limit: int): int {
    if w.breaker.mode == Open then 0 else PerPeriod(c, limit) - w.breaker.failures - w.inFlight
  }

  function Budget(c: Settings, w: World, end: int, limit: int): int
    requires c.resetTimeout >= 0
  {
    Remaining(c, w, limit) + PerPeriod(c, limit) * Reopenings(c, w, end)
  }

  /** A success restores at most maxFailures calls, a Reset at most a whole period. */
  function Refund(c: Settings, e: Event, limit: int): int {
    match e.kind
    case Begin => 0
    case Fail => 0
    case Succeed => c.maxFailures
    case Reset => PerPeriod(c, limit)
  }

  function Refunds(c: Settings, es: seq<Event>, limit: int): int {
    if es == [] then 0 else Refund(c, es[0], limit) + Refunds(c, es[1..], limit)
  }

  function Count(es: seq<Event>, kind: Kind): nat {
    if es == [] then 0 else (if es[0].kind == kind then 1 else 0) + Count(es[1..], kind)
  }

  lemma {:induction false} RefundsCounted(c: Settings, es: seq<Event>, limit: int)
    ensures Refunds(c, es, limit) == c.maxFailures * Count(es, Succeed) + PerPeriod(c, limit) * Count(es, Reset)
  {
    if es != [] {
      RefundsCounted(c, es[1..], limit);
      var s, r := Count(es[1..], Succeed), Count(es[1..], Reset);
      assert c.maxFailures * (s + 1) == c.maxFailures * s + c.maxFailures;
      assert PerPeriod(c, limit) * (r + 1) == PerPeriod(c, limit) * r + PerPeriod(c, limit);
    }
  }

  lemma {:induction false} NoneCounted(es: seq<Event>, kind: Kind)
    requires Without(es, kind)
    ensures Count(es, kind) == 0
  {
    if es != [] {
      assert es[0] in es && forall e <- es[1..] :: e in es;
      NoneCounted(es[1..], kind);
    }
  }

  lemma ProductMonotone(p: int, a: int, b: int)
    requires a <= b && p >= 0
    ensures p * a <= p * b
  {}

  lemma SmallMultiple(d: int, k: int)
    requires d > 0 && d * k < d
    ensures k <= 0
  {}

  lemma DivisionMonotone(a: int, b: int, d: int)
    requires a <= b && d > 0
    ensures a / d <= b / d
  {
    var qa, qb := a / d, b / d;
    assert a == d * qa + a % d && b == d * qb + b % d;
    assert d * (qa - qb) == d * qa - d * qb;
    SmallMultiple(d, qa - qb);
  }

  lemma DivisionOfNonNegative(a: int, d: int)
    requires a >= 0 && d > 0
    ensures a / d >= 0
  {}

  lemma ShiftedDivision(a: int, d: int)
    requires d > 0
    ensures (a - d) / d == a / d - 1
  {
    var q, p := a / d, (a - d) / d;
    assert a == d * q + a % d && a - d == d * p + (a - d) % d;
    assert d * (q - 1 - p) == d * q - d - d * p;
    assert d * (p - q + 1) == d * p - d * q + d;
    SmallMultiple(d, q - 1 - p);
    SmallMultiple(d, p - q + 1);
  }

  /** The count of possible reopenings never grows, and falls when one happens. */
  lemma ReopeningsFall(c: Settings, w: World, e: Event, end: int)
    requires c.resetTimeout >= 0 && Inv(c, w) && Enabled(w, e) && e.now <= end
    ensures Reopenings(c, Next(c, w, e), end) <=
            Reopenings(c, w, end) - if w.breaker.mode == Open && IsAdmission(c, w, e) then 1 else 0
  {
    var w' := Next(c, w, e);
    var p := Pause(c);
    if w.breaker.mode != Open {
      DivisionMonotone(end - e.now, end - w.clock, p);
      if w'.breaker.mode == Open {
        assert Earliest(c, w') == e.now + p;
        ShiftedDivision(end - e.now, p);
        DivisionOfNonNegative(end - e.now, p);
      }
    } else if IsAdmission(c, w, e) {
      assert Earliest(c, w) <= e.now;
      DivisionMonotone(end - e.now, end - Earliest(c, w), p);
    } else if w'.breaker.mode == Open {
      assert Earliest(c, w) <= Earliest(c, w');
      DivisionMonotone(end - Earliest(c, w'), end - Earliest(c, w), p);
      if end >= Earliest(c, w) {
        DivisionOfNonNegative(end - Earliest(c, w), p);
      }
    } else {
      assert e.kind == Reset && Earliest(c, w) <= e.now + p;
      ShiftedDivision(end - e.now, p);
      if end < Earliest(c, w) {
        DivisionMonotone(end - e.now - p, -1, p);
      } else {
        DivisionMonotone(end - e.now - p, end - Earliest(c, w), p);
      }
    }
  }

  lemma BudgetStep(c: Settings, w: World, e: Event, end: int, limit: int)
    requires c.resetTimeout >= 0 && c.maxFailures >= 1 && limit >= 1
    requires Inv(c, w) && Enabled(w, e) && e.now <= end
    requires w.inFlight <= limit && Next(c, w, e).inFlight <= limit
    ensures Budget(c, Next(c, w, e), end, limit) + (if IsAdmission(c, w, e) then 1 else 0) <=
            Budget(c, w, end, limit) + Refund(c, e, limit)
  {
    var w' := Next(c, w, e);
    var p := PerPeriod(c, limit);
    ReopeningsFall(c, w, e, end);
    if w.breaker.mode == Open && IsAdmission(c, w, e) {
      ProductMonotone(p, Reopenings(c, w', end), Reopenings(c, w, end) - 1);
      assert p * (Reopenings(c, w, end) - 1) == p * Reopenings(c, w, end) - p;
    } else {
      ProductMonotone(p, Reopenings(c, w', end), Reopenings(c, w, end));
    }
  }

  lemma BudgetNonNegative(c: Settings, w: World, end: int, limit: int)
    requires c.resetTimeout >= 0 && c.maxFailures >= 1 && limit >= 1
    requires Inv(c, w) && w.clock <= end && w.inFlight <= limit
    ensures Budget(c, w, end, limit) >= 0
  {
    DivisionOfNonNegative(end - w.clock, Pause(c));
    if w.breaker.mode == Open && end >= Earliest(c, w) {
      DivisionOfNonNegative(end - Earliest(c, w), Pause(c));
    }
    ProductMonotone(PerPeriod(c, limit), 0, Reopenings(c, w, end));
  }

  lemma {:induction false} AdmissionsWithinBudget(c: Settings, w: World, es: seq<Event>, end: int, limit: int)
    requires c.resetTimeout >= 0 && c.maxFailures >= 1 && limit >= 1
    requires Inv(c, w) && IsRun(c, w, es) && AtMostInFlight(c, w, es, limit)
    requires w.clock <= end && forall e <- es :: e.now <= end
    ensures Admissions(c, w, es) <= Budget(c, w, end, limit) + Refunds(c, es, limit)
    decreases |es|
  {
    if es == [] {
      BudgetNonNegative(c, w, end, limit);
    } else {
      assert es[0] in es;
      assert forall e <- es[1..] :: e in es;
      var w' := Next(c, w, es[0]);
      assert AtMostInFlight(c, w', es[1..], limit);
      AdmissionsWithinBudget(c, w', es[1..], end, limit);
      BudgetStep(c, w, es[0], end, limit);
    }
  }

  lemma StartingBudget(c: Settings, w: World, end: int, limit: int)
    requires c.resetTimeout >= 0 && c.maxFailures >= 1 && limit >= 1
    requires Inv(c, w) && w.clock <= end
    ensures Budget(c, w, end, limit) <= PerPeriod(c, limit) * ((end - w.clock) / Pause(c) + 1)
  {
    var p, q := PerPeriod(c, limit), (end - w.clock) / Pause(c);
    if w.breaker.mode == Open {
      DivisionOfNonNegative(end - w.clock, Pause(c));
      DivisionMonotone(end - Earliest(c, w), end - w.clock, Pause(c));
      ProductMonotone(p, Reopenings(c, w, end), q + 1);
    } else {
      assert p * (q + 1) == p * q + p;
    }
  }

  /** How many calls get through, over any time span and for any interleaving with at most
      limit calls in flight: one period's worth for each pause that fits in, and one more, plus
      at most maxFailures for every success, stale or not, and a period for every Reset. */
  lemma AdmissionsAreBounded(c: Settings, w: World, es: seq<Event>, end: int, limit: int)
    requires c.resetTimeout >= 0 && c.maxFailures >= 1 && limit >= 1
    requires Inv(c, w) && IsRun(c, w, es) && AtMostInFlight(c, w, es, limit)
    requires w.clock <= end && forall e <- es :: e.now <= end
    ensures Admissions(c, w, es) <=
            PerPeriod(c, limit) * ((end - w.clock) / Pause(c) + 1) +
            c.maxFailures * Count(es, Succeed) + PerPeriod(c, limit) * Count(es, Reset)
  {
    AdmissionsWithinBudget(c, w, es, end, limit);
    StartingBudget(c, w, end, limit);
    RefundsCounted(c, es, limit);
  }

  /** A service that never answers successfully receives at most
      (maxFailures + limit - 1) * (span / (resetTimeout + 1) + 1) calls. */
  lemma BrokenServiceIsSpared(c: Settings, w: World, es: seq<Event>, end: int, limit: int)
    requires c.resetTimeout >= 0 && c.maxFailures >= 1 && limit >= 1
    requires Inv(c, w) && IsRun(c, w, es) && Without(es, Succeed) && Without(es, Reset)
    requires AtMostInFlight(c, w, es, limit)
    requires w.clock <= end && forall e <- es :: e.now <= end
    ensures Admissions(c, w, es) <= (c.maxFailures + limit - 1) * ((end - w.clock) / (c.resetTimeout + 1) + 1)
  {
    AdmissionsAreBounded(c, w, es, end, limit);
    NoneCounted(es, Succeed);
    NoneCounted(es, Reset);
  }

  /** Sequential callers: never more than one call in flight. */
  lemma SequentialCallsToBrokenService(c: Settings, w: World, es: seq<Event>, end: int)
    requires c.resetTimeout >= 0 && c.maxFailures >= 1
    requires Inv(c, w) && IsRun(c, w, es) && Without(es, Succeed) && Without(es, Reset)
    requires AtMostInFlight(c, w, es, 1)
    requires w.clock <= end && forall e <- es :: e.now <= end
    ensures Admissions(c, w, es) <= c.maxFailures * ((end - w.clock) / (c.resetTimeout + 1) + 1)
  {
    BrokenServiceIsSpared(c, w, es, end, 1);
  }

  // ----- The bound is reached

  /** From w the events lead to w', with this many admissions and no success or Reset. */
  ghost predicate Goes(c: Settings, w: World, es: seq<Event>, limit: int, admitted: int, w': World) {
    IsRun(c, w, es) && AtMostInFlight(c, w, es, limit) && Without(es, Succeed) && Without(es, Reset) &&
    Admissions(c, w, es) == admitted && Run(c, w, es) == w'
  }

  lemma {:induction false} GoesOn(c: Settings, w: World, a: seq<Event>, limit: int, n: int, w1: World,
      b: seq<Event>, m: int, w2: World)
    requires Goes(c, w, a, limit, n, w1) && Goes(c, w1, b, limit, m, w2)
    ensures Goes(c, w, a + b, limit, n + m, w2)
    decreases |a|
  {
    if a == [] {
      assert a + b == b;
    } else {
      assert a[0] in a && forall e <- a[1..] :: e in a;
      assert (a + b)[0] == a[0] && (a + b)[1..] == a[1..] + b;
      var w' := Next(c, w, a[0]);
      GoesOn(c, w', a[1..], limit, Admissions(c, w', a[1..]), w1, b, m, w2);
    }
  }

  lemma GoesOne(c: Settings, w: World, e: Event, limit: int)
    requires Enabled(w, e) && (e.kind == Begin || e.kind == Fail)
    requires w.inFlight <= limit && Next(c, w, e).inFlight <= limit
    ensures Goes(c, w, [e], limit, if IsAdmission(c, w, e) then 1 else 0, Next(c, w, e))
  {
    assert [e][1..] == [];
  }

  /** k more callers enter while the circuit is not open. */
  lemma {:induction false} ManyEnter(c: Settings, w: World, k: nat, limit: int)
    requires w.breaker.mode != Open && w.inFlight + k <= limit
    ensures Goes(c, w, Begins(k, w.clock), limit, k, w.(inFlight := w.inFlight + k))
    decreases k
  {
    if k > 0 {
      var e := Event(Begin, w.clock);
      var w' := Next(c, w, e);
      GoesOne(c, w, e, limit);
      ManyEnter(c, w', k - 1, limit);
      GoesOn(c, w, [e], limit, 1, w', Begins(k - 1, w.clock), k - 1, w.(inFlight := w.inFlight + k));
    }
  }

  function Exchanges(k: nat, now: int): seq<Event> {
    if k == 0 then [] else [Event(Fail, now)] + ([Event(Begin, now)] + Exchanges(k - 1, now))
  }

  /** k callers fail, each followed by a new one, without reaching the threshold. */
  lemma {:induction false} SomeFail(c: Settings, w: World, k: nat, limit: int)
    requires w.breaker.mode != Open && w.breaker.failures + k < c.maxFailures && 1 <= w.inFlight <= limit
    ensures var last := if k > 0 then w.clock else w.breaker.lastFailTime;
            Goes(c, w, Exchanges(k, w.clock), limit, k,
                 w.(breaker := Breaker(w.breaker.mode, w.breaker.failures + k, last)))
    decreases k
  {
    if k > 0 {
      var fail, begin := Event(Fail, w.clock), Event(Begin, w.clock);
      var w1 := Next(c, w, fail);
      var w2 := Next(c, w1, begin);
      var w3 := w.(breaker := Breaker(w.breaker.mode, w.breaker.failures + k, w.clock));
      GoesOne(c, w, fail, limit);
      GoesOne(c, w1, begin, limit);
      SomeFail(c, w2, k - 1, limit);
      GoesOn(c, w1, [begin], limit, 1, w2, Exchanges(k - 1, w.clock), k - 1, w3);
      GoesOn(c, w, [fail], limit, 0, w1, [begin] + Exchanges(k - 1, w.clock), k, w3);
    }
  }

  /** The rest fail, and the circuit is open. */
  lemma {:induction false} AllFail(c: Settings, w: World, limit: int)
    requires w.breaker.failures + 1 >= c.maxFailures && 1 <= w.inFlight <= limit
    ensures Goes(c, w, Failures(w.inFlight, w.clock), limit, 0,
                 World(Breaker(Open, w.breaker.failures + w.inFlight, w.clock), w.clock, 0))
    decreases w.inFlight
  {
    var e := Event(Fail, w.clock);
    var w1 := Next(c, w, e);
    var w2 := World(Breaker(Open, w.breaker.failures + w.inFlight, w.clock), w.clock, 0);
    GoesOne(c, w, e, limit);
    if w.inFlight == 1 {
      assert Failures(0, w.clock) == [] && [e] + [] == [e];
      assert Failures(1, w.clock) == [e];
    } else {
      AllFail(c, w1, limit);
      GoesOn(c, w, [e], limit, 0, w1, Failures(w.inFlight - 1, w.clock), 0, w2);
    }
  }

  /** Nobody is in flight, and a call at this time is admitted and starts a fresh count. */
  predicate IsReady(c: Settings, w: World, now: int) {
    w.inFlight == 0 && w.clock <= now && Admits(c, w.breaker, now) &&
    (w.breaker.mode != Open ==> w.breaker.failures == 0)
  }

  /** limit callers enter, all but one of the failures that open the circuit are each made up
      for by a new caller, and then everybody in flight fails. */
  function Wave(c: Settings, limit: int, now: int): seq<Event>
    requires c.maxFailures >= 1 && limit >= 1
  {
    [Event(Begin, now)] + (Begins(limit - 1, now) + (Exchanges(c.maxFailures - 1, now) + Failures(limit, now)))
  }

  lemma WaveGoes(c: Settings, w: World, limit: int, now: int)
    requires c.maxFailures >= 1 && limit >= 1 && IsReady(c, w, now)
    ensures Goes(c, w, Wave(c, limit, now), limit, PerPeriod(c, limit),
                 World(Breaker(Open, c.maxFailures - 1 + limit, now), now, 0))
  {
    var begin := Event(Begin, now);
    var w1 := Next(c, w, begin);
    GoesOne(c, w, begin, limit);
    assert w1.breaker.mode != Open && w1.breaker.failures == 0 && w1.inFlight == 1 && w1.clock == now;
    var w2 := w1.(inFlight := limit);
    ManyEnter(c, w1, limit - 1, limit);
    var k := c.maxFailures - 1;
    var w3 := w2.(breaker := Breaker(w1.breaker.mode, k, if k > 0 then now else w1.breaker.lastFailTime));
    SomeFail(c, w2, k, limit);
    var w4 := World(Breaker(Open, k + limit, now), now, 0);
    AllFail(c, w3, limit);
    GoesOn(c, w2, Exchanges(k, now), limit, k, w3, Failures(limit, now), 0, w4);
    GoesOn(c, w1, Begins(limit - 1, now), limit, limit - 1, w2, Exchanges(k, now) + Failures(limit, now), k, w4);
    var rest := Begins(limit - 1, now) + (Exchanges(k, now) + Failures(limit, now));
    GoesOn(c, w, [begin], limit, 1, w1, rest, limit - 1 + k, w4);
  }

  lemma {:induction false} WavesGo(c: Settings, w: World, limit: int, now: int, n: nat)
      returns (es: seq<Event>, w': World)
    requires c.resetTimeout >= 0 && c.maxFailures >= 1 && limit >= 1 && IsReady(c, w, now)
    ensures Goes(c, w, es, limit, PerPeriod(c, limit) * (n + 1), w')
    ensures forall e <- es :: e.now <= now + Pause(c) * n
    decreases n
  {
    var wave := Wave(c, limit, now);
    var p := PerPeriod(c, limit);
    WaveGoes(c, w, limit, now);
    WaveTimes(c, limit, now);
    var w1 := World(Breaker(Open, c.maxFailures - 1 + limit, now), now, 0);
    es, w' := wave, w1;
    if n > 0 {
      var more, w2 := WavesGo(c, w1, limit, now + Pause(c), n - 1);
      GoesOn(c, w, wave, limit, p, w1, more, p * n, w2);
      es, w' := wave + more, w2;
      assert p + p * n == p * (n + 1);
      assert Pause(c) + Pause(c) * (n - 1) == Pause(c) * n;
      ProductMonotone(Pause(c), 0, n);
    }
  }

  lemma WaveTimes(c: Settings, limit: int, now: int)
    requires c.maxFailures >= 1 && limit >= 1
    ensures forall e <- Wave(c, limit, now) :: e.now == now
  {
    BeginsTimes(limit - 1, now);
    ExchangesTimes(c.maxFailures - 1, now);
    FailuresTimes(limit, now);
  }

  lemma {:induction false} BeginsTimes(n: nat, now: int)
    ensures forall e <- Begins(n, now) :: e.now == now
  {
    if n > 0 { BeginsTimes(n - 1, now); }
  }

  lemma {:induction false} ExchangesTimes(n: nat, now: int)
    ensures forall e <- Exchanges(n, now) :: e.now == now
  {
    if n > 0 { ExchangesTimes(n - 1, now); }
  }

  lemma {:induction false} FailuresTimes(n: nat, now: int)
    ensures forall e <- Failures(n, now) :: e.now == now
  {
    if n > 0 { FailuresTimes(n - 1, now); }
  }

  /** The bound for a broken service cannot be improved: for every time span and number of
      callers some run of a new breaker reaches it. With span 0 this is the bound of one
      period. */
  lemma BoundIsReached(c: Settings, limit: int, start: int, end: int) returns (es: seq<Event>)
    requires c.resetTimeout >= 0 && c.maxFailures >= 1 && limit >= 1 && start <= end
    ensures var w := World(INITIAL, start, 0);
            IsRun(c, w, es) && AtMostInFlight(c, w, es, limit) && Without(es, Succeed) && Without(es, Reset) &&
            (forall e <- es :: e.now <= end) &&
            Admissions(c, w, es) == (c.maxFailures + limit - 1) * ((end - start) / (c.resetTimeout + 1) + 1)
  {
    var n := (end - start) / Pause(c);
    DivisionOfNonNegative(end - start, Pause(c));
    assert end - start == Pause(c) * n + (end - start) % Pause(c);
    var w';
    es, w' := WavesGo(c, World(INITIAL, start, 0), limit, start, n);
  }

  // ----- What the comments promise and the code does not

  /** Half-open is not limited to a single trial call: every caller is admitted. */
  lemma {:induction false} HalfOpenAdmitsEveryone(c: Settings, w: World, n: nat)
    requires w.breaker.mode == HalfOpen
    ensures IsRun(c, w, Begins(n, w.clock)) && Admissions(c, w, Begins(n, w.clock)) == n
    ensures Run(c, w, Begins(n, w.clock)) == w.(inFlight := w.inFlight + n)
    decreases n
  {
    if n > 0 {
      var es := Begins(n, w.clock);
      assert es[1..] == Begins(n - 1, w.clock);
      HalfOpenAdmitsEveryone(c, Next(c, w, es[0]), n - 1);
    }
  }

  /** A run within one half-open period: nothing succeeds, nobody calls Reset, and the
      circuit does not open before the last event. */
  ghost predicate IsTrialRun(c: Settings, w: World, es: seq<Event>, limit: int) {
    IsRun(c, w, es) && Without(es, Succeed) && Without(es, Reset) && AtMostInFlight(c, w, es, limit) &&
    NeverOpen(c, w, es)
  }

  lemma {:induction false} NeverOpenOn(c: Settings, w: World, a: seq<Event>, b: seq<Event>)
    requires NeverOpen(c, w, a) && NeverOpen(c, Run(c, w, a), b)
    ensures NeverOpen(c, w, a + b)
    decreases |a|
  {
    if a == [] {
      assert a + b == b;
    } else {
      assert (a + b)[0] == a[0] && (a + b)[1..] == a[1..] + b;
      NeverOpenOn(c, Next(c, w, a[0]), a[1..], b);
    }
  }

  lemma {:induction false} EnteringNeverOpens(c: Settings, w: World, k: nat)
    requires w.breaker.mode != Open
    ensures NeverOpen(c, w, Begins(k, w.clock))
    decreases k
  {
    if k > 0 {
      assert Begins(k, w.clock)[1..] == Begins(k - 1, w.clock);
      EnteringNeverOpens(c, Next(c, w, Event(Begin, w.clock)), k - 1);
    }
  }

  lemma {:induction false} ExchangesNeverOpen(c: Settings, w: World, k: nat)
    requires w.breaker.mode != Open && w.breaker.failures + k < c.maxFailures
    ensures NeverOpen(c, w, Exchanges(k, w.clock))
    decreases k
  {
    if k > 0 {
      var es := Exchanges(k, w.clock);
      assert es[1..] == [Event(Begin, w.clock)] + Exchanges(k - 1, w.clock);
      assert es[1..][1..] == Exchanges(k - 1, w.clock);
      ExchangesNeverOpen(c, Next(c, Next(c, w, es[0]), es[1]), k - 1);
    }
  }

  /** A run of a half-open circuit that admits as many more calls as possible. */
  lemma MostTrials(c: Settings, w: World, limit: int) returns (es: seq<Event>)
    requires w.breaker.mode == HalfOpen && w.breaker.failures == 0 && w.inFlight == 1
    requires c.maxFailures >= 1 && limit >= 1
    ensures IsTrialRun(c, w, es, limit) && Admissions(c, w, es) == c.maxFailures + limit - 2
  {
    var a, b := Begins(limit - 1, w.clock), Exchanges(c.maxFailures - 1, w.clock);
    var w1 := w.(inFlight := limit);
    var k := c.maxFailures - 1;
    var w2 := w1.(breaker := Breaker(HalfOpen, k, if k > 0 then w.clock else w.breaker.lastFailTime));
    ManyEnter(c, w, limit - 1, limit);
    SomeFail(c, w1, k, limit);
    GoesOn(c, w, a, limit, limit - 1, w1, b, k, w2);
    EnteringNeverOpens(c, w, limit - 1);
    ExchangesNeverOpen(c, w1, k);
    NeverOpenOn(c, w, a, b);
    es := a + b;
  }

  /** Once the first trial call is in, at most n more are admitted before the circuit closes
      or opens again, exactly when n is at least maxFailures + limit - 2. */
  lemma HalfOpenTrialsIff(c: Settings, w: World, limit: int, n: int)
    requires w.breaker.mode == HalfOpen && w.breaker.failures == 0 && w.inFlight == 1
    requires c.maxFailures >= 1 && limit >= 1
    ensures (forall es :: IsTrialRun(c, w, es, limit) ==> Admissions(c, w, es) <= n) <==> n >= c.maxFailures + limit - 2
  {
    var most := MostTrials(c, w, limit);
    forall es | IsTrialRun(c, w, es, limit)
      ensures Admissions(c, w, es) <= c.maxFailures + limit - 2
    {
      AdmissionsInOnePeriod(c, w, es, limit);
    }
  }

  /** Half-open means a single call, as its comment says, exactly when the threshold is one
      failure and callers come one at a time. */
  lemma SingleTrialIff(c: Settings, w: World, limit: int)
    requires w.breaker.mode == HalfOpen && w.breaker.failures == 0 && w.inFlight == 1
    requires c.maxFailures >= 1 && limit >= 1
    ensures (forall es :: IsTrialRun(c, w, es, limit) ==> Admissions(c, w, es) == 0) <==>
            c.maxFailures == 1 && limit == 1
  {
    HalfOpenTrialsIff(c, w, limit, 0);
    if forall es :: IsTrialRun(c, w, es, limit) ==> Admissions(c, w, es) == 0 {
      assert forall es :: IsTrialRun(c, w, es, limit) ==> Admissions(c, w, es) <= 0;
    }
    if c.maxFailures == 1 && limit == 1 {
      assert forall es :: IsTrialRun(c, w, es, limit) ==> Admissions(c, w, es) <= 0;
    }
  }

  /** n failures in a row open a half-open (or closed) circuit exactly when they reach the
      threshold: one failed trial call is not enough, against what half-open suggests. */
  lemma {:induction false} FailuresThatOpen(c: Settings, w: World, n: nat)
    requires w.breaker.mode != Open && w.breaker.failures < c.maxFailures && w.inFlight >= n
    ensures IsRun(c, w, Failures(n, w.clock))
    ensures Run(c, w, Failures(n, w.clock)).breaker.mode == Open <==> w.breaker.failures + n >= c.maxFailures
    decreases n
  {
    if n > 0 {
      var es := Failures(n, w.clock);
      assert es[1..] == Failures(n - 1, w.clock);
      var w' := Next(c, w, es[0]);
      if w'.breaker.mode == Open {
        StaysOpen(c, w', n - 1);
      } else {
        FailuresThatOpen(c, w', n - 1);
      }
    }
  }

  lemma {:induction false} StaysOpen(c: Settings, w: World, n: nat)
    requires w.breaker.mode == Open && w.inFlight >= n
    ensures IsRun(c, w, Failures(n, w.clock))
    ensures Run(c, w, Failures(n, w.clock)).breaker.mode == Open
    decreases n
  {
    if n > 0 {
      var es := Failures(n, w.clock);
      assert es[1..] == Failures(n - 1, w.clock);
      StaysOpen(c, Next(c, w, es[0]), n - 1);
    }
  }

  /** Reset lets callers through at once, and it then takes the full number of failures to
      open the circuit, whatever was counted before. */
  lemma ResetStartsAfresh(c: Settings, w: World, n: nat)
    requires c.maxFailures >= 1 && w.inFlight >= n
    ensures var w' := Next(c, w, Event(Reset, w.clock));
            Admits(c, w'.breaker, w'.clock) &&
            IsRun(c, w', Failures(n, w'.clock)) &&
            (Run(c, w', Failures(n, w'.clock)).breaker.mode == Open <==> n >= c.maxFailures)
  {
    FailuresThatOpen(c, Next(c, w, Event(Reset, w.clock)), n);
  }

  /** A late success in a circuit that is not open wipes out the failures counted so far: it
      then takes the full number of failures to open the circuit, where fewer would have done. */
  lemma StaleSuccess(c: Settings, w: World, n: nat)
    requires w.breaker.mode != Open && 0 <= w.breaker.failures < c.maxFailures && w.inFlight > n
    ensures var w' := Next(c, w, Event(Succeed, w.clock));
            (Run(c, w', Failures(n, w.clock)).breaker.mode == Open <==> n >= c.maxFailures) &&
            (Run(c, w, Failures(n, w.clock)).breaker.mode == Open <==> n >= c.maxFailures - w.breaker.failures)
  {
    FailuresThatOpen(c, w, n);
    FailuresThatOpen(c, Next(c, w, Event(Succeed, w.clock)), n);
  }

  // ----- Consecutive failures

  /** The whole transition table: which event leads from one mode to another. */
  lemma ModeChanges(c: Settings, w: World, e: Event)
    requires Enabled(w, e)
    ensures var mode, mode' := w.breaker.mode, Next(c, w, e).breaker.mode;
            (mode != Open ==> (mode' == Open <==> e.kind == Fail && w.breaker.failures + 1 >= c.maxFailures)) &&
            (mode == Open ==>
               (mode' == HalfOpen <==> e.kind == Begin && e.now > w.breaker.lastFailTime + c.resetTimeout) &&
               (mode' == Closed <==> e.kind == Reset)) &&
            (mode == HalfOpen ==> (mode' == Closed <==> e.kind == Succeed || e.kind == Reset)) &&
            (mode == Closed ==> mode' != HalfOpen)
  {}

  lemma {:induction false} RunOneMore(c: Settings, w: World, es: seq<Event>, e: Event)
    ensures Run(c, w, es + [e]) == Next(c, Run(c, w, es), e)
    decreases |es|
  {
    if es == [] {
      assert [] + [e] == [e];
      assert Run(c, w, [e]) == Run(c, Next(c, w, e), [e][1..]);
    } else {
      assert (es + [e])[1..] == es[1..] + [e];
      RunOneMore(c, Next(c, w, es[0]), es[1..], e);
    }
  }

  /** The failures since the last success, Reset or half-open admission. */
  ghost function FailuresInARow(c: Settings, w: World, es: seq<Event>): int
    decreases |es|
  {
    if es == [] then w.breaker.failures
    else
      var front, last := es[..|es| - 1], es[|es| - 1];
      match last.kind
      case Fail => FailuresInARow(c, w, front) + 1
      case Succeed => 0
      case Reset => 0
      case Begin =>
        var before := Run(c, w, front);
        if before.breaker.mode == Open && IsAdmission(c, before, last) then 0 else FailuresInARow(c, w, front)
  }

  /** In every run the breaker's count is exactly that number. */
  lemma {:induction false} CountIsFailuresInARow(c: Settings, w: World, es: seq<Event>)
    ensures Run(c, w, es).breaker.failures == FailuresInARow(c, w, es)
    decreases |es|
  {
    if es != [] {
      var front, last := es[..|es| - 1], es[|es| - 1];
      assert es == front + [last];
      CountIsFailuresInARow(c, w, front);
      RunOneMore(c, w, front, last);
    }
  }

  /** The failures at the end of a run with no success and no Reset after them. */
  function TrailingFailures(es: seq<Event>): nat {
    if es == [] then 0
    else
      var front := es[..|es| - 1];
      match es[|es| - 1].kind
      case Fail => TrailingFailures(front) + 1
      case Begin => TrailingFailures(front)
      case Succeed => 0
      case Reset => 0
  }

  lemma {:induction false} AtMostTrailing(c: Settings, w: World, es: seq<Event>)
    requires w.breaker.failures == 0
    ensures FailuresInARow(c, w, es) <= TrailingFailures(es)
    decreases |es|
  {
    if es != [] {
      AtMostTrailing(c, w, es[..|es| - 1]);
    }
  }

  /** The circuit of a new breaker opens only by a failure, and only after maxFailures of them
      with no success and no Reset in between. */
  lemma OpensOnlyAfterConsecutiveFailures(c: Settings, clock: int, es: seq<Event>, e: Event)
    requires c.maxFailures >= 1
    requires Enabled(Run(c, World(INITIAL, clock, 0), es), e)
    requires Run(c, World(INITIAL, clock, 0), es).breaker.mode != Open
    requires Run(c, World(INITIAL, clock, 0), es + [e]).breaker.mode == Open
    ensures e.kind == Fail && TrailingFailures(es + [e]) >= c.maxFailures
  {
    var w := World(INITIAL, clock, 0);
    RunOneMore(c, w, es, e);
    ModeChanges(c, Run(c, w, es), e);
    CountIsFailuresInARow(c, w, es);
    AtMostTrailing(c, w, es);
    assert (es + [e])[..|es|] == es;
  }
}
