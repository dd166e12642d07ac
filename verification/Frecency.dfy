/** The decayed use counter (internal/rank/frecency.go). Times are unix milliseconds; the decay over a
    number of milliseconds is any function with the laws of an exponential. */
module Frecency {

  const BURST_WINDOW := 300_000

  /** What the source's exp(-lambda * d) is relied on for. */
  ghost predicate IsDecay(decay: nat -> real) {
    && decay(0) == 1.0
    && (forall a: nat, b: nat :: decay(a + b) == decay(a) * decay(b))
    && (forall a: nat :: 0.0 < decay(a) <= 1.0)
    && (forall a: nat, b: nat :: a < b ==> decay(a) > decay(b))
  }

  lemma DecayLaws(decay: nat -> real, a: nat, b: nat)
    requires IsDecay(decay)
    ensures decay(0) == 1.0 && decay(a + b) == decay(a) * decay(b) && 0.0 < decay(a) <= 1.0
    ensures a < b ==> decay(a) > decay(b)
  {
  }

  function Abs(v: int): nat {
    if v < 0 then -v else v
  }

  function Max(a: int, b: int): int {
    if a < b then b else a
  }

  /** How long before `now` an execution at `t` lies. */
  function Age(now: int, t: int): nat {
    if t <= now then now - t else 0
  }

  /** Whether an execution at `t` belongs to the burst of the last counted one. */
  predicate Suppressed(t: int, lastCounted: int) {
    Abs(t - lastCounted) <= BURST_WINDOW && lastCounted != 0
  }

  /** The executions counted when `times` are observed in turn. */
  function Counted(times: seq<int>): seq<int> {
    if times == [] then []
    else
      var before, t := Counted(times[..|times|-1]), times[|times|-1];
      if Suppressed(t, Latest(before)) then before else before + [t]
  }

  /** The latest of `times`; 0 when there is none. */
  function Latest(times: seq<int>): int {
    if times == [] then 0 else Max(Latest(times[..|times|-1]), times[|times|-1])
  }

  /** The sum of the decayed counts at `now`. */
  function Sum(decay: nat -> real, times: seq<int>, now: int): real {
    if times == [] then 0.0
    else Sum(decay, times[..|times|-1], now) + decay(Age(now, times[|times|-1]))
  }

  predicate Within(times: seq<int>, low: int, high: int) {
    forall i :: 0 <= i < |times| ==> low < times[i] <= high
  }

  lemma CountedSnoc(times: seq<int>, t: int)
    ensures Counted(times + [t]) == if Suppressed(t, Latest(Counted(times))) then Counted(times) else Counted(times) + [t]
  {
    assert (times + [t])[..|times|] == times;
  }

  lemma LatestSnoc(times: seq<int>, t: int)
    ensures Latest(times + [t]) == Max(Latest(times), t)
  {
    assert (times + [t])[..|times|] == times;
  }

  lemma SumSnoc(decay: nat -> real, times: seq<int>, t: int, now: int)
    ensures Sum(decay, times + [t], now) == Sum(decay, times, now) + decay(Age(now, t))
  {
    assert (times + [t])[..|times|] == times;
  }

  lemma {:induction false} LatestBounds(times: seq<int>)
    ensures forall i :: 0 <= i < |times| ==> times[i] <= Latest(times)
    ensures Latest(times) == 0 || exists i :: 0 <= i < |times| && times[i] == Latest(times)
    ensures Latest(times) >= 0
  {
    if times != [] {
      var rest := times[..|times|-1];
      LatestBounds(rest);
      if i :| 0 <= i < |rest| && rest[i] == Latest(rest) { assert times[i] == Latest(rest); }
    }
  }

  /** Time passing scales the whole sum. */
  lemma {:induction false} SumDecays(decay: nat -> real, times: seq<int>, at: int, now: int)
    requires IsDecay(decay) && at <= now && Within(times, 0, at)
    ensures Sum(decay, times, now) == Sum(decay, times, at) * decay(now - at)
  {
    hide IsDecay;
    if times != [] {
      var rest, t := times[..|times|-1], times[|times|-1];
      SumDecays(decay, rest, at, now);
      DecayLaws(decay, at - t, now - at);
      Distribute(Sum(decay, rest, at), decay(at - t), decay(now - at));
    }
  }

  lemma Distribute(s: real, x: real, y: real)
    ensures (s + x) * y == s * y + x * y
  {
  }

  /** A counter's three numbers. */
  datatype State = State(weight: real, at: int, lastCounted: int)

  const FRESH := State(0.0, 0, 0)

  /** One more execution: what was folded in ages to the later of the two times, and the execution
      counts at its own age unless it belongs to the burst of the last counted one. */
  function After(decay: nat -> real, c: State, t: int): State {
    var aged := c.weight * decay(Age(t, c.at));
    var at := if t >= c.at then t else c.at;
    if Suppressed(t, c.lastCounted) then State(aged, at, c.lastCounted)
    else State(aged + decay(Age(at, t)), at, Max(c.lastCounted, t))
  }

  function Observed(decay: nat -> real, times: seq<int>): State {
    if times == [] then FRESH else After(decay, Observed(decay, times[..|times|-1]), times[|times|-1])
  }

  /** The counter is a decayed sum: after positive times in any order it holds, as of the latest of
      them, the sum of the decays of the counted ones. */
  lemma {:induction false} ObservedIsDecayedSum(decay: nat -> real, times: seq<int>)
    requires IsDecay(decay) && forall i :: 0 <= i < |times| ==> times[i] > 0
    ensures var c := Observed(decay, times);
            && c.at == Latest(times) && c.lastCounted == Latest(Counted(times))
            && Within(times, 0, c.at) && Within(Counted(times), 0, c.at)
            && c.weight == Sum(decay, Counted(times), c.at)
  {
    hide IsDecay, Counted, Latest, Sum;
    if times == [] {
      NothingCounted();
      EmptySum(decay, 0);
    } else {
      var rest, t := times[..|times|-1], times[|times|-1];
      assert times == rest + [t];
      ObservedIsDecayedSum(decay, rest);
      OneMoreObserved(decay, rest, Observed(decay, rest), t);
    }
  }

  lemma OneMoreObserved(decay: nat -> real, rest: seq<int>, c: State, t: int)
    requires IsDecay(decay) && t > 0
    requires c.at == Latest(rest) && c.lastCounted == Latest(Counted(rest))
    requires Within(rest, 0, c.at) && Within(Counted(rest), 0, c.at) && c.weight == Sum(decay, Counted(rest), c.at)
    ensures var n, times := After(decay, c, t), rest + [t];
            && n.at == Latest(times) && n.lastCounted == Latest(Counted(times))
            && Within(times, 0, n.at) && Within(Counted(times), 0, n.at)
            && n.weight == Sum(decay, Counted(times), n.at)
  {
    hide IsDecay, Counted, Latest, Sum;
    var counted := Counted(rest);
    CountedSnoc(rest, t);
    LatestSnoc(rest, t);
    LatestSnoc(counted, t);
    LatestBounds(counted);
    DecayLaws(decay, 0, 0);
    SumDecays(decay, counted, c.at, Max(c.at, t));
    SumSnoc(decay, counted, t, Max(c.at, t));
  }

  /** The weight as of `now`. */
  function ValueAt(decay: nat -> real, c: State, now: int): real {
    if now > c.at then c.weight * decay(now - c.at) else c.weight
  }

  class Counter {
    const decay: nat -> real
    var weight: real
    var at: int
    var lastCounted: int
    /** Every time observed, in the order of the calls. */
    ghost var observed: seq<int>

    ghost predicate Valid()
      reads this
    {
      IsDecay(decay) && State(weight, at, lastCounted) == Observed(decay, observed)
    }

    constructor (decay: nat -> real)
      requires IsDecay(decay)
      ensures Valid() && observed == [] && this.decay == decay
    {
      this.decay := decay;
      weight, at, lastCounted, observed := 0.0, 0, 0, [];
    }

    method Observe(t: int)
      requires Valid()
      modifies this
      ensures Valid() && observed == old(observed) + [t]
    {
      hide IsDecay;
      DecayLaws(decay, 0, 0);
      assert (observed + [t])[..|observed|] == observed;
      observed := observed + [t];
      var age := 0;
      var d := t - at;
      if d >= 0 {
        weight := weight * decay(d);
        at := t;
      } else {
        age := -d;
      }
      if Abs(t - lastCounted) <= BURST_WINDOW && lastCounted != 0 {
        return;
      }
      weight := weight + decay(age);
      if t > lastCounted {
        lastCounted := t;
      }
    }

    function Value(now: int): real
      reads this
    {
      ValueAt(decay, State(weight, at, lastCounted), now)
    }

    /** From the latest time on, the value is exactly the decayed sum of what was counted. */
    lemma ValueIsDecayedSum(now: int)
      requires Valid() && now >= at && forall i :: 0 <= i < |observed| ==> observed[i] > 0
      ensures Value(now) == Sum(decay, Counted(observed), now)
    {
      hide IsDecay, Sum, Counted, Latest, Observed;
      ObservedIsDecayedSum(decay, observed);
      SumDecays(decay, Counted(observed), at, now);
      DecayLaws(decay, 0, 0);
    }
  }

  // ------------------------------------------------------------- order does not matter when spread out

  /** Every two observations are further apart than a burst. */
  predicate SpreadOut(times: seq<int>) {
    forall i, j :: 0 <= i < j < |times| ==> Abs(times[i] - times[j]) > BURST_WINDOW
  }

  /** Observations further apart than a burst are all counted, in whatever order they come. */
  lemma {:induction false} SpreadOutAllCounted(times: seq<int>)
    requires SpreadOut(times) && forall i :: 0 <= i < |times| ==> times[i] > 0
    ensures Counted(times) == times
  {
    hide Counted, Latest;
    if times == [] {
      NothingCounted();
    } else {
      var rest, t := times[..|times|-1], times[|times|-1];
      SpreadOutAllCounted(rest);
      LatestBounds(rest);
      CountedSnoc(rest, t);
      assert times == rest + [t];
    }
  }

  lemma NothingCounted()
    ensures Counted([]) == [] && Latest([]) == 0
  {
  }

  lemma {:induction false} SumSplit(decay: nat -> real, a: seq<int>, t: int, b: seq<int>, now: int)
    ensures Sum(decay, a + [t] + b, now) == Sum(decay, a + b, now) + decay(Age(now, t))
  {
    hide Sum;
    if b == [] {
      assert a + [t] + b == a + [t] && a + b == a;
      SumSnoc(decay, a, t, now);
    } else {
      var c, x := b[..|b|-1], b[|b|-1];
      assert a + [t] + b == (a + [t] + c) + [x] && a + b == (a + c) + [x];
      SumSplit(decay, a, t, c, now);
      SumSnoc(decay, a + [t] + c, x, now);
      SumSnoc(decay, a + c, x, now);
    }
  }

  /** The sum does not depend on the order. */
  lemma {:induction false} SumPermutes(decay: nat -> real, a: seq<int>, b: seq<int>, now: int)
    requires multiset(a) == multiset(b)
    ensures Sum(decay, a, now) == Sum(decay, b, now)
  {
    hide Sum;
    if a == [] {
      assert |multiset(b)| == 0;
      assert b == [];
    } else {
      var rest, t := a[..|a|-1], a[|a|-1];
      assert a == rest + [t];
      assert t in multiset(a);
      assert t in b;
      var i :| 0 <= i < |b| && b[i] == t;
      var c := b[..i] + b[i+1..];
      assert b == b[..i] + [t] + b[i+1..];
      assert multiset(c) == multiset(b) - multiset{t};
      assert multiset(rest) == multiset(a) - multiset{t};
      SumSplit(decay, b[..i], t, b[i+1..], now);
      SumSnoc(decay, rest, t, now);
      SumPermutes(decay, rest, c, now);
    }
  }

  /** If observations are pairwise further apart than a burst, every order of them gives the same
      value at every later moment. */
  lemma OrderDoesNotMatter(decay: nat -> real, a: seq<int>, b: seq<int>, now: int)
    requires multiset(a) == multiset(b)
    requires SpreadOut(a) && SpreadOut(b) && forall i :: 0 <= i < |a| ==> a[i] > 0
    ensures Sum(decay, Counted(a), now) == Sum(decay, Counted(b), now)
  {
    forall i | 0 <= i < |b| ensures b[i] > 0 {
      assert b[i] in multiset(b);
      assert b[i] in a;
    }
    SpreadOutAllCounted(a);
    SpreadOutAllCounted(b);
    SumPermutes(decay, a, b, now);
  }

  // ------------------------------------------------------------- bursts in ascending order

  predicate InOrder(times: seq<int>) {
    forall i, j :: 0 <= i < j < |times| ==> times[i] <= times[j]
  }

  lemma SpreadSnoc(c: seq<int>, t: int)
    requires InOrder(c) && SpreadOut(c) && Within(c, 0, t) && !Suppressed(t, Latest(c))
    ensures InOrder(c + [t]) && SpreadOut(c + [t])
  {
    hide Latest;
    LatestBounds(c);
    forall k | 0 <= k < |c| ensures Abs(c[k] - t) > BURST_WINDOW {
    }
  }

  /** Observed in ascending order, one execution per burst is counted: the counted ones are more than
      a burst apart. */
  lemma {:induction false} CountedOncePerBurst(times: seq<int>, high: int)
    requires InOrder(times) && Within(times, 0, high)
    ensures InOrder(Counted(times)) && SpreadOut(Counted(times)) && Within(Counted(times), 0, high)
  {
    hide Counted, Latest, InOrder, SpreadOut, Suppressed;
    if times == [] {
      NothingCounted();
      NothingSpread();
    } else {
      var rest, t := times[..|times|-1], times[|times|-1];
      assert times == rest + [t];
      OrderedRest(rest, t);
      CountedOncePerBurst(rest, t);
      CountedSnoc(rest, t);
      if !Suppressed(t, Latest(Counted(rest))) { SpreadSnoc(Counted(rest), t); }
    }
  }

  lemma NothingSpread()
    ensures InOrder([]) && SpreadOut([])
  {
  }

  lemma OrderedRest(rest: seq<int>, t: int)
    requires InOrder(rest + [t])
    ensures InOrder(rest) && forall i :: 0 <= i < |rest| ==> rest[i] <= t
  {
    forall i | 0 <= i < |rest| ensures rest[i] <= t {
      assert (rest + [t])[i] == rest[i] && (rest + [t])[|rest|] == t;
    }
    forall i, j | 0 <= i < j < |rest| ensures rest[i] <= rest[j] {
      assert (rest + [t])[i] == rest[i] && (rest + [t])[j] == rest[j];
    }
  }

  /** What one count per burst, for ever, adds up to when a burst's length decays the rest to `q`. */
  function Ceiling(q: real): real
    requires q < 1.0
  {
    1.0 / (1.0 - q)
  }

  /** … and however many executions there are, the weight stays at or below
      1 / (1 - decay(window + 1 ms)). */
  lemma {:induction false} WeightIsBounded(decay: nat -> real, counted: seq<int>)
    requires IsDecay(decay) && InOrder(counted) && SpreadOut(counted) && counted != [] && counted[0] > 0
    ensures decay(BURST_WINDOW + 1) < 1.0
    ensures Sum(decay, counted, counted[|counted|-1]) <= Ceiling(decay(BURST_WINDOW + 1))
  {
    hide IsDecay, Sum, Ceiling, InOrder, SpreadOut, Within, Abs;
    var q := decay(BURST_WINDOW + 1);
    DecayLaws(decay, 0, BURST_WINDOW + 1);
    DecayLaws(decay, BURST_WINDOW + 1, 0);
    var rest, t := counted[..|counted|-1], counted[|counted|-1];
    assert counted == rest + [t];
    SumSnoc(decay, rest, t, t);
    if rest == [] {
      EmptySum(decay, t);
      OneIsWithinBound(q);
    } else {
      var s := rest[|rest|-1];
      LastTwo(counted);
      WeightIsBounded(decay, rest);
      OneMoreWithinBound(decay, rest, s, t);
    }
  }

  lemma LastTwo(counted: seq<int>)
    requires |counted| > 1 && InOrder(counted) && SpreadOut(counted) && counted[0] > 0
    ensures var rest := counted[..|counted|-1];
            && InOrder(rest) && SpreadOut(rest) && Within(rest, 0, rest[|rest|-1])
            && counted[|counted|-1] - rest[|rest|-1] > BURST_WINDOW
  {
    var n := |counted|;
    assert counted[n-2] <= counted[n-1] && Abs(counted[n-2] - counted[n-1]) > BURST_WINDOW;
    assert forall i :: 0 < i < n ==> counted[0] <= counted[i];
  }

  lemma OneMoreWithinBound(decay: nat -> real, rest: seq<int>, s: int, t: int)
    requires IsDecay(decay) && Within(rest, 0, s) && t - s > BURST_WINDOW && decay(BURST_WINDOW + 1) < 1.0
    requires Sum(decay, rest, s) <= Ceiling(decay(BURST_WINDOW + 1))
    ensures Sum(decay, rest, t) + 1.0 <= Ceiling(decay(BURST_WINDOW + 1))
  {
    hide IsDecay, Sum, Ceiling;
    DecayLaws(decay, t - s, 0);
    DecayLaws(decay, BURST_WINDOW + 1, t - s);
    SumDecays(decay, rest, s, t);
    BoundKept(Sum(decay, rest, s), decay(t - s), decay(BURST_WINDOW + 1));
  }

  lemma EmptySum(decay: nat -> real, now: int)
    ensures Sum(decay, [], now) == 0.0
  {
  }

  lemma OneIsWithinBound(q: real)
    requires 0.0 < q < 1.0
    ensures 1.0 <= Ceiling(q)
  {
    var r := Ceiling(q);
    assert r * (1.0 - q) == 1.0;
    assert r > 0.0;
    assert r * q > 0.0;
    assert r - r * q == 1.0;
  }

  lemma BoundKept(w: real, g: real, q: real)
    requires 0.0 < g <= q < 1.0 && w <= Ceiling(q)
    ensures w * g + 1.0 <= Ceiling(q)
  {
    var r := Ceiling(q);
    assert r * (1.0 - q) == 1.0;
    assert r - r * q == 1.0;
    assert r > 0.0;
    assert w * g <= r * g;
    assert r * g <= r * q;
  }

  /** From the latest time on, a counter's value is the decayed sum of what it counted. */
  lemma ValueIsSum(decay: nat -> real, times: seq<int>, now: int)
    requires IsDecay(decay) && (forall i :: 0 <= i < |times| ==> times[i] > 0) && now >= Latest(times)
    ensures ValueAt(decay, Observed(decay, times), now) == Sum(decay, Counted(times), now)
  {
    hide IsDecay, Sum, Counted, Latest, Observed;
    ObservedIsDecayedSum(decay, times);
    SumDecays(decay, Counted(times), Observed(decay, times).at, now);
    DecayLaws(decay, 0, 0);
  }

  /** Counters that saw the same executions, pairwise further apart than a burst, in different orders
      have the same value ever after. */
  lemma AnyOrderSameValue(decay: nat -> real, a: seq<int>, b: seq<int>, now: int)
    requires IsDecay(decay) && multiset(a) == multiset(b) && SpreadOut(a) && SpreadOut(b)
    requires (forall i :: 0 <= i < |a| ==> a[i] > 0) && now >= Latest(a) && now >= Latest(b)
    ensures ValueAt(decay, Observed(decay, a), now) == ValueAt(decay, Observed(decay, b), now)
  {
    hide IsDecay, Sum, Counted, Latest, Observed, SpreadOut, ValueAt;
    forall i | 0 <= i < |b| ensures b[i] > 0 {
      assert b[i] in multiset(b);
      assert b[i] in a;
    }
    OrderDoesNotMatter(decay, a, b, now);
    ValueIsSum(decay, a, now);
    ValueIsSum(decay, b, now);
  }

  /** However many executions a counter observes in ascending order, its weight stays at or below
      1 / (1 - decay(window + 1 ms)). */
  lemma AscendingWeightBounded(decay: nat -> real, times: seq<int>)
    requires IsDecay(decay) && InOrder(times) && forall i :: 0 <= i < |times| ==> times[i] > 0
    ensures decay(BURST_WINDOW + 1) < 1.0
    ensures 0.0 <= Observed(decay, times).weight <= Ceiling(decay(BURST_WINDOW + 1))
  {
    hide IsDecay, Sum, Counted, Latest, Observed, SpreadOut, InOrder, Ceiling, Within;
    AllWithin(times);
    ObservedIsDecayedSum(decay, times);
    var c, counted := Observed(decay, times), Counted(times);
    CountedOncePerBurst(times, c.at);
    DecayLaws(decay, 0, BURST_WINDOW + 1);
    DecayLaws(decay, BURST_WINDOW + 1, 0);
    if counted == [] {
      EmptySum(decay, c.at);
      OneIsWithinBound(decay(BURST_WINDOW + 1));
    } else {
      var last := counted[|counted|-1];
      FirstIsPositive(counted, c.at);
      WeightIsBounded(decay, counted);
      SumOnlyFades(decay, counted, last, c.at);
    }
  }

  lemma FirstIsPositive(counted: seq<int>, at: int)
    requires counted != [] && Within(counted, 0, at)
    ensures (forall i :: 0 <= i < |counted| ==> counted[i] > 0) && counted[|counted|-1] <= at
  {
  }

  lemma {:induction false} SumOnlyFades(decay: nat -> real, counted: seq<int>, last: int, at: int)
    requires IsDecay(decay) && last <= at
    ensures 0.0 <= Sum(decay, counted, at) <= Sum(decay, counted, last)
  {
    hide IsDecay;
    if counted != [] {
      var t := counted[|counted|-1];
      SumOnlyFades(decay, counted[..|counted|-1], last, at);
      DecayFalls(decay, Age(last, t), Age(at, t));
    }
  }

  lemma DecayFalls(decay: nat -> real, a: nat, b: nat)
    requires IsDecay(decay) && a <= b
    ensures 0.0 < decay(b) <= decay(a)
  {
  }

  lemma AllWithin(times: seq<int>)
    requires forall i :: 0 <= i < |times| ==> times[i] > 0
    ensures Within(times, 0, Latest(times))
  {
    LatestBounds(times);
  }

  // ------------------------------------------------------------- late arrivals

  function Repeat(t: int, n: nat): seq<int> {
    if n == 0 then [] else Repeat(t, n - 1) + [t]
  }

  lemma {:induction false} CountedAmong(times: seq<int>)
    requires forall i :: 0 <= i < |times| ==> times[i] > 0
    ensures forall i :: 0 <= i < |Counted(times)| ==> Counted(times)[i] > 0
    ensures times != [] ==> Counted(times) != []
  {
    if times != [] { CountedAmong(times[..|times|-1]); }
  }

  /** Exactly when an execution is suppressed: when it lies within a burst of the latest one counted so
      far. An earlier one, however close, does not matter. */
  lemma SuppressedIff(times: seq<int>, t: int)
    requires forall i :: 0 <= i < |times| ==> times[i] > 0
    ensures Counted(times + [t]) == Counted(times)
            <==> times != [] && Abs(t - Latest(Counted(times))) <= BURST_WINDOW
  {
    hide Latest, Abs;
    var counted := Counted(times);
    CountedSnoc(times, t);
    CountedAmong(times);
    LatestBounds(counted);
    assert |counted + [t]| != |counted|;
    if times == [] {
      NothingCounted();
    } else {
      assert counted[0] > 0 && Latest(counted) > 0;
    }
  }

  /** Late arrivals of one moment, more than a burst before the latest, are every one counted … */
  lemma {:induction false} LateArrivalsAllCounted(t: int, late: int, n: nat)
    requires 0 < late && late + BURST_WINDOW < t
    ensures Counted([t] + Repeat(late, n)) == [t] + Repeat(late, n)
    ensures Latest([t] + Repeat(late, n)) == t
  {
    hide Counted, Latest;
    NothingCounted();
    if n == 0 {
      assert [t] + Repeat(late, 0) == [] + [t];
      CountedSnoc([], t);
      LatestSnoc([], t);
    } else {
      LateArrivalsAllCounted(t, late, n - 1);
      var before := [t] + Repeat(late, n - 1);
      assert [t] + Repeat(late, n) == before + [late];
      CountedSnoc(before, late);
      LatestSnoc(before, late);
    }
  }

  /** … each at its own age: the weight grows by the same amount with every one of them … */
  lemma {:induction false} LateArrivalsWeight(decay: nat -> real, t: int, late: int, n: nat)
    requires IsDecay(decay) && 0 < late && late + BURST_WINDOW < t
    ensures Observed(decay, [t] + Repeat(late, n)) == State(1.0 + n as real * decay(t - late), t, t)
  {
    hide IsDecay, Observed, After;
    if n == 0 {
      assert [t] + Repeat(late, 0) == [] + [t];
      FirstObserved(decay, t);
    } else {
      LateArrivalsWeight(decay, t, late, n - 1);
      var before := [t] + Repeat(late, n - 1);
      assert [t] + Repeat(late, n) == before + [late];
      LateObserved(decay, before, t, late);
      Distribute((n - 1) as real, 1.0, decay(t - late));
    }
  }

  lemma FirstObserved(decay: nat -> real, t: int)
    requires IsDecay(decay) && t > 0
    ensures Observed(decay, [] + [t]) == State(1.0, t, t)
  {
    hide IsDecay;
    DecayLaws(decay, 0, 0);
    assert ([] + [t])[..0] == [];
  }

  lemma LateObserved(decay: nat -> real, before: seq<int>, t: int, late: int)
    requires IsDecay(decay) && 0 < late && late + BURST_WINDOW < t
    requires Observed(decay, before).at == t && Observed(decay, before).lastCounted == t
    ensures Observed(decay, before + [late]) == State(Observed(decay, before).weight + decay(t - late), t, t)
  {
    hide IsDecay;
    DecayLaws(decay, 0, 0);
    assert (before + [late])[..|before|] == before;
  }

  /** … so that no bound holds out of order, the one for ascending order included. */
  lemma LateArrivalsPassAnyBound(decay: nat -> real, t: int, late: int, bound: real) returns (n: nat)
    requires IsDecay(decay) && 0 < late && late + BURST_WINDOW < t
    ensures Observed(decay, [t] + Repeat(late, n)).weight > bound
  {
    hide IsDecay;
    DecayFalls(decay, 0, t - late);
    DecayLaws(decay, 0, 0);
    var g := decay(t - late);
    n := if bound <= 0.0 then 0 else (bound / g).Floor;
    LateArrivalsWeight(decay, t, late, n);
    if bound > 0.0 { EnoughSteps(bound, g, n); } else { assert 0.0 * g == 0.0; }
  }

  lemma EnoughSteps(bound: real, g: real, n: nat)
    requires bound > 0.0 && 0.0 < g <= 1.0 && n == (bound / g).Floor
    ensures 1.0 + n as real * g > bound
  {
    var q := bound / g;
    assert q < n as real + 1.0;
    assert q * g == bound;
    assert (n as real + 1.0 - q) * g > 0.0;
    assert (n as real + 1.0) * g == n as real * g + g;
  }
}
