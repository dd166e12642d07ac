/** Exit codes, context and the final score (internal/rank/score.go). */
module Score {
  import opened Matcher

  datatype Outcome = Success | Failure | CouldNotRun | Signalled

  /** 126 and 127 mean that nothing ran, 129 to 165 a signal; other codes but 0 are failures. */
  function ClassifyExit(code: int): Outcome {
    if code == 0 then Success
    else if code == 126 || code == 127 then CouldNotRun
    else if 128 < code <= 165 then Signalled
    else Failure
  }

  /** The signals about a command that the multiplier weighs. */
  datatype Context = Context(
    sameDir: bool, sameRepo: bool, sameSession: bool, sameHost: bool, sameBranch: bool,
    failureRate: real, neverRan: bool, debugging: bool, allImported: bool)

  const NO_CONTEXT := Context(false, false, false, false, false, 0.0, false, false, false)

  function Unclamped(c: Context): real {
    (if c.sameDir then 1.35 else if c.sameRepo then 1.20 else 1.0)
    * (if c.sameSession then 1.15 else 1.0)
    * (if c.sameHost then 1.10 else 1.0)
    * (if c.sameBranch then 1.10 else 1.0)
    * (if c.neverRan then 0.6
       else if c.debugging then 1.0
       else if c.failureRate > 0.0 then 1.0 - 0.25 * c.failureRate
       else 1.0)
    * (if c.allImported then 0.90 else 1.0)
  }

  function Multiplier(c: Context): real {
    var m := Unclamped(c);
    var low := if m < 0.6 then 0.6 else m;
    if low > 2.0 then 2.0 else low
  }

  const TOP_CONTEXT := 1.878525

  function Here(c: Context): real {
    (if c.sameDir then 1.35 else if c.sameRepo then 1.20 else 1.0)
    * (if c.sameSession then 1.15 else 1.0) * (if c.sameHost then 1.10 else 1.0) * (if c.sameBranch then 1.10 else 1.0)
  }

  function Past(c: Context): real {
    (if c.neverRan then 0.6 else if c.debugging then 1.0 else if c.failureRate > 0.0 then 1.0 - 0.25 * c.failureRate else 1.0)
    * (if c.allImported then 0.90 else 1.0)
  }

  lemma UnclampedIs(c: Context)
    requires 0.0 <= c.failureRate <= 1.0
    ensures Unclamped(c) == Here(c) * Past(c) && 0.0 < Past(c) <= 1.0 <= Here(c) <= TOP_CONTEXT
  {
  }

  /** Every signal in a command's favour together stays short of the upper clamp: the largest multiplier
      there is is 1.878525, and with no signal at all it is 1. */
  lemma MultiplierRange(c: Context)
    requires 0.0 <= c.failureRate <= 1.0
    ensures 0.6 <= Multiplier(c) <= TOP_CONTEXT
    ensures Multiplier(Context(true, c.sameRepo, true, true, true, 0.0, false, false, false)) == TOP_CONTEXT
    ensures Multiplier(NO_CONTEXT) == 1.0
  {
    AllInFavour(c.sameRepo);
    hide Unclamped, Here, Past;
    UnclampedIs(c);
    Shrinks(Here(c), Past(c));
  }

  lemma AllInFavour(sameRepo: bool)
    ensures Unclamped(Context(true, sameRepo, true, true, true, 0.0, false, false, false)) == TOP_CONTEXT
    ensures Unclamped(NO_CONTEXT) == 1.0
  {
  }

  lemma Shrinks(a: real, b: real)
    requires 0.0 <= a && 0.0 <= b <= 1.0
    ensures 0.0 <= a * b <= a
  {
    assert a * b <= a * 1.0;
  }

  /** Each signal pulls one way, whatever the others say: standing where the command was run never lowers
      the multiplier, a higher failure rate and an import-only past never raise it, not having been found
      is no better than any failing, and debugging lifts the penalty for failing. */
  lemma SignalsPullOneWay(c: Context, rate: real)
    requires 0.0 <= c.failureRate <= rate <= 1.0
    ensures Multiplier(c) <= Multiplier(c.(sameRepo := true)) <= Multiplier(c.(sameDir := true))
    ensures Multiplier(c) <= Multiplier(c.(sameSession := true)) && Multiplier(c) <= Multiplier(c.(sameHost := true))
    ensures Multiplier(c) <= Multiplier(c.(sameBranch := true))
    ensures Multiplier(c.(failureRate := rate)) <= Multiplier(c)
    ensures Multiplier(c.(allImported := true)) <= Multiplier(c)
    ensures Multiplier(c.(neverRan := true)) <= Multiplier(c)
    ensures !c.neverRan ==> Multiplier(c) <= Multiplier(c.(debugging := true)) == Multiplier(c.(failureRate := 0.0))
  {
    hide Unclamped;
    UnclampedRises(c);
    UnclampedFalls(c, rate);
  }

  lemma Scales(a: real, b: real, x: real)
    requires a <= b && 0.0 <= x
    ensures a * x <= b * x && x * a <= x * b
  {
    assert 0.0 <= (b - a) * x;
  }

  lemma UnclampedRises(c: Context)
    requires 0.0 <= c.failureRate <= 1.0
    ensures Unclamped(c) <= Unclamped(c.(sameRepo := true)) <= Unclamped(c.(sameDir := true))
    ensures Unclamped(c) <= Unclamped(c.(sameSession := true)) && Unclamped(c) <= Unclamped(c.(sameHost := true))
    ensures Unclamped(c) <= Unclamped(c.(sameBranch := true))
  {
    hide Unclamped;
    GrowsByPlace(c, c.(sameRepo := true));
    GrowsByPlace(c.(sameRepo := true), c.(sameDir := true));
    GrowsByPlace(c, c.(sameSession := true));
    GrowsByPlace(c, c.(sameHost := true));
    GrowsByPlace(c, c.(sameBranch := true));
  }

  lemma GrowsByPlace(c: Context, d: Context)
    requires 0.0 <= c.failureRate <= 1.0 && 0.0 <= d.failureRate <= 1.0
    requires Here(c) <= Here(d) && Past(c) == Past(d)
    ensures Unclamped(c) <= Unclamped(d)
  {
    hide Unclamped, Here, Past;
    UnclampedIs(c);
    UnclampedIs(d);
    Scales(Here(c), Here(d), Past(c));
  }

  lemma GrowsByPast(c: Context, d: Context)
    requires 0.0 <= c.failureRate <= 1.0 && 0.0 <= d.failureRate <= 1.0
    requires Past(c) <= Past(d) && Here(c) == Here(d)
    ensures Unclamped(c) <= Unclamped(d)
  {
    hide Unclamped, Here, Past;
    UnclampedIs(c);
    UnclampedIs(d);
    Scales(Past(c), Past(d), Here(c));
  }

  lemma UnclampedFalls(c: Context, rate: real)
    requires 0.0 <= c.failureRate <= rate <= 1.0
    ensures Unclamped(c.(failureRate := rate)) <= Unclamped(c) && Unclamped(c.(allImported := true)) <= Unclamped(c)
    ensures Unclamped(c.(neverRan := true)) <= Unclamped(c)
    ensures !c.neverRan ==> Unclamped(c) <= Unclamped(c.(debugging := true)) == Unclamped(c.(failureRate := 0.0))
  {
    hide Unclamped;
    GrowsByPast(c.(failureRate := rate), c);
    GrowsByPast(c.(allImported := true), c);
    GrowsByPast(c.(neverRan := true), c);
    if !c.neverRan {
      GrowsByPast(c, c.(debugging := true));
      GrowsByPast(c.(debugging := true), c.(failureRate := 0.0));
      GrowsByPast(c.(failureRate := 0.0), c.(debugging := true));
    }
  }

  /** The lower clamp matters only for a command that was never found and is known from imports only. */
  lemma LowerClampReached(c: Context)
    requires 0.0 <= c.failureRate <= 1.0
    ensures Unclamped(c) < 0.6 ==> c.neverRan && c.allImported
    ensures Unclamped(NO_CONTEXT.(neverRan := true, allImported := true)) == 0.54
  {
    assert !(c.neverRan && c.allImported) ==> Past(c) >= 0.6;
    hide Unclamped, Here, Past;
    UnclampedIs(c);
    AtLeast(Here(c), Past(c));
    NothingButBad();
  }

  lemma NothingButBad()
    ensures Unclamped(NO_CONTEXT.(neverRan := true, allImported := true)) == 0.54
  {
  }

  lemma AtLeast(a: real, b: real)
    requires 1.0 <= a && 0.0 <= b
    ensures b <= a * b
  {
    assert 0.0 <= (a - 1.0) * b;
  }

  /** What math.Log1p is relied on for. */
  ghost predicate IsLog1p(log1p: real -> real) {
    log1p(0.0) == 0.0 && forall x: real, y: real :: 0.0 <= x < y ==> log1p(x) < log1p(y)
  }

  function Lift(log1p: real -> real, frecency: real): real {
    1.0 + 0.6 * log1p(frecency)
  }

  function ScoreOf(log1p: real -> real, m: Match, frecency: real, c: Context): real {
    if m.tier == NoTier then 0.0 else m.score * Lift(log1p, frecency) * Multiplier(c)
  }

  /** What a list is sorted by. */
  datatype Key = Key(tier: Tier, score: real, last: int)

  /** `a` is listed before `b`: by tier, within a tier by score, on equal scores by last use. */
  predicate Less(a: Key, b: Key) {
    if a.tier != b.tier then Level(a.tier) > Level(b.tier)
    else if a.score != b.score then a.score > b.score
    else a.last > b.last
  }

  /** A strict total order on keys: only equal keys tie, so sorting is never ambiguous about anything
      but equal keys. */
  lemma LessIsTotalOrder(a: Key, b: Key, c: Key)
    ensures !Less(a, a)
    ensures Less(a, b) ==> !Less(b, a)
    ensures Less(a, b) && Less(b, c) ==> Less(a, c)
    ensures !Less(a, b) && !Less(b, a) <==> a == b
  {
    SameLevelSameTier(a.tier, b.tier);
  }

  lemma SameLevelSameTier(a: Tier, b: Tier)
    ensures Level(a) == Level(b) <==> a == b
  {
  }
}
