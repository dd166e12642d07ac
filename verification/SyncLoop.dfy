/** When the sync loop runs (internal/sync/loop.go): a floor between attempts, a ceiling when nothing
    happens, a backoff after failures and a queue of one trigger. Times and durations are in
    nanoseconds; the loop's clock never runs backwards. */
module SyncLoop {
  import opened Calendar

  const SECOND := 1_000_000_000

  datatype Config = Config(minInterval: int, maxInterval: int, jitter: int, maxBackoff: int)

  const DEFAULTS := Config(30 * SECOND, 3 * 3600 * SECOND, 30 * SECOND, 15 * 60 * SECOND)

  ghost predicate Sound(c: Config) {
    0 < c.minInterval <= c.maxInterval && 0 < c.maxBackoff
  }

  /** Whatever the configuration says, what the loop runs on is sound, and a sound one is kept. */
  function WithDefaults(c: Config): (r: Config)
    ensures Sound(r) && (Sound(c) ==> r == c) && r.jitter == c.jitter
  {
    var low := if c.minInterval <= 0 then DEFAULTS.minInterval else c.minInterval;
    var high := if c.maxInterval <= 0 then DEFAULTS.maxInterval else c.maxInterval;
    Config(low, if high < low then low else high, c.jitter, if c.maxBackoff <= 0 then DEFAULTS.maxBackoff else c.maxBackoff)
  }

  function Max(a: int, b: int): int {
    if a < b then b else a
  }

  /** The earliest moment the next attempt may start. */
  function Floor(c: Config, lastAttempt: int, backoff: int): int {
    lastAttempt + Max(c.minInterval, backoff)
  }

  /** The moment the timer is set for. `draw` is the jitter drawn for this round; None is the zero
      time, which lies before every floor. */
  function Deadline(c: Config, lastAttempt: Option<int>, lastSuccess: Option<int>, pending: bool, backoff: int,
                    draw: int, now: int): int
  {
    match lastAttempt
    case None => now
    case Some(last) =>
      var floor := Floor(c, last, backoff);
      if pending || backoff > 0 || lastSuccess.None? then floor
      else Max(lastSuccess.value + c.maxInterval + draw, floor)
  }

  predicate IsDraw(c: Config, draw: int) {
    if c.jitter <= 0 then draw == 0 else 0 <= draw < c.jitter
  }

  function NextBackoff(current: int, floor: int, max: int): int {
    if current <= 0 then floor else if current * 2 > max then max else current * 2
  }

  // ------------------------------------------------------------- the history of attempts

  /** How an attempt went: still running, skipped because syncing is turned off, failed or synced. */
  datatype Outcome = Underway | Disabled | Failed | Synced

  datatype Attempt = Attempt(start: int, outcome: Outcome)

  /** Failures since the last success. */
  function Streak(h: seq<Attempt>): nat {
    if h == [] then 0
    else
      match h[|h|-1].outcome
      case Synced => 0
      case Failed => Streak(h[..|h|-1]) + 1
      case _ => Streak(h[..|h|-1])
  }

  function Doubled(base: int, n: nat): int {
    if n == 0 then base else 2 * Doubled(base, n - 1)
  }

  function Min(a: int, b: int): int {
    if a < b then a else b
  }

  /** The backoff after k failures in a row: nothing, the floor, then doubling up to the cap. */
  function BackoffAfter(c: Config, k: nat): int {
    if k == 0 then 0 else if k == 1 then c.minInterval else Min(c.maxBackoff, Doubled(c.minInterval, k - 1))
  }

  lemma {:induction false} DoubledGrows(base: int, n: nat)
    requires base > 0
    ensures Doubled(base, n) >= base
  {
    if n > 0 { DoubledGrows(base, n - 1); }
  }

  lemma BackoffDoubles(c: Config, k: nat)
    requires Sound(c)
    ensures NextBackoff(BackoffAfter(c, k), c.minInterval, c.maxBackoff) == BackoffAfter(c, k + 1)
  {
    if k > 0 { DoubledGrows(c.minInterval, k - 1); }
  }

  /** The backoff is never negative and never above the larger of floor and cap. */
  lemma BackoffBounded(c: Config, k: nat)
    requires Sound(c)
    ensures 0 <= BackoffAfter(c, k) <= Max(c.minInterval, c.maxBackoff)
    ensures k > 0 ==> 0 < BackoffAfter(c, k)
  {
    if k > 1 { DoubledGrows(c.minInterval, k - 1); }
  }

  /** The cap is kept exactly except after a single failure under a cap that lies below the floor. */
  lemma CapKeptIff(c: Config, k: nat)
    requires Sound(c)
    ensures BackoffAfter(c, k) <= c.maxBackoff <==> k != 1 || c.minInterval <= c.maxBackoff
  {
  }

  /** The attempt after the i-th starts at least the floor later, and at least the backoff that the
      failures up to the i-th had earned. */
  ghost predicate Apart(c: Config, h: seq<Attempt>, i: nat)
    requires i + 1 < |h|
  {
    h[i+1].start - h[i].start >= Max(c.minInterval, BackoffAfter(c, Streak(h[..i+1])))
  }

  ghost predicate Spaced(c: Config, h: seq<Attempt>) {
    forall i: nat :: i + 1 < |h| ==> Apart(c, h, i)
  }

  /** Whether two neighbours are apart depends on the attempts up to the earlier and on the later's start. */
  lemma ApartAgrees(c: Config, h: seq<Attempt>, g: seq<Attempt>, i: nat)
    requires i + 1 < |h| && i + 1 < |g| && h[..i+1] == g[..i+1] && h[i+1].start == g[i+1].start
    ensures Apart(c, h, i) <==> Apart(c, g, i)
  {
    hide BackoffAfter, Streak;
    assert h[i] == h[..i+1][i] && g[i] == g[..i+1][i];
  }

  lemma SpacedSnoc(c: Config, h: seq<Attempt>, a: Attempt)
    requires Spaced(c, h)
    requires h != [] ==> a.start - h[|h|-1].start >= Max(c.minInterval, BackoffAfter(c, Streak(h)))
    ensures Spaced(c, h + [a])
  {
    hide BackoffAfter, Streak;
    var g := h + [a];
    forall i: nat | i + 1 < |g| ensures Apart(c, g, i) {
      if i + 1 == |h| {
        assert g[..i+1] == h;
      } else {
        assert h[..i+1] == g[..i+1];
        ApartAgrees(c, h, g, i);
      }
    }
  }

  lemma StreakSnoc(h: seq<Attempt>, a: Attempt)
    ensures Streak(h + [a]) == match a.outcome
                               case Synced => 0
                               case Failed => Streak(h) + 1
                               case _ => Streak(h)
  {
    assert (h + [a])[..|h|] == h;
  }

  /** How the last attempt went settles what the next one waits for, not how the earlier ones were
      spaced. */
  lemma SpacedSettles(c: Config, h: seq<Attempt>, a: Attempt)
    requires Spaced(c, h) && h != [] && a.start == h[|h|-1].start
    ensures Spaced(c, h[..|h|-1] + [a])
  {
    hide BackoffAfter, Streak, Apart;
    var g := h[..|h|-1] + [a];
    forall i: nat | i + 1 < |g| ensures Apart(c, g, i) {
      assert h[..i+1] == g[..i+1];
      ApartAgrees(c, h, g, i);
    }
  }

  // ------------------------------------------------------------- the loop

  /** What happens next, as far as the loop can tell. */
  datatype Turn =
    /** Somebody calls Trigger. */
    | Call(reason: string, at: int)
    /** The loop's select takes the queued trigger. */
    | Receive(at: int)
    /** The timer has fired and is selected. `draw` is the jitter it was set with; `enabled` says whether
        syncing is turned on. */
    | Fire(at: int, draw: int, enabled: bool)
    /** The attempt ends. */
    | Finish(at: int, ok: bool)

  /** The loop's variables and its trigger channel, the clock, and for the record every attempt so far
      and the time of every call to Trigger. While an attempt is running the loop selects nothing. */
  datatype State = State(channel: Option<string>, pending: Option<string>, lastAttempt: Option<int>, lastSuccess: Option<int>,
                         backoff: int, running: bool, clock: int, attempts: seq<Attempt>, calls: seq<int>)

  /** The moment the timer is set for in this state. */
  function Due(c: Config, s: State, draw: int): int {
    Deadline(c, s.lastAttempt, s.lastSuccess, s.pending.Some?, s.backoff, draw, s.clock)
  }

  function Called(s: State, reason: string): State {
    s.(channel := if s.channel.Some? then s.channel else Some(reason), calls := s.calls + [s.clock])
  }

  function Received(s: State): State {
    if s.channel.None? then s
    else s.(channel := None, pending := if s.pending.Some? then s.pending else s.channel)
  }

  /** An attempt starts; with syncing turned off it is over at once. */
  function Begun(s: State, enabled: bool): State {
    s.(pending := None, running := enabled, lastAttempt := Some(s.clock),
       attempts := s.attempts + [Attempt(s.clock, if enabled then Underway else Disabled)])
  }

  function Settled(h: seq<Attempt>, outcome: Outcome): seq<Attempt> {
    if h == [] then [] else h[..|h|-1] + [h[|h|-1].(outcome := outcome)]
  }

  function Ended(c: Config, s: State, ok: bool): State {
    s.(running := false, attempts := Settled(s.attempts, if ok then Synced else Failed),
       backoff := if ok then 0 else NextBackoff(s.backoff, c.minInterval, c.maxBackoff),
       lastSuccess := if ok then Some(s.clock) else s.lastSuccess)
  }

  /** A turn that cannot happen when it comes, because the timer is not due or an attempt is or is not
      running, does not happen; the clock moves on all the same. */
  function Played(c: Config, s: State, turn: Turn): State {
    var now := s.(clock := Max(s.clock, turn.at));
    match turn
    case Call(reason, _) => Called(now, reason)
    case Receive(_) => if now.running then now else Received(now)
    case Fire(_, draw, enabled) => if now.running || Due(c, now, draw) > now.clock then now else Begun(now, enabled)
    case Finish(_, ok) => if now.running then Ended(c, now, ok) else now
  }

  function PlayedAll(c: Config, s: State, turns: seq<Turn>): State {
    if turns == [] then s else Played(c, PlayedAll(c, s, turns[..|turns|-1]), turns[|turns|-1])
  }

  function Fresh(now: int): State {
    State(None, None, None, None, 0, false, now, [], [])
  }

  /** Every call to Trigger has been followed by an attempt that started at or after it, or is still
      queued or pending. */
  ghost predicate NoneForgotten(s: State) {
    forall k :: 0 <= k < |s.calls| ==>
      && s.calls[k] <= s.clock
      && (s.channel.Some? || s.pending.Some? || (s.attempts != [] && s.calls[k] <= s.attempts[|s.attempts|-1].start))
  }

  ghost predicate Inv(c: Config, s: State) {
    && Spaced(c, s.attempts)
    && s.backoff == BackoffAfter(c, Streak(s.attempts))
    && s.lastAttempt == (if s.attempts == [] then None else Some(s.attempts[|s.attempts|-1].start))
    && (s.attempts != [] ==> s.attempts[|s.attempts|-1].start <= s.clock)
    && (s.running ==> s.attempts != [] && s.attempts[|s.attempts|-1].outcome == Underway)
    && (s.lastSuccess.Some? ==> s.attempts != [])
    && NoneForgotten(s)
  }

  lemma BeginKeepsInv(c: Config, s: State, draw: int, enabled: bool)
    requires Sound(c) && Inv(c, s) && Due(c, s, draw) <= s.clock
    ensures Inv(c, Begun(s, enabled))
  {
    hide Spaced, BackoffAfter, Streak;
    var a := Attempt(s.clock, if enabled then Underway else Disabled);
    SpacedSnoc(c, s.attempts, a);
    StreakSnoc(s.attempts, a);
  }

  lemma EndKeepsInv(c: Config, s: State, ok: bool)
    requires Sound(c) && Inv(c, s) && s.running
    ensures Inv(c, Ended(c, s, ok))
  {
    hide Spaced, BackoffAfter, Streak;
    var last := |s.attempts| - 1;
    var a := s.attempts[last].(outcome := if ok then Synced else Failed);
    assert s.attempts == s.attempts[..last] + [s.attempts[last]];
    SpacedSettles(c, s.attempts, a);
    StreakSnoc(s.attempts[..last], s.attempts[last]);
    StreakSnoc(s.attempts[..last], a);
    BackoffDoubles(c, Streak(s.attempts));
    NoBackoff(c);
  }

  lemma NoBackoff(c: Config)
    ensures BackoffAfter(c, 0) == 0
  {
  }

  lemma TurnKeepsInv(c: Config, s: State, turn: Turn)
    requires Sound(c) && Inv(c, s)
    ensures Inv(c, Played(c, s, turn))
  {
    hide Spaced, BackoffAfter, Streak, Sound, Begun, Ended, Due;
    var now := s.(clock := Max(s.clock, turn.at));
    if turn.Fire? && !now.running && Due(c, now, turn.draw) <= now.clock { BeginKeepsInv(c, now, turn.draw, turn.enabled); }
    if turn.Finish? && now.running { EndKeepsInv(c, now, turn.ok); }
  }

  /** Over every schedule of triggers, receives, timer firings and outcomes: attempts start at least the
      floor and the backoff their failures had earned apart, the backoff is the one earned and never
      above the larger of floor and cap, and no call to Trigger is forgotten. */
  lemma {:induction false} EveryRun(config: Config, now: int, turns: seq<Turn>)
    ensures var c := WithDefaults(config);
            var s := PlayedAll(c, Fresh(now), turns);
            Inv(c, s) && 0 <= s.backoff <= Max(c.minInterval, c.maxBackoff)
  {
    hide Inv, Played, BackoffAfter, Spaced, Streak, WithDefaults;
    var c := WithDefaults(config);
    var s := PlayedAll(c, Fresh(now), turns);
    if turns == [] {
      FreshInv(c, now);
    } else {
      EveryRun(config, now, turns[..|turns|-1]);
      TurnKeepsInv(c, PlayedAll(c, Fresh(now), turns[..|turns|-1]), turns[|turns|-1]);
    }
    BackoffIs(c, s);
    BackoffBounded(c, Streak(s.attempts));
  }

  lemma BackoffIs(c: Config, s: State)
    requires Inv(c, s)
    ensures s.backoff == BackoffAfter(c, Streak(s.attempts))
  {
  }

  lemma FreshInv(c: Config, now: int)
    ensures Inv(c, Fresh(now))
  {
  }

  /** Taking a trigger never moves the deadline later, whatever jitter either timer drew, and with one
      already pending it does not move it at all. */
  lemma TriggerNeverDelays(c: Config, s: State, draw: int, again: int)
    requires s.channel.Some?
    ensures Due(c, Received(s), again) <= Due(c, s, draw)
    ensures s.pending.Some? ==> Due(c, Received(s), again) == Due(c, s, draw)
  {
  }

  /** Left alone, the loop's deadline is never before the floor, and never after the ceiling plus jitter
      from the last success, or the floor if that is later. */
  lemma CeilingHolds(c: Config, s: State, draw: int)
    requires s.lastAttempt.Some? && IsDraw(c, draw)
    ensures var floor := Floor(c, s.lastAttempt.value, s.backoff);
            && floor <= Due(c, s, draw)
            && (s.lastSuccess.Some? ==> Due(c, s, draw) <= Max(s.lastSuccess.value + c.maxInterval + Max(c.jitter, 0), floor))
            && (s.lastSuccess.None? ==> Due(c, s, draw) == floor)
  {
  }

  // ------------------------------------------------------------- every trigger is answered

  /** The n-th state of a run. */
  function At(c: Config, s: State, turns: seq<Turn>, n: nat): State
    requires n <= |turns|
  {
    PlayedAll(c, s, turns[..n])
  }

  /** An attempt has started at or after the k-th call to Trigger. */
  ghost predicate Answered(s: State, k: nat) {
    k < |s.calls| && s.attempts != [] && s.calls[k] <= s.attempts[|s.attempts|-1].start
  }

  /** The loop is between attempts and has the trigger in hand. */
  ghost predicate InHand(s: State) {
    !s.running && s.pending.Some?
  }

  /** The moment a pending trigger is due has come. */
  predicate PastFloor(c: Config, s: State, at: int) {
    s.lastAttempt.Some? ==> at >= Floor(c, s.lastAttempt.value, s.backoff)
  }

  /** How a turn moves a call on: an answered call stays answered, an attempt that starts answers it, and
      until then an idle loop stays idle and a trigger in hand stays in hand. */
  lemma TurnMovesOn(c: Config, s: State, turn: Turn, k: nat)
    requires Sound(c) && Inv(c, s) && k < |s.calls|
    ensures var t := Played(c, s, turn);
            && k < |t.calls| && t.calls[k] == s.calls[k]
            && (Answered(s, k) ==> Answered(t, k))
            && (!s.running || turn.Finish? ==> !t.running || Answered(t, k))
            && (!s.running && turn.Receive? ==> InHand(t) || Answered(t, k))
            && (InHand(s) ==> InHand(t) || Answered(t, k))
            && (InHand(s) && turn.Fire? && PastFloor(c, s, turn.at) ==> Answered(t, k))
  {
    hide Spaced, BackoffAfter, Streak, Sound;
  }

  lemma OneTurn(c: Config, s: State, turns: seq<Turn>, n: nat)
    requires n < |turns|
    ensures At(c, s, turns, n + 1) == Played(c, At(c, s, turns, n), turns[n])
  {
    hide Played;
    assert turns[..n+1][..n] == turns[..n];
  }

  lemma {:induction false} RunKeepsInv(c: Config, s: State, turns: seq<Turn>, n: nat)
    requires Sound(c) && Inv(c, s) && n <= |turns|
    ensures Inv(c, At(c, s, turns, n))
  {
    hide Inv, Played, Sound;
    if n > 0 {
      RunKeepsInv(c, s, turns, n - 1);
      OneTurn(c, s, turns, n - 1);
      TurnKeepsInv(c, At(c, s, turns, n - 1), turns[n-1]);
    }
  }

  /** From state m on: a call stays recorded, an answer stays given, an idle loop and a trigger in hand
      stay so unless the call is answered. */
  lemma {:induction false} MovesOn(c: Config, s: State, turns: seq<Turn>, m: nat, n: nat, k: nat)
    requires Sound(c) && Inv(c, s) && m <= n <= |turns| && k < |At(c, s, turns, m).calls|
    ensures var a, b := At(c, s, turns, m), At(c, s, turns, n);
            && k < |b.calls| && b.calls[k] == a.calls[k]
            && (Answered(a, k) ==> Answered(b, k))
            && (!a.running ==> !b.running || Answered(b, k))
            && (InHand(a) ==> InHand(b) || Answered(b, k))
    decreases n
  {
    hide Inv, Played, Sound, Answered, InHand, At;
    if n > m {
      MovesOn(c, s, turns, m, n - 1, k);
      RunKeepsInv(c, s, turns, n - 1);
      OneTurn(c, s, turns, n - 1);
      TurnMovesOn(c, At(c, s, turns, n - 1), turns[n-1], k);
    }
  }

  /** Every call to Trigger is followed by an attempt that starts at or after it, in every schedule in
      which after the call (turn i) the running attempt, if any, ends, the loop then receives, and then a
      timer that is due for a pending trigger is selected. */
  lemma CallIsAnswered(c: Config, s: State, turns: seq<Turn>, i: nat, end: nat, receive: nat, fire: nat)
    requires Sound(c) && Inv(c, s)
    requires i < end < receive < fire < |turns| && turns[i].Call?
    requires turns[end].Finish? && turns[receive].Receive? && turns[fire].Fire?
    requires PastFloor(c, At(c, s, turns, fire), turns[fire].at)
    ensures |At(c, s, turns, i + 1).calls| == |At(c, s, turns, i).calls| + 1
    ensures Answered(At(c, s, turns, |turns|), |At(c, s, turns, i).calls|)
  {
    hide Inv, Sound, Answered, InHand, At, PastFloor, Due;
    var k := |At(c, s, turns, i).calls|;
    OneTurn(c, s, turns, i);
    MovesOn(c, s, turns, i + 1, end, k);
    Advance(c, s, turns, end, k);
    MovesOn(c, s, turns, end + 1, receive, k);
    Advance(c, s, turns, receive, k);
    MovesOn(c, s, turns, receive + 1, fire, k);
    Advance(c, s, turns, fire, k);
    MovesOn(c, s, turns, fire + 1, |turns|, k);
  }

  /** The same with a bound anyone can read off the clock: a timer selected later than the call by the
      larger of floor and cap is due, whatever has failed in between. */
  lemma CallIsAnsweredInTime(c: Config, s: State, turns: seq<Turn>, i: nat, end: nat, receive: nat, fire: nat)
    requires Sound(c) && Inv(c, s)
    requires i < end < receive < fire < |turns| && turns[i].Call?
    requires turns[end].Finish? && turns[receive].Receive? && turns[fire].Fire?
    requires turns[fire].at >= At(c, s, turns, i + 1).clock + Max(c.minInterval, c.maxBackoff)
    ensures |At(c, s, turns, i + 1).calls| == |At(c, s, turns, i).calls| + 1
    ensures Answered(At(c, s, turns, |turns|), |At(c, s, turns, i).calls|)
  {
    hide Inv, Sound, Answered, InHand, At, PastFloor, Due;
    var k, f := |At(c, s, turns, i).calls|, At(c, s, turns, fire);
    OneTurn(c, s, turns, i);
    MovesOn(c, s, turns, i + 1, fire, k);
    RunKeepsInv(c, s, turns, fire);
    assert f.calls[k] == At(c, s, turns, i + 1).clock;
    UnansweredIsDue(c, f, k, turns[fire].at);
    if Answered(f, k) {
      MovesOn(c, s, turns, fire, |turns|, k);
    } else {
      CallIsAnswered(c, s, turns, i, end, receive, fire);
    }
  }

  lemma UnansweredIsDue(c: Config, s: State, k: nat, at: int)
    requires Sound(c) && Inv(c, s) && k < |s.calls| && at >= s.calls[k] + Max(c.minInterval, c.maxBackoff)
    ensures Answered(s, k) || PastFloor(c, s, at)
  {
    hide Spaced, BackoffAfter, Streak;
    BackoffBounded(c, Streak(s.attempts));
  }

  lemma Advance(c: Config, s: State, turns: seq<Turn>, n: nat, k: nat)
    requires Sound(c) && Inv(c, s) && n < |turns| && k < |At(c, s, turns, n).calls|
    ensures var a, b, turn := At(c, s, turns, n), At(c, s, turns, n + 1), turns[n];
            && k < |b.calls| && b.calls[k] == a.calls[k]
            && (Answered(a, k) ==> Answered(b, k))
            && (!a.running || turn.Finish? ==> !b.running || Answered(b, k))
            && (!a.running && turn.Receive? ==> InHand(b) || Answered(b, k))
            && (InHand(a) ==> InHand(b) || Answered(b, k))
            && (InHand(a) && turn.Fire? && PastFloor(c, a, turn.at) ==> Answered(b, k))
  {
    hide Inv, Sound, Answered, InHand, At, Played, PastFloor;
    RunKeepsInv(c, s, turns, n);
    OneTurn(c, s, turns, n);
    TurnMovesOn(c, At(c, s, turns, n), turns[n], k);
  }

  // ------------------------------------------------------------- what an attempt does with a trigger

  /** A sync that succeeded has started at or after the k-th call to Trigger. */
  ghost predicate Served(s: State, k: nat) {
    k < |s.calls| && exists i :: 0 <= i < |s.attempts| && s.attempts[i].start >= s.calls[k] && s.attempts[i].outcome == Synced
  }

  /** The attempt that takes a trigger uses it up: nothing is left queued or pending. Whether it served
      the trigger is decided then and there: if and only if syncing was on and the sync succeeded. A failed
      one is tried again at the floor; one made while syncing is off is not tried again before the
      ceiling. */
  lemma TriggerServedIff(c: Config, s: State, k: nat, fire: Turn, end: Turn, draw: int)
    requires Sound(c) && Inv(c, s) && InHand(s) && s.channel.None? && k < |s.calls|
    requires forall i :: 0 <= i < |s.attempts| ==> s.attempts[i].start < s.calls[k]
    requires fire.Fire? && PastFloor(c, s, fire.at) && end.Finish?
    ensures var t := Played(c, Played(c, s, fire), end);
            && t.pending.None? && t.channel.None? && !t.running && Answered(t, k)
            && (Served(t, k) <==> fire.enabled && end.ok)
            && (!(fire.enabled && end.ok) ==> t.lastSuccess == s.lastSuccess)
            && t.lastAttempt.Some?
            && (fire.enabled && !end.ok ==> Due(c, t, draw) == Floor(c, t.lastAttempt.value, t.backoff))
            && (!fire.enabled && s.backoff == 0 && s.lastSuccess.Some? ==>
                  Due(c, t, draw) == Max(s.lastSuccess.value + c.maxInterval + draw, Floor(c, t.lastAttempt.value, 0)))
  {
    var now := s.(clock := Max(s.clock, fire.at));
    TakenWhenDue(c, s, fire);
    AttemptEnds(c, now, fire.enabled, end);
    BackoffStays(c, s);
    var t := Played(c, Played(c, s, fire), end);
    hide Played, Sound, Inv;
    ServedByLast(s, t, k, t.attempts[|t.attempts|-1]);
  }

  lemma TakenWhenDue(c: Config, s: State, fire: Turn)
    requires InHand(s) && fire.Fire? && PastFloor(c, s, fire.at)
    ensures Played(c, s, fire) == Begun(s.(clock := Max(s.clock, fire.at)), fire.enabled)
  {
  }

  /** The attempt that starts in `now` once it is over. */
  lemma AttemptEnds(c: Config, now: State, enabled: bool, end: Turn)
    requires end.Finish?
    ensures var t := Played(c, Begun(now, enabled), end);
            && t.pending == None && t.channel == now.channel && !t.running && t.calls == now.calls
            && t.attempts == now.attempts + [Attempt(now.clock, if !enabled then Disabled else if end.ok then Synced else Failed)]
            && t.lastAttempt == Some(now.clock)
            && t.lastSuccess == (if enabled && end.ok then Some(t.clock) else now.lastSuccess)
            && t.backoff == if !enabled then now.backoff else if end.ok then 0 else NextBackoff(now.backoff, c.minInterval, c.maxBackoff)
  {
    var u := Begun(now, enabled);
    assert u.attempts[..|now.attempts|] == now.attempts;
  }

  lemma BackoffStays(c: Config, s: State)
    requires Sound(c) && Inv(c, s)
    ensures s.backoff >= 0 && NextBackoff(s.backoff, c.minInterval, c.maxBackoff) > 0
    ensures forall k :: 0 <= k < |s.calls| ==> s.calls[k] <= s.clock
  {
    BackoffBounded(c, Streak(s.attempts));
  }

  lemma ServedByLast(s: State, t: State, k: nat, last: Attempt)
    requires k < |s.calls| && t.calls == s.calls && t.attempts == s.attempts + [last] && last.start >= s.calls[k]
    requires forall i :: 0 <= i < |s.attempts| ==> s.attempts[i].start < s.calls[k]
    ensures Answered(t, k) && (Served(t, k) <==> last.outcome == Synced)
  {
    assert t.attempts[|s.attempts|] == last;
    assert forall i :: 0 <= i < |s.attempts| ==> t.attempts[i] == s.attempts[i];
  }

  /** A trigger that comes while syncing is off: the run in which it is taken, found off and gone. */
  lemma OffUsesUpTrigger(config: Config, reason: string)
    ensures var c := WithDefaults(config);
            var s := PlayedAll(c, Fresh(0), [Call(reason, 0), Receive(0), Fire(0, 0, false)]);
            && s.channel.None? && s.pending.None? && !s.running && s.lastSuccess.None?
            && Answered(s, 0) && !Served(s, 0)
  {
    hide WithDefaults;
    var c := WithDefaults(config);
    PlayedThree(c, Fresh(0), Call(reason, 0), Receive(0), Fire(0, 0, false));
  }

  lemma PlayedSnoc(c: Config, s: State, turns: seq<Turn>, turn: Turn)
    ensures PlayedAll(c, s, turns + [turn]) == Played(c, PlayedAll(c, s, turns), turn)
  {
    hide Played;
    assert (turns + [turn])[..|turns|] == turns;
  }

  lemma PlayedThree(c: Config, s: State, x: Turn, y: Turn, z: Turn)
    ensures PlayedAll(c, s, [x, y]) == Played(c, Played(c, s, x), y)
    ensures PlayedAll(c, s, [x, y, z]) == Played(c, Played(c, Played(c, s, x), y), z)
  {
    hide Played;
    PlayedSnoc(c, s, [], x);
    PlayedSnoc(c, s, [x], y);
    PlayedSnoc(c, s, [x, y], z);
    assert [] + [x] == [x] && [x] + [y] == [x, y] && [x, y] + [z] == [x, y, z];
  }

  /** The cap along a run: it is kept if and only if the failures in a row are not exactly one or the
      floor is within the cap. */
  lemma CapKeptInRunsIff(config: Config, now: int, turns: seq<Turn>)
    ensures var c := WithDefaults(config);
            var s := PlayedAll(c, Fresh(now), turns);
            s.backoff <= c.maxBackoff <==> Streak(s.attempts) != 1 || c.minInterval <= c.maxBackoff
  {
    hide Inv, Played, BackoffAfter, Spaced, Streak, WithDefaults;
    EveryRun(config, now, turns);
    var c := WithDefaults(config);
    var s := PlayedAll(c, Fresh(now), turns);
    BackoffIs(c, s);
    CapKeptIff(c, Streak(s.attempts));
  }

  /** One failure under a cap of ten seconds and a floor of thirty waits thirty. */
  lemma CapExceeded()
    ensures var c := WithDefaults(Config(30 * SECOND, 3600 * SECOND, 0, 10 * SECOND));
            PlayedAll(c, Fresh(0), [Fire(0, 0, true), Finish(0, false)]).backoff == 30 * SECOND > c.maxBackoff
  {
    var c := WithDefaults(Config(30 * SECOND, 3600 * SECOND, 0, 10 * SECOND));
    PlayedThree(c, Fresh(0), Fire(0, 0, true), Finish(0, false), Receive(0));
  }

  class Loop {
    const cfg: Config
    /** The trigger channel, with room for one. */
    var channel: Option<string>
    var pending: Option<string>
    var lastAttempt: Option<int>
    var lastSuccess: Option<int>
    var backoff: int
    var running: bool
    var clock: int
    ghost var attempts: seq<Attempt>
    ghost var calls: seq<int>

    ghost function Now(): State
      reads this
    {
      State(channel, pending, lastAttempt, lastSuccess, backoff, running, clock, attempts, calls)
    }

    constructor (config: Config, now: int)
      ensures cfg == WithDefaults(config) && Now() == Fresh(now)
    {
      cfg := WithDefaults(config);
      channel, pending, lastAttempt, lastSuccess, backoff, running, clock := None, None, None, None, 0, false, now;
      attempts, calls := [], [];
    }

    /** Does not wait: a queue that holds a trigger already is left as it is. */
    method Trigger(reason: string)
      modifies `channel, `calls
      ensures Now() == Called(old(Now()), reason)
    {
      if channel.None? { channel := Some(reason); }
      calls := calls + [clock];
    }

    method TakeTrigger()
      modifies `channel, `pending
      ensures Now() == Received(old(Now()))
    {
      if channel.Some? {
        if pending.None? { pending := channel; }
        channel := None;
      }
    }

    /** How long the timer is set for. */
    function Delay(draw: int): (d: int)
      reads this
      ensures d >= 0 && (d == 0 <==> Due(cfg, Now(), draw) <= clock) && (d > 0 ==> clock + d == Due(cfg, Now(), draw))
    {
      var deadline := Deadline(cfg, lastAttempt, lastSuccess, pending.Some?, backoff, draw, clock);
      if deadline > clock then deadline - clock else 0
    }

    /** An attempt starts because the timer is due. */
    method Begin(enabled: bool)
      modifies `pending, `lastAttempt, `running, `attempts
      ensures Now() == Begun(old(Now()), enabled)
    {
      pending := None;
      lastAttempt := Some(clock);
      attempts := attempts + [Attempt(clock, if enabled then Underway else Disabled)];
      running := enabled;
    }

    /** … and ends, having synced or failed. */
    method End(ok: bool)
      modifies `lastSuccess, `backoff, `running, `attempts
      ensures Now() == Ended(cfg, old(Now()), ok)
    {
      running := false;
      attempts := Settled(attempts, if ok then Synced else Failed);
      if !ok {
        backoff := NextBackoff(backoff, cfg.minInterval, cfg.maxBackoff);
        return;
      }
      backoff := 0;
      lastSuccess := Some(clock);
    }

    /** Runs through a schedule. */
    method Run(turns: seq<Turn>)
      modifies this
      ensures Now() == PlayedAll(cfg, old(Now()), turns)
    {
      hide Due, Called, Received, Begun, Ended;
      for i := 0 to |turns|
        invariant Now() == PlayedAll(cfg, old(Now()), turns[..i])
      {
        assert turns[..i+1][..i] == turns[..i];
        if turns[i].at > clock { clock := turns[i].at; }
        match turns[i] {
          case Call(reason, _) => Trigger(reason);
          case Receive(_) =>
            if !running { TakeTrigger(); }
          case Fire(_, draw, enabled) =>
            if !running && Delay(draw) == 0 { Begin(enabled); }
          case Finish(_, ok) =>
            if running { End(ok); }
        }
      }
      assert turns[..|turns|] == turns;
    }
  }
}
