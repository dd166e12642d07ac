/** The ranking cache (internal/store/stats.go): one row of statistics per distinct command text,
    refreshed for a range of rowids, against what a rebuild from scratch would hold. */
module StatsCache {
  import opened Events
  import opened Rows
  import opened Frecency
  import opened CommandStats
  import opened Store

  /** What a rebuild holds: an entry for every text some row has, and no other. */
  ghost function Rebuilt(decay: nat -> real, commands: map<string, Row>): map<string, Stat> {
    map text | text in Texts(commands) :: StatOf(decay, commands, text)
  }

  /** SELECT DISTINCT command FROM commands WHERE command <> ''. */
  ghost function Texts(commands: map<string, Row>): set<string> {
    set id | id in commands && commands[id].command != "" :: commands[id].command
  }

  /** The texts the events with rowids above `from` and at most `upTo` now show under. `log` lists the
      events' commands by rowid. */
  ghost function TextsBetween(log: seq<string>, commands: map<string, Row>, from: int, upTo: int): set<string> {
    set i | 0 <= i < |log| && from <= i < upTo && log[i] in commands && commands[log[i]].command != ""
      :: commands[log[i]].command
  }

  ghost function Changed(log: seq<string>, commands: map<string, Row>, from: int, upTo: int): set<string> {
    if from <= 0 then Texts(commands) else TextsBetween(log, commands, from, upTo)
  }

  /** The cache after one pass. */
  ghost function Refreshed(decay: nat -> real, log: seq<string>, commands: map<string, Row>, stats: map<string, Stat>,
                           from: int, upTo: int): map<string, Stat> {
    (if from <= 0 then map[] else stats)
      + map text | text in Changed(log, commands, from, upTo) :: StatOf(decay, commands, text)
  }

  /** The cache and a rebuild say the same about `text`. */
  ghost predicate Exact(decay: nat -> real, commands: map<string, Row>, stats: map<string, Stat>, text: string) {
    if text in Texts(commands) then text in stats && stats[text] == StatOf(decay, commands, text) else text !in stats
  }

  /** Some event past position `w` belongs to a command that now shows `text`. */
  ghost predicate Awaits(log: seq<string>, commands: map<string, Row>, w: int, text: string) {
    exists i :: 0 <= i < |log| && w <= i && log[i] in commands && commands[log[i]].command == text
  }

  /** Every text that no event past `w` awaits is exact. */
  ghost predicate Covered(decay: nat -> real, log: seq<string>, commands: map<string, Row>, stats: map<string, Stat>, w: int) {
    "" !in stats && forall text :: text == "" || Awaits(log, commands, w, text) || Exact(decay, commands, stats, text)
  }

  /** Once every event is covered, the cache is exactly what a rebuild would hold. */
  lemma CoveredCacheIsRebuild(decay: nat -> real, log: seq<string>, commands: map<string, Row>, stats: map<string, Stat>)
    ensures Covered(decay, log, commands, stats, |log|) <==> stats == Rebuilt(decay, commands)
  {
    hide StatOf;
    if Covered(decay, log, commands, stats, |log|) {
      forall text
        ensures text in stats <==> text in Texts(commands)
        ensures text in stats ==> stats[text] == StatOf(decay, commands, text)
      {
        assert !Awaits(log, commands, |log|, text);
        assert text == "" || Exact(decay, commands, stats, text);
      }
    }
  }

  ghost function TextOf(commands: map<string, Row>, id: string): string {
    if id in commands then commands[id].command else ""
  }

  lemma OtherTexts(decay: nat -> real, commands: map<string, Row>, id: string, row: Row, text: string)
    requires text != "" && text != row.command && text != TextOf(commands, id)
    ensures text in Texts(commands[id := row]) <==> text in Texts(commands)
    ensures StatOf(decay, commands[id := row], text) == StatOf(decay, commands, text)
  {
    hide Tally, SomeQuery;
    var after := commands[id := row];
    forall x ensures (x in commands && commands[x].command == text) <==> (x in after && after[x].command == text) {
    }
    assert Executions(after, text) == Executions(commands, text);
    if x :| x in commands && commands[x].command == text { assert after[x].command == text; }
    if x :| x in after && after[x].command == text { assert commands[x].command == text; }
  }

  /** An event that leaves its row's text alone, or gives a row its first text, uncovers nothing. */
  lemma ArrivalKeepsCovered(decay: nat -> real, log: seq<string>, commands: map<string, Row>, stats: map<string, Stat>,
                            w: int, id: string, row: Row)
    requires w <= |log| && (TextOf(commands, id) == "" || TextOf(commands, id) == row.command)
    requires Covered(decay, log, commands, stats, w)
    ensures Covered(decay, log + [id], commands[id := row], stats, w)
  {
    hide StatOf, Executions, Texts;
    var after := commands[id := row];
    forall text | text != "" ensures Awaits(log + [id], after, w, text) || Exact(decay, after, stats, text) {
      if text == row.command {
        assert (log + [id])[|log|] == id;
      } else {
        OtherTexts(decay, commands, id, row, text);
        if Awaits(log, commands, w, text) {
          var i :| 0 <= i < |log| && w <= i && log[i] in commands && commands[log[i]].command == text;
          assert (log + [id])[i] == log[i];
        }
      }
    }
  }

  /** A pass covers everything up to the bound it fixed, provided the position it starts from was
      covered; and it uncovers nothing. */
  lemma PassCovers(decay: nat -> real, log: seq<string>, commands: map<string, Row>, stats: map<string, Stat>,
                   from: int, upTo: int, w: int)
    ensures var after := Refreshed(decay, log, commands, stats, from, upTo);
            && ((from <= 0 || Covered(decay, log, commands, stats, from)) ==> Covered(decay, log, commands, after, upTo))
            && (Covered(decay, log, commands, stats, w) ==> Covered(decay, log, commands, after, w))
  {
    hide StatOf;
    var after := Refreshed(decay, log, commands, stats, from, upTo);
    var changed := Changed(log, commands, from, upTo);
    assert changed <= Texts(commands);
    forall text | text != "" ensures text in changed || from <= 0 ==> Exact(decay, commands, after, text) {
    }
    if from > 0 && Covered(decay, log, commands, stats, from) {
      forall text | text != "" && !Awaits(log, commands, upTo, text) ensures Exact(decay, commands, after, text) {
        assert text in changed || !Awaits(log, commands, from, text);
      }
    }
  }

  // ------------------------------------------------------------- when one pass is enough

  lemma OneExecutionLess(commands: map<string, Row>, id: string, row: Row)
    requires RowsNamed(commands) && id in commands && commands[id].command != row.command
    ensures var text := commands[id].command;
            Executions(commands[id := row], text) == Executions(commands, text) - {commands[id]}
  {
    var after, text := commands[id := row], commands[id].command;
    forall x ensures x in Executions(after, text) <==> x in Executions(commands, text) - {commands[id]} {
      if x in Executions(commands, text) - {commands[id]} {
        var k :| k in commands && commands[k].command == text && commands[k] == x;
        assert after[k] == x;
      }
    }
  }

  /** From an exact cache, an event and the pass after it give what a rebuild gives if and only if the
      event did not take a row's non-empty text away. */
  lemma PassIsExactIff(decay: nat -> real, log: seq<string>, commands: map<string, Row>, id: string, row: Row)
    requires RowsNamed(commands) && row.id == id && log != []
    ensures var after := commands[id := row];
            Refreshed(decay, log + [id], after, Rebuilt(decay, commands), |log|, |log| + 1) == Rebuilt(decay, after)
            <==> TextOf(commands, id) == "" || TextOf(commands, id) == row.command
  {
    hide StatOf;
    var longer, after, stats := log + [id], commands[id := row], Rebuilt(decay, commands);
    var passed, text := Refreshed(decay, longer, after, stats, |log|, |log| + 1), TextOf(commands, id);
    CoveredCacheIsRebuild(decay, log, commands, stats);
    if text == "" || text == row.command {
      ArrivalKeepsCovered(decay, log, commands, stats, |log|, id, row);
      PassCovers(decay, longer, after, stats, |log|, |log| + 1, 0);
      CoveredCacheIsRebuild(decay, longer, after, passed);
    } else {
      assert TextsBetween(longer, after, |log|, |log| + 1) <= {row.command};
      assert text in stats && passed[text] == stats[text];
      RunsCountExecutions(decay, commands, text);
      RunsCountExecutions(decay, after, text);
      assert commands[id] in Executions(commands, text);
      OneExecutionLess(commands, id, row);
    }
  }

  /** A text no row shows any more, the old text of a redacted command say, is kept by every
      incremental pass and dropped by the rebuild. */
  lemma GoneTextStaysUntilRebuild(decay: nat -> real, log: seq<string>, commands: map<string, Row>,
                                  stats: map<string, Stat>, from: int, upTo: int, text: string)
    requires text in stats && text !in Texts(commands)
    ensures text in Refreshed(decay, log, commands, stats, from, upTo) <==> from > 0
  {
  }

  /** Passing 0 rebuilds, whatever the cache held. */
  lemma ZeroRebuilds(decay: nat -> real, log: seq<string>, commands: map<string, Row>, stats: map<string, Stat>,
                     from: int, upTo: int)
    requires from <= 0
    ensures Refreshed(decay, log, commands, stats, from, upTo) == Rebuilt(decay, commands)
  {
  }

  // ------------------------------------------------------------- whole runs

  datatype Cache = Cache(log: seq<string>, commands: map<string, Row>, stats: map<string, Stat>, watermark: int)

  datatype Step =
    /** An event of command `id` lands, after which its row is `row`. */
    | Arrive(id: string, row: Row)
    /** One pass commits. */
    | Refresh(from: int, upTo: int)

  ghost predicate Takes(decay: nat -> real, before: Cache, step: Step, after: Cache) {
    match step
    case Arrive(id, row) =>
      row.id == id && after == before.(log := before.log + [id], commands := before.commands[id := row])
    case Refresh(from, upTo) =>
      after == before.(stats := Refreshed(decay, before.log, before.commands, before.stats, from, upTo), watermark := upTo)
  }

  /** The watermarks and the log lengths any process may have read in the first n states. */
  ghost function Watermarks(run: seq<Cache>, n: nat): set<int>
    requires n <= |run|
  {
    set i | 0 <= i < n :: run[i].watermark
  }

  ghost function Lengths(run: seq<Cache>, n: nat): set<int>
    requires n <= |run|
  {
    set i | 0 <= i < n :: |run[i].log|
  }

  /** A run from an empty store. Each pass starts at some watermark read earlier (or at 0) and ends at
      a log length read earlier; any events and any other passes may commit in between. */
  ghost predicate IsRun(decay: nat -> real, run: seq<Cache>, steps: seq<Step>) {
    && |run| == |steps| + 1 && run[0] == Cache([], map[], map[], 0)
    && forall i :: 0 <= i < |steps| ==>
         && Takes(decay, run[i], steps[i], run[i+1])
         && (steps[i].Refresh? ==> (steps[i].from <= 0 || steps[i].from in Watermarks(run, i + 1))
                                   && steps[i].upTo in Lengths(run, i + 1))
  }

  /** No event of the run takes a non-empty text away from a row. */
  ghost predicate KeepsTexts(run: seq<Cache>, steps: seq<Step>)
    requires |run| == |steps| + 1
  {
    forall i :: 0 <= i < |steps| && steps[i].Arrive? ==>
      var text := TextOf(run[i].commands, steps[i].id);
      text == "" || text == steps[i].row.command
  }

  /** Everything read so far is within the log, and every watermark read so far is still covered. */
  ghost predicate RunInv(decay: nat -> real, c: Cache, watermarks: set<int>, lengths: set<int>) {
    && (forall n :: n in lengths ==> n <= |c.log|)
    && (forall w :: w in watermarks ==> w <= |c.log| && Covered(decay, c.log, c.commands, c.stats, w))
  }

  lemma StepKeepsRunInv(decay: nat -> real, before: Cache, step: Step, after: Cache, watermarks: set<int>, lengths: set<int>)
    requires RunInv(decay, before, watermarks, lengths) && Takes(decay, before, step, after)
    requires step.Arrive? ==> TextOf(before.commands, step.id) in {"", step.row.command}
    requires step.Refresh? ==> (step.from <= 0 || step.from in watermarks) && step.upTo in lengths
    requires before.watermark in watermarks
    ensures RunInv(decay, after, watermarks + {after.watermark}, lengths + {|after.log|})
  {
    hide Covered, Refreshed;
    match step
    case Arrive(id, row) =>
      forall w | w in watermarks ensures Covered(decay, after.log, after.commands, after.stats, w) {
        ArrivalKeepsCovered(decay, before.log, before.commands, before.stats, w, id, row);
      }
    case Refresh(from, upTo) =>
      forall w | w in watermarks ensures Covered(decay, after.log, after.commands, after.stats, w) {
        PassCovers(decay, before.log, before.commands, before.stats, from, upTo, w);
      }
      PassCovers(decay, before.log, before.commands, before.stats, from, upTo, upTo);
  }

  lemma {:induction false} EveryPrefixCovered(decay: nat -> real, run: seq<Cache>, steps: seq<Step>, n: nat)
    requires IsRun(decay, run, steps) && KeepsTexts(run, steps) && n < |run|
    ensures RunInv(decay, run[n], Watermarks(run, n + 1), Lengths(run, n + 1)) && run[n].watermark in Watermarks(run, n + 1)
  {
    hide Covered, Takes;
    if n == 0 {
      NothingToCover(decay);
    } else {
      EveryPrefixCovered(decay, run, steps, n - 1);
      assert Takes(decay, run[n-1], steps[n-1], run[n]);
      assert Watermarks(run, n + 1) == Watermarks(run, n) + {run[n].watermark};
      assert Lengths(run, n + 1) == Lengths(run, n) + {|run[n].log|};
      StepKeepsRunInv(decay, run[n-1], steps[n-1], run[n], Watermarks(run, n), Lengths(run, n));
    }
  }

  lemma NothingToCover(decay: nat -> real)
    ensures Covered(decay, [], map[], map[], 0)
  {
  }

  /** In every run whose events take no text away, at every moment and whatever passes overlapped, an
      incremental pass up to the end of the log makes the cache exactly a rebuild. */
  lemma CacheEqualsRebuild(decay: nat -> real, run: seq<Cache>, steps: seq<Step>, n: nat, from: int)
    requires IsRun(decay, run, steps) && KeepsTexts(run, steps) && n < |run|
    requires from <= 0 || from in Watermarks(run, n + 1)
    ensures var c := run[n];
            && Refreshed(decay, c.log, c.commands, c.stats, from, |c.log|) == Rebuilt(decay, c.commands)
            && (c.watermark == |c.log| ==> c.stats == Rebuilt(decay, c.commands))
  {
    hide Covered, Takes, Refreshed, Rebuilt;
    var c := run[n];
    EveryPrefixCovered(decay, run, steps, n);
    PassCovers(decay, c.log, c.commands, c.stats, from, |c.log|, 0);
    CoveredCacheIsRebuild(decay, c.log, c.commands, Refreshed(decay, c.log, c.commands, c.stats, from, |c.log|));
    CoveredCacheIsRebuild(decay, c.log, c.commands, c.stats);
  }

  // ------------------------------------------------------------- the pass itself

  /** The commands of the logged events, by rowid. */
  ghost function LogOf(events: map<string, Event>, arrivals: seq<string>): seq<string>
    requires forall k :: k in arrivals ==> k in events
  {
    seq(|arrivals|, i requires 0 <= i < |arrivals| => events[arrivals[i]].commandId)
  }

  lemma OneMoreBetween(log: seq<string>, id: string, commands: map<string, Row>, from: int, upTo: int)
    ensures TextsBetween(log + [id], commands, from, upTo) == TextsBetween(log, commands, from, upTo)
            + if from <= |log| < upTo && TextOf(commands, id) != "" then {TextOf(commands, id)} else {}
  {
    var longer := log + [id];
    forall i | 0 <= i < |log| ensures longer[i] == log[i] {
    }
    assert longer[|log|] == id;
    forall text ensures text in TextsBetween(longer, commands, from, upTo) <==>
      text in TextsBetween(log, commands, from, upTo) || (from <= |log| < upTo && text == TextOf(commands, id) && text != "")
    {
      if i :| 0 <= i < |log| && from <= i < upTo && log[i] in commands && commands[log[i]].command == text && text != "" {
        assert longer[i] == log[i];
      }
    }
  }

  lemma ChangedHaveRows(log: seq<string>, commands: map<string, Row>, from: int, upTo: int)
    ensures Changed(log, commands, from, upTo) <= Texts(commands)
  {
  }

  /** The transaction's loop over the changed texts. */
  method Recomputed(decay: nat -> real, commands: map<string, Row>, changed: seq<string>, base: map<string, Stat>)
    returns (table: map<string, Stat>)
    requires IsDecay(decay) && RowsNamed(commands)
    requires forall text :: text in changed ==> text in Texts(commands)
    ensures table == base + map text | text in changed :: StatOf(decay, commands, text)
  {
    hide IsDecay, StatOf;
    table := base;
    for i := 0 to |changed|
      invariant table == base + map text | text in changed[..i] :: StatOf(decay, commands, text)
    {
      var text := changed[i];
      var st := StatFor(decay, commands, text);
      RunsCountExecutions(decay, commands, text);
      HasExecution(commands, text);
      assert changed[..i+1] == changed[..i] + [text];
      if st.runs == 0 {
        table := table - {text};
      } else {
        table := table[text := st];
      }
    }
    assert changed[..|changed|] == changed;
  }

  lemma PassTable(decay: nat -> real, log: seq<string>, commands: map<string, Row>, stats: map<string, Stat>,
                  from: int, upTo: int, changed: seq<string>)
    requires (set text | text in changed) == Changed(log, commands, from, upTo)
    ensures Refreshed(decay, log, commands, stats, from, upTo)
            == (if from <= 0 then map[] else stats) + map text | text in changed :: StatOf(decay, commands, text)
  {
    hide StatOf, Changed;
    forall text ensures text in changed <==> text in Changed(log, commands, from, upTo) {
      assert text in changed <==> text in (set t | t in changed);
    }
  }

  lemma HasExecution(commands: map<string, Row>, text: string)
    requires text in Texts(commands)
    ensures |Executions(commands, text)| > 0
  {
    var id :| id in commands && commands[id].command == text;
    assert commands[id] in Executions(commands, text);
  }

  lemma {:induction false} DistinctCount(texts: seq<string>)
    requires Unique(texts)
    ensures |set text | text in texts| == |texts|
  {
    if texts == [] {
      assert (set text | text in texts) == {};
    } else {
      var rest, x := texts[..|texts|-1], texts[|texts|-1];
      assert texts == rest + [x];
      DistinctCount(rest);
      assert (set text | text in texts) == (set text | text in rest) + {x};
    }
  }

  /** SELECT DISTINCT command FROM commands WHERE command <> ''. */
  method AllTexts(commands: map<string, Row>) returns (changed: seq<string>)
    ensures Unique(changed) && (set text | text in changed) == Texts(commands)
  {
    changed := [];
    var ids := commands.Keys;
    while ids != {}
      invariant ids <= commands.Keys && Unique(changed)
      invariant forall text :: text in changed <==>
        text != "" && exists id :: id in commands && id !in ids && commands[id].command == text
      decreases |ids|
    {
      var id :| id in ids;
      ids := ids - {id};
      var text := commands[id].command;
      if text != "" && text !in changed { changed := changed + [text]; }
    }
  }

  /** SELECT DISTINCT command over the events with rowids above `from` and at most `upTo`. */
  method TextsOf(events: map<string, Event>, arrivals: seq<string>, commands: map<string, Row>, from: int, upTo: int)
    returns (changed: seq<string>)
    requires forall k :: k in arrivals ==> k in events
    ensures Unique(changed)
    ensures (set text | text in changed) == TextsBetween(LogOf(events, arrivals), commands, from, upTo)
  {
    hide TextsBetween;
    changed := [];
    ghost var log := LogOf(events, arrivals);
    NoTexts(commands, from, upTo);
    for i := 0 to |arrivals|
      invariant Unique(changed) && (set text | text in changed) == TextsBetween(log[..i], commands, from, upTo)
    {
      var id := events[arrivals[i]].commandId;
      assert log[..i+1] == log[..i] + [id];
      OneMoreBetween(log[..i], id, commands, from, upTo);
      if from <= i < upTo && id in commands {
        var text := commands[id].command;
        assert text in changed <==> text in (set t | t in changed);
        if text != "" && text !in changed { changed := changed + [text]; }
      }
    }
    assert log[..|arrivals|] == log;
  }

  lemma NoTexts(commands: map<string, Row>, from: int, upTo: int)
    ensures TextsBetween([], commands, from, upTo) == {}
  {
  }

  class RankingCache {
    const decay: nat -> real
    var stats: map<string, Stat>
    var watermark: int

    constructor (decay: nat -> real)
      ensures this.decay == decay && stats == map[] && watermark == 0
    {
      this.decay := decay;
      stats, watermark := map[], 0;
    }

    /** The transaction of one pass. One that fails changes nothing. */
    method Pass(store: EventStore, from: int, upTo: int) returns (r: Result<(nat, int)>)
      requires store.Valid() && IsDecay(decay)
      modifies this
      ensures r.Ok? ==>
                && r.value == (|Changed(LogOf(store.events, store.arrivals), store.commands, from, upTo)|, upTo)
                && stats == Refreshed(decay, LogOf(store.events, store.arrivals), store.commands, old(stats), from, upTo)
                && watermark == upTo && (from <= 0 ==> stats == Rebuilt(decay, store.commands))
      ensures r.Err? ==> stats == old(stats) && watermark == old(watermark)
    {
      hide IsDecay, Refreshed, LogOf, Keyed, StatOf, Texts, TextsBetween, Rebuilt;
      var fails := *;
      if !store.reliable && fails { return Err(IoError); }
      RowsCarryIds(store.events, store.commands, store.index);
      ChangedHaveRows(LogOf(store.events, store.arrivals), store.commands, from, upTo);
      var changed: seq<string>;
      if from <= 0 {
        changed := AllTexts(store.commands);
      } else {
        changed := TextsOf(store.events, store.arrivals, store.commands, from, upTo);
      }
      DistinctCount(changed);
      var table := Recomputed(decay, store.commands, changed, if from <= 0 then map[] else stats);
      PassTable(decay, LogOf(store.events, store.arrivals), store.commands, stats, from, upTo, changed);
      if from <= 0 { ZeroRebuilds(decay, LogOf(store.events, store.arrivals), store.commands, stats, from, upTo); }
      stats, watermark := table, upTo;
      return Ok((|changed|, upTo));
    }

    /** RefreshCommandStats: `landed` are the events other processes append after the upper bound is
        read and before the transaction opens; the pass leaves them for the next one. */
    method RefreshCommandStats(store: EventStore, from: int, landed: seq<Event>) returns (r: Result<(nat, int)>)
      requires store.Valid() && IsDecay(decay)
      modifies this, store
      ensures store.Valid()
      ensures r.Ok? ==>
                && watermark == r.value.1 == |old(store.arrivals)|
                && stats == Refreshed(decay, LogOf(store.events, store.arrivals), store.commands, old(stats), from, watermark)
                && r.value.0 == |Changed(LogOf(store.events, store.arrivals), store.commands, from, watermark)|
                && (from <= 0 ==> stats == Rebuilt(decay, store.commands))
      ensures r.Err? ==> stats == old(stats) && watermark == old(watermark)
    {
      hide IsDecay, Refreshed, Changed, LogOf, Derived, Keyed, Decodes, Rebuilt;
      var upTo := |store.arrivals|;
      for i := 0 to |landed|
        invariant store.Valid() && stats == old(stats) && watermark == old(watermark)
      {
        var landing := store.Append(landed[i], false);
      }
      r := Pass(store, from, upTo);
    }
  }
}
