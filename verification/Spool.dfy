/** The daemon's spool (internal/daemon/daemon.go, `DrainSpool`; internal/ipc/ipc.go, `spool`): hooks
    append lines to a file while the daemon is away, and the daemon replays it, with hooks writing and
    the daemon dying between any two steps. A file is its lines. */
module Spool {
  import opened Calendar
  import opened Events
  import opened Rows
  import opened Store

  /** The longest line the scanner takes. */
  const SCAN_LIMIT := 4 * 1024 * 1024

  datatype Drain = Crashed | GaveUp | Drained

  function Content(file: Option<seq<string>>): seq<string> {
    match file case Some(lines) => lines case None => []
  }

  /** The lines the scanner reads: everything before the first line that is too long. */
  function Scanned(lines: seq<string>): seq<string> {
    if lines == [] || |lines[0]| >= SCAN_LIMIT then [] else [lines[0]] + Scanned(lines[1..])
  }

  lemma {:induction false} ScannedIsPrefix(lines: seq<string>)
    ensures var n := |Scanned(lines)|;
            && n <= |lines| && Scanned(lines) == lines[..n]
            && (forall i :: 0 <= i < n ==> |lines[i]| < SCAN_LIMIT)
            && (n < |lines| ==> |lines[n]| >= SCAN_LIMIT)
  {
    if lines != [] && |lines[0]| < SCAN_LIMIT {
      ScannedIsPrefix(lines[1..]);
      assert forall i :: 0 < i < |lines| ==> lines[i] == lines[1..][i-1];
    }
  }

  /** The id of the event a line makes the daemon record; None for a line that holds nothing it could. */
  function LineId(decode: string -> Option<Event>, line: string): Option<string> {
    match decode(line)
    case None => None
    case Some(e) => if Decodes(e) then Some(e.eventId) else None
  }

  function Ids(decode: string -> Option<Event>, line: string): set<string> {
    match LineId(decode, line) case None => {} case Some(id) => {id}
  }

  /** The ids a replay of `lines` records, when the store takes those marked. */
  function TakenIds(decode: string -> Option<Event>, lines: seq<string>, taken: seq<bool>): set<string>
    requires |taken| <= |lines|
  {
    set i | 0 <= i < |taken| && taken[i] && LineId(decode, lines[i]).Some? :: LineId(decode, lines[i]).value
  }

  /** After the replay the line's event is in no log: it was not there before and no taken line brought
      it. */
  ghost predicate Stranded(decode: string -> Option<Event>, known: set<string>, lines: seq<string>, taken: seq<bool>, line: string)
    requires |taken| <= |lines|
  {
    LineId(decode, line).Some? && LineId(decode, line).value !in known + TakenIds(decode, lines, taken)
  }

  /** When the store takes all it can, a drained file loses nothing if and only if every line from the
      first over-long one on has nothing to record, or an event that was in the log or is on a scanned
      line. */
  lemma NothingStrandedIff(decode: string -> Option<Event>, known: set<string>, lines: seq<string>, taken: seq<bool>)
    requires |taken| == |Scanned(lines)| <= |lines|
    requires forall i :: 0 <= i < |taken| ==> taken[i] || LineId(decode, lines[i]).None?
    ensures (forall line :: line in lines ==> !Stranded(decode, known, lines, taken, line))
            <==> forall i :: |Scanned(lines)| <= i < |lines| && LineId(decode, lines[i]).Some? ==>
                   || LineId(decode, lines[i]).value in known
                   || exists j :: 0 <= j < |Scanned(lines)| && LineId(decode, lines[j]) == LineId(decode, lines[i])
  {
    hide Scanned, LineId;
    forall i | 0 <= i < |lines| && LineId(decode, lines[i]).Some?
      ensures Stranded(decode, known, lines, taken, lines[i])
              <==> LineId(decode, lines[i]).value !in known
                   && forall j :: 0 <= j < |taken| ==> LineId(decode, lines[j]) != LineId(decode, lines[i])
    {
      if j :| 0 <= j < |taken| && LineId(decode, lines[j]) == LineId(decode, lines[i]) { assert taken[j]; }
    }
    assert forall i :: 0 <= i < |taken| && LineId(decode, lines[i]).Some? ==> !Stranded(decode, known, lines, taken, lines[i]);
  }

  /** What the log has gained from `lines`: under each new id stands what the first taken line with that
      id says, and what was in the log before stands there unchanged. */
  ghost predicate Recorded(decode: string -> Option<Event>, before: map<string, Event>, after: map<string, Event>,
                           lines: seq<string>, taken: seq<bool>)
    requires |taken| <= |lines|
  {
    && Extends(after, before)
    && forall id :: id in after && id !in before ==> exists i: nat :: FirstTaken(decode, lines, taken, id, i) && decode(lines[i]) == Some(after[id])
  }

  ghost predicate FirstTaken(decode: string -> Option<Event>, lines: seq<string>, taken: seq<bool>, id: string, i: nat)
    requires |taken| <= |lines|
  {
    && i < |taken| && taken[i] && LineId(decode, lines[i]) == Some(id)
    && forall j :: 0 <= j < i && taken[j] ==> LineId(decode, lines[j]) != Some(id)
  }

  /** Every event the log has gained is what one of the lines says. */
  ghost predicate FromLines(decode: string -> Option<Event>, before: map<string, Event>, after: map<string, Event>,
                            lines: set<string>)
  {
    && Extends(after, before)
    && forall id :: id in after && id !in before ==> exists line :: line in lines && decode(line) == Some(after[id])
  }

  lemma RecordedNothing(decode: string -> Option<Event>, log: map<string, Event>, lines: seq<string>)
    ensures Recorded(decode, log, log, lines, [])
  {
  }

  /** One more line replayed, and stored at most under its own id. */
  lemma RecordedMore(decode: string -> Option<Event>, before: map<string, Event>, middle: map<string, Event>,
                     after: map<string, Event>, lines: seq<string>, taken: seq<bool>, ok: bool)
    requires |taken| < |lines| && Recorded(decode, before, middle, lines, taken)
    requires middle.Keys == before.Keys + TakenIds(decode, lines, taken)
    requires Extends(after, middle)
    requires forall id :: id in after && id !in middle ==>
               ok && LineId(decode, lines[|taken|]) == Some(id) && decode(lines[|taken|]) == Some(after[id])
    ensures Recorded(decode, before, after, lines, taken + [ok])
  {
    hide LineId, TakenIds;
    var longer := taken + [ok];
    forall id | id in after && id !in before
      ensures exists i: nat :: FirstTaken(decode, lines, longer, id, i) && decode(lines[i]) == Some(after[id])
    {
      if id in middle {
        var i: nat :| FirstTaken(decode, lines, taken, id, i) && decode(lines[i]) == Some(middle[id]);
        assert FirstTaken(decode, lines, longer, id, i);
      } else {
        forall j | 0 <= j < |taken| && taken[j] ensures LineId(decode, lines[j]) != Some(id) {
          TakenAt(decode, lines, taken, j);
        }
        assert FirstTaken(decode, lines, longer, id, |taken|);
      }
    }
  }

  lemma TakenAt(decode: string -> Option<Event>, lines: seq<string>, taken: seq<bool>, j: nat)
    requires |taken| <= |lines| && j < |taken| && taken[j]
    ensures LineId(decode, lines[j]).Some? ==> LineId(decode, lines[j]).value in TakenIds(decode, lines, taken)
  {
  }

  lemma RecordedFromLines(decode: string -> Option<Event>, before: map<string, Event>, after: map<string, Event>,
                          lines: seq<string>, taken: seq<bool>, all: set<string>)
    requires |taken| <= |lines| && Recorded(decode, before, after, lines, taken) && forall line :: line in lines ==> line in all
    ensures FromLines(decode, before, after, all)
  {
    hide LineId;
    forall id | id in after && id !in before ensures exists line :: line in all && decode(line) == Some(after[id]) {
      var i: nat :| FirstTaken(decode, lines, taken, id, i) && decode(lines[i]) == Some(after[id]);
      assert lines[i] in lines;
    }
  }

  lemma FromLinesTwice(decode: string -> Option<Event>, a: map<string, Event>, b: map<string, Event>, c: map<string, Event>,
                       first: set<string>, all: set<string>)
    requires FromLines(decode, a, b, first) && FromLines(decode, b, c, all) && first <= all
    ensures FromLines(decode, a, c, all)
  {
  }

  /** What a log gains while no flag changes is pending on the device it names. */
  lemma GainedIsPending(before: map<string, Event>, after: map<string, Event>, synced: set<string>, d: string)
    requires Keyed(after) && Extends(after, before) && synced <= before.Keys
    ensures Pending(after, synced, d)
            == Pending(before, synced, d) + set id | id in after && id !in before && after[id].deviceId == d :: after[id]
  {
    forall e | e in Pending(after, synced, d)
      ensures e in Pending(before, synced, d) || (e.eventId in after && e.eventId !in before && after[e.eventId] == e)
    {
      var k :| k in after && after[k] == e;
      if k in before { assert before[k] == e; }
    }
    forall e | e in Pending(before, synced, d) ensures e in Pending(after, synced, d) {
      var k :| k in before && before[k] == e;
      assert after[k] == e;
    }
    forall id | id in after && id !in before && after[id].deviceId == d ensures after[id] in Pending(after, synced, d) {
      assert after[id].eventId == id;
    }
  }

  class Drainer {
    const store: EventStore
    /** The event a line makes the daemon record; None for a line it rejects, skips or treats as a nudge. */
    const decode: string -> Option<Event>
    /** What hooks write, and whether the daemon dies, between one step and the next. */
    const hooks: nat -> seq<string>
    const crashes: nat -> bool

    var spool: Option<seq<string>>
    var draining: Option<seq<string>>
    var step: nat
    /** Every line ever written to the spool. */
    ghost var spooled: set<string>
    /** Lines that were removed with their file without having been replayed. */
    ghost var lost: set<string>

    /** There is nothing in the line to record, or its event is in the log. */
    ghost predicate Settled(line: string)
      reads store
    {
      match LineId(decode, line)
      case None => true
      case Some(id) => id in store.events
    }

    /** Every line ever spooled is settled, or still in one of the two files, or accounted as lost. */
    ghost predicate Valid()
      reads this, store
    {
      && store.Valid() && decode("").None?
      && (forall line :: line in spooled ==>
            Settled(line) || line in Content(spool) || line in Content(draining) || line in lost)
      && (forall line :: line in Content(spool) || line in Content(draining) ==> line in spooled)
    }

    /** No hook writes. */
    ghost predicate Quiet() {
      forall k :: hooks(k) == []
    }

    ghost predicate NoLongLine()
      reads this
    {
      && (forall line :: line in Content(draining) ==> |line| < SCAN_LIMIT)
      && (forall line :: line in Content(spool) ==> |line| < SCAN_LIMIT)
      && (forall k, line :: line in hooks(k) ==> |line| < SCAN_LIMIT)
    }

    constructor (store: EventStore, decode: string -> Option<Event>, hooks: nat -> seq<string>, crashes: nat -> bool)
      requires store.Valid() && decode("").None?
      ensures Valid() && spool == draining == None && spooled == {} && lost == {}
      ensures this.store == store && this.decode == decode && this.hooks == hooks && this.crashes == crashes
    {
      this.store, this.decode, this.hooks, this.crashes := store, decode, hooks, crashes;
      spool, draining, step, spooled, lost := None, None, 0, {}, {};
    }

    /** Between two steps of the daemon: hooks append their lines, and it may die. */
    method Tick() returns (alive: bool)
      requires Valid()
      modifies `spool, `step, `spooled
      ensures Valid() && Content(spool) == old(Content(spool)) + hooks(old(step)) && step == old(step) + 1
      ensures spooled == old(spooled) + set line | line in hooks(old(step))
      ensures hooks(old(step)) == [] ==> spool == old(spool)
      ensures old(NoLongLine()) ==> NoLongLine()
      ensures alive == !crashes(old(step))
    {
      hide EventStore.Valid, Settled;
      var lines := hooks(step);
      if lines != [] { spool := Some(Content(spool) + lines); }
      spooled := spooled + set line | line in lines;
      alive := !crashes(step);
      step := step + 1;
    }

    /** One line of a spool file; a line the store does not take is passed over. */
    method Ingest(line: string) returns (ok: bool)
      requires Valid()
      modifies store
      ensures Valid()
      ensures store.events.Keys == old(store.events).Keys + if ok then Ids(decode, line) else {}
      ensures store.reliable && !ok ==> LineId(decode, line).None?
      ensures store.synced == old(store.synced) && store.cursors == old(store.cursors)
      ensures Extends(store.events, old(store.events))
      ensures forall id :: id in store.events && id !in old(store.events) ==>
                ok && LineId(decode, line) == Some(id) && decode(line) == Some(store.events[id])
    {
      hide EventStore.Valid, Decodes;
      if line == "" { return true; }
      var e := decode(line);
      if e.None? { return true; }
      var r := store.Append(e.value, false);
      ok := r.Ok?;
    }

    lemma ScannedWhole(lines: seq<string>)
      requires draining == Some(lines)
      ensures NoLongLine() ==> Scanned(lines) == lines
    {
      ScannedIsPrefix(lines);
      var n := |Scanned(lines)|;
      assert n < |lines| ==> lines[n] in lines;
    }

    /** Replays the lines the scanner reads, hooks writing and the daemon perhaps dying before each one
        and after the last. `taken` says which of them the store took. */
    method Replay(lines: seq<string>) returns (alive: bool, ghost taken: seq<bool>)
      requires Valid()
      modifies `spool, `step, `spooled, store
      ensures Valid() && step > old(step) && (alive <==> !crashes(step - 1))
      ensures |taken| <= |lines| && (alive ==> |taken| == |lines|)
      // The log grows by the events of the lines taken, and by no other.
      ensures store.events.Keys == old(store.events).Keys + TakenIds(decode, lines, taken)
      ensures Recorded(decode, old(store.events), store.events, lines, taken)
      ensures store.synced == old(store.synced) && store.cursors == old(store.cursors)
      ensures store.reliable ==> forall i :: 0 <= i < |taken| ==> taken[i] || LineId(decode, lines[i]).None?
      ensures old(NoLongLine()) ==> NoLongLine()
      ensures old(spooled) <= spooled && (Quiet() ==> spool == old(spool) && spooled == old(spooled))
    {
      hide EventStore.Valid, Settled, NoLongLine, TakenIds, Ids, Recorded, LineId, Extends, Valid;
      taken := [];
      NothingTaken(lines);
      RecordedNothing(decode, store.events, lines);
      for i := 0 to |lines|
        invariant Valid() && step >= old(step) && |taken| == i
        invariant store.events.Keys == old(store.events).Keys + TakenIds(decode, lines, taken)
        invariant Recorded(decode, old(store.events), store.events, lines, taken)
        invariant store.synced == old(store.synced) && store.cursors == old(store.cursors)
        invariant store.reliable ==> forall j :: 0 <= j < i ==> taken[j] || LineId(decode, lines[j]).None?
        invariant old(NoLongLine()) ==> NoLongLine()
        invariant old(spooled) <= spooled && (Quiet() ==> spool == old(spool) && spooled == old(spooled))
      {
        alive := Tick();
        if !alive { return; }
        ghost var middle := store.events;
        var ok := Ingest(lines[i]);
        RecordedMore(decode, old(store.events), middle, store.events, lines, taken, ok);
        OneMoreTaken(lines, taken, ok);
        taken := taken + [ok];
      }
      alive := Tick();
    }

    lemma NothingTaken(lines: seq<string>)
      ensures TakenIds(decode, lines, []) == {}
    {
    }

    lemma OneMoreTaken(lines: seq<string>, taken: seq<bool>, ok: bool)
      requires |taken| < |lines|
      ensures TakenIds(decode, lines, taken + [ok]) == TakenIds(decode, lines, taken) + if ok then Ids(decode, lines[|taken|]) else {}
    {
      var longer := taken + [ok];
      assert forall i :: 0 <= i < |taken| ==> longer[i] == taken[i];
      assert longer[|taken|] == ok;
    }

    /** drainFile: replays the set-aside file, if there is one, and removes it. When it
        removes one, exactly the lines stranded by the replay are lost. */
    method DrainFile() returns (r: Drain, ghost taken: seq<bool>)
      requires Valid()
      modifies this, store
      ensures Valid()
      ensures r == Drained ==> draining == None
      ensures r == Crashed ==> draining == old(draining) && lost == old(lost)
      ensures step >= old(step) && (r == Crashed <==> step > old(step) && crashes(step - 1))
      ensures |taken| <= |Scanned(old(Content(draining)))| <= |old(Content(draining))|
      ensures store.events.Keys == old(store.events).Keys + TakenIds(decode, old(Content(draining)), taken)
      ensures Recorded(decode, old(store.events), store.events, old(Content(draining)), taken)
      ensures store.synced == old(store.synced) && store.cursors == old(store.cursors)
      ensures r == GaveUp && store.reliable ==> draining == None && |Scanned(old(Content(draining)))| < |old(Content(draining))|
      ensures r != Crashed && draining == None ==>
                && (old(draining).Some? ==> |taken| == |Scanned(old(Content(draining)))|)
                && lost == old(lost) + set line | line in old(Content(draining))
                             && Stranded(decode, old(store.events).Keys, old(Content(draining)), taken, line)
      ensures store.reliable ==> forall i :: 0 <= i < |taken| ==> taken[i] || LineId(decode, old(Content(draining))[i]).None?
      ensures store.reliable && old(NoLongLine()) ==> NoLongLine() && lost == old(lost) && r != GaveUp
      ensures old(spooled) <= spooled && (Quiet() ==> spool == old(spool) && spooled == old(spooled))
    {
      hide EventStore.Valid, Settled, NoLongLine, Quiet, TakenIds, Scanned, LineId, Stranded, Recorded;
      taken := [];
      ScannedIsPrefix(Content(draining));
      RecordedNothing(decode, store.events, Content(draining));
      NothingTaken(Content(draining));
      var fails := *;
      if !store.reliable && fails { return GaveUp, []; }
      if draining.None? { return Drained, []; }
      var lines := draining.value;
      var scanned := Scanned(lines);
      ScannedWhole(lines);
      var alive;
      alive, taken := Replay(scanned);
      SameIds(lines, scanned, taken);
      SameRecords(old(store.events), lines, scanned, taken);
      if !alive { return Crashed, taken; }
      LosesStranded(old(store.events).Keys, lines, scanned, taken);
      RemoveDraining();
      return if |scanned| < |lines| then GaveUp else Drained, taken;
    }

    lemma SameIds(lines: seq<string>, scanned: seq<string>, taken: seq<bool>)
      requires |taken| <= |scanned| && scanned <= lines
      ensures TakenIds(decode, scanned, taken) == TakenIds(decode, lines, taken)
    {
      hide LineId;
      assert forall i :: 0 <= i < |scanned| ==> scanned[i] == lines[i];
    }

    lemma SameRecords(before: map<string, Event>, lines: seq<string>, scanned: seq<string>, taken: seq<bool>)
      requires |taken| <= |scanned| && scanned <= lines && Recorded(decode, before, store.events, scanned, taken)
      ensures Recorded(decode, before, store.events, lines, taken)
    {
      hide LineId;
      assert forall i :: 0 <= i < |scanned| ==> scanned[i] == lines[i];
      forall id | id in store.events && id !in before
        ensures exists i: nat :: FirstTaken(decode, lines, taken, id, i) && decode(lines[i]) == Some(store.events[id])
      {
        var i: nat :| FirstTaken(decode, scanned, taken, id, i) && decode(scanned[i]) == Some(store.events[id]);
        assert FirstTaken(decode, lines, taken, id, i);
      }
    }

    /** What is unsettled after the replay is what the replay stranded; when the store took all it could,
        that is no scanned line. */
    lemma LosesStranded(known: set<string>, lines: seq<string>, scanned: seq<string>, taken: seq<bool>)
      requires |taken| == |scanned| && scanned <= lines && store.events.Keys == known + TakenIds(decode, lines, taken)
      ensures forall line :: !Settled(line) <==> Stranded(decode, known, lines, taken, line)
      ensures (forall i :: 0 <= i < |taken| ==> taken[i] || LineId(decode, lines[i]).None?) ==>
                forall line :: line in scanned ==> Settled(line)
    {
      hide LineId;
    }

    /** Removes the set-aside file; what it held that is not settled is lost. */
    method RemoveDraining()
      requires Valid()
      modifies `draining, `lost
      ensures Valid() && draining == None
      ensures lost == old(lost) + set line | line in old(Content(draining)) && !Settled(line)
      ensures old(NoLongLine()) ==> NoLongLine()
    {
      hide EventStore.Valid, Settled;
      lost := lost + set line | line in Content(draining) && !Settled(line);
      draining := None;
    }

    /** An over-long line goes with its file: with a working store and no crash, its event ends in no log
        unless it was there before or stands on a line before it. */
    method OverlongLineIsLost(i: nat)
      requires Valid() && store.reliable && (forall k :: !crashes(k)) && draining.Some? && i < |draining.value|
      requires |draining.value[i]| >= SCAN_LIMIT && LineId(decode, draining.value[i]).Some?
      requires LineId(decode, draining.value[i]).value !in store.events
      requires forall j :: 0 <= j < i ==> LineId(decode, draining.value[j]) != LineId(decode, draining.value[i])
      modifies this, store
      ensures draining == None && old(draining.value[i]) in lost && !Settled(old(draining.value[i]))
    {
      hide EventStore.Valid, LineId;
      ghost var lines := draining.value;
      ScannedIsPrefix(lines);
      ghost var taken;
      var r;
      r, taken := DrainFile();
      assert |Scanned(lines)| <= i;
      assert Stranded(decode, old(store.events).Keys, lines, taken, lines[i]);
    }

    /** Moves the spool aside, over nothing. */
    method Rename()
      requires Valid() && draining == None && spool.Some?
      modifies `draining, `spool
      ensures Valid() && spool == None && draining == old(spool)
      ensures old(NoLongLine()) ==> NoLongLine()
    {
      hide EventStore.Valid, Settled;
      draining := spool;
      spool := None;
    }

    /** The second half of DrainSpool: the spool itself, moved aside first. */
    method DrainFresh() returns (r: Drain)
      requires Valid() && draining == None
      modifies this, store
      ensures Valid()
      ensures r == Drained ==> draining == None && (Quiet() ==> spool == None)
      ensures step > old(step) && (r == Crashed <==> crashes(step - 1))
      ensures store.reliable && old(NoLongLine()) ==> NoLongLine() && lost == old(lost) && r != GaveUp
      ensures old(spooled) <= spooled
      ensures FromLines(decode, old(store.events), store.events, spooled)
      ensures store.synced == old(store.synced) && store.cursors == old(store.cursors)
    {
      hide EventStore.Valid, Settled, NoLongLine, TakenIds, Stranded, Scanned, LineId, Valid, Content, Recorded, FromLines;
      NothingGained(store.events);
      var alive := Tick();
      if !alive { return Crashed; }
      if spool.None? { return Drained; }
      var fails := *;
      if !store.reliable && fails { return GaveUp; }
      Rename();
      alive := Tick();
      if !alive { return Crashed; }
      ghost var taken, lines := [], Content(draining);
      LinesSpooled();
      r, taken := DrainFile();
      RecordedFromLines(decode, old(store.events), store.events, lines, taken, spooled);
    }

    lemma LinesSpooled()
      requires Valid()
      ensures forall line :: line in Content(draining) ==> line in spooled
    {
    }

    lemma NothingGained(log: map<string, Event>)
      ensures forall all :: FromLines(decode, log, log, all)
    {
    }

    /** DrainSpool: first what an earlier daemon left set aside, then the spool itself. */
    method DrainSpool() returns (r: Drain)
      requires Valid()
      modifies this, store
      ensures Valid()
      ensures r == Drained ==> draining == None && (Quiet() ==> spool == None)
      ensures step >= old(step) && (r == Crashed <==> step > old(step) && crashes(step - 1))
      ensures store.reliable && old(NoLongLine()) ==> NoLongLine() && lost == old(lost) && r != GaveUp
      ensures old(spooled) <= spooled
      ensures r == Drained && Quiet() && lost == {} ==> forall line :: line in spooled ==> Settled(line)
      // What the log has gained is what spooled lines say, and waits to be uploaded.
      ensures FromLines(decode, old(store.events), store.events, spooled)
      ensures store.synced == old(store.synced) && store.cursors == old(store.cursors)
      ensures forall d :: Pending(store.events, store.synced, d)
                == old(Pending(store.events, store.synced, d))
                   + set id | id in store.events && id !in old(store.events) && store.events[id].deviceId == d :: store.events[id]
    {
      hide EventStore.Valid, Settled, NoLongLine, TakenIds, Stranded, Scanned, LineId, Valid, Content, Quiet, Recorded, FromLines,
           Pending;
      ghost var taken, lines := [], Content(draining);
      LinesSpooled();
      FlagsOfHeld();
      r, taken := DrainFile();
      RecordedFromLines(decode, old(store.events), store.events, lines, taken, spooled);
      if r == Drained {
        ghost var middle, first := store.events, spooled;
        r := DrainFresh();
        FromLinesTwice(decode, old(store.events), middle, store.events, first, spooled);
        if r == Drained && spool == None && lost == {} { NothingPending(); }
      }
      GainedWaits(old(store.events), old(store.synced));
    }

    lemma FlagsOfHeld()
      requires Valid()
      ensures store.synced <= store.events.Keys
    {
    }

    lemma GainedWaits(before: map<string, Event>, synced: set<string>)
      requires Valid() && FromLines(decode, before, store.events, spooled) && synced <= before.Keys
      ensures forall d :: Pending(store.events, synced, d)
                == Pending(before, synced, d)
                   + set id | id in store.events && id !in before && store.events[id].deviceId == d :: store.events[id]
    {
      hide Pending, Valid, Derived;
      assert Keyed(store.events) by { TableKeyed(); }
      forall d ensures Pending(store.events, synced, d)
                == Pending(before, synced, d)
                   + set id | id in store.events && id !in before && store.events[id].deviceId == d :: store.events[id]
      {
        GainedIsPending(before, store.events, synced, d);
      }
    }

    lemma TableKeyed()
      requires Valid()
      ensures Keyed(store.events)
    {
      DerivedTables(store.events, store.commands, store.index);
    }

    /** With no file left and nothing lost, every line ever spooled is settled. */
    lemma NothingPending()
      requires Valid() && spool == draining == None && lost == {}
      ensures forall line :: line in spooled ==> Settled(line)
    {
    }
  }
}
