/** The daemon's orphan sweep (internal/daemon/daemon.go, `SweepOrphans`). */
module Sweep {
  import opened Calendar
  import opened Events
  import opened Rows
  import opened Store

  /** How old a running command must be before the sweep looks at it, in milliseconds. */
  const SWEEP_GRACE := 5_000

  /** A running command of this device that no shell can finish any more. */
  predicate Abandoned(row: Row, device: string, now: int, alive: int -> bool) {
    row.status == Running && row.deviceId == device && row.pgid > 1 && row.startTime <= now - SWEEP_GRACE && !alive(row.pgid)
  }

  ghost predicate NoneAbandoned(commands: map<string, Row>, device: string, now: int, alive: int -> bool) {
    forall id :: id in commands ==> !Abandoned(commands[id], device, now, alive)
  }

  /** An orphan event settles a running row as orphaned. */
  lemma OrphanSettles(before: map<string, Event>, e: Event, x: Row, y: Row)
    requires Keyed(before) && Keyed(before[e.eventId := e]) && e.eventId !in before && e.payload == Orphan
    requires IsView(x, before, e.commandId) && IsView(y, before[e.eventId := e], e.commandId)
    requires x.status == Running
    ensures y.status == Orphaned
  {
    hide Replay;
    var after := before[e.eventId := e];
    var g, h := Replay(before, e.commandId), Replay(after, e.commandId);
    TableGrows(before, e);
    assert forall v :: v in g <==> v in Elements(g);
    assert forall v :: v in h <==> v in Elements(h);
    OtherKindsKeepLast(g, h, e, IsEnd);
    LastWhereMember(h, IsOrphan);
    assert e in h && IsOrphan(e);
  }

  /** Appends the orphan event of one running command. */
  method MarkOrphan(store: EventStore, c: Row, e: Event) returns (r: Result<bool>)
    requires store.Valid() && c.id in store.commands && store.commands[c.id] == c && c.status == Running
    requires e.commandId == c.id && e.payload == Orphan && e.eventId !in store.events
    modifies store
    ensures store.Valid() && (store.reliable ==> r.Ok?)
    ensures r.Ok? ==> && store.events == old(store.events)[e.eventId := e] && store.commands.Keys == old(store.commands).Keys
                      && store.commands[c.id].status == Orphaned
                      && forall id :: id in store.commands && id != c.id ==> store.commands[id] == old(store.commands)[id]
    ensures r.Err? ==> store.events == old(store.events) && store.commands == old(store.commands)
    ensures store.synced == old(store.synced) && store.cursors == old(store.cursors)
  {
    hide IsView, Keyed, CommandIds;
    DerivedTables(store.events, store.commands, store.index);
    ViewsOf(store.events, store.commands, store.index, c.id);
    r := store.Append(e, false);
    if r.Ok? {
      InTable(store.events, e);
      ViewsOf(store.events, store.commands, store.index, c.id);
      OrphanSettles(old(store.events), e, c, store.commands[c.id]);
    }
  }

  lemma RowsNamed(store: EventStore)
    requires store.Valid()
    ensures forall id :: id in store.commands ==> store.commands[id].id == id
  {
    RowsCarryIds(store.events, store.commands, store.index);
  }

  lemma InTable(events: map<string, Event>, e: Event)
    requires e.eventId in events && events[e.eventId] == e
    ensures e.commandId in CommandIds(events)
  {
  }

  lemma ViewsOf(events: map<string, Event>, commands: map<string, Row>, index: map<string, string>, id: string)
    requires Derived(events, commands, index)
    ensures Keyed(events) && (id in commands <==> id in CommandIds(events))
    ensures id in commands ==> IsView(commands[id], events, id)
  {
  }

  /** The events a sweep has added: orphan events of this device's own, dated now, for abandoned rows. */
  ghost predicate OrphansAdded(log: map<string, Event>, log': map<string, Event>, rows: map<string, Row>, done: set<string>,
                               device: string, now: int, alive: int -> bool)
  {
    && Extends(log', log) && |log'| == |log| + |done|
    && (forall id :: id in log' && id !in log ==>
          log'[id].payload == Orphan && log'[id].deviceId == device && log'[id].createdAt == now && log'[id].commandId in done)
    && (forall id :: id in done ==> id in rows && Abandoned(rows[id], device, now, alive))
  }

  /** The rows in `done` have become orphaned, and no others have changed. */
  ghost predicate SettledExactly(rows: map<string, Row>, rows': map<string, Row>, done: set<string>) {
    && rows'.Keys == rows.Keys
    && (forall id :: id in done ==> id in rows' && rows'[id].status == Orphaned)
    && (forall id :: id in rows' && id !in done ==> rows'[id] == rows[id])
  }

  /** After the first i candidates the abandoned ones among them, `done`, have been dealt with. */
  ghost predicate Swept(log: map<string, Event>, log': map<string, Event>, rows: map<string, Row>, rows': map<string, Row>,
                        live: seq<Row>, i: nat, done: set<string>, device: string, now: int, alive: int -> bool)
    requires i <= |live|
  {
    && OrphansAdded(log, log', rows, done, device, now, alive)
    && SettledExactly(rows, rows', done)
    && Picked(live, i, done, device, now, alive)
  }

  /** Of the first i candidates `done` names all abandoned ones, and it names none of the others. */
  ghost predicate Picked(live: seq<Row>, i: nat, done: set<string>, device: string, now: int, alive: int -> bool)
    requires i <= |live|
  {
    && (forall j :: 0 <= j < i && Abandoned(live[j], device, now, alive) ==> live[j].id in done)
    && (forall id :: id in done ==> exists j :: 0 <= j < i && live[j].id == id)
  }

  ghost function AbandonedIds(rows: map<string, Row>, device: string, now: int, alive: int -> bool): set<string> {
    set id | id in rows && Abandoned(rows[id], device, now, alive)
  }

  /** Whatever has been running on this device for five seconds under a shell has that shell alive. */
  ghost predicate OldOnesLive(rows: map<string, Row>, device: string, now: int, alive: int -> bool) {
    forall id | id in rows && rows[id].status == Running && rows[id].deviceId == device && rows[id].pgid > 1
                && rows[id].startTime <= now - 5_000 :: alive(rows[id].pgid)
  }

  /** The rows that have changed were this device's, running for five seconds when the shell was gone;
      they are orphaned now. */
  ghost predicate OnlyLongDead(rows: map<string, Row>, rows': map<string, Row>, device: string, now: int, alive: int -> bool) {
    && rows'.Keys == rows.Keys
    && forall id :: id in rows' && rows'[id] != rows[id] ==>
         && rows[id].status == Running && rows[id].deviceId == device
         && rows[id].pgid > 1 && rows[id].startTime <= now - 5_000 && !alive(rows[id].pgid)
         && rows'[id].status == Orphaned
  }

  /** From the n-th on, the ids handed out are in no event and differ from each other. */
  ghost predicate Fresh(freshId: nat -> string, n: nat, log: map<string, Event>) {
    && (forall m: nat :: m >= n ==> freshId(m) !in log)
    && (forall m: nat, k: nat :: m != k ==> freshId(m) != freshId(k))
  }

  lemma NextIsFresh(freshId: nat -> string, n: nat, log: map<string, Event>)
    requires Fresh(freshId, n, log)
    ensures freshId(n) !in log
  {
  }

  lemma FreshAfter(freshId: nat -> string, n: nat, log: map<string, Event>, log': map<string, Event>)
    requires Fresh(freshId, n, log) && log'.Keys == log.Keys + {freshId(n)}
    ensures Fresh(freshId, n + 1, log')
  {
  }

  /** Sweeps once. `freshId` gives the ids of the orphan events, `alive` is the process table. */
  method SweepOrphans(store: EventStore, device: string, now: int, alive: int -> bool, freshId: nat -> string)
    returns (r: Result<nat>)
    requires store.Valid() && Fresh(freshId, 0, store.events)
    modifies store
    ensures store.Valid() && Extends(store.events, old(store.events)) && (store.reliable ==> r.Ok?)
    ensures r.Ok? ==> NoneAbandoned(store.commands, device, now, alive)
    ensures r.Ok? ==> OldOnesLive(store.commands, device, now, alive)
    ensures OnlyLongDead(old(store.commands), store.commands, device, now, alive)
    // Every abandoned row got one event, this device's own to upload.
    ensures r.Ok? ==>
              var gone := AbandonedIds(old(store.commands), device, now, alive);
              && r.value == |gone| && OrphansAdded(old(store.events), store.events, old(store.commands), gone, device, now, alive)
    ensures store.synced == old(store.synced) && store.cursors == old(store.cursors)
    ensures r == Ok(0) ==> store.events == old(store.events)
    ensures old(NoneAbandoned(store.commands, device, now, alive)) && r.Ok? ==> r == Ok(0)
  {
    hide EventStore.Valid, NoneAbandoned, Swept, Abandoned, IsLive, DistinctRows, OrphansAdded, Extends, OldOnesLive, OnlyLongDead,
         AbandonedIds, Fresh;
    ghost var log, rows := store.events, store.commands;
    ghost var done: set<string> := {};
    RowsNamed(store);
    NothingTouched(log, rows, device, now, alive);
    var live := store.LiveCommands(device);
    if live.Err? { return Err(live.error); }
    NothingSwept(log, rows, live.value, device, now, alive);
    var n := 0;
    for i := 0 to |live.value|
      invariant store.Valid() && n == |done| && store.synced == old(store.synced) && store.cursors == old(store.cursors)
      invariant Swept(log, store.events, rows, store.commands, live.value, i, done, device, now, alive)
      invariant Fresh(freshId, n, store.events)
      invariant n == 0 ==> store.events == log
    {
      assert live.value[i] in live.value;
      ghost var events := store.events;
      NextIsFresh(freshId, n, events);
      var swept := SweepRow(store, live.value, i, device, now, alive, freshId(n), log, rows, done);
      if swept.Err? {
        SweptIs(log, store.events, rows, store.commands, live.value, i, done, device, now, alive);
        return Err(swept.error);
      }
      if swept.value {
        FreshAfter(freshId, n, events, store.events);
        done := done + {live.value[i].id};
        n := n + 1;
      }
    }
    SweptIs(log, store.events, rows, store.commands, live.value, |live.value|, done, device, now, alive);
    AllSwept(log, store.events, rows, store.commands, live.value, done, device, now, alive);
    return Ok(n);
  }

  /** The i-th candidate: its orphan event if no shell can finish it any more. The result says if one was
      appended. */
  method SweepRow(store: EventStore, live: seq<Row>, i: nat, device: string, now: int, alive: int -> bool, id: string,
                  ghost log: map<string, Event>, ghost rows: map<string, Row>, ghost done: set<string>)
    returns (r: Result<bool>)
    requires store.Valid() && id !in store.events && i < |live| && IsLive(rows, device, live[i]) && DistinctRows(live)
    requires Swept(log, store.events, rows, store.commands, live, i, done, device, now, alive)
    modifies store
    ensures store.Valid() && (store.reliable ==> r.Ok?)
    ensures store.synced == old(store.synced) && store.cursors == old(store.cursors)
    ensures r == Ok(true) ==> live[i].id !in done && store.events.Keys == old(store.events).Keys + {id}
    ensures r.Ok? ==> Swept(log, store.events, rows, store.commands, live, i + 1,
                            if r.value then done + {live[i].id} else done, device, now, alive)
    ensures r != Ok(true) ==> store.events == old(store.events) && store.commands == old(store.commands)
  {
    hide EventStore.Valid, Swept, IsLive, DistinctRows;
    var c := live[i];
    StillLive(log, store.events, rows, store.commands, live, i, done, device, now, alive);
    if c.pgid <= 1 || c.startTime > now - SWEEP_GRACE { return Ok(false); }
    if alive(c.pgid) { return Ok(false); }
    var e := Event(id, c.id, device, Orphan, now);
    r := MarkOrphan(store, c, e);
    if r.Ok? {
      SweptOneMore(log, old(store.events), e, rows, old(store.commands), store.commands, live, i, done, device, now, alive);
      return Ok(true);
    }
  }

  lemma NothingTouched(log: map<string, Event>, rows: map<string, Row>, device: string, now: int, alive: int -> bool)
    ensures Extends(log, log) && OnlyLongDead(rows, rows, device, now, alive)
  {
  }

  lemma NothingSwept(log: map<string, Event>, rows: map<string, Row>, live: seq<Row>, device: string, now: int, alive: int -> bool)
    ensures Swept(log, log, rows, rows, live, 0, {}, device, now, alive)
  {
  }

  /** What holds whenever the sweep stops. */
  lemma SweptIs(log: map<string, Event>, log': map<string, Event>, rows: map<string, Row>, rows': map<string, Row>,
                live: seq<Row>, i: nat, done: set<string>, device: string, now: int, alive: int -> bool)
    requires i <= |live| && Swept(log, log', rows, rows', live, i, done, device, now, alive)
    ensures Extends(log', log) && OnlyLongDead(rows, rows', device, now, alive)
  {
  }

  /** The next candidate's row is as it was read; one that is not abandoned is passed over. */
  lemma StillLive(log: map<string, Event>, log': map<string, Event>, rows: map<string, Row>, rows': map<string, Row>,
                  live: seq<Row>, i: nat, done: set<string>, device: string, now: int, alive: int -> bool)
    requires i < |live| && Swept(log, log', rows, rows', live, i, done, device, now, alive) && IsLive(rows, device, live[i])
    requires DistinctRows(live)
    ensures live[i].id !in done && live[i].id in rows' && rows'[live[i].id] == live[i] && live[i].status == Running
    ensures live[i].pgid <= 1 || live[i].startTime > now - SWEEP_GRACE || alive(live[i].pgid) ==>
              Swept(log, log', rows, rows', live, i + 1, done, device, now, alive)
  {
    hide OrphansAdded;
  }

  lemma OneMoreAdded(log: map<string, Event>, log': map<string, Event>, e: Event, rows: map<string, Row>, done: set<string>,
                     device: string, now: int, alive: int -> bool)
    requires OrphansAdded(log, log', rows, done, device, now, alive) && e.eventId !in log' && e.commandId !in done
    requires e.payload == Orphan && e.deviceId == device && e.createdAt == now
    requires e.commandId in rows && Abandoned(rows[e.commandId], device, now, alive)
    ensures OrphansAdded(log, log'[e.eventId := e], rows, done + {e.commandId}, device, now, alive)
  {
    hide Abandoned;
    var log'' := log'[e.eventId := e];
    assert e.eventId !in log;
    forall id | id in log'' && id !in log
      ensures log''[id].payload == Orphan && log''[id].deviceId == device && log''[id].createdAt == now
      ensures log''[id].commandId in done + {e.commandId}
    {
      if id != e.eventId { assert id in log' && log''[id] == log'[id]; }
    }
    assert |done + {e.commandId}| == |done| + 1 && |log''| == |log'| + 1;
  }

  lemma SweptOneMore(log: map<string, Event>, log': map<string, Event>, e: Event, rows: map<string, Row>, rows': map<string, Row>,
                     rows'': map<string, Row>, live: seq<Row>, i: nat, done: set<string>, device: string, now: int, alive: int -> bool)
    requires i < |live| && Swept(log, log', rows, rows', live, i, done, device, now, alive) && IsLive(rows, device, live[i])
    requires e.eventId !in log' && e.payload == Orphan && e.deviceId == device && e.createdAt == now && e.commandId == live[i].id
    requires live[i].pgid > 1 && live[i].startTime <= now - SWEEP_GRACE && !alive(live[i].pgid)
    requires live[i].id !in done && live[i].id in rows'
    requires rows''.Keys == rows'.Keys && rows''[live[i].id].status == Orphaned
    requires forall id :: id in rows'' && id != live[i].id ==> rows''[id] == rows'[id]
    ensures Swept(log, log'[e.eventId := e], rows, rows'', live, i + 1, done + {live[i].id}, device, now, alive)
  {
    hide OrphansAdded, SettledExactly, Picked;
    OneMoreAdded(log, log', e, rows, done, device, now, alive);
    OneMoreSettled(rows, rows', rows'', done, live[i].id);
    OneMorePicked(live, i, done, device, now, alive);
  }

  lemma OneMoreSettled(rows: map<string, Row>, rows': map<string, Row>, rows'': map<string, Row>, done: set<string>, id: string)
    requires SettledExactly(rows, rows', done) && id in rows'
    requires rows''.Keys == rows'.Keys && rows''[id].status == Orphaned
    requires forall x :: x in rows'' && x != id ==> rows''[x] == rows'[x]
    ensures SettledExactly(rows, rows'', done + {id})
  {
  }

  lemma OneMorePicked(live: seq<Row>, i: nat, done: set<string>, device: string, now: int, alive: int -> bool)
    requires i < |live| && Picked(live, i, done, device, now, alive)
    ensures Picked(live, i + 1, done + {live[i].id}, device, now, alive)
  {
    hide Abandoned;
    forall id | id in done + {live[i].id} ensures exists j :: 0 <= j < i + 1 && live[j].id == id {
      if id in done {
        var j :| 0 <= j < i && live[j].id == id;
      }
    }
  }

  lemma AllSwept(log: map<string, Event>, log': map<string, Event>, rows: map<string, Row>, rows': map<string, Row>,
                 live: seq<Row>, done: set<string>, device: string, now: int, alive: int -> bool)
    requires (forall row :: row in live <==> IsLive(rows, device, row)) && (forall id :: id in rows ==> rows[id].id == id)
    requires Swept(log, log', rows, rows', live, |live|, done, device, now, alive)
    ensures done == AbandonedIds(rows, device, now, alive)
    ensures NoneAbandoned(rows', device, now, alive) && OrphansAdded(log, log', rows, done, device, now, alive)
    ensures NoneAbandoned(rows, device, now, alive) ==> done == {}
    ensures OldOnesLive(rows', device, now, alive)
  {
    forall id | id in rows && Abandoned(rows[id], device, now, alive) ensures id in done {
      assert rows[id] in live;
    }
  }
}
