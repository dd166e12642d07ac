/** The local database (internal/store/store.go): the event table, the rows and search entries
    derived from it, the synced flags and the sync cursors. A transaction is one assignment of the
    tables it changes; one that fails changes nothing. */
module Store {
  import opened Calendar
  import opened Events
  import opened Rows
  import Lex

  datatype Result<+T> = Ok(value: T) | Err(error: Error)
  datatype Error = IoError | BadPayload | NotFound

  /** What a peer's stream has been read up to; NOTHING_READ is the empty key of a new cursor. */
  const NOTHING_READ: int := -1

  ghost function Pending(events: map<string, Event>, synced: set<string>, device: string): set<Event> {
    set e | e in events.Values && e.deviceId == device && e.eventId !in synced
  }

  /** INSERT OR IGNORE by event id. */
  function Inserted(events: map<string, Event>, e: Event): map<string, Event> {
    if e.eventId in events then events else events[e.eventId := e]
  }

  predicate Unique(ids: seq<string>) {
    forall i, j :: 0 <= i < j < |ids| ==> ids[i] != ids[j]
  }

  // ------------------------------------------------------------- recompute

  lemma LastWhereSnoc(h: seq<Event>, i: nat, p: Event -> bool)
    requires i < |h|
    ensures LastWhere(h[..i+1], p) == if p(h[i]) then Some(h[i]) else LastWhere(h[..i], p)
  {
    assert h[..i+1][..i] == h[..i];
  }

  function OriginDevice(h: seq<Event>): string {
    match LastWhere(h, IsOrigin)
    case Some(e) => e.deviceId
    case None => ""
  }

  /** What the event at index i sets: who and what the command was. */
  lemma OriginStep(h: seq<Event>, i: nat)
    requires i < |h|
    ensures var g, f := h[..i+1], h[..i];
            match h[i].payload
            case Start(p) => OriginText(g) == p.command && OriginHost(g) == p.hostname && OriginDevice(g) == h[i].deviceId
                             && OriginShell(g) == p.shell && OriginTime(g) == p.startTime && LastStart(g) == p
            case Import(p) => OriginText(g) == p.command && OriginHost(g) == p.hostname && OriginDevice(g) == h[i].deviceId
                             && OriginShell(g) == p.shell && OriginTime(g) == p.startTime && LastStart(g) == LastStart(f)
            case _ => OriginText(g) == OriginText(f) && OriginHost(g) == OriginHost(f) && OriginDevice(g) == OriginDevice(f)
                             && OriginShell(g) == OriginShell(f) && OriginTime(g) == OriginTime(f) && LastStart(g) == LastStart(f)
  {
    LastWhereSnoc(h, i, IsOrigin);
    LastWhereSnoc(h, i, IsStart);
  }

  /** What the event at index i sets: branch, durations, result and flags. */
  lemma OutcomeStep(h: seq<Event>, i: nat)
    requires i < |h|
    ensures var g, f, e := h[..i+1], h[..i], h[i].payload;
            && Branch(g) == (if e.Start? && e.start.gitBranch != "" then Some(e.start.gitBranch) else Branch(f))
            && ImportDuration(g) == (if e.Import? && e.imported.durationMs > 0 then Some(e.imported.durationMs) else ImportDuration(f))
            && EndTime(g) == (if e.End? then Some(e.endTime) else EndTime(f))
            && ExitCode(g) == (if e.End? then Some(e.exitCode) else ExitCode(f))
            && (Any(g, IsOrphan) <==> e.Orphan? || Any(f, IsOrphan))
            && (Any(g, IsRedact) <==> e.Redact? || Any(f, IsRedact))
            && (Any(g, IsImport) <==> e.Import? || Any(f, IsImport))
  {
    LastWhereSnoc(h, i, NamesBranch);
    LastWhereSnoc(h, i, TimesImport);
    LastWhereSnoc(h, i, IsEnd);
    LastWhereSnoc(h, i, IsOrphan);
    LastWhereSnoc(h, i, IsRedact);
    LastWhereSnoc(h, i, IsImport);
  }

  lemma NothingReplayed()
    ensures var f: seq<Event> := [];
            && OriginText(f) == OriginHost(f) == OriginDevice(f) == OriginShell(f) == "" && OriginTime(f) == 0
            && LastStart(f) == NO_START && Branch(f) == None && ImportDuration(f) == None && EndTime(f) == None
            && ExitCode(f) == None && !Any(f, IsOrphan) && !Any(f, IsRedact) && !Any(f, IsImport)
  {
  }

  lemma Assembled(id: string, h: seq<Event>, anyDevice: string)
    ensures RowFor(id, h, anyDevice) ==
            Row(id, if Any(h, IsRedact) then REDACTED_MARKER else OriginText(h), OriginHost(h),
                if OriginDevice(h) == "" then anyDevice else OriginDevice(h), LastStart(h).sessionId, LastStart(h).cwd,
                Branch(h), OriginShell(h), OriginTime(h), EndTime(h), ExitCode(h),
                if EndTime(h).Some? && OriginTime(h) > 0 then Some(EndTime(h).value - OriginTime(h)) else ImportDuration(h),
                if ExitCode(h).Some? then (if ExitCode(h).value == 0 then Completed else Failed)
                else if Any(h, IsOrphan) then Orphaned else if Any(h, IsImport) then Completed else Running,
                LastStart(h).pgid, LastStart(h).isBackground, Any(h, IsImport))
  {
  }

  /** Rebuilds one row by replaying the command's events, as the loop in `recompute` does. `rows` is
      the query's result; `anyDevice` the device an unordered LIMIT 1 returns. */
  method Replayed(id: string, rows: seq<Event>, anyDevice: string) returns (r: Result<Row>)
    ensures r == if forall e :: e in rows ==> Decodes(e) then Ok(RowFor(id, rows, anyDevice)) else Err(BadPayload)
  {
    hide LastWhere, OriginText, OriginHost, OriginDevice, OriginShell, OriginTime, LastStart, Branch,
         ImportDuration, EndTime, ExitCode, Any, RowFor;
    NothingReplayed();
    assert rows[..0] == [];
    var command, hostname, device, session, cwd, shell := "", "", "", "", "", "";
    var branch: Option<string>, duration: Option<int>, end: Option<(int, int)> := None, None, None;
    var startTime, pgid, background := 0, 0, false;
    var orphaned, redacted, imported := false, false, false;
    for i := 0 to |rows|
      invariant forall k :: 0 <= k < i ==> Decodes(rows[k])
      invariant command == OriginText(rows[..i]) && hostname == OriginHost(rows[..i])
      invariant device == OriginDevice(rows[..i]) && shell == OriginShell(rows[..i]) && startTime == OriginTime(rows[..i])
      invariant session == LastStart(rows[..i]).sessionId && cwd == LastStart(rows[..i]).cwd
      invariant pgid == LastStart(rows[..i]).pgid && background == LastStart(rows[..i]).isBackground
      invariant branch == Branch(rows[..i]) && duration == ImportDuration(rows[..i])
      invariant EndTime(rows[..i]) == (if end.Some? then Some(end.value.0) else None)
      invariant ExitCode(rows[..i]) == (if end.Some? then Some(end.value.1) else None)
      invariant orphaned == Any(rows[..i], IsOrphan) && redacted == Any(rows[..i], IsRedact)
      invariant imported == Any(rows[..i], IsImport)
    {
      OriginStep(rows, i);
      OutcomeStep(rows, i);
      match rows[i].payload
      case Start(p) =>
        command, hostname, device := p.command, p.hostname, rows[i].deviceId;
        session, cwd, shell := p.sessionId, p.cwd, p.shell;
        if p.gitBranch != "" { branch := Some(p.gitBranch); }
        startTime, pgid, background := p.startTime, p.pgid, p.isBackground;
      case End(endTime, exitCode) =>
        end := Some((endTime, exitCode));
      case Import(p) =>
        command, hostname, device, shell := p.command, p.hostname, rows[i].deviceId, p.shell;
        startTime := p.startTime;
        if p.durationMs > 0 { duration := Some(p.durationMs); }
        imported := true;
      case Orphan => orphaned := true;
      case Redact => redacted := true;
      case Other(_) =>
      case Malformed(_) =>
        assert rows[i] in rows && !Decodes(rows[i]);
        return Err(BadPayload);
    }
    assert rows[..|rows|] == rows;
    Assembled(id, rows, anyDevice);
    if device == "" { device := anyDevice; }
    var status, endTime, exitCode := Running, None, None;
    if end.Some? {
      endTime, exitCode := Some(end.value.0), Some(end.value.1);
      if startTime > 0 { duration := Some(end.value.0 - startTime); }
      status := if end.value.1 == 0 then Completed else Failed;
    } else if orphaned {
      status := Orphaned;
    } else if imported {
      status := Completed;
    }
    if redacted { command := REDACTED_MARKER; }
    r := Ok(Row(id, command, hostname, device, session, cwd, branch, shell, startTime, endTime, exitCode,
                duration, status, pgid, background, imported));
  }

  // ------------------------------------------------------------- the tables

  predicate IsLive(commands: map<string, Row>, device: string, row: Row) {
    row.id in commands && commands[row.id] == row && row.status == Running && row.deviceId == device
  }

  predicate DistinctRows(rows: seq<Row>) {
    forall i, j :: 0 <= i < j < |rows| ==> rows[i].id != rows[j].id
  }

  /** SELECT … FROM commands WHERE status = 'running' AND device_id = ?. */
  method LiveRows(commands: map<string, Row>, device: string) returns (live: seq<Row>)
    requires forall id :: id in commands ==> commands[id].id == id
    ensures (forall row :: row in live <==> IsLive(commands, device, row)) && DistinctRows(live)
  {
    live := [];
    var ids := commands.Keys;
    while ids != {}
      invariant ids <= commands.Keys && DistinctRows(live)
      invariant forall row :: row in live <==> row.id !in ids && IsLive(commands, device, row)
      decreases |ids|
    {
      var id :| id in ids;
      var row := commands[id];
      assert forall k :: 0 <= k < |live| ==> live[k] in live;
      if row.status == Running && row.deviceId == device { live := live + [row]; }
      ids := ids - {id};
    }
  }

  class EventStore {
    /** When true no statement fails; otherwise any may. */
    const reliable: bool

    var events: map<string, Event>
    var synced: set<string>
    /** Event ids by rowid: the event at index i has rowid i + 1. */
    var arrivals: seq<string>
    var commands: map<string, Row>
    var index: map<string, string>
    var cursors: map<string, int>

    ghost predicate Valid()
      reads this
    {
      && Derived(events, commands, index)
      && (forall k :: k in events ==> Decodes(events[k]))
      && synced <= events.Keys
      && Unique(arrivals) && (forall k :: k in arrivals <==> k in events)
    }

    /** All of the database but the cursors. */
    ghost function Tables(): (map<string, Event>, set<string>, seq<string>, map<string, Row>, map<string, string>)
      reads this
    {
      (events, synced, arrivals, commands, index)
    }

    constructor (reliable: bool)
      ensures Valid() && this.reliable == reliable
      ensures events == map[] && synced == {} && arrivals == [] && commands == map[] && index == map[] && cursors == map[]
    {
      this.reliable := reliable;
      events, synced, arrivals, commands, index, cursors := map[], {}, [], map[], map[], map[];
    }

    /** SELECT … WHERE command_id = ? ORDER BY created_at, event_id, over the table `table`. */
    method QueryCommand(table: map<string, Event>, order: seq<string>, id: string) returns (h: seq<Event>)
      requires Keyed(table) && Unique(order) && forall k :: k in order <==> k in table
      ensures Lists(h, EventsOf(table, id))
      // The oldest event first, and among those of one moment the one with the least id.
      ensures forall i, j :: 0 <= i < j < |h| ==>
                h[i].createdAt < h[j].createdAt || (h[i].createdAt == h[j].createdAt && Lex.Less(h[i].eventId, h[j].eventId))
    {
      h := [];
      for i := 0 to |order|
        invariant Sorted(h)
        invariant Elements(h) == set k | k in order[..i] && table[k].commandId == id :: table[k]
      {
        var e := table[order[i]];
        assert order[..i+1] == order[..i] + [order[i]];
        if e.commandId == id {
          forall x | x in h ensures x.eventId != e.eventId {
            assert x in Elements(h);
            var k :| k in order[..i] && table[k] == x;
            var j :| 0 <= j < i && order[j] == k;
          }
          InsertSorted(e, h);
          InsertElements(e, h);
          h := Insert(e, h);
        }
      }
      assert order[..|order|] == order;
    }

    /** recompute: the row command `id` has in the table `table`, unless one of its events does not
        decode. */
    method Recompute(table: map<string, Event>, order: seq<string>, id: string) returns (r: Result<Row>)
      requires Keyed(table) && Unique(order) && forall k :: k in order <==> k in table
      requires EventsOf(table, id) != {}
      ensures r.Ok? ==> IsView(r.value, table, id)
      ensures r.Ok? <==> forall x :: x in EventsOf(table, id) ==> Decodes(x)
    {
      hide RowFor, NamesDevice, Replay;
      var rows := QueryCommand(table, order, id);
      assert forall x :: x in rows <==> x in Elements(rows);
      var any :| 0 <= any < |rows|;
      r := Replayed(id, rows, rows[any].deviceId);
      ListingUnique(rows, Replay(table, id));
      RowKeepsAnchor(id, rows, rows[any].deviceId);
      assert CanAnchor(rows, rows[any].deviceId);
    }

    /** appendEvent: one transaction that adds the event and rebuilds its command's row and search
        entry. The result says if the event was stored now. */
    method Append(e: Event, alreadySynced: bool) returns (r: Result<bool>)
      requires Valid()
      modifies this
      ensures Valid()
      ensures r.Ok? ==>
                && r.value == (e.eventId !in old(events)) && events == Inserted(old(events), e)
                && synced == (if r.value && alreadySynced then old(synced) + {e.eventId} else old(synced))
                && arrivals == (if r.value then old(arrivals) + [e.eventId] else old(arrivals))
                && (forall id :: id != e.commandId ==> (id in commands <==> id in old(commands)))
                && (forall id :: id in commands && id != e.commandId ==> commands[id] == old(commands)[id])
                && (!r.value ==> commands == old(commands) && index == old(index))
      ensures r.Err? ==> events == old(events) && synced == old(synced) && arrivals == old(arrivals)
                         && commands == old(commands) && index == old(index)
      ensures r.Ok? && r.value ==> Decodes(e)
      ensures reliable && (Decodes(e) || e.eventId in old(events)) ==> r.Ok?
      ensures cursors == old(cursors)
    {
      hide RowFor, NamesDevice, Replay, IsView, CommandIds, Derived, Before, Elements;
      var fails := *;
      if !reliable && fails { return Err(IoError); }
      DerivedTables(events, commands, index);
      if e.eventId in events { return Ok(false); }
      var table, order := events[e.eventId := e], arrivals + [e.eventId];
      TableGrows(events, e);
      var row := Recompute(table, order, e.commandId);
      if row.Err? { return Err(BadPayload); }
      RebuiltTables(events, commands, index, e, row.value);
      events, arrivals := table, order;
      if alreadySynced { synced := synced + {e.eventId}; }
      commands := commands[e.commandId := row.value];
      index := (index - {e.commandId})[e.commandId := row.value.command];
      return Ok(true);
    }

    /** SELECT … WHERE synced = 0 AND device_id = ? ORDER BY created_at, event_id. */
    method QueryUnsynced(device: string) returns (out: seq<Event>)
      requires Valid()
      ensures Lists(out, Pending(events, synced, device))
    {
      hide Derived, Decodes;
      DerivedTables(events, commands, index);
      out := [];
      for i := 0 to |arrivals|
        invariant Sorted(out)
        invariant Elements(out) == set k | k in arrivals[..i] && events[k].deviceId == device && k !in synced :: events[k]
      {
        var e := events[arrivals[i]];
        assert arrivals[..i+1] == arrivals[..i] + [arrivals[i]];
        if e.deviceId == device && e.eventId !in synced {
          forall x | x in out ensures x.eventId != e.eventId {
            assert x in Elements(out);
            var k :| k in arrivals[..i] && events[k] == x;
            var j :| 0 <= j < i && arrivals[j] == k;
          }
          InsertSorted(e, out);
          InsertElements(e, out);
          out := Insert(e, out);
        }
      }
      assert arrivals[..|arrivals|] == arrivals;
      assert Elements(out) == Pending(events, synced, device);
    }

    /** The first `limit` of this device's own pending events, oldest first. */
    method UnsyncedEvents(device: string, limit: int) returns (r: Result<seq<Event>>, ghost queue: seq<Event>)
      requires Valid()
      ensures Lists(queue, Pending(events, synced, device)) && |queue| == |Pending(events, synced, device)|
      ensures r.Ok? ==> var n := if limit <= 0 then 500 else limit;
                        r.value == if |queue| <= n then queue else queue[..n]
      ensures r.Ok? ==> forall i, j :: 0 <= i < j < |r.value| ==>
                || r.value[i].createdAt < r.value[j].createdAt
                || (r.value[i].createdAt == r.value[j].createdAt && Lex.Less(r.value[i].eventId, r.value[j].eventId))
      // Nothing that is left behind is older than what is taken.
      ensures r.Ok? ==> forall x, e :: x in r.value && e in Pending(events, synced, device) && e !in r.value ==>
                || x.createdAt < e.createdAt
                || (x.createdAt == e.createdAt && Lex.Less(x.eventId, e.eventId))
      ensures reliable ==> r.Ok?
    {
      hide Pending, Elements, Derived;
      var out := QueryUnsynced(device);
      queue := out;
      SortedCount(queue);
      var fails := *;
      if !reliable && fails { return Err(IoError), queue; }
      var n := if limit <= 0 then 500 else limit;
      HeadIsOldest(out, if |out| <= n then |out| else n);
      assert out[..|out|] == out;
      r := Ok(if |out| <= n then out else out[..n]);
    }

    /** The rows a device still believes are running. */
    method LiveCommands(device: string) returns (r: Result<seq<Row>>)
      requires Valid()
      ensures r.Ok? ==> (forall row :: row in r.value <==> IsLive(commands, device, row)) && DistinctRows(r.value)
      ensures reliable ==> r.Ok?
    {
      hide Keyed, IsLive;
      var fails := *;
      if !reliable && fails { return Err(IoError); }
      RowsCarryIds(events, commands, index);
      var live := LiveRows(commands, device);
      return Ok(live);
    }

    /** One transaction; ids the table does not hold change nothing. */
    method MarkSynced(ids: seq<string>) returns (r: Result<()>)
      requires Valid()
      modifies this`synced
      ensures Valid()
      ensures r.Ok? ==> synced == old(synced) + set id | id in ids && id in events
      ensures r.Err? ==> synced == old(synced)
      ensures reliable ==> r.Ok?
    {
      if ids == [] { return Ok(()); }
      var fails := *;
      if !reliable && fails { return Err(IoError); }
      var marked := synced;
      for i := 0 to |ids|
        invariant marked == old(synced) + set id | id in ids[..i] && id in events
      {
        assert ids[..i+1] == ids[..i] + [ids[i]];
        if ids[i] in events { marked := marked + {ids[i]}; }
      }
      assert ids[..|ids|] == ids;
      synced := marked;
      return Ok(());
    }

    /** An unknown peer starts from the beginning. */
    method Cursor(peer: string) returns (r: Result<int>)
      ensures r.Ok? ==> r.value == if peer in cursors then cursors[peer] else NOTHING_READ
      ensures reliable ==> r.Ok?
    {
      var fails := *;
      if !reliable && fails { return Err(IoError); }
      return Ok(if peer in cursors then cursors[peer] else NOTHING_READ);
    }

    method SaveCursor(peer: string, position: int) returns (r: Result<()>)
      modifies this`cursors
      ensures r.Ok? ==> cursors == old(cursors)[peer := position]
      ensures r.Err? ==> cursors == old(cursors)
      ensures reliable ==> r.Ok?
    {
      var fails := *;
      if !reliable && fails { return Err(IoError); }
      cursors := cursors[peer := position];
      return Ok(());
    }
  }

  // ------------------------------------------------------------- lemmas about one insertion

  lemma {:induction false} SortedCount(h: seq<Event>)
    requires Sorted(h)
    ensures |h| == |Elements(h)|
  {
    if h == [] {
      assert Elements(h) == {};
    } else {
      TailElements(h);
      SortedCount(h[1..]);
      assert h[0] in Elements(h);
    }
  }

  /** The events at the front of a listing come before all others of it. */
  lemma HeadIsOldest(h: seq<Event>, n: nat)
    requires Sorted(h) && n <= |h|
    ensures forall x, e :: x in h[..n] && e in Elements(h) && e !in h[..n] ==> Before(x, e)
  {
    assert h == h[..n] + h[n..];
    forall x, e | x in h[..n] && e in h[n..] ensures Before(x, e) {
      var i :| 0 <= i < n && h[..n][i] == x;
      var j :| 0 <= j < |h[n..]| && h[n..][j] == e;
      assert h[i] == x && h[n+j] == e;
    }
  }

  lemma TableGrows(events: map<string, Event>, e: Event)
    requires Keyed(events) && e.eventId !in events
    ensures var table := events[e.eventId := e];
            && Keyed(table)
            && CommandIds(table) == CommandIds(events) + {e.commandId}
            && EventsOf(table, e.commandId) == EventsOf(events, e.commandId) + {e}
            && (forall id :: id != e.commandId ==> EventsOf(table, id) == EventsOf(events, id))
  {
    var table := events[e.eventId := e];
    assert table[e.eventId] == e;
    forall x | x in events.Values ensures x in table.Values {
      var k :| k in events && events[k] == x;
      assert table[k] == x;
    }
  }

  lemma SameReplay(a: map<string, Event>, b: map<string, Event>, id: string)
    requires Keyed(a) && Keyed(b) && EventsOf(a, id) == EventsOf(b, id)
    ensures Replay(a, id) == Replay(b, id)
  {
    ListingUnique(Replay(a, id), Replay(b, id));
  }

  /** Rebuilding the one row an event touches keeps the whole view right. */
  lemma RebuiltTables(events: map<string, Event>, commands: map<string, Row>, index: map<string, string>,
                      e: Event, row: Row)
    requires Derived(events, commands, index) && e.eventId !in events
    requires Keyed(events[e.eventId := e]) && IsView(row, events[e.eventId := e], e.commandId)
    ensures Derived(events[e.eventId := e], commands[e.commandId := row],
                    (index - {e.commandId})[e.commandId := row.command])
  {
    hide RowFor, NamesDevice, Replay;
    var table := events[e.eventId := e];
    TableGrows(events, e);
    forall id | id in commands && id != e.commandId ensures IsView(commands[id], table, id) {
      SameReplay(events, table, id);
    }
  }

  lemma RowsCarryIds(events: map<string, Event>, commands: map<string, Row>, index: map<string, string>)
    requires Derived(events, commands, index)
    ensures forall id :: id in commands ==> commands[id].id == id
  {
    hide Replay, NamesDevice, CommandIds;
    forall id | id in commands ensures commands[id].id == id {
      assert IsView(commands[id], events, id);
    }
  }

  lemma DerivedTables(events: map<string, Event>, commands: map<string, Row>, index: map<string, string>)
    requires Derived(events, commands, index)
    ensures Keyed(events)
  {
  }

  lemma RowKeepsAnchor(id: string, h: seq<Event>, anchor: string)
    ensures RowFor(id, h, RowFor(id, h, anchor).deviceId) == RowFor(id, h, anchor)
    ensures NamesDevice(h) || RowFor(id, h, anchor).deviceId == anchor
  {
  }
}
