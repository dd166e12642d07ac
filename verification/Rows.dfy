/** What one command's row says, stated over the command's replay order (internal/store/store.go,
    `recompute`). Nothing here follows the loop: every field is read off the last event that can
    set it, so the row is a function of the events and not of how they arrived. */
module Rows {
  import opened Calendar
  import opened Events
  import Lex

  const REDACTED_MARKER := "[REDACTED]"

  datatype Status = Running | Completed | Failed | Orphaned

  datatype Row = Row(
    id: string, command: string, hostname: string, deviceId: string, sessionId: string, cwd: string,
    gitBranch: Option<string>, shell: string, startTime: int, endTime: Option<int>,
    exitCode: Option<int>, durationMs: Option<int>, status: Status, pgid: int,
    isBackground: bool, imported: bool)

  predicate IsStart(e: Event) { e.payload.Start? }
  predicate IsEnd(e: Event) { e.payload.End? }
  predicate IsImport(e: Event) { e.payload.Import? }
  predicate IsOrphan(e: Event) { e.payload.Orphan? }
  predicate IsRedact(e: Event) { e.payload.Redact? }
  predicate IsOrigin(e: Event) { e.payload.Start? || e.payload.Import? }
  predicate NamesBranch(e: Event) { e.payload.Start? && e.payload.start.gitBranch != "" }
  predicate TimesImport(e: Event) { e.payload.Import? && e.payload.imported.durationMs > 0 }

  /** The last event of `h` that satisfies `p`. */
  function LastWhere(h: seq<Event>, p: Event -> bool): Option<Event> {
    if h == [] then None
    else if p(h[|h|-1]) then Some(h[|h|-1])
    else LastWhere(h[..|h|-1], p)
  }

  predicate Any(h: seq<Event>, p: Event -> bool) {
    LastWhere(h, p).Some?
  }

  /** The device a row is filed under while no start or import has named one: some event's device,
      whichever row an unordered LIMIT 1 happens to return. */
  ghost predicate CanAnchor(h: seq<Event>, anchor: string) {
    exists e :: e in h && e.deviceId == anchor
  }

  /** True when the row's device comes from a start or an import. */
  predicate NamesDevice(h: seq<Event>) {
    match LastWhere(h, IsOrigin)
    case Some(e) => e.deviceId != ""
    case None => false
  }

  function OriginText(h: seq<Event>): string {
    match LastWhere(h, IsOrigin)
    case None => ""
    case Some(e) => if e.payload.Start? then e.payload.start.command
                    else if e.payload.Import? then e.payload.imported.command else ""
  }

  function OriginHost(h: seq<Event>): string {
    match LastWhere(h, IsOrigin)
    case None => ""
    case Some(e) => if e.payload.Start? then e.payload.start.hostname
                    else if e.payload.Import? then e.payload.imported.hostname else ""
  }

  function OriginShell(h: seq<Event>): string {
    match LastWhere(h, IsOrigin)
    case None => ""
    case Some(e) => if e.payload.Start? then e.payload.start.shell
                    else if e.payload.Import? then e.payload.imported.shell else ""
  }

  function OriginTime(h: seq<Event>): int {
    match LastWhere(h, IsOrigin)
    case None => 0
    case Some(e) => if e.payload.Start? then e.payload.start.startTime
                    else if e.payload.Import? then e.payload.imported.startTime else 0
  }

  function LastStart(h: seq<Event>): StartPayload {
    match LastWhere(h, IsStart)
    case Some(e) => if e.payload.Start? then e.payload.start else NO_START
    case None => NO_START
  }

  const NO_START := StartPayload("", "", "", "", "", "", 0, 0, false)

  function Branch(h: seq<Event>): Option<string> {
    match LastWhere(h, NamesBranch)
    case Some(e) => if e.payload.Start? then Some(e.payload.start.gitBranch) else None
    case None => None
  }

  function ImportDuration(h: seq<Event>): Option<int> {
    match LastWhere(h, TimesImport)
    case Some(e) => if e.payload.Import? then Some(e.payload.imported.durationMs) else None
    case None => None
  }

  function EndTime(h: seq<Event>): Option<int> {
    match LastWhere(h, IsEnd)
    case Some(e) => if e.payload.End? then Some(e.payload.endTime) else None
    case None => None
  }

  function ExitCode(h: seq<Event>): Option<int> {
    match LastWhere(h, IsEnd)
    case Some(e) => if e.payload.End? then Some(e.payload.exitCode) else None
    case None => None
  }

  function StatusOf(h: seq<Event>): Status {
    match ExitCode(h)
    case Some(code) => if code == 0 then Completed else Failed
    case None => if Any(h, IsOrphan) then Orphaned else if Any(h, IsImport) then Completed else Running
  }

  function RowFor(id: string, h: seq<Event>, anchor: string): Row {
    Row(id,
        if Any(h, IsRedact) then REDACTED_MARKER else OriginText(h),
        OriginHost(h),
        if NamesDevice(h) then LastWhere(h, IsOrigin).value.deviceId else anchor,
        LastStart(h).sessionId,
        LastStart(h).cwd,
        Branch(h),
        OriginShell(h),
        OriginTime(h),
        EndTime(h),
        ExitCode(h),
        if EndTime(h).Some? && OriginTime(h) > 0 then Some(EndTime(h).value - OriginTime(h)) else ImportDuration(h),
        StatusOf(h),
        LastStart(h).pgid,
        LastStart(h).isBackground,
        Any(h, IsImport))
  }

  predicate Decodes(e: Event) {
    !e.payload.Malformed?
  }

  // ------------------------------------------------------------- the row as a function of the set

  lemma {:induction false} LastWhereMember(h: seq<Event>, p: Event -> bool)
    ensures Any(h, p) <==> exists e :: e in h && p(e)
    ensures Any(h, p) ==> LastWhere(h, p).value in h && p(LastWhere(h, p).value)
  {
    if h != [] {
      var rest, last := h[..|h|-1], h[|h|-1];
      assert h == rest + [last];
      if !p(last) {
        LastWhereMember(rest, p);
        if Any(rest, p) { assert LastWhere(rest, p).value in h; }
        if e :| e in h && p(e) { assert e in rest; }
      }
    }
  }

  /** The last satisfying event of the replay is the greatest satisfying event of the set. */
  lemma {:induction false} LastWhereGreatest(h: seq<Event>, p: Event -> bool, e: Event)
    requires Sorted(h) && Any(h, p) && e in h && p(e)
    ensures e == LastWhere(h, p).value || Before(e, LastWhere(h, p).value)
  {
    var rest, last := h[..|h|-1], h[|h|-1];
    var i :| 0 <= i < |h| && h[i] == e;
    if !p(last) {
      assert rest[i] == e;
      LastWhereMember(rest, p);
      LastWhereGreatest(rest, p, e);
    }
  }

  ghost function EventsOf(events: map<string, Event>, id: string): set<Event> {
    set e | e in events.Values && e.commandId == id
  }

  /** An event table is keyed by the events' own ids. */
  ghost predicate Keyed(events: map<string, Event>) {
    forall k :: k in events ==> events[k].eventId == k
  }

  lemma KeyedDistinct(events: map<string, Event>, id: string)
    requires Keyed(events)
    ensures DistinctIds(EventsOf(events, id))
  {
    forall a, b | a in EventsOf(events, id) && b in EventsOf(events, id) && a.eventId == b.eventId ensures a == b {
      var i :| i in events && events[i] == a;
      var j :| j in events && events[j] == b;
    }
  }

  ghost function Replay(events: map<string, Event>, id: string): (h: seq<Event>)
    requires Keyed(events)
    ensures Lists(h, EventsOf(events, id))
  {
    KeyedDistinct(events, id);
    Listing(EventsOf(events, id))
  }

  /** `row` is the view of command `id` that the table `events` calls for. */
  ghost predicate IsView(row: Row, events: map<string, Event>, id: string)
    requires Keyed(events)
  {
    var h := Replay(events, id);
    row == RowFor(id, h, row.deviceId) && (NamesDevice(h) || CanAnchor(h, row.deviceId))
  }

  // ------------------------------------------------------------- what a row says, read off the events

  /** Of the events of `s` that satisfy `p`, `e` is the one with the greatest created_at, and of those
      the one with the greatest id. */
  ghost predicate Newest(e: Event, s: set<Event>, p: Event -> bool) {
    && e in s && p(e)
    && forall x :: x in s && p(x) && x != e ==>
         x.createdAt < e.createdAt || (x.createdAt == e.createdAt && Lex.Less(x.eventId, e.eventId))
  }

  lemma LastIsNewest(h: seq<Event>, s: set<Event>, p: Event -> bool)
    requires Lists(h, s)
    ensures match LastWhere(h, p)
            case Some(e) => Newest(e, s, p)
            case None => forall e :: e in s ==> !p(e)
  {
    hide LastWhere, Sorted;
    LastWhereMember(h, p);
    assert forall e :: e in h <==> e in Elements(h);
    if Any(h, p) {
      var last := LastWhere(h, p).value;
      forall x | x in s && p(x) && x != last ensures Before(x, last) {
        LastWhereGreatest(h, p, x);
      }
    }
  }

  /** How a command ended: as its latest end event says, whatever else was reported before or after it.
      Without an end event an orphan event decides, and without that an import. */
  lemma OutcomeOfView(row: Row, events: map<string, Event>, id: string)
    requires Keyed(events) && IsView(row, events, id)
    ensures var s := EventsOf(events, id);
            && (forall e :: Newest(e, s, IsEnd) ==>
                  && row.exitCode == Some(e.payload.exitCode) && row.endTime == Some(e.payload.endTime)
                  && row.status == (if e.payload.exitCode == 0 then Completed else Failed)
                  && (row.startTime > 0 ==> row.durationMs == Some(e.payload.endTime - row.startTime)))
            && ((exists e :: e in s && e.payload.End?) ==> exists e :: Newest(e, s, IsEnd))
            && ((forall e :: e in s ==> !e.payload.End?) ==>
                  && row.exitCode == None && row.endTime == None
                  && (row.status == Orphaned <==> exists e :: e in s && e.payload.Orphan?)
                  && (row.status == Completed <==> (exists e :: e in s && e.payload.Import?) && forall e :: e in s ==> !e.payload.Orphan?)
                  && row.status != Failed)
            && (row.imported <==> exists e :: e in s && e.payload.Import?)
  {
    hide LastWhere, Sorted, Replay;
    var s, h := EventsOf(events, id), Replay(events, id);
    LastIsNewest(h, s, IsEnd);
    LastIsNewest(h, s, IsOrphan);
    LastIsNewest(h, s, IsImport);
    forall e | Newest(e, s, IsEnd) ensures LastWhere(h, IsEnd) == Some(e) {
      OneNewest(s, IsEnd, e, LastWhere(h, IsEnd).value);
    }
  }

  lemma OneNewest(s: set<Event>, p: Event -> bool, a: Event, b: Event)
    requires Newest(a, s, p) && Newest(b, s, p)
    ensures a == b
  {
    if a != b { Lex.Asymmetric(a.eventId, b.eventId); }
  }

  /** Whose command it was and what it said: the latest start or import tells, unless it was redacted. */
  lemma OriginOfView(row: Row, events: map<string, Event>, id: string)
    requires Keyed(events) && IsView(row, events, id)
    ensures var s := EventsOf(events, id);
            && row.id == id
            && ((exists e :: e in s && e.payload.Redact?) ==> row.command == REDACTED_MARKER)
            && (forall e :: Newest(e, s, IsOrigin) && e.payload.Start? ==>
                  && ((forall x :: x in s ==> !x.payload.Redact?) ==> row.command == e.payload.start.command)
                  && row.hostname == e.payload.start.hostname && row.shell == e.payload.start.shell
                  && row.startTime == e.payload.start.startTime)
            && (forall e :: Newest(e, s, IsOrigin) && e.payload.Import? ==>
                  && ((forall x :: x in s ==> !x.payload.Redact?) ==> row.command == e.payload.imported.command)
                  && row.hostname == e.payload.imported.hostname && row.shell == e.payload.imported.shell
                  && row.startTime == e.payload.imported.startTime)
            && (forall e :: Newest(e, s, IsOrigin) && e.deviceId != "" ==> row.deviceId == e.deviceId)
            && (exists e :: e in s && e.deviceId == row.deviceId)
            && ((exists e :: e in s && (e.payload.Start? || e.payload.Import?)) ==> exists e :: Newest(e, s, IsOrigin))
  {
    hide LastWhere, Sorted, Replay;
    var s, h := EventsOf(events, id), Replay(events, id);
    assert forall e :: e in h <==> e in Elements(h);
    LastIsNewest(h, s, IsOrigin);
    LastIsNewest(h, s, IsRedact);
    forall e | Newest(e, s, IsOrigin) ensures LastWhere(h, IsOrigin) == Some(e) {
      OneNewest(s, IsOrigin, e, LastWhere(h, IsOrigin).value);
    }
  }

  /** Where it ran: the latest start tells the session, directory and process group, the latest start
      that names a branch the branch. While there is no end, or no start time to count from, the latest
      import that has a duration supplies it. */
  lemma SessionOfView(row: Row, events: map<string, Event>, id: string)
    requires Keyed(events) && IsView(row, events, id)
    ensures var s := EventsOf(events, id);
            && (forall e :: Newest(e, s, IsStart) ==>
                  && row.sessionId == e.payload.start.sessionId && row.cwd == e.payload.start.cwd
                  && row.pgid == e.payload.start.pgid && row.isBackground == e.payload.start.isBackground)
            && (forall e :: Newest(e, s, NamesBranch) ==> row.gitBranch == Some(e.payload.start.gitBranch))
            && (row.gitBranch.Some? <==> exists e :: e in s && e.payload.Start? && e.payload.start.gitBranch != "")
            && (row.endTime == None || row.startTime <= 0 ==>
                  && (forall e :: Newest(e, s, TimesImport) ==> row.durationMs == Some(e.payload.imported.durationMs))
                  && (row.durationMs.Some? <==> exists e :: e in s && e.payload.Import? && e.payload.imported.durationMs > 0))
  {
    hide LastWhere, Sorted, Replay;
    var s, h := EventsOf(events, id), Replay(events, id);
    LastIsNewest(h, s, IsStart);
    LastIsNewest(h, s, NamesBranch);
    LastIsNewest(h, s, TimesImport);
    forall e | Newest(e, s, IsStart) ensures LastWhere(h, IsStart) == Some(e) {
      OneNewest(s, IsStart, e, LastWhere(h, IsStart).value);
    }
    forall e | Newest(e, s, NamesBranch) ensures LastWhere(h, NamesBranch) == Some(e) {
      OneNewest(s, NamesBranch, e, LastWhere(h, NamesBranch).value);
    }
    forall e | Newest(e, s, TimesImport) ensures LastWhere(h, TimesImport) == Some(e) {
      OneNewest(s, TimesImport, e, LastWhere(h, TimesImport).value);
    }
  }

  ghost function CommandIds(events: map<string, Event>): set<string> {
    set e | e in events.Values :: e.commandId
  }

  /** The derived tables agree with the event table: one row per command, each the view of its
      events, and exactly one search entry per row, holding that row's current text. */
  ghost predicate Derived(events: map<string, Event>, commands: map<string, Row>, index: map<string, string>) {
    && Keyed(events)
    && commands.Keys == CommandIds(events)
    && (forall id :: id in commands ==> IsView(commands[id], events, id))
    && index.Keys == commands.Keys
    && (forall id :: id in index ==> index[id] == commands[id].command)
  }

  lemma AnchorOnlySetsDevice(id: string, h: seq<Event>, a: string, b: string)
    ensures RowFor(id, h, a) == RowFor(id, h, b).(deviceId := RowFor(id, h, a).deviceId)
    ensures NamesDevice(h) ==> RowFor(id, h, a) == RowFor(id, h, b)
  {
  }

  /** Two devices holding the same events show the same rows and find the same text: every field of
      every row agrees, except the device of a row that no start or import has named one for. */
  lemma SameEventsSameViews(events: map<string, Event>, rowsA: map<string, Row>, indexA: map<string, string>,
                            rowsB: map<string, Row>, indexB: map<string, string>)
    requires Derived(events, rowsA, indexA) && Derived(events, rowsB, indexB)
    ensures rowsA.Keys == rowsB.Keys && indexA == indexB
    ensures forall id :: id in rowsA ==> rowsA[id] == rowsB[id].(deviceId := rowsA[id].deviceId)
    ensures forall id :: id in rowsA && NamesDevice(Replay(events, id)) ==> rowsA[id] == rowsB[id]
  {
    hide RowFor, Replay, NamesDevice, CommandIds;
    forall id | id in rowsA
      ensures rowsA[id] == rowsB[id].(deviceId := rowsA[id].deviceId)
      ensures NamesDevice(Replay(events, id)) ==> rowsA[id] == rowsB[id]
    {
      assert IsView(rowsA[id], events, id) && IsView(rowsB[id], events, id);
      AnchorOnlySetsDevice(id, Replay(events, id), rowsA[id].deviceId, rowsB[id].deviceId);
    }
  }

  /** The exact condition for the device field: every view of a command names one device if and only
      if a start or import names it, or all of the command's events come from one device. */
  lemma DeviceFieldDetermined(events: map<string, Event>, id: string)
    requires Keyed(events) && id in CommandIds(events)
    ensures (forall x: Row, y: Row :: IsView(x, events, id) && IsView(y, events, id) ==> x.deviceId == y.deviceId)
        <==> NamesDevice(Replay(events, id))
             || (forall a, b :: a in EventsOf(events, id) && b in EventsOf(events, id) ==> a.deviceId == b.deviceId)
  {
    var h := Replay(events, id);
    assert forall e :: e in EventsOf(events, id) <==> e in Elements(h);
    if !NamesDevice(h) {
      forall a, b | a in EventsOf(events, id) && b in EventsOf(events, id)
        && (forall x: Row, y: Row :: IsView(x, events, id) && IsView(y, events, id) ==> x.deviceId == y.deviceId)
        ensures a.deviceId == b.deviceId
      {
        assert a in h && b in h;
        assert IsView(RowFor(id, h, a.deviceId), events, id);
        assert IsView(RowFor(id, h, b.deviceId), events, id);
      }
    }
  }

  // ------------------------------------------------------------- what more events can do to a row

  /** How settled a row is: running, then known only from an import, then orphaned, then ended. */
  function Rank(row: Row): nat {
    if row.exitCode.Some? then 3
    else if row.status == Orphaned then 2
    else if row.status == Completed then 1
    else 0
  }

  lemma RowRank(id: string, h: seq<Event>, anchor: string)
    ensures Rank(RowFor(id, h, anchor)) ==
            if exists e :: e in h && IsEnd(e) then 3
            else if exists e :: e in h && IsOrphan(e) then 2
            else if exists e :: e in h && IsImport(e) then 1
            else 0
  {
    LastWhereMember(h, IsEnd);
    LastWhereMember(h, IsOrphan);
    LastWhereMember(h, IsImport);
  }

  ghost predicate Extends(after: map<string, Event>, before: map<string, Event>) {
    forall k :: k in before ==> k in after && after[k] == before[k]
  }

  /** Adding events never unsettles a row, and a redacted text never comes back. */
  lemma RowsOnlySettle(before: map<string, Event>, after: map<string, Event>, id: string, x: Row, y: Row)
    requires Keyed(before) && Keyed(after) && Extends(after, before)
    requires id in CommandIds(before)
    requires IsView(x, before, id) && IsView(y, after, id)
    ensures Rank(x) <= Rank(y)
    ensures (exists e :: e in EventsOf(before, id) && IsRedact(e)) ==> x.command == y.command == REDACTED_MARKER
  {
    var g, h := Replay(before, id), Replay(after, id);
    forall e | e in g ensures e in h {
      assert e in Elements(g);
      var k :| k in before && before[k] == e;
      assert after[k] == e;
      assert e in Elements(h);
    }
    RowRank(id, g, x.deviceId);
    RowRank(id, h, y.deviceId);
    if e :| e in EventsOf(before, id) && IsRedact(e) {
      assert e in Elements(g) && e in g && e in h;
      LastWhereMember(g, IsRedact);
      LastWhereMember(h, IsRedact);
    }
  }

  /** The same for whole tables: over any run that only adds events, no row disappears or unsettles,
      and neither a row nor its search entry ever shows a redacted text again. */
  lemma TablesOnlySettle(before: map<string, Event>, rowsBefore: map<string, Row>, indexBefore: map<string, string>,
                         after: map<string, Event>, rowsAfter: map<string, Row>, indexAfter: map<string, string>, id: string)
    requires Derived(before, rowsBefore, indexBefore) && Derived(after, rowsAfter, indexAfter)
    requires Extends(after, before) && id in rowsBefore
    ensures id in rowsAfter && Rank(rowsBefore[id]) <= Rank(rowsAfter[id])
    ensures (exists e :: e in EventsOf(before, id) && IsRedact(e)) ==>
              rowsAfter[id].command == indexAfter[id] == REDACTED_MARKER
  {
    hide IsView, Rank;
    var e :| e in before.Values && e.commandId == id;
    var k :| k in before && before[k] == e;
    assert after[k] == e;
    RowsOnlySettle(before, after, id, rowsBefore[id], rowsAfter[id]);
  }

  /** What the replay reads off the last event of some kind is untouched by events of other kinds. */
  lemma OtherKindsKeepLast(g: seq<Event>, h: seq<Event>, e: Event, p: Event -> bool)
    requires Sorted(g) && Sorted(h) && Elements(h) == Elements(g) + {e} && !p(e)
    ensures LastWhere(g, p) == LastWhere(h, p)
  {
    hide LastWhere, Sorted;
    assert forall x :: x in g <==> x in Elements(g);
    assert forall x :: x in h <==> x in Elements(h);
    LastWhereMember(g, p);
    LastWhereMember(h, p);
    assert forall x :: p(x) ==> (x in g <==> x in h);
    if Any(g, p) {
      var a, b := LastWhere(g, p).value, LastWhere(h, p).value;
      LastWhereGreatest(g, p, b);
      LastWhereGreatest(h, p, a);
      if a != b { BeforeAsymmetric(a, b); }
    }
  }

  /** Only a start, an import or a redact can change a row's text. */
  lemma TextChangesOnlyBy(before: map<string, Event>, e: Event, x: Row, y: Row)
    requires Keyed(before) && e.eventId !in before && e.commandId in CommandIds(before)
    requires Keyed(before[e.eventId := e])
    requires IsView(x, before, e.commandId) && IsView(y, before[e.eventId := e], e.commandId)
    requires !IsOrigin(e) && !IsRedact(e)
    ensures x.command == y.command
  {
    hide LastWhere, Sorted, Replay;
    var after := before[e.eventId := e];
    var g, h := Replay(before, e.commandId), Replay(after, e.commandId);
    forall k | k in before ensures after[k] == before[k] {
    }
    assert after[e.eventId] == e;
    assert EventsOf(after, e.commandId) == EventsOf(before, e.commandId) + {e};
    OtherKindsKeepLast(g, h, e, IsOrigin);
    OtherKindsKeepLast(g, h, e, IsRedact);
  }
}
