/** The event log's entries (internal/event/event.go) and the order every replay uses:
    created_at, then event_id. */
module Events {
  import opened Lex
  import opened Calendar

  datatype StartPayload = StartPayload(
    command: string, hostname: string, sessionId: string, cwd: string, gitBranch: string,
    shell: string, startTime: int, pgid: int, isBackground: bool)

  datatype ImportPayload = ImportPayload(
    command: string, hostname: string, shell: string, startTime: int, durationMs: int)

  /** A payload as the replay reads it. `Malformed` is a start, end or import whose JSON does not
      decode; an orphan's or a redact's payload is never decoded; `Other` is a type the replay does
      not know. */
  datatype Payload =
    | Start(start: StartPayload)
    | End(endTime: int, exitCode: int)
    | Import(imported: ImportPayload)
    | Orphan
    | Redact
    | Other(typ: string)
    | Malformed(typ: string)

  datatype Event = Event(eventId: string, commandId: string, deviceId: string, payload: Payload, createdAt: int)

  predicate Before(a: Event, b: Event) {
    a.createdAt < b.createdAt || (a.createdAt == b.createdAt && Less(a.eventId, b.eventId))
  }

  lemma BeforeTransitive(a: Event, b: Event, c: Event)
    requires Before(a, b) && Before(b, c)
    ensures Before(a, c)
  {
    if a.createdAt == b.createdAt == c.createdAt { Transitive(a.eventId, b.eventId, c.eventId); }
  }

  lemma BeforeAsymmetric(a: Event, b: Event)
    requires Before(a, b)
    ensures !Before(b, a)
  {
    if a.createdAt == b.createdAt { Asymmetric(a.eventId, b.eventId); }
  }

  lemma BeforeIrreflexive(a: Event)
    ensures !Before(a, a)
  {
    Irreflexive(a.eventId);
  }

  lemma BeforeTotal(a: Event, b: Event)
    ensures Before(a, b) || Before(b, a) || a.eventId == b.eventId
  {
    Trichotomy(a.eventId, b.eventId);
  }

  /** No two events share an id: `event_id` is the table's primary key. */
  ghost predicate DistinctIds(s: set<Event>) {
    forall a, b :: a in s && b in s && a.eventId == b.eventId ==> a == b
  }

  predicate Sorted(h: seq<Event>) {
    forall i, j :: 0 <= i < j < |h| ==> Before(h[i], h[j])
  }

  function Elements(h: seq<Event>): set<Event> {
    set e | e in h
  }

  /** `h` is what ORDER BY created_at, event_id returns for the rows `s`. */
  ghost predicate Lists(h: seq<Event>, s: set<Event>) {
    Sorted(h) && Elements(h) == s
  }

  function Insert(e: Event, h: seq<Event>): seq<Event> {
    if h == [] then [e]
    else if Before(h[0], e) then [h[0]] + Insert(e, h[1..])
    else [e] + h
  }

  lemma {:induction false} InsertElements(e: Event, h: seq<Event>)
    ensures Elements(Insert(e, h)) == Elements(h) + {e}
    ensures |Insert(e, h)| == |h| + 1
  {
    if h != [] && Before(h[0], e) {
      InsertElements(e, h[1..]);
      assert h == [h[0]] + h[1..];
      assert Elements(h) == {h[0]} + Elements(h[1..]);
      assert Elements(Insert(e, h)) == {h[0]} + Elements(Insert(e, h[1..]));
    }
  }

  lemma {:induction false} InsertSorted(e: Event, h: seq<Event>)
    requires Sorted(h) && forall x :: x in h ==> x.eventId != e.eventId
    ensures Sorted(Insert(e, h))
  {
    if h == [] {
    } else if Before(h[0], e) {
      var t := Insert(e, h[1..]);
      InsertSorted(e, h[1..]);
      InsertElements(e, h[1..]);
      forall j | 0 <= j < |t| ensures Before(h[0], t[j]) {
        assert t[j] in Elements(t);
        if t[j] != e {
          assert t[j] in Elements(h[1..]);
          var k :| 0 <= k < |h[1..]| && h[1..][k] == t[j];
          assert h[k+1] == t[j];
        }
      }
    } else {
      BeforeTotal(h[0], e);
      forall j | 0 <= j < |h| ensures Before(e, h[j]) {
        if j > 0 { BeforeTransitive(e, h[0], h[j]); }
      }
    }
  }

  /** The rows `s` in replay order. */
  ghost function Listing(s: set<Event>): (h: seq<Event>)
    requires DistinctIds(s)
    ensures Lists(h, s) && |h| == |s|
    decreases |s|
  {
    if s == {} then []
    else
      var e :| e in s;
      var h := Listing(s - {e});
      assert forall x :: x in h ==> x in Elements(h);
      InsertSorted(e, h);
      InsertElements(e, h);
      Insert(e, h)
  }

  /** Replay order is a function of the set: whatever order the rows arrived in, ORDER BY returns
      one sequence. */
  lemma {:induction false} ListingUnique(a: seq<Event>, b: seq<Event>)
    requires Sorted(a) && Sorted(b) && Elements(a) == Elements(b)
    ensures a == b
  {
    if a == [] {
      EmptyElements(b);
    } else {
      assert a[0] in Elements(b) && b != [];
      assert b[0] in Elements(a);
      var i :| 0 <= i < |b| && b[i] == a[0];
      var j :| 0 <= j < |a| && a[j] == b[0];
      if i > 0 && j > 0 { BeforeTransitive(b[0], b[i], b[0]); }
      BeforeIrreflexive(b[0]);
      assert a[0] == b[0];
      TailElements(a);
      TailElements(b);
      ListingUnique(a[1..], b[1..]);
      assert a == [a[0]] + a[1..] && b == [b[0]] + b[1..];
    }
  }

  lemma EmptyElements(h: seq<Event>)
    ensures h == [] <==> Elements(h) == {}
  {
    if h != [] { assert h[0] in Elements(h); }
  }

  lemma TailElements(a: seq<Event>)
    requires Sorted(a) && a != []
    ensures Elements(a[1..]) == Elements(a) - {a[0]} && Sorted(a[1..])
  {
    BeforeIrreflexive(a[0]);
    assert a == [a[0]] + a[1..];
    forall x | x in a[1..] ensures x != a[0] {
      var k :| 0 <= k < |a[1..]| && a[1..][k] == x;
      assert a[k+1] == x;
    }
  }
}
