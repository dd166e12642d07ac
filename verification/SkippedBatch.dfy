/** H is needed: one push stopped between its two Puts, and a clock that then steps back, make a
    reader skip a batch — and a skipped batch is never read. */
module SkippedBatch {
  import opened Calendar
  import opened BatchKeys
  import opened Events
  import opened Rows
  import opened Store
  import opened Protocol
  import opened WriterSafety
  import opened ReaderSafety

  // ------------------------------------------------------------- runs in longer strides

  function Ids(batch: seq<Event>): set<string> {
    set e | e in batch :: e.eventId
  }

  /** An idle device, whose queue starts with `batch`, with its key made in millisecond `now`. */
  ghost predicate CanPush(w: World, d: string, batch: seq<Event>) {
    && d in w.nodes && w.nodes[d].phase == Idle && batch != []
    && IsHead(batch, Pending(w.nodes[d].events, w.nodes[d].synced, d))
    && forall e :: e in batch ==> e.eventId in w.nodes[d].events
  }

  ghost function AfterTornPush(w: World, d: string, batch: seq<Event>, now: nat, suffix: Suffix): World
    requires CanPush(w, d, batch)
  {
    World(w.nodes[d := w.nodes[d].(clock := now)],
          w.batches[Object(d, NextPosition(now, Latest(w, d), suffix)) := batch], w.manifests)
  }

  ghost function AfterPush(w: World, d: string, batch: seq<Event>, now: nat, suffix: Suffix): World
    requires CanPush(w, d, batch)
  {
    var key := NextPosition(now, Latest(w, d), suffix);
    World(w.nodes[d := w.nodes[d].(clock := now, synced := w.nodes[d].synced + Ids(batch))],
          w.batches[Object(d, key) := batch], w.manifests[d := key])
  }

  lemma UploadRun(init: World, w: World, d: string, batch: seq<Event>, now: nat, suffix: Suffix) returns (mid: World)
    requires Reaches(Nothing, init, w) && CanPush(w, d, batch)
    ensures var key := NextPosition(now, Latest(w, d), suffix);
            mid == World(w.nodes[d := w.nodes[d].(clock := now, phase := Protocol.Uploaded(batch, key))],
                         w.batches[Object(d, key) := batch], w.manifests)
    ensures Reaches(Nothing, init, mid)
  {
    hide Reaches, IsHead;
    var w1 := Next(w, Collect(d, batch));
    ReachesStep(Nothing, init, w, Collect(d, batch), w1);
    var w2 := Next(w1, Name(d, now, suffix));
    ReachesStep(Nothing, init, w1, Name(d, now, suffix), w2);
    mid := Next(w2, PutBatch(d));
    ReachesStep(Nothing, init, w2, PutBatch(d), mid);
  }

  lemma TornPushRun(init: World, w: World, d: string, batch: seq<Event>, now: nat, suffix: Suffix)
    requires Reaches(Nothing, init, w) && CanPush(w, d, batch)
    ensures Reaches(Nothing, init, AfterTornPush(w, d, batch, now, suffix))
  {
    hide Reaches, IsHead, CanPush;
    var mid := UploadRun(init, w, d, batch, now, suffix);
    assert w.nodes[d].phase == Idle by { OpenCanPush(w, d, batch); }
    ReachesStep(Nothing, init, mid, Crash(d), Next(mid, Crash(d)));
    assert Next(mid, Crash(d)) == AfterTornPush(w, d, batch, now, suffix);
  }

  lemma OpenCanPush(w: World, d: string, batch: seq<Event>)
    requires CanPush(w, d, batch)
    ensures d in w.nodes && w.nodes[d].phase == Idle && forall e :: e in batch ==> e.eventId in w.nodes[d].events
  {
  }

  lemma PushRun(init: World, w: World, d: string, batch: seq<Event>, now: nat, suffix: Suffix)
    requires Reaches(Nothing, init, w) && CanPush(w, d, batch)
    ensures Reaches(Nothing, init, AfterPush(w, d, batch, now, suffix))
  {
    hide Reaches, IsHead, CanPush;
    OpenCanPush(w, d, batch);
    var mid := UploadRun(init, w, d, batch, now, suffix);
    var w1 := Next(mid, PutManifest(d));
    ReachesStep(Nothing, init, mid, PutManifest(d), w1);
    var w2 := Next(w1, Mark(d));
    ReachesStep(Nothing, init, w1, Mark(d), w2);
    assert (set e | e in batch && e.eventId in w.nodes[d].events :: e.eventId) == Ids(batch);
    assert w2 == AfterPush(w, d, batch, now, suffix);
  }

  /** Reading the next listed batch, when it holds one event that is new here. */
  lemma ReadOneRun(init: World, w: World, r: string, peer: string, at: int, keys: seq<nat>, e: Event) returns (w': World)
    requires Reaches(Nothing, init, w) && r in w.nodes && keys != []
    requires w.nodes[r].phase == Reading(peer, at, keys)
    requires Object(peer, keys[0]) in w.batches && w.batches[Object(peer, keys[0])] == [e]
    requires e.eventId !in w.nodes[r].events && Decodes(e)
    ensures Reaches(Nothing, init, w')
    ensures var n := w.nodes[r];
            w' == w.(nodes := w.nodes[r := n.(events := n.events[e.eventId := e], synced := n.synced + {e.eventId},
                                              phase := Reading(peer, keys[0], keys[1..]))])
  {
    hide Reaches;
    var w1 := Next(w, Fetch(r));
    ReachesStep(Nothing, init, w, Fetch(r), w1);
    var w2 := Next(w1, Apply(r));
    ReachesStep(Nothing, init, w1, Apply(r), w2);
    w' := Next(w2, Advance(r));
    ReachesStep(Nothing, init, w2, Advance(r), w');
  }

  // ------------------------------------------------------------- the run

  /** The players: writer `a`, reader `b`, and three of a's events. */
  ghost predicate Cast(a: string, b: string, e1: Event, e2: Event, e3: Event) {
    && a != b
    && e1.deviceId == e2.deviceId == e3.deviceId == a
    && e1.eventId != e2.eventId && e1.eventId != e3.eventId && e2.eventId != e3.eventId
    && Decodes(e1) && Decodes(e2) && Decodes(e3) && Before(e2, e3)
  }

  const FRESH := Node(map[], {}, map[], Idle, -1)

  ghost function Start(a: string, b: string): World {
    World(map[a := FRESH, b := FRESH], map[], map[])
  }

  /** What a's clock and random source return at its three pushes. */
  datatype Readings = Readings(n0: nat, s0: Suffix, n1: nat, s1: Suffix, n2: nat, s2: Suffix)

  /** The keys of the three pushes: the second is torn, so the third is named after the first. */
  function K0(r: Readings): nat { NextPosition(r.n0, None, r.s0) }
  function K1(r: Readings): nat { NextPosition(r.n1, Some(K0(r)), r.s1) }
  function K2(r: Readings): nat { NextPosition(r.n2, Some(K0(r)), r.s2) }

  lemma SingleHead(e: Event, pending: set<Event>)
    requires pending == {e}
    ensures IsHead([e], pending)
  {
    assert Lists([e], pending);
  }

  lemma PairHead(x: Event, y: Event, pending: set<Event>)
    requires pending == {x, y} && Before(x, y)
    ensures IsHead([x, y], pending)
  {
    assert Lists([x, y], pending);
  }

  /** `n` is the writer, idle, with the events `own`, of which `done` are synced. */
  ghost predicate Writer(n: Node, own: set<Event>, done: set<Event>) {
    && n.phase == Idle && Keyed(n.events) && n.events.Values == own
    && n.synced == set e | e in done :: e.eventId
  }

  lemma Record(init: World, w: World, a: string, own: set<Event>, done: set<Event>, e: Event) returns (w': World)
    requires Reaches(Nothing, init, w) && a in w.nodes && Writer(w.nodes[a], own, done) && Decodes(e)
    requires forall x :: x in own ==> x.eventId != e.eventId
    ensures Reaches(Nothing, init, w')
    ensures a in w'.nodes && w' == w.(nodes := w.nodes[a := w'.nodes[a]]) && Writer(w'.nodes[a], own + {e}, done)
  {
    hide Reaches;
    var n := w.nodes[a];
    w' := Next(w, Append(a, e));
    forall k | k in n.events ensures k != e.eventId {
      assert n.events[k] in n.events.Values;
    }
    ReachesStep(Nothing, init, w, Append(a, e), w');
    var events := w'.nodes[a].events;
    assert events[e.eventId] == e;
    forall x | x in own ensures x in events.Values {
      var k :| k in n.events && n.events[k] == x;
      assert events[k] == x;
    }
    assert events.Values == own + {e};
  }

  lemma PendingOf(n: Node, own: set<Event>, done: set<Event>, a: string)
    requires Writer(n, own, done) && done <= own && forall e :: e in own ==> e.deviceId == a
    ensures Pending(n.events, n.synced, a) == own - done
    ensures forall e :: e in own ==> e.eventId in n.events
  {
    forall e | e in own ensures e.eventId in n.events && n.events[e.eventId] == e {
      var k :| k in n.events && n.events[k] == e;
    }
  }

  /** What the run has come to: the writer's and the reader's tables, the stored batches and the
      manifest. */
  ghost predicate Stage(w: World, a: string, b: string, own: set<Event>, done: set<Event>, reader: Node,
                        batches: map<Object, seq<Event>>, manifest: nat) {
    && w.nodes.Keys == {a, b} && Writer(w.nodes[a], own, done) && w.nodes[b] == reader
    && w.batches == batches && w.manifests == map[a := manifest]
  }

  /** a records and publishes e1. */
  lemma FirstPush(a: string, b: string, e1: Event, e2: Event, e3: Event, r: Readings) returns (w: World)
    requires Cast(a, b, e1, e2, e3)
    ensures Reaches(Nothing, Start(a, b), w)
    ensures Stage(w, a, b, {e1}, {e1}, FRESH, map[Object(a, K0(r)) := [e1]], K0(r))
  {
    hide Reaches, IsHead, NextPosition;
    var init := Start(a, b);
    ReachesSelf(Nothing, init);
    assert Writer(init.nodes[a], {}, {});
    var w1 := Record(init, init, a, {}, {}, e1);
    assert {} + {e1} == {e1};
    PendingOf(w1.nodes[a], {e1}, {}, a);
    SingleHead(e1, Pending(w1.nodes[a].events, w1.nodes[a].synced, a));
    PushRun(init, w1, a, [e1], r.n0, r.s0);
    w := AfterPush(w1, a, [e1], r.n0, r.s0);
    assert Ids([e1]) == {e1.eventId};
  }

  /** a records e2 and stops between the two Puts. */
  lemma TornPush(a: string, b: string, e1: Event, e2: Event, e3: Event, r: Readings) returns (w: World)
    requires Cast(a, b, e1, e2, e3)
    ensures Reaches(Nothing, Start(a, b), w)
    ensures Stage(w, a, b, {e1, e2}, {e1}, FRESH, map[Object(a, K0(r)) := [e1], Object(a, K1(r)) := [e2]], K0(r))
  {
    hide Reaches, IsHead, NextPosition;
    var init := Start(a, b);
    var w0 := FirstPush(a, b, e1, e2, e3, r);
    var w1 := Record(init, w0, a, {e1}, {e1}, e2);
    assert {e1} + {e2} == {e1, e2} && {e1, e2} - {e1} == {e2};
    PendingOf(w1.nodes[a], {e1, e2}, {e1}, a);
    SingleHead(e2, Pending(w1.nodes[a].events, w1.nodes[a].synced, a));
    TornPushRun(init, w1, a, [e2], r.n1, r.s1);
    w := AfterTornPush(w1, a, [e2], r.n1, r.s1);
    assert w.batches == map[Object(a, K0(r)) := [e1], Object(a, K1(r)) := [e2]];
  }

  /** b reads both batches, so its cursor stands beyond a's manifest. */
  lemma ReadPastManifest(a: string, b: string, e1: Event, e2: Event, e3: Event, r: Readings) returns (w: World, reader: Node)
    requires Cast(a, b, e1, e2, e3)
    ensures Reaches(Nothing, Start(a, b), w)
    ensures Stage(w, a, b, {e1, e2}, {e1}, reader, map[Object(a, K0(r)) := [e1], Object(a, K1(r)) := [e2]], K0(r))
    ensures reader.phase == Idle && reader.events.Keys == {e1.eventId, e2.eventId} && reader.cursors == map[a := K1(r)]
    ensures reader.events[e1.eventId] == e1 && reader.events[e2.eventId] == e2
  {
    hide Reaches, Writer, NextPosition;
    var init := Start(a, b);
    var w0 := TornPush(a, b, e1, e2, e3, r);
    var w1 := Next(w0, Poll(b, a));
    ReachesStep(Nothing, init, w0, Poll(b, a), w1);
    var keys: seq<nat> := [K0(r), K1(r)];
    assert keys[0] == K0(r) && keys[1] == K1(r) && keys[1..] == [K1(r)];
    assert IsListing(keys, w1.batches, a, NOTHING_READ);
    var w2 := Next(w1, List(b, keys));
    ReachesStep(Nothing, init, w1, List(b, keys), w2);
    var w3 := ReadOneRun(init, w2, b, a, NOTHING_READ, keys, e1);
    var w4 := ReadOneRun(init, w3, b, a, K0(r), [K1(r)], e2);
    w := Next(w4, Save(b));
    ReachesStep(Nothing, init, w4, Save(b), w);
    reader := w.nodes[b];
    assert w.nodes[a] == w0.nodes[a];
  }

  /** What the third push leaves: e3 published under the third key, and b's cursor at the second. */
  ghost predicate Aftermath(w: World, a: string, b: string, e1: Event, e2: Event, e3: Event, r: Readings) {
    && w.nodes.Keys == {a, b} && w.nodes[a].phase == Idle && w.nodes[b].phase == Idle
    && w.batches == map[Object(a, K0(r)) := [e1], Object(a, K1(r)) := [e2]][Object(a, K2(r)) := [e2, e3]]
    && w.manifests == map[a := K2(r)] && e3.eventId in w.nodes[a].synced
    && w.nodes[b].events.Keys == {e1.eventId, e2.eventId} && w.nodes[b].events[e2.eventId] == e2
    && w.nodes[b].cursors == map[a := K1(r)]
  }

  lemma ThirdPush(a: string, b: string, e1: Event, e2: Event, e3: Event, r: Readings) returns (w: World)
    requires Cast(a, b, e1, e2, e3)
    ensures Reaches(Nothing, Start(a, b), w) && Aftermath(w, a, b, e1, e2, e3, r)
  {
    hide Reaches, IsHead, WriterInv, NextPosition;
    var init := Start(a, b);
    var w0, reader := ReadPastManifest(a, b, e1, e2, e3, r);
    var w1 := Record(init, w0, a, {e1, e2}, {e1}, e3);
    assert {e1, e2} + {e3} == {e1, e2, e3} && {e1, e2, e3} - {e1} == {e2, e3};
    PendingOf(w1.nodes[a], {e1, e2, e3}, {e1}, a);
    PairHead(e2, e3, Pending(w1.nodes[a].events, w1.nodes[a].synced, a));
    PushRun(init, w1, a, [e2, e3], r.n2, r.s2);
    w := AfterPush(w1, a, [e2, e3], r.n2, r.s2);
    assert [e2, e3][1] == e3 && e3 in [e2, e3];
  }

  lemma ListThird(init: World, w: World, a: string, b: string, e1: Event, e2: Event, e3: Event, r: Readings) returns (w': World)
    requires Cast(a, b, e1, e2, e3) && Reaches(Nothing, init, w) && Aftermath(w, a, b, e1, e2, e3, r) && K2(r) > K1(r)
    ensures Reaches(Nothing, init, w') && b in w'.nodes && w'.batches == w.batches
    ensures w'.nodes[b] == w.nodes[b].(phase := Reading(a, K1(r), [K2(r)]))
  {
    hide Reaches, NextPosition;
    var w1 := Next(w, Poll(b, a));
    ReachesStep(Nothing, init, w, Poll(b, a), w1);
    var keys: seq<nat> := [K2(r)];
    assert keys[0] == K2(r);
    assert IsListing(keys, w1.batches, a, K1(r));
    w' := Next(w1, List(b, keys));
    ReachesStep(Nothing, init, w1, List(b, keys), w');
  }

  lemma ApplyPair(init: World, w: World, b: string, peer: string, at: int, key: nat, x: Event, y: Event) returns (w': World)
    requires Reaches(Nothing, init, w) && b in w.nodes && w.nodes[b].phase == Reading(peer, at, [key])
    requires Object(peer, key) in w.batches && w.batches[Object(peer, key)] == [x, y]
    requires x.eventId in w.nodes[b].events && Decodes(y)
    ensures Reaches(Nothing, init, w') && b in w'.nodes && y.eventId in w'.nodes[b].events
  {
    hide Reaches;
    var w3 := Next(w, Fetch(b));
    ReachesStep(Nothing, init, w, Fetch(b), w3);
    var batch := [x, y];
    assert w3.nodes[b].phase.left == batch && batch[0] == x && batch[1..] == [y];
    var w4 := Next(w3, Apply(b));
    ReachesStep(Nothing, init, w3, Apply(b), w4);
    w' := Next(w4, Apply(b));
    ReachesStep(Nothing, init, w4, Apply(b), w');
  }

  /** With the third key above the second, b's next pull brings e3. */
  lemma ReadThird(init: World, w: World, a: string, b: string, e1: Event, e2: Event, e3: Event, r: Readings) returns (w': World)
    requires Cast(a, b, e1, e2, e3) && Reaches(Nothing, init, w) && Aftermath(w, a, b, e1, e2, e3, r) && K2(r) > K1(r)
    ensures Reaches(Nothing, init, w') && b in w'.nodes && e3.eventId in w'.nodes[b].events
  {
    hide Reaches, NextPosition;
    var w2 := ListThird(init, w, a, b, e1, e2, e3, r);
    w' := ApplyPair(init, w2, b, a, K1(r), K2(r), e2, e3);
  }

  /** The whole family of runs: a publishes e1, tears the push of e2, b reads both, a publishes e3. For
      all clock readings and suffixes, b has skipped e3, which a takes to be uploaded, if and only if
      the third key does not lie above the torn one; and if it does, b's next pull brings e3. */
  lemma TornPushSkipsIff(a: string, b: string, e1: Event, e2: Event, e3: Event, r: Readings) returns (w: World)
    requires Cast(a, b, e1, e2, e3)
    ensures Init(Start(a, b)) && Reaches(Nothing, Start(a, b), w) && WriterInv(w)
    ensures a in w.manifests && w.manifests[a] == K2(r)
    ensures Object(a, K2(r)) in w.batches && e3 in w.batches[Object(a, K2(r))]
    ensures Skipped(w, b, a, e3.eventId) <==> K2(r) <= K1(r)
    ensures K2(r) > K1(r) ==> exists w' :: Reaches(Nothing, Start(a, b), w') && b in w'.nodes && e3.eventId in w'.nodes[b].events
  {
    hide Reaches, IsHead, WriterInv, NextPosition;
    w := ThirdPush(a, b, e1, e2, e3, r);
    ReachableInv(Start(a, b), w);
    assert [e2, e3][1] == e3 && e3 in [e2, e3];
    SkippedHereIff(w, a, b, e1, e2, e3, r);
    if K2(r) > K1(r) {
      var w' := ReadThird(Start(a, b), w, a, b, e1, e2, e3, r);
    }
  }

  lemma SkippedHereIff(w: World, a: string, b: string, e1: Event, e2: Event, e3: Event, r: Readings)
    requires Cast(a, b, e1, e2, e3) && Aftermath(w, a, b, e1, e2, e3, r)
    ensures Skipped(w, b, a, e3.eventId) <==> K2(r) <= K1(r)
  {
    hide NextPosition;
    var k := Object(a, K2(r));
    assert e3 == w.batches[k][1] && e3.eventId in Ids(w.batches[k]);
    assert Ids([e1]) == {e1.eventId} && Ids([e2]) == {e2.eventId};
  }

  /** One such run: keys made in the milliseconds 10, 20 and, after the clock stepped back, 15. */
  lemma TornPushAndBackwardClockSkipABatch(a: string, b: string, e1: Event, e2: Event, e3: Event) returns (w: World)
    requires Cast(a, b, e1, e2, e3)
    ensures Init(Start(a, b)) && Reaches(Nothing, Start(a, b), w)
    ensures Skipped(w, b, a, e3.eventId) && WriterInv(w)
  {
    hide Reaches, WriterInv, Skipped;
    w := TornPushSkipsIff(a, b, e1, e2, e3, Readings(10, 0, 20, 0, 15, 0));
  }

  /** The clock need only step back behind the torn key's millisecond, or stand still on it and draw no
      larger a suffix; without a torn push it cannot happen. */
  lemma SkipInClockTerms(r: Readings)
    ensures K2(r) <= K1(r) <==> var t1, t2 := NextStamp(r.n1, Some(K0(r))), NextStamp(r.n2, Some(K0(r)));
                                t2 < t1 || (t2 == t1 && r.s2 <= r.s1)
    ensures K0(r) < K1(r) && K0(r) < K2(r)
  {
  }

  lemma ReachableInv(init: World, w: World)
    requires Init(init) && Reaches(Nothing, init, w)
    ensures WriterInv(w)
  {
    hide WriterInv;
    var n: nat :| InSteps(Nothing, init, w, n);
    WriterInit(init);
    WriterSteps(Nothing, init, w, n);
  }

  // ------------------------------------------------------------- a skipped batch is never read

  /** `r` does not have the event `id` of `p`, which `p` takes to be uploaded; every stored batch with
      that event is one `r`'s cursor for `p` has passed, and no engine has it in hand. */
  ghost predicate Skipped(w: World, r: string, p: string, id: string) {
    && r in w.nodes && p in w.nodes && r != p
    && id !in w.nodes[r].events && id in w.nodes[p].synced
    && (forall d :: d in w.nodes && d != p && id in w.nodes[d].events ==> w.nodes[d].events[id].deviceId != d)
    && (forall k :: k in w.batches && k.device == p && id in Ids(w.batches[k]) ==> k.position <= CursorOf(w.nodes[r], p))
    && NotInHand(w.nodes[p].phase, id)
    && PassedBy(w.nodes[r], p, id)
  }

  /** No push in progress carries the event. */
  ghost predicate NotInHand(phase: Phase, id: string) {
    (phase.Collected? || phase.Named? || phase.Uploaded? || phase.Published?) ==> id !in Ids(phase.batch)
  }

  /** A pull of `p` in progress looks only beyond the saved cursor, and holds no batch with the event. */
  ghost predicate PassedBy(n: Node, p: string, id: string) {
    match n.phase
    case Polled(peer, at) => peer == p ==> at >= CursorOf(n, p)
    case Reading(peer, at, keys) => peer == p ==> at >= CursorOf(n, p) && forall k :: k in keys ==> k > CursorOf(n, p)
    case Applying(peer, at, left, keys) => id !in Ids(left)
        && (peer == p ==> at >= CursorOf(n, p) && forall k :: k in keys ==> k > CursorOf(n, p))
    case _ => true
  }

  lemma BatchesOfOthers(w: World, p: string, id: string, k: Object)
    requires Ownership(w) && k in w.batches && k.device != p
    requires forall d :: d in w.nodes && d != p && id in w.nodes[d].events ==> w.nodes[d].events[id].deviceId != d
    ensures id !in Ids(w.batches[k])
  {
    forall e | e in w.batches[k] ensures e.eventId != id {
      assert MadeBy(w.batches[k], k.device, w.nodes[k.device].events);
    }
  }

  lemma SkippedPush(w: World, a: Action, r: string, p: string, id: string)
    requires WriterInv(w) && Skipped(w, r, p, id) && Enabled(w, a) && a.d == p
    requires !(a.Append? && a.event.eventId == id)
    ensures NotInHand(NodeAfter(w, a).phase, id)
  {
    if a.Collect? {
      var n := w.nodes[p];
      var queue: seq<Event> :| Lists(queue, Pending(n.events, n.synced, p))
        && a.batch == if |queue| <= BATCH_LIMIT then queue else queue[..BATCH_LIMIT];
      forall e | e in a.batch ensures e.eventId != id {
        assert e in queue && e in Elements(queue);
      }
    }
  }

  lemma SkippedFetch(w: World, a: Action, r: string, p: string, id: string)
    requires WriterInv(w) && Skipped(w, r, p, id) && Enabled(w, a) && a.d == r && a.Fetch?
    ensures PassedBy(NodeAfter(w, a), p, id)
  {
    hide IsHead, WriterInv, IsListing;
    var n := w.nodes[r];
    var k := Object(n.phase.peer, n.phase.keys[0]);
    if k.device != p {
      assert Ownership(w) by { OpenInv(w, p); }
      BatchesOfOthers(w, p, id, k);
    }
    assert n.phase.keys[0] in n.phase.keys;
  }

  lemma SkippedApply(w: World, a: Action, r: string, p: string, id: string)
    requires Skipped(w, r, p, id) && Enabled(w, a) && a.d == r && (a.Apply? || a.Advance?)
    ensures PassedBy(NodeAfter(w, a), p, id) && id !in NodeAfter(w, a).events
  {
    hide IsHead, IsListing;
    var n := w.nodes[r];
    if a.Apply? {
      assert n.phase.left[0].eventId in Ids(n.phase.left);
      assert Ids(n.phase.left[1..]) <= Ids(n.phase.left);
    } else {
      assert n.phase.keys[0] in n.phase.keys;
      assert forall k :: k in n.phase.keys[1..] ==> k in n.phase.keys;
    }
  }

  lemma SkippedPull(w: World, a: Action, r: string, p: string, id: string)
    requires WriterInv(w) && Skipped(w, r, p, id) && Enabled(w, a) && a.d == r
    requires !(a.Append? && a.event.eventId == id)
    ensures PassedBy(NodeAfter(w, a), p, id) && id !in NodeAfter(w, a).events
    ensures CursorOf(NodeAfter(w, a), p) >= CursorOf(w.nodes[r], p)
  {
    hide IsHead, WriterInv, Ids;
    match a
    case Fetch(_) => SkippedFetch(w, a, r, p, id);
    case Apply(_) => SkippedApply(w, a, r, p, id);
    case Advance(_) => SkippedApply(w, a, r, p, id);
    case _ =>
  }

  lemma SkippedBatches(w: World, a: Action, r: string, p: string, id: string, k: Object)
    requires WriterInv(w) && Skipped(w, r, p, id) && Enabled(w, a)
    requires k in Next(w, a).batches && k.device == p && id in Ids(Next(w, a).batches[k])
    ensures k.position <= CursorOf(w.nodes[r], p)
  {
    hide IsHead, WriterInv, Lists, IsListing, PassedBy;
    if k.device == a.d { assert a.d == p; }
  }

  lemma SkippedElsewhere(w: World, a: Action, r: string, p: string, id: string, d: string)
    requires WriterInv(w) && Skipped(w, r, p, id) && Enabled(w, a) && !(a.Append? && a.event.eventId == id)
    requires d in w.nodes && d != p && id in Next(w, a).nodes[d].events
    ensures Next(w, a).nodes[d].events[id].deviceId != d
  {
    hide IsHead, Ownership, SyncedMeansUploaded, ManifestsNameBatches, Lists, IsListing, PassedBy;
    assert PhaseOk(w, d, w.nodes[d]);
    if id !in w.nodes[d].events { assert a.d == d && a.Apply?; }
  }

  /** A device that has skipped a batch never gets its events from the bucket: no step of any device
      brings them, short of recording the same event id locally. */
  lemma SkippedForGood(w: World, a: Action, r: string, p: string, id: string)
    requires WriterInv(w) && Skipped(w, r, p, id) && Enabled(w, a)
    requires !(a.Append? && a.event.eventId == id)
    ensures Skipped(Next(w, a), r, p, id)
  {
    hide IsHead, WriterInv, Lists, IsListing, Ids, NotInHand, PassedBy, Inserted;
    var w' := Next(w, a);
    assert TablesOk(w.nodes[p]) by { OpenInv(w, p); }
    if a.d == p { SkippedPush(w, a, r, p, id); }
    if a.d == r { SkippedPull(w, a, r, p, id); }
    forall d | d in w'.nodes && d != p && id in w'.nodes[d].events ensures w'.nodes[d].events[id].deviceId != d {
      SkippedElsewhere(w, a, r, p, id, d);
    }
    forall k | k in w'.batches && k.device == p && id in Ids(w'.batches[k]) ensures k.position <= CursorOf(w'.nodes[r], p) {
      SkippedBatches(w, a, r, p, id, k);
    }
  }

  lemma OpenInv(w: World, d: string)
    requires WriterInv(w) && d in w.nodes
    ensures TablesOk(w.nodes[d]) && Ownership(w)
  {
  }
}
