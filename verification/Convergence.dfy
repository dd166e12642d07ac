/** Devices that have nothing left to push and have read every manifest hold the same history — and
    two fault-free rounds of everyone syncing get there from wherever they are. */
module Convergence {
  import opened Calendar
  import opened Events
  import opened Rows
  import opened Store
  import opened Protocol
  import opened WriterSafety
  import opened ReaderSafety

  /** Every event a device holds is held, unchanged, by the device that produced it. */
  ghost predicate Provenance(w: World) {
    forall d, id :: d in w.nodes && id in w.nodes[d].events ==>
      var e := w.nodes[d].events[id];
      e.deviceId in w.nodes && id in w.nodes[e.deviceId].events && w.nodes[e.deviceId].events[id] == e
  }

  /** An id stands for one event wherever it is held. */
  ghost predicate Agreement(w: World) {
    forall a, b, id :: a in w.nodes && b in w.nodes && id in w.nodes[a].events && id in w.nodes[b].events
      ==> w.nodes[a].events[id] == w.nodes[b].events[id]
  }

  ghost predicate FaithfulInv(w: World) {
    WriterInv(w) && ReaderInv(w) && Provenance(w) && Agreement(w)
  }

  lemma FaithfulInit(w: World)
    requires Init(w)
    ensures FaithfulInv(w)
  {
  }

  /** An event that enters a log is the device's own, or one its peer holds. */
  lemma NewInLog(w: World, a: Action, id: string) returns (e: Event, source: string)
    requires WriterInv(w) && Enabled(w, a) && OwnAndCoherent(w, a)
    requires id in NodeAfter(w, a).events && id !in w.nodes[a.d].events
    ensures NodeAfter(w, a).events[id] == e && e.eventId == id && e.deviceId == source
    ensures a.Append? ==> source == a.d && a.event == e
    ensures a.Apply? ==> source in w.nodes && source != a.d && id in w.nodes[source].events && w.nodes[source].events[id] == e
    ensures a.Append? || a.Apply?
  {
    hide Ownership, ManifestsNameBatches, SyncedMeansUploaded, IsHead, IsListing;
    assert PhaseOk(w, a.d, w.nodes[a.d]);
    e := NodeAfter(w, a).events[id];
    source := e.deviceId;
    if a.Apply? { assert w.nodes[a.d].phase.left[0] == e; }
  }

  lemma ProvenanceStep(w: World, a: Action)
    requires WriterInv(w) && Provenance(w) && Enabled(w, a) && OwnAndCoherent(w, a)
    ensures Provenance(Next(w, a))
  {
    var w' := Next(w, a);
    LogsGrow(w, a);
    hide WriterInv, Enabled, OwnAndCoherent, NodeAfter;
    forall d, id | d in w'.nodes && id in w'.nodes[d].events
      ensures var e := w'.nodes[d].events[id];
              e.deviceId in w'.nodes && id in w'.nodes[e.deviceId].events && w'.nodes[e.deviceId].events[id] == e
    {
      if id !in w.nodes[d].events {
        assert d == a.d;
        var e, source := NewInLog(w, a, id);
      }
    }
  }

  lemma AgreementStep(w: World, a: Action)
    requires WriterInv(w) && Agreement(w) && Enabled(w, a) && OwnAndCoherent(w, a)
    ensures Agreement(Next(w, a))
  {
    var w' := Next(w, a);
    LogsGrow(w, a);
    hide WriterInv, Enabled, NodeAfter;
    forall id, d | id in w'.nodes[a.d].events && d in w.nodes && d != a.d && id in w.nodes[d].events
      ensures w'.nodes[a.d].events[id] == w.nodes[d].events[id]
    {
      if id !in w.nodes[a.d].events {
        var e, source := NewInLog(w, a, id);
        if a.Apply? { assert w.nodes[source].events[id] == w.nodes[d].events[id]; }
      }
    }
  }

  lemma FaithfulStep(w: World, a: Action)
    requires FaithfulInv(w) && Enabled(w, a) && KeyAboveAll(w, a) && OwnAndCoherent(w, a)
    ensures FaithfulInv(Next(w, a))
  {
    hide WriterInv, ReaderInv, Provenance, Agreement, Enabled, KeyAboveAll, OwnAndCoherent;
    WriterStep(w, a);
    ReaderStep(w, a);
    ProvenanceStep(w, a);
    AgreementStep(w, a);
  }

  lemma {:induction false} FaithfulSteps(from: World, to: World, n: nat)
    requires FaithfulInv(from) && InSteps(Faithful, from, to, n)
    ensures FaithfulInv(to)
    decreases n
  {
    hide FaithfulInv, Enabled, KeyAboveAll, OwnAndCoherent;
    if n > 0 {
      var mid :| InSteps(Faithful, from, mid, n - 1) && NextTo(Faithful, mid, to);
      var a :| Step(Faithful, mid, a, to);
      FaithfulSteps(from, mid, n - 1);
      FaithfulStep(mid, a);
    }
  }

  lemma ReachableFaithful(init: World, w: World)
    requires Init(init) && Reaches(Faithful, init, w)
    ensures FaithfulInv(w)
  {
    hide FaithfulInv;
    var n: nat :| InSteps(Faithful, init, w, n);
    FaithfulInit(init);
    FaithfulSteps(init, w, n);
  }

  /** Under the hypotheses a passed batch is not just held by its ids: what the log holds is the event
      itself, as its device recorded it. */
  lemma NothingSkippedOrAltered(init: World, w: World, r: string, k: Object, e: Event)
    requires Init(init) && Reaches(Faithful, init, w)
    requires r in w.nodes && k in w.batches && k.device != r
    requires k.position <= CursorOf(w.nodes[r], k.device) && e in w.batches[k]
    ensures e.eventId in w.nodes[r].events && w.nodes[r].events[e.eventId] == e
    ensures k.device in w.nodes && e.eventId in w.nodes[k.device].events && w.nodes[k.device].events[e.eventId] == e
  {
    hide Reaches, Init, ManifestsNameBatches, SyncedMeansUploaded, PhaseOk, ReadingSafe, Provenance;
    ReachableFaithful(init, w);
    assert CursorsSafe(w, r);
    assert Object(k.device, k.position) == k;
    assert MadeBy(w.batches[k], k.device, w.nodes[k.device].events);
  }

  // ------------------------------------------------------------- quiet worlds

  /** The device has none of its own events left to upload. */
  ghost predicate Drained(w: World, d: string)
    requires d in w.nodes
  {
    Pending(w.nodes[d].events, w.nodes[d].synced, d) == {}
  }

  /** The device's cursors have reached every peer's manifest. */
  ghost predicate CaughtUp(w: World, d: string)
    requires d in w.nodes
  {
    forall p :: p in w.manifests && p != d ==> CursorOf(w.nodes[d], p) >= w.manifests[p]
  }

  ghost predicate Quiet(w: World) {
    forall d :: d in w.nodes ==> Drained(w, d) && CaughtUp(w, d)
  }

  /** In a quiet world every event that its own device recorded is in every device's log. */
  lemma OwnEventsEverywhere(w: World, p: string, id: string, r: string)
    requires WriterInv(w) && ReaderInv(w) && Quiet(w)
    requires p in w.nodes && r in w.nodes && id in w.nodes[p].events && w.nodes[p].events[id].deviceId == p
    ensures id in w.nodes[r].events
  {
    hide Ownership, ManifestsNameBatches, PhaseOk, ReadingSafe;
    var e := w.nodes[p].events[id];
    assert TablesOk(w.nodes[p]) && e.eventId == id;
    if r != p {
      PendingOrSynced(w.nodes[p].events, w.nodes[p].synced, p, id);
      assert Drained(w, p);
      assert WriterSafety.Uploaded(w, p, e);
      var k: nat :| Object(p, k) in w.batches && p in w.manifests && k <= w.manifests[p] && e in w.batches[Object(p, k)];
      assert CaughtUp(w, r) && CursorsSafe(w, r);
      assert ReadUpTo(w.batches, w.nodes[r].events, p, CursorOf(w.nodes[r], p));
    }
  }

  lemma PendingOrSynced(events: map<string, Event>, synced: set<string>, p: string, id: string)
    requires Keyed(events) && id in events && events[id].deviceId == p
    ensures id in synced || events[id] in Pending(events, synced, p)
  {
    assert events[id] in events.Values;
  }

  /** Quiet devices hold the same events if and only if no id stands for two events. */
  lemma QuietDevicesAgree(w: World)
    requires WriterInv(w) && ReaderInv(w) && Provenance(w) && Quiet(w)
    ensures (forall a, b :: a in w.nodes && b in w.nodes ==> w.nodes[a].events == w.nodes[b].events) <==> Agreement(w)
  {
    hide WriterInv, ReaderInv, Quiet;
    if Agreement(w) {
      forall a, b | a in w.nodes && b in w.nodes ensures w.nodes[a].events == w.nodes[b].events {
        forall id | id in w.nodes[a].events || id in w.nodes[b].events
          ensures id in w.nodes[a].events && id in w.nodes[b].events
        {
          var holder := if id in w.nodes[a].events then a else b;
          var p := w.nodes[holder].events[id].deviceId;
          OwnEventsEverywhere(w, p, id, a);
          OwnEventsEverywhere(w, p, id, b);
        }
      }
    }
  }

  /** Convergence: in every quiet world devices can reach, all hold the same events, and so show the
      same rows and find the same text — but for the device of a row no start or import has named. */
  lemma QuietDevicesShowTheSame(init: World, w: World, a: string, b: string,
                                rowsA: map<string, Row>, indexA: map<string, string>,
                                rowsB: map<string, Row>, indexB: map<string, string>)
    requires Init(init) && Reaches(Faithful, init, w) && Quiet(w) && a in w.nodes && b in w.nodes
    requires Derived(w.nodes[a].events, rowsA, indexA) && Derived(w.nodes[b].events, rowsB, indexB)
    ensures w.nodes[a].events == w.nodes[b].events
    ensures rowsA.Keys == rowsB.Keys && indexA == indexB
    ensures forall id :: id in rowsA ==> rowsA[id] == rowsB[id].(deviceId := rowsA[id].deviceId)
    ensures forall id :: id in rowsA && NamesDevice(Replay(w.nodes[a].events, id)) ==> rowsA[id] == rowsB[id]
  {
    hide WriterInv, ReaderInv, Quiet, Provenance, Agreement, Derived, Replay, NamesDevice, Reaches, Init;
    ReachableFaithful(init, w);
    QuietDevicesAgree(w);
    SameEventsSameViews(w.nodes[a].events, rowsA, indexA, rowsB, indexB);
  }

  /** Without the hypothesis convergence fails: devices whose logs hold different events under one id
      differ for ever. */
  lemma {:induction false} OneIdTwoEventsNeverAgree(x: Assumption, w: World, w': World, n: nat, a: string, b: string, id: string)
    requires InSteps(x, w, w', n) && a in w.nodes && b in w.nodes
    requires id in w.nodes[a].events && id in w.nodes[b].events && w.nodes[a].events[id] != w.nodes[b].events[id]
    ensures a in w'.nodes && b in w'.nodes && w'.nodes[a].events != w'.nodes[b].events
    ensures id in w'.nodes[a].events && w'.nodes[a].events[id] == w.nodes[a].events[id]
    ensures id in w'.nodes[b].events && w'.nodes[b].events[id] == w.nodes[b].events[id]
    decreases n
  {
    hide Enabled;
    if n > 0 {
      var mid :| InSteps(x, w, mid, n - 1) && NextTo(x, mid, w');
      var act :| Step(x, mid, act, w');
      OneIdTwoEventsNeverAgree(x, w, mid, n - 1, a, b, id);
      LogsGrow(mid, act);
    }
  }

  /** The world after `a` and `b` each record their own event under one id. */
  lemma OneIdRecordedTwice(w: World, a: string, b: string, x: Event, y: Event) returns (w': World)
    requires Init(w) && a in w.nodes && b in w.nodes && a != b
    requires x.eventId == y.eventId && x.deviceId == a && y.deviceId == b && Decodes(x) && Decodes(y)
    ensures Reaches(Nothing, w, w') && Reaches(Ordered, w, w') && a in w'.nodes && b in w'.nodes
    ensures x.eventId in w'.nodes[a].events && w'.nodes[a].events[x.eventId] == x
    ensures y.eventId in w'.nodes[b].events && w'.nodes[b].events[y.eventId] == y
    ensures forall w'' :: Reaches(Nothing, w', w'') ==> a in w''.nodes && b in w''.nodes && w''.nodes[a].events != w''.nodes[b].events
  {
    ReachesSelf(Nothing, w);
    ReachesSelf(Ordered, w);
    var w1 := Next(w, Append(a, x));
    w' := Next(w1, Append(b, y));
    assert Step(Nothing, w, Append(a, x), w1) && Step(Nothing, w1, Append(b, y), w');
    assert Step(Ordered, w, Append(a, x), w1) && Step(Ordered, w1, Append(b, y), w');
    ReachesStep(Nothing, w, w, Append(a, x), w1);
    ReachesStep(Nothing, w, w1, Append(b, y), w');
    ReachesStep(Ordered, w, w, Append(a, x), w1);
    ReachesStep(Ordered, w, w1, Append(b, y), w');
    forall w'' | Reaches(Nothing, w', w'')
      ensures a in w''.nodes && b in w''.nodes && w''.nodes[a].events != w''.nodes[b].events
    {
      var n: nat :| InSteps(Nothing, w', w'', n);
      OneIdTwoEventsNeverAgree(Nothing, w', w'', n, a, b, x.eventId);
    }
  }

  // ------------------------------------------------------------- two rounds

  /** What one fault-free cycle of `d`, with nobody else moving, has done. */
  ghost predicate Synced(w: World, w': World, d: string) {
    && d in w.nodes && w'.nodes.Keys == w.nodes.Keys
    && (forall p :: p in w.nodes && p != d ==> w'.nodes[p] == w.nodes[p])
    && (forall p :: p != d ==> Latest(w', p) == Latest(w, p))
    && (Drained(w, d) ==> w'.manifests == w.manifests)
    && Drained(w', d) && CaughtUp(w', d)
  }

  /** `worlds` is one round: everyone in `order` syncs once, in turn. */
  ghost predicate Round(worlds: seq<World>, order: seq<string>) {
    |worlds| == |order| + 1 && forall i :: 0 <= i < |order| ==> Synced(worlds[i], worlds[i+1], order[i])
  }

  lemma {:induction false} RoundDrains(worlds: seq<World>, order: seq<string>, n: nat)
    requires Round(worlds, order) && n <= |order|
    ensures worlds[n].nodes.Keys == worlds[0].nodes.Keys
    ensures forall d :: d in order[..n] && d in worlds[0].nodes ==> Drained(worlds[n], d)
  {
    hide Drained, CaughtUp;
    if n > 0 {
      RoundDrains(worlds, order, n - 1);
      assert order[..n] == order[..n-1] + [order[n-1]];
      assert Synced(worlds[n-1], worlds[n], order[n-1]);
      forall d | d in order[..n] && d in worlds[0].nodes ensures Drained(worlds[n], d) {
        if d != order[n-1] { SameNodeDrained(worlds[n-1], worlds[n], d); }
      }
    }
  }

  lemma SameNodeDrained(w: World, w': World, d: string)
    requires d in w.nodes && d in w'.nodes && w.nodes[d] == w'.nodes[d] && Drained(w, d)
    ensures Drained(w', d)
  {
  }

  /** A round in which nobody has anything to push leaves the manifests alone and everyone caught up. */
  lemma {:induction false} DrainedRoundCatchesUp(worlds: seq<World>, order: seq<string>, n: nat)
    requires Round(worlds, order) && n <= |order|
    requires forall d :: d in worlds[0].nodes ==> Drained(worlds[0], d)
    ensures worlds[n].nodes.Keys == worlds[0].nodes.Keys && worlds[n].manifests == worlds[0].manifests
    ensures forall d :: d in worlds[0].nodes ==> Drained(worlds[n], d)
    ensures forall d :: d in order[..n] ==> d in worlds[n].nodes && CaughtUp(worlds[n], d)
  {
    hide Drained, CaughtUp;
    if n > 0 {
      DrainedRoundCatchesUp(worlds, order, n - 1);
      assert order[..n] == order[..n-1] + [order[n-1]];
      assert Synced(worlds[n-1], worlds[n], order[n-1]);
      forall d | d in worlds[0].nodes ensures Drained(worlds[n], d) {
        if d != order[n-1] { SameNodeDrained(worlds[n-1], worlds[n], d); }
      }
      forall d | d in order[..n] ensures d in worlds[n].nodes && CaughtUp(worlds[n], d) {
        if d != order[n-1] { SameNodeCaughtUp(worlds[n-1], worlds[n], d); }
      }
    }
  }

  lemma SameNodeCaughtUp(w: World, w': World, d: string)
    requires d in w.nodes && d in w'.nodes && w.nodes[d] == w'.nodes[d] && w'.manifests == w.manifests && CaughtUp(w, d)
    ensures CaughtUp(w', d)
  {
  }

  /** From any world, two fault-free rounds of everyone syncing, in any order, leave it quiet. */
  lemma TwoRoundsQuiet(first: seq<World>, second: seq<World>, order: seq<string>)
    requires Round(first, order) && Round(second, order) && second[0] == first[|order|]
    requires forall d :: d in first[0].nodes ==> d in order
    ensures Quiet(second[|order|])
  {
    hide Drained, CaughtUp, Synced;
    assert order[..|order|] == order;
    RoundDrains(first, order, |order|);
    DrainedRoundCatchesUp(second, order, |order|);
  }

  /** … and so, under the hypotheses, with everyone holding the same events. */
  lemma TwoRoundsConverge(init: World, first: seq<World>, second: seq<World>, order: seq<string>)
    requires Init(init) && Round(first, order) && Round(second, order) && second[0] == first[|order|]
    requires forall d :: d in first[0].nodes ==> d in order
    requires Reaches(Faithful, init, second[|order|])
    ensures var w := second[|order|];
            forall a, b :: a in w.nodes && b in w.nodes ==> w.nodes[a].events == w.nodes[b].events
  {
    hide WriterInv, ReaderInv, Provenance, Agreement, Quiet, Reaches, Init;
    TwoRoundsQuiet(first, second, order);
    ReachableFaithful(init, second[|order|]);
    QuietDevicesAgree(second[|order|]);
  }
}
