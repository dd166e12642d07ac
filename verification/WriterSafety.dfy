/** What every step of the protocol keeps on the writing side, with no hypothesis on clocks, crashes
    or who records what: ownership of prefixes, and that a synced event is really in the bucket. */
module WriterSafety {
  import opened Calendar
  import opened Events
  import opened Rows
  import opened Store
  import opened Protocol

  /** `batch` was made from `d`'s own log. */
  ghost predicate MadeBy(batch: seq<Event>, d: string, events: map<string, Event>) {
    forall e :: e in batch ==> e.deviceId == d && e.eventId in events && events[e.eventId] == e
  }

  /** Each batch under a device's prefix is that device's, at most 500 of its own events. */
  ghost predicate Ownership(w: World) {
    forall k :: k in w.batches ==>
      k.device in w.nodes && |w.batches[k]| <= BATCH_LIMIT && MadeBy(w.batches[k], k.device, w.nodes[k.device].events)
  }

  /** A manifest names a batch that is stored. */
  ghost predicate ManifestsNameBatches(w: World) {
    forall d :: d in w.manifests ==> d in w.nodes && Object(d, w.manifests[d]) in w.batches
  }

  /** The event is in a stored batch that `d`'s manifest has reached. */
  ghost predicate Uploaded(w: World, d: string, e: Event) {
    exists k: nat :: Object(d, k) in w.batches && d in w.manifests && k <= w.manifests[d] && e in w.batches[Object(d, k)]
  }

  ghost predicate SyncedMeansUploaded(w: World) {
    forall d, id :: d in w.nodes && id in w.nodes[d].synced && id in w.nodes[d].events && w.nodes[d].events[id].deviceId == d
      ==> Uploaded(w, d, w.nodes[d].events[id])
  }

  ghost predicate TablesOk(n: Node) {
    Keyed(n.events) && n.synced <= n.events.Keys && forall k :: k in n.events ==> Decodes(n.events[k])
  }

  ghost predicate BatchOk(batch: seq<Event>, d: string, n: Node) {
    |batch| <= BATCH_LIMIT && MadeBy(batch, d, n.events)
  }

  /** What a node's engine has established so far in its cycle. */
  ghost predicate PhaseOk(w: World, d: string, n: Node) {
    match n.phase
    case Idle => true
    case Collected(batch) => BatchOk(batch, d, n)
    case Named(batch, key) => BatchOk(batch, d, n) && (d in w.manifests ==> key > w.manifests[d])
    case Uploaded(batch, key) => BatchOk(batch, d, n) && (d in w.manifests ==> key > w.manifests[d])
                                 && Object(d, key) in w.batches && w.batches[Object(d, key)] == batch
    case Published(batch, key) => BatchOk(batch, d, n) && d in w.manifests && w.manifests[d] == key
                                  && Object(d, key) in w.batches && w.batches[Object(d, key)] == batch
    case Polled(peer, _) => peer != d
    case Reading(peer, _, _) => peer != d
    case Applying(peer, _, left, _) => peer != d && peer in w.nodes && MadeBy(left, peer, w.nodes[peer].events)
  }

  ghost predicate WriterInv(w: World) {
    && Ownership(w) && ManifestsNameBatches(w) && SyncedMeansUploaded(w)
    && forall d :: d in w.nodes ==> TablesOk(w.nodes[d]) && PhaseOk(w, d, w.nodes[d])
  }

  lemma WriterInit(w: World)
    requires Init(w)
    ensures WriterInv(w)
  {
  }

  /** Logs only grow, and no step rewrites what a log holds. */
  lemma LogsGrow(w: World, a: Action)
    requires Enabled(w, a)
    ensures forall d :: d in w.nodes ==> d in Next(w, a).nodes && Extends(Next(w, a).nodes[d].events, w.nodes[d].events)
  {
  }

  lemma StillMadeBy(batch: seq<Event>, d: string, before: map<string, Event>, after: map<string, Event>)
    requires MadeBy(batch, d, before) && Extends(after, before)
    ensures MadeBy(batch, d, after)
  {
  }

  lemma HeadIsOwn(batch: seq<Event>, n: Node, d: string)
    requires TablesOk(n) && IsHead(batch, Pending(n.events, n.synced, d))
    ensures BatchOk(batch, d, n)
  {
    var queue: seq<Event> :| Lists(queue, Pending(n.events, n.synced, d))
      && batch == if |queue| <= BATCH_LIMIT then queue else queue[..BATCH_LIMIT];
    forall e | e in batch ensures e.deviceId == d && e.eventId in n.events && n.events[e.eventId] == e {
      assert e in queue && e in Elements(queue);
    }
  }

  lemma TablesStep(w: World, a: Action)
    requires WriterInv(w) && Enabled(w, a)
    ensures TablesOk(NodeAfter(w, a))
  {
    assert TablesOk(w.nodes[a.d]) && PhaseOk(w, a.d, w.nodes[a.d]);
  }

  lemma OwnershipStep(w: World, a: Action)
    requires WriterInv(w) && Enabled(w, a)
    ensures Ownership(Next(w, a))
  {
    hide Lists, IsListing, IsHead, Decodes;
    var w' := Next(w, a);
    LogsGrow(w, a);
    assert PhaseOk(w, a.d, w.nodes[a.d]);
    forall k | k in w'.batches
      ensures k.device in w'.nodes && |w'.batches[k]| <= BATCH_LIMIT && MadeBy(w'.batches[k], k.device, w'.nodes[k.device].events)
    {
      StillMadeBy(w'.batches[k], k.device, w.nodes[k.device].events, w'.nodes[k.device].events);
    }
  }

  lemma ManifestsStep(w: World, a: Action)
    requires WriterInv(w) && Enabled(w, a)
    ensures ManifestsNameBatches(Next(w, a))
  {
    hide Lists, IsListing, IsHead, Decodes, MadeBy;
    assert PhaseOk(w, a.d, w.nodes[a.d]);
  }

  /** A batch that a manifest has reached stays where it is: keys are not reused. */
  lemma StillUploaded(w: World, a: Action, d: string, e: Event)
    requires WriterInv(w) && Enabled(w, a) && d in w.nodes && Uploaded(w, d, e)
    ensures Uploaded(Next(w, a), d, e)
  {
    hide Lists, IsListing, IsHead, Decodes, MadeBy;
    var w' := Next(w, a);
    assert PhaseOk(w, a.d, w.nodes[a.d]);
    var k: nat :| Object(d, k) in w.batches && d in w.manifests && k <= w.manifests[d] && e in w.batches[Object(d, k)];
    assert Object(d, k) in w'.batches && w'.batches[Object(d, k)] == w.batches[Object(d, k)];
    assert k <= w'.manifests[d];
  }

  lemma SyncedStep(w: World, a: Action)
    requires WriterInv(w) && Enabled(w, a)
    ensures SyncedMeansUploaded(Next(w, a))
  {
    hide Lists, IsListing, IsHead, Decodes;
    var w' := Next(w, a);
    var n := w.nodes[a.d];
    assert TablesOk(n) && PhaseOk(w, a.d, n);
    forall d, id | d in w'.nodes && id in w'.nodes[d].synced && id in w'.nodes[d].events && w'.nodes[d].events[id].deviceId == d
      ensures Uploaded(w', d, w'.nodes[d].events[id])
    {
      if id in w.nodes[d].synced {
        assert w'.nodes[d].events[id] == w.nodes[d].events[id];
        StillUploaded(w, a, d, w.nodes[d].events[id]);
      } else {
        assert d == a.d;
        if a.Mark? {
          assert Object(d, n.phase.key) in w'.batches && n.phase.key <= w'.manifests[d];
        }
      }
    }
  }

  /** A step of another device, or an append, leaves an engine's findings true. */
  lemma OtherPhase(w: World, a: Action, d: string)
    requires WriterInv(w) && Enabled(w, a) && d in w.nodes && (d != a.d || a.Append?)
    ensures PhaseOk(Next(w, a), d, Next(w, a).nodes[d])
  {
    hide Lists, IsListing, IsHead, Decodes, SyncedMeansUploaded, Keyed, MadeBy, Ownership, ManifestsNameBatches, TablesOk;
    var w', n := Next(w, a), w.nodes[d];
    LogsGrow(w, a);
    assert PhaseOk(w, d, n);
    assert w'.nodes[d].phase == n.phase;
    match n.phase
    case Idle =>
    case Collected(batch) => StillMadeBy(batch, d, n.events, w'.nodes[d].events);
    case Named(batch, _) => StillMadeBy(batch, d, n.events, w'.nodes[d].events);
    case Uploaded(batch, _) => StillMadeBy(batch, d, n.events, w'.nodes[d].events);
    case Published(batch, _) => StillMadeBy(batch, d, n.events, w'.nodes[d].events);
    case Polled(_, _) =>
    case Reading(_, _, _) =>
    case Applying(peer, _, left, _) => StillMadeBy(left, peer, w.nodes[peer].events, w'.nodes[peer].events);
  }

  lemma OwnPhase(w: World, a: Action)
    requires WriterInv(w) && Enabled(w, a) && !a.Append?
    ensures PhaseOk(Next(w, a), a.d, NodeAfter(w, a))
  {
    hide Lists, IsListing, IsHead, Decodes, SyncedMeansUploaded, Keyed, MadeBy, Ownership, ManifestsNameBatches;
    var n := w.nodes[a.d];
    assert PhaseOk(w, a.d, n);
    match a
    case Collect(_, _) => HeadIsOwn(a.batch, n, a.d);
    case Fetch(_) => FetchedIsPeers(w, Object(n.phase.peer, n.phase.keys[0]));
    case Apply(_) => RestMadeBy(n.phase.left, n.phase.peer, w.nodes[n.phase.peer].events);
    case _ =>
  }

  lemma FetchedIsPeers(w: World, k: Object)
    requires Ownership(w) && k in w.batches
    ensures k.device in w.nodes && MadeBy(w.batches[k], k.device, w.nodes[k.device].events)
  {
  }

  lemma RestMadeBy(left: seq<Event>, d: string, events: map<string, Event>)
    requires MadeBy(left, d, events) && left != []
    ensures MadeBy(left[1..], d, events)
  {
  }

  lemma PhaseStep(w: World, a: Action, d: string)
    requires WriterInv(w) && Enabled(w, a) && d in w.nodes
    ensures PhaseOk(Next(w, a), d, Next(w, a).nodes[d])
  {
    hide WriterInv, PhaseOk, NodeAfter, Enabled;
    if d == a.d && !a.Append? { OwnPhase(w, a); } else { OtherPhase(w, a, d); }
  }

  /** Every step keeps the writing side right, whatever crashes or fails. */
  lemma WriterStep(w: World, a: Action)
    requires WriterInv(w) && Enabled(w, a)
    ensures WriterInv(Next(w, a))
  {
    hide Ownership, ManifestsNameBatches, SyncedMeansUploaded, PhaseOk, Lists, IsListing, IsHead, Decodes;
    OwnershipStep(w, a);
    ManifestsStep(w, a);
    SyncedStep(w, a);
    TablesStep(w, a);
    forall d | d in Next(w, a).nodes
      ensures TablesOk(Next(w, a).nodes[d]) && PhaseOk(Next(w, a), d, Next(w, a).nodes[d])
    {
      PhaseStep(w, a, d);
    }
  }

  lemma {:induction false} WriterSteps(x: Assumption, from: World, to: World, n: nat)
    requires WriterInv(from) && InSteps(x, from, to, n)
    ensures WriterInv(to)
    decreases n
  {
    hide WriterInv, Enabled;
    if n > 0 {
      var mid :| InSteps(x, from, mid, n - 1) && NextTo(x, mid, to);
      var a :| Step(x, mid, a, to);
      WriterSteps(x, from, mid, n - 1);
      WriterStep(mid, a);
    }
  }

  /** In every reachable state, with no hypothesis at all: each batch under a device's prefix is that
      device's own; a manifest names a stored batch; and every own event a device has marked synced
      lies in a stored batch at or below its manifest, at whatever point a push stopped. */
  lemma ReachableWriters(init: World, w: World)
    requires Init(init) && Reaches(Nothing, init, w)
    ensures Ownership(w) && ManifestsNameBatches(w) && SyncedMeansUploaded(w)
  {
    var n: nat :| InSteps(Nothing, init, w, n);
    WriterInit(init);
    WriterSteps(Nothing, init, w, n);
  }
}
