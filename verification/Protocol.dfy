/** The sync protocol as a step system: N devices, one bucket, every step of a push or a pull
    separately, and a crash or a failed call possible between any two of them
    (internal/sync/engine.go, internal/sync/storage.go).

    Keys are positions in a device's stream; BatchKeys.KeyOrder shows that positions are ordered as
    the key strings are. The hypothesis that a device runs one engine with its cycles serialised is
    built in: a node has one phase. */
module Protocol {
  import opened Calendar
  import opened BatchKeys
  import opened Events
  import opened Rows
  import opened Store

  const BATCH_LIMIT := 500

  /** Where a node's engine stands. `at` is the cursor held in memory while a peer is read. */
  datatype Phase =
    | Idle
    | Collected(batch: seq<Event>)
    | Named(batch: seq<Event>, key: nat)
    | Uploaded(batch: seq<Event>, key: nat)
    | Published(batch: seq<Event>, key: nat)
    | Polled(peer: string, at: int)
    | Reading(peer: string, at: int, keys: seq<nat>)
    | Applying(peer: string, at: int, left: seq<Event>, keys: seq<nat>)

  /** `clock` remembers the millisecond this device last made a key in; -1 before the first. It is
      history, read by no step. */
  datatype Node = Node(events: map<string, Event>, synced: set<string>, cursors: map<string, int>,
                       phase: Phase, clock: int)

  datatype Object = Object(device: string, position: nat)

  datatype World = World(nodes: map<string, Node>, batches: map<Object, seq<Event>>, manifests: map<string, nat>)

  datatype Action =
    | Append(d: string, event: Event)
    | Collect(d: string, batch: seq<Event>)
    | Name(d: string, now: nat, suffix: Suffix)
    | PutBatch(d: string)
    | PutManifest(d: string)
    | Mark(d: string)
    | Poll(d: string, peer: string)
    | List(d: string, keys: seq<nat>)
    | Fetch(d: string)
    | Apply(d: string)
    | Advance(d: string)
    | Save(d: string)
    | Crash(d: string)

  function Latest(w: World, d: string): Option<nat> {
    if d in w.manifests then Some(w.manifests[d]) else None
  }

  function CursorOf(n: Node, peer: string): int {
    if peer in n.cursors then n.cursors[peer] else NOTHING_READ
  }

  predicate Ascending(keys: seq<nat>) {
    forall i, j :: 0 <= i < j < |keys| ==> keys[i] < keys[j]
  }

  /** The Storage contract of List: the keys under a device's prefix after `at`, in order. */
  ghost predicate IsListing(keys: seq<nat>, batches: map<Object, seq<Event>>, d: string, at: int) {
    Ascending(keys) && forall k: nat :: k in keys <==> Object(d, k) in batches && k > at
  }

  /** The head of the pending queue that one push takes. */
  ghost predicate IsHead(batch: seq<Event>, pending: set<Event>) {
    exists queue: seq<Event> :: Lists(queue, pending) && batch == if |queue| <= BATCH_LIMIT then queue else queue[..BATCH_LIMIT]
  }

  ghost predicate Enabled(w: World, a: Action) {
    && a.d in w.nodes
    && var n := w.nodes[a.d];
       match a
       case Append(_, e) => e.eventId in n.events || Decodes(e)
       case Collect(_, batch) => n.phase.Idle? && batch != [] && IsHead(batch, Pending(n.events, n.synced, a.d))
       case Name(_, _, _) => n.phase.Collected?
       case PutBatch(_) => n.phase.Named?
       case PutManifest(_) => n.phase.Uploaded?
       case Mark(_) => n.phase.Published?
       case Poll(_, p) => n.phase.Idle? && p != a.d && p in w.manifests && w.manifests[p] > CursorOf(n, p)
       case List(_, keys) => n.phase.Polled? && IsListing(keys, w.batches, n.phase.peer, n.phase.at)
       case Fetch(_) => n.phase.Reading? && n.phase.keys != [] && Object(n.phase.peer, n.phase.keys[0]) in w.batches
       case Apply(_) => n.phase.Applying? && n.phase.left != []
                        && (n.phase.left[0].eventId in n.events || Decodes(n.phase.left[0]))
       case Advance(_) => n.phase.Applying? && n.phase.left == [] && n.phase.keys != []
       case Save(_) => n.phase.Reading? || n.phase.Applying?
       case Crash(_) => true
  }

  ghost function NodeAfter(w: World, a: Action): Node
    requires Enabled(w, a)
  {
    var n := w.nodes[a.d];
    match a
    case Append(_, e) => n.(events := Inserted(n.events, e))
    case Collect(_, batch) => n.(phase := Collected(batch))
    case Name(_, now, suffix) => n.(phase := Named(n.phase.batch, NextPosition(now, Latest(w, a.d), suffix)), clock := now)
    case PutBatch(_) => n.(phase := Uploaded(n.phase.batch, n.phase.key))
    case PutManifest(_) => n.(phase := Published(n.phase.batch, n.phase.key))
    case Mark(_) => n.(phase := Idle, synced := n.synced + set e | e in n.phase.batch && e.eventId in n.events :: e.eventId)
    case Poll(_, p) => n.(phase := Polled(p, CursorOf(n, p)))
    case List(_, keys) => n.(phase := Reading(n.phase.peer, n.phase.at, keys))
    case Fetch(_) => n.(phase := Applying(n.phase.peer, n.phase.at, w.batches[Object(n.phase.peer, n.phase.keys[0])], n.phase.keys))
    case Apply(_) =>
      var e := n.phase.left[0];
      n.(events := Inserted(n.events, e),
         synced := if e.eventId in n.events then n.synced else n.synced + {e.eventId},
         phase := n.phase.(left := n.phase.left[1..]))
    case Advance(_) => n.(phase := Reading(n.phase.peer, n.phase.keys[0], n.phase.keys[1..]))
    case Save(_) => n.(phase := Idle, cursors := n.cursors[n.phase.peer := n.phase.at])
    case Crash(_) => n.(phase := Idle)
  }

  ghost function Next(w: World, a: Action): World
    requires Enabled(w, a)
  {
    var n := w.nodes[a.d];
    World(w.nodes[a.d := NodeAfter(w, a)],
          if a.PutBatch? then w.batches[Object(a.d, n.phase.key) := n.phase.batch] else w.batches,
          if a.PutManifest? then w.manifests[a.d := n.phase.key] else w.manifests)
  }

  /** Every device starts with an empty database and the bucket is empty. */
  ghost predicate Init(w: World) {
    && w.batches == map[] && w.manifests == map[]
    && forall d :: d in w.nodes ==> w.nodes[d] == Node(map[], {}, map[], Idle, -1)
  }

  // ------------------------------------------------------------- hypotheses on a step

  /** (H) a batch key exceeds every key already under its prefix. */
  ghost predicate KeyAboveAll(w: World, a: Action)
    requires Enabled(w, a)
  {
    a.PutBatch? ==> forall k :: k in w.batches && k.device == a.d ==> k.position < w.nodes[a.d].phase.key
  }

  /** No push stops between its two Puts. */
  ghost predicate NoTornPush(w: World, a: Action)
    requires Enabled(w, a)
  {
    a.Crash? ==> !w.nodes[a.d].phase.Uploaded?
  }

  /** The clock a key is made from is later, in milliseconds, than at the device's previous key. */
  ghost predicate ClockRises(w: World, a: Action)
    requires Enabled(w, a)
  {
    a.Name? ==> a.now > w.nodes[a.d].clock
  }

  /** A device records its own events only, and an id stands for one event. */
  ghost predicate OwnAndCoherent(w: World, a: Action)
    requires Enabled(w, a)
  {
    a.Append? ==>
      && a.event.deviceId == a.d
      && forall d :: d in w.nodes && a.event.eventId in w.nodes[d].events ==> w.nodes[d].events[a.event.eventId] == a.event
  }

  // ------------------------------------------------------------- runs

  datatype Assumption = Nothing | Ordered | Untorn | Rising | Faithful

  ghost predicate Allowed(x: Assumption, w: World, a: Action)
    requires Enabled(w, a)
  {
    match x
    case Nothing => true
    case Ordered => KeyAboveAll(w, a)
    case Untorn => NoTornPush(w, a)
    case Rising => ClockRises(w, a)
    case Faithful => KeyAboveAll(w, a) && OwnAndCoherent(w, a)
  }

  ghost predicate Step(x: Assumption, w: World, a: Action, w': World) {
    Enabled(w, a) && Allowed(x, w, a) && w' == Next(w, a)
  }

  ghost predicate NextTo(x: Assumption, w: World, w': World) {
    exists a :: Step(x, w, a, w')
  }

  /** `to` is `n` steps on from `from`. */
  ghost predicate InSteps(x: Assumption, from: World, to: World, n: nat)
    decreases n
  {
    if n == 0 then from == to
    else exists mid :: InSteps(x, from, mid, n - 1) && NextTo(x, mid, to)
  }

  ghost predicate Reaches(x: Assumption, from: World, to: World) {
    exists n: nat :: InSteps(x, from, to, n)
  }

  lemma ReachesSelf(x: Assumption, w: World)
    ensures Reaches(x, w, w)
  {
    assert InSteps(x, w, w, 0);
  }

  lemma ReachesStep(x: Assumption, from: World, w: World, a: Action, w': World)
    requires Reaches(x, from, w) && Step(x, w, a, w')
    ensures Reaches(x, from, w')
  {
    hide Step;
    var n: nat :| InSteps(x, from, w, n);
    assert NextTo(x, w, w');
    assert InSteps(x, from, w', n + 1);
  }

  lemma {:induction false} ReachesTransitive(x: Assumption, a: World, b: World, c: World)
    requires Reaches(x, a, b) && Reaches(x, b, c)
    ensures Reaches(x, a, c)
  {
    var n: nat :| InSteps(x, b, c, n);
    ReachesOn(x, a, b, c, n);
  }

  lemma {:induction false} ReachesOn(x: Assumption, a: World, b: World, c: World, n: nat)
    requires Reaches(x, a, b) && InSteps(x, b, c, n)
    ensures Reaches(x, a, c)
    decreases n
  {
    hide Step;
    if n > 0 {
      var mid :| InSteps(x, b, mid, n - 1) && NextTo(x, mid, c);
      ReachesOn(x, a, b, mid, n - 1);
      var act :| Step(x, mid, act, c);
      ReachesStep(x, a, mid, act, c);
    }
  }
}
