/** Nothing is lost on the reading side, provided batch keys ascend (H): a cursor never passes a
    batch that has not been applied. And where H comes from. */
module ReaderSafety {
  import opened Calendar
  import opened BatchKeys
  import opened Events
  import opened Rows
  import opened Store
  import opened Protocol
  import opened WriterSafety

  ghost predicate Held(events: map<string, Event>, batch: seq<Event>) {
    forall e :: e in batch ==> e.eventId in events
  }

  /** Everything `peer` has stored at or below `at` is in `events`; and `at` is a key that was read,
      or nothing was. */
  ghost predicate ReadUpTo(batches: map<Object, seq<Event>>, events: map<string, Event>, peer: string, at: int) {
    && (at == NOTHING_READ || (at >= 0 && Object(peer, at) in batches))
    && forall k: nat :: Object(peer, k) in batches && k <= at ==> Held(events, batches[Object(peer, k)])
  }

  ghost predicate CursorsSafe(w: World, r: string)
    requires r in w.nodes
  {
    forall peer :: peer != r ==> ReadUpTo(w.batches, w.nodes[r].events, peer, CursorOf(w.nodes[r], peer))
  }

  /** The listed keys are exactly the stored ones from `at` up to the last listed. */
  ghost predicate NoGap(batches: map<Object, seq<Event>>, peer: string, at: int, keys: seq<nat>) {
    && Ascending(keys)
    && (forall k :: k in keys ==> k > at && Object(peer, k) in batches)
    && (forall k: nat :: Object(peer, k) in batches && keys != [] && at < k <= keys[|keys|-1] ==> k in keys)
  }

  ghost predicate ReadingSafe(w: World, n: Node) {
    match n.phase
    case Polled(peer, at) => ReadUpTo(w.batches, n.events, peer, at)
    case Reading(peer, at, keys) => ReadUpTo(w.batches, n.events, peer, at) && NoGap(w.batches, peer, at, keys)
    case Applying(peer, at, left, keys) =>
      && ReadUpTo(w.batches, n.events, peer, at) && NoGap(w.batches, peer, at, keys)
      && keys != []
      && forall e :: e in w.batches[Object(peer, keys[0])] ==> e in left || e.eventId in n.events
    case _ => true
  }

  ghost predicate ReaderInv(w: World) {
    forall r :: r in w.nodes ==> CursorsSafe(w, r) && ReadingSafe(w, w.nodes[r])
  }

  lemma ReaderInit(w: World)
    requires Init(w)
    ensures ReaderInv(w)
  {
  }

  // ------------------------------------------------------------- one step

  /** A new batch above every key of its device leaves what has been read as it was. */
  lemma ReadUpToStays(w: World, a: Action, before: map<string, Event>, after: map<string, Event>, peer: string, at: int)
    requires Enabled(w, a) && KeyAboveAll(w, a) && Extends(after, before)
    requires ReadUpTo(w.batches, before, peer, at)
    ensures ReadUpTo(Next(w, a).batches, after, peer, at)
  {
    hide IsListing, IsHead, Decodes;
    var w' := Next(w, a);
    forall k: nat | Object(peer, k) in w'.batches && k <= at ensures Held(after, w'.batches[Object(peer, k)]) {
      assert Object(peer, k) in w.batches;
    }
  }

  lemma NoGapStays(w: World, a: Action, peer: string, at: int, keys: seq<nat>)
    requires Enabled(w, a) && KeyAboveAll(w, a) && NoGap(w.batches, peer, at, keys)
    ensures NoGap(Next(w, a).batches, peer, at, keys)
  {
    hide IsListing, IsHead, Decodes;
    if keys != [] {
      var last := keys[|keys|-1];
      assert last in keys && Object(peer, last) in w.batches;
    }
  }

  lemma FetchedStays(w: World, a: Action, peer: string, keys: seq<nat>)
    requires Enabled(w, a) && KeyAboveAll(w, a) && keys != [] && Object(peer, keys[0]) in w.batches
    ensures var w' := Next(w, a);
            Object(peer, keys[0]) in w'.batches && w'.batches[Object(peer, keys[0])] == w.batches[Object(peer, keys[0])]
  {
    hide IsListing, IsHead, Decodes;
  }

  /** What a node knows stays true while another device steps, or while the node appends or pushes. */
  lemma ReadingStays(w: World, a: Action, n: Node, n': Node)
    requires Enabled(w, a) && KeyAboveAll(w, a) && ReadingSafe(w, n)
    requires n'.phase == n.phase && Extends(n'.events, n.events)
    ensures ReadingSafe(Next(w, a), n')
  {
    hide ReadUpTo, NoGap, Enabled, NodeAfter, Next;
    match n.phase
    case Polled(peer, at) => ReadUpToStays(w, a, n.events, n'.events, peer, at);
    case Reading(peer, at, keys) =>
      ReadUpToStays(w, a, n.events, n'.events, peer, at);
      NoGapStays(w, a, peer, at, keys);
    case Applying(peer, at, left, keys) =>
      ReadUpToStays(w, a, n.events, n'.events, peer, at);
      NoGapStays(w, a, peer, at, keys);
      FirstListed(w.batches, peer, at, keys);
      FetchedStays(w, a, peer, keys);
    case _ =>
  }

  lemma FirstListed(batches: map<Object, seq<Event>>, peer: string, at: int, keys: seq<nat>)
    requires NoGap(batches, peer, at, keys) && keys != []
    ensures keys[0] > at && Object(peer, keys[0]) in batches
  {
  }

  lemma CursorsStay(w: World, a: Action, r: string)
    requires WriterInv(w) && Enabled(w, a) && KeyAboveAll(w, a) && r in w.nodes && CursorsSafe(w, r)
    requires a.d == r ==> !a.Save?
    ensures CursorsSafe(Next(w, a), r)
  {
    var w' := Next(w, a);
    LogsGrow(w, a);
    hide ReadUpTo, IsListing, IsHead, Decodes, WriterInv;
    forall peer | peer != r ensures ReadUpTo(w'.batches, w'.nodes[r].events, peer, CursorOf(w'.nodes[r], peer)) {
      assert CursorOf(w'.nodes[r], peer) == CursorOf(w.nodes[r], peer);
      ReadUpToStays(w, a, w.nodes[r].events, w'.nodes[r].events, peer, CursorOf(w.nodes[r], peer));
    }
  }

  lemma SaveIsSafe(w: World, a: Action)
    requires WriterInv(w) && Enabled(w, a) && a.Save? && CursorsSafe(w, a.d) && ReadingSafe(w, w.nodes[a.d])
    ensures CursorsSafe(Next(w, a), a.d)
  {
    hide ReadUpTo, NoGap, WriterInv;
    var w', n := Next(w, a), w.nodes[a.d];
    forall peer | peer != a.d ensures ReadUpTo(w'.batches, w'.nodes[a.d].events, peer, CursorOf(w'.nodes[a.d], peer)) {
      if peer != n.phase.peer { assert ReadUpTo(w.batches, n.events, peer, CursorOf(n, peer)); }
    }
  }

  lemma ListIsSafe(w: World, a: Action)
    requires Enabled(w, a) && a.List? && ReadingSafe(w, w.nodes[a.d])
    ensures ReadingSafe(Next(w, a), NodeAfter(w, a))
  {
    hide ReadUpTo;
  }

  /** Finishing a batch moves the cursor in memory onto it, with nothing stored in between. */
  lemma AdvanceIsSafe(w: World, a: Action)
    requires Enabled(w, a) && a.Advance? && ReadingSafe(w, w.nodes[a.d])
    ensures ReadingSafe(Next(w, a), NodeAfter(w, a))
  {
    hide IsListing, IsHead, Decodes;
    var n := w.nodes[a.d];
    var peer, at, keys := n.phase.peer, n.phase.at, n.phase.keys;
    forall k: nat | Object(peer, k) in w.batches && k <= keys[0] ensures Held(n.events, w.batches[Object(peer, k)]) {
      if k > at {
        assert k in keys;
        var i :| 0 <= i < |keys| && keys[i] == k;
      }
    }
    var rest := keys[1..];
    assert keys[0] in keys && (rest != [] ==> rest[|rest|-1] == keys[|keys|-1]);
    forall k: nat | Object(peer, k) in w.batches && rest != [] && keys[0] < k <= rest[|rest|-1] ensures k in rest {
      assert k in keys;
      var i :| 0 <= i < |keys| && keys[i] == k;
      assert rest[i-1] == k;
    }
    assert forall k :: k in rest ==> k in keys;
  }

  lemma ApplyIsSafe(w: World, a: Action)
    requires Enabled(w, a) && a.Apply? && ReadingSafe(w, w.nodes[a.d])
    ensures ReadingSafe(Next(w, a), NodeAfter(w, a))
  {
    hide NoGap, IsListing, IsHead, Decodes;
    var n := w.nodes[a.d];
    var left := n.phase.left;
    assert forall e :: e in left ==> e == left[0] || e in left[1..];
  }

  lemma OwnReading(w: World, a: Action)
    requires WriterInv(w) && Enabled(w, a) && KeyAboveAll(w, a) && CursorsSafe(w, a.d) && ReadingSafe(w, w.nodes[a.d])
    ensures ReadingSafe(Next(w, a), NodeAfter(w, a))
  {
    hide ReadUpTo, NoGap, IsListing, IsHead, Decodes, WriterInv;
    match a
    case Append(_, e) => ReadingStays(w, a, w.nodes[a.d], NodeAfter(w, a));
    case List(_, _) => ListIsSafe(w, a);
    case Advance(_) => AdvanceIsSafe(w, a);
    case Apply(_) => ApplyIsSafe(w, a);
    case _ =>
  }

  /** Under H every step keeps the reading side right, whatever crashes, fails or cannot be read. */
  lemma ReaderStep(w: World, a: Action)
    requires WriterInv(w) && ReaderInv(w) && Enabled(w, a) && KeyAboveAll(w, a)
    ensures ReaderInv(Next(w, a))
  {
    var w' := Next(w, a);
    LogsGrow(w, a);
    hide CursorsSafe, ReadingSafe, WriterInv, KeyAboveAll, Enabled;
    forall r | r in w'.nodes ensures CursorsSafe(w', r) && ReadingSafe(w', w'.nodes[r]) {
      if r == a.d {
        OwnReading(w, a);
        if a.Save? { SaveIsSafe(w, a); } else { CursorsStay(w, a, r); }
      } else {
        ReadingStays(w, a, w.nodes[r], w'.nodes[r]);
        CursorsStay(w, a, r);
      }
    }
  }

  lemma {:induction false} ReaderSteps(from: World, to: World, n: nat)
    requires WriterInv(from) && ReaderInv(from) && InSteps(Ordered, from, to, n)
    ensures WriterInv(to) && ReaderInv(to)
    decreases n
  {
    hide WriterInv, ReaderInv, Enabled, KeyAboveAll;
    if n > 0 {
      var mid :| InSteps(Ordered, from, mid, n - 1) && NextTo(Ordered, mid, to);
      var a :| Step(Ordered, mid, a, to);
      ReaderSteps(from, mid, n - 1);
      WriterStep(mid, a);
      ReaderStep(mid, a);
    }
  }

  /** Nothing is lost. In every state N devices can reach under H, with crashes and failed calls
      anywhere: every event in every batch a peer has stored, whose key is at or below a device's
      cursor for that peer, is in that device's log. */
  lemma NothingSkipped(init: World, w: World, r: string, k: Object, e: Event)
    requires Init(init) && Reaches(Ordered, init, w)
    requires r in w.nodes && k in w.batches && k.device != r
    requires k.position <= CursorOf(w.nodes[r], k.device) && e in w.batches[k]
    ensures e.eventId in w.nodes[r].events
  {
    hide WriterInv;
    var n: nat :| InSteps(Ordered, init, w, n);
    WriterInit(init);
    ReaderInit(init);
    ReaderSteps(init, w, n);
    assert CursorsSafe(w, r);
    assert Object(k.device, k.position) == k;
  }

  /** … so a device holds every event of every peer batch its cursor has passed. */
  lemma PassedBatchesAreHeld(init: World, w: World, r: string, k: Object)
    requires Init(init) && Reaches(Ordered, init, w)
    requires r in w.nodes && k in w.batches && k.device != r && k.position <= CursorOf(w.nodes[r], k.device)
    ensures Held(w.nodes[r].events, w.batches[k])
  {
    forall e | e in w.batches[k] ensures e.eventId in w.nodes[r].events {
      NothingSkipped(init, w, r, k, e);
    }
  }

  // ------------------------------------------------------------- reading a batch again

  lemma {:induction false} ReapplyRun(x: Assumption, init: World, w: World, r: string)
    requires Reaches(x, init, w) && r in w.nodes && w.nodes[r].phase.Applying?
    requires Held(w.nodes[r].events, w.nodes[r].phase.left)
    ensures Reaches(x, init, w.(nodes := w.nodes[r := w.nodes[r].(phase := w.nodes[r].phase.(left := []))]))
    decreases |w.nodes[r].phase.left|
  {
    hide Reaches;
    var n := w.nodes[r];
    if n.phase.left == [] {
      assert w.nodes == w.nodes[r := n.(phase := n.phase.(left := []))];
    } else {
      var e := n.phase.left[0];
      assert e in n.phase.left;
      var w1 := Next(w, Apply(r));
      assert w1.nodes[r] == n.(phase := n.phase.(left := n.phase.left[1..]));
      ReachesStep(x, init, w, Apply(r), w1);
      ReapplyRun(x, init, w1, r);
      assert w1.nodes[r := w1.nodes[r].(phase := w1.nodes[r].phase.(left := []))]
          == w.nodes[r := n.(phase := n.phase.(left := []))];
    }
  }

  /** Reading a batch again changes nothing. A device that fetches, applies and passes over a batch whose
      events it holds, one it had read before a crash kept the cursor from being saved, or any batch its
      cursor has passed, ends with the same log, the same synced flags and the same saved cursors. */
  lemma RereadChangesNothing(x: Assumption, init: World, w: World, r: string, peer: string, at: int, keys: seq<nat>)
    requires Reaches(x, init, w) && r in w.nodes && w.nodes[r].phase == Reading(peer, at, keys) && keys != []
    requires Object(peer, keys[0]) in w.batches && Held(w.nodes[r].events, w.batches[Object(peer, keys[0])])
    ensures Reaches(x, init, w.(nodes := w.nodes[r := w.nodes[r].(phase := Reading(peer, keys[0], keys[1..]))]))
  {
    hide Reaches, Held;
    var n := w.nodes[r];
    var w1 := Next(w, Fetch(r));
    ReachesStep(x, init, w, Fetch(r), w1);
    ReapplyRun(x, init, w1, r);
    var w2 := w1.(nodes := w1.nodes[r := w1.nodes[r].(phase := w1.nodes[r].phase.(left := []))]);
    var w3 := Next(w2, Advance(r));
    ReachesStep(x, init, w2, Advance(r), w3);
    assert w3 == w.(nodes := w.nodes[r := n.(phase := Reading(peer, keys[0], keys[1..]))]);
  }

  // ------------------------------------------------------------- where H comes from

  ghost predicate StoredBelow(batches: map<Object, seq<Event>>, d: string, bound: int) {
    forall k :: k in batches && k.device == d ==> k.position < bound
  }

  /** What H asks of one push: the key named in millisecond `now` keeps H, whatever its suffix, if and
      only if every key the device has stored is of an earlier millisecond than the one it carries. */
  lemma PushKeepsHIff(w: World, d: string, now: nat)
    requires d in w.nodes && w.nodes[d].phase.Collected?
    ensures (forall suffix: Suffix :: KeyAboveAll(Next(w, Name(d, now, suffix)), PutBatch(d)))
            <==> StoredBelow(w.batches, d, Position(NextStamp(now, Latest(w, d)), 0))
    ensures forall suffix: Suffix ::
              KeyAboveAll(Next(w, Name(d, now, suffix)), PutBatch(d))
              <==> StoredBelow(w.batches, d, NextPosition(now, Latest(w, d), suffix))
  {
    hide IsListing, IsHead, Decodes;
    forall suffix: Suffix
      ensures KeyAboveAll(Next(w, Name(d, now, suffix)), PutBatch(d))
              <==> StoredBelow(w.batches, d, NextPosition(now, Latest(w, d), suffix))
    {
      var w' := Next(w, Name(d, now, suffix));
      assert w'.batches == w.batches && w'.nodes[d].phase.key == NextPosition(now, Latest(w, d), suffix);
    }
    assert NextPosition(now, Latest(w, d), 0) == Position(NextStamp(now, Latest(w, d)), 0);
  }

  /** Every stored key is one the manifest has reached, except a key whose push is between its two
      Puts. */
  ghost predicate NothingTorn(w: World) {
    forall k :: k in w.batches ==>
      && k.device in w.nodes
      && var n := w.nodes[k.device];
         || (k.device in w.manifests && k.position <= w.manifests[k.device])
         || (n.phase.Uploaded? && k.position <= n.phase.key)
  }

  lemma UntornStep(w: World, a: Action)
    requires WriterInv(w) && NothingTorn(w) && Enabled(w, a) && NoTornPush(w, a)
    ensures KeyAboveAll(w, a) && NothingTorn(Next(w, a))
  {
    hide IsListing, IsHead, Decodes, Ownership, SyncedMeansUploaded;
    var w' := Next(w, a);
    assert PhaseOk(w, a.d, w.nodes[a.d]);
    forall k | k in w'.batches
      ensures k.device in w'.nodes
      ensures (k.device in w'.manifests && k.position <= w'.manifests[k.device])
              || (w'.nodes[k.device].phase.Uploaded? && k.position <= w'.nodes[k.device].phase.key)
    {
      if k in w.batches && k.device == a.d && a.PutManifest? {
        assert k.position <= w.nodes[a.d].phase.key;
      }
    }
  }

  lemma {:induction false} UntornSteps(from: World, to: World, n: nat)
    requires WriterInv(from) && NothingTorn(from) && InSteps(Untorn, from, to, n)
    ensures WriterInv(to) && NothingTorn(to) && Reaches(Ordered, from, to)
    decreases n
  {
    hide WriterInv, NothingTorn, Enabled, KeyAboveAll, NoTornPush;
    if n == 0 {
      ReachesSelf(Ordered, from);
    } else {
      var mid :| InSteps(Untorn, from, mid, n - 1) && NextTo(Untorn, mid, to);
      var a :| Step(Untorn, mid, a, to);
      UntornSteps(from, mid, n - 1);
      UntornStep(mid, a);
      WriterStep(mid, a);
      ReachesStep(Ordered, from, mid, a, to);
    }
  }

  /** If no push ever stops between its two Puts, every run satisfies H, whatever the clocks do. */
  lemma UntornPushesAscend(init: World, w: World)
    requires Init(init) && Reaches(Untorn, init, w)
    ensures Reaches(Ordered, init, w)
  {
    var n: nat :| InSteps(Untorn, init, w, n);
    WriterInit(init);
    UntornSteps(init, w, n);
  }

  /** Every stored key was made no later than the device's last key; while a key is waiting to be
      stored, all stored ones are of earlier milliseconds. */
  ghost predicate KeysBehindClock(w: World) {
    forall k :: k in w.batches ==>
      && k.device in w.nodes
      && var n := w.nodes[k.device];
         k.position < Position(n.clock + 1, 0) && (n.phase.Named? ==> k.position < Position(n.clock, 0))
  }

  ghost predicate NamedByClock(w: World) {
    forall d :: d in w.nodes ==>
      && w.nodes[d].clock >= -1
      && (w.nodes[d].phase.Named? ==>
            && w.nodes[d].clock >= 0
            && Position(w.nodes[d].clock, 0) <= w.nodes[d].phase.key < Position(w.nodes[d].clock + 1, 0))
  }

  lemma RisingNames(w: World, a: Action)
    requires WriterInv(w) && NamedByClock(w) && KeysBehindClock(w) && Enabled(w, a) && ClockRises(w, a)
    ensures KeyAboveAll(w, a) && NamedByClock(Next(w, a))
  {
    hide IsListing, IsHead, Decodes, Ownership, SyncedMeansUploaded, BatchOk, MadeBy, TablesOk;
    assert PhaseOk(w, a.d, w.nodes[a.d]);
    if a.Name? && a.d in w.manifests {
      assert Object(a.d, w.manifests[a.d]) in w.batches;
      assert w.manifests[a.d] < Position(w.nodes[a.d].clock + 1, 0);
      assert w.manifests[a.d] / 0x1_0000 < a.now;
    }
  }

  lemma RisingBatches(w: World, a: Action)
    requires NamedByClock(w) && KeysBehindClock(w) && Enabled(w, a) && ClockRises(w, a)
    ensures KeysBehindClock(Next(w, a))
  {
    hide IsListing, IsHead, Decodes;
    var w' := Next(w, a);
    forall k | k in w'.batches
      ensures k.device in w'.nodes
      ensures k.position < Position(w'.nodes[k.device].clock + 1, 0)
      ensures w'.nodes[k.device].phase.Named? ==> k.position < Position(w'.nodes[k.device].clock, 0)
    {
      assert k in w.batches || (a.PutBatch? && k == Object(a.d, w.nodes[a.d].phase.key));
    }
  }

  lemma RisingStep(w: World, a: Action)
    requires WriterInv(w) && NamedByClock(w) && KeysBehindClock(w) && Enabled(w, a) && ClockRises(w, a)
    ensures KeyAboveAll(w, a) && NamedByClock(Next(w, a)) && KeysBehindClock(Next(w, a))
  {
    hide WriterInv, NamedByClock, KeysBehindClock, Enabled, KeyAboveAll, ClockRises, Next;
    RisingNames(w, a);
    RisingBatches(w, a);
  }

  lemma {:induction false} RisingSteps(from: World, to: World, n: nat)
    requires WriterInv(from) && NamedByClock(from) && KeysBehindClock(from) && InSteps(Rising, from, to, n)
    ensures WriterInv(to) && NamedByClock(to) && KeysBehindClock(to) && Reaches(Ordered, from, to)
    decreases n
  {
    hide WriterInv, NamedByClock, KeysBehindClock, Enabled, KeyAboveAll, ClockRises;
    if n == 0 {
      ReachesSelf(Ordered, from);
    } else {
      var mid :| InSteps(Rising, from, mid, n - 1) && NextTo(Rising, mid, to);
      var a :| Step(Rising, mid, a, to);
      RisingSteps(from, mid, n - 1);
      RisingStep(mid, a);
      WriterStep(mid, a);
      ReachesStep(Ordered, from, mid, a, to);
    }
  }

  /** If each device's millisecond clock rises from push to push, every run satisfies H, wherever
      pushes stop. */
  lemma RisingClocksAscend(init: World, w: World)
    requires Init(init) && Reaches(Rising, init, w)
    ensures Reaches(Ordered, init, w)
  {
    var n: nat :| InSteps(Rising, init, w, n);
    WriterInit(init);
    RisingSteps(init, w, n);
  }
}
