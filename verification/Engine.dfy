/** The sync engine (internal/sync/engine.go) over a bucket that keeps the Storage contract
    (internal/sync/storage.go). Each method performs the calls the source makes, any of which may
    fail, and is proved to be a run of the protocol's steps: what it did before it stopped is a
    sequence of enabled steps of its device. */
module Engine {
  import opened Calendar
  import opened BatchKeys
  import opened Events
  import opened Rows
  import opened Store
  import opened Protocol
  import opened WriterSafety
  import opened ReaderSafety
  import opened Convergence

  // ------------------------------------------------------------- the bucket

  function InsertKey(k: nat, keys: seq<nat>): seq<nat> {
    if keys == [] || k < keys[0] then [k] + keys else [keys[0]] + InsertKey(k, keys[1..])
  }

  lemma {:induction false} InsertKeyAscends(k: nat, keys: seq<nat>)
    requires Ascending(keys) && k !in keys
    ensures Ascending(InsertKey(k, keys))
    ensures forall j :: j in InsertKey(k, keys) <==> j == k || j in keys
  {
    if keys != [] {
      assert keys == [keys[0]] + keys[1..];
      assert keys[0] in keys;
      if k >= keys[0] {
        InsertKeyAscends(k, keys[1..]);
        var rest := InsertKey(k, keys[1..]);
        forall j | 0 <= j < |rest| ensures keys[0] < rest[j] {
          assert rest[j] in rest;
        }
      }
    }
  }

  class Bucket {
    /** When true no call fails and everything stored can be read; otherwise any call may fail. */
    const reliable: bool

    var batches: map<Object, seq<Event>>
    var manifests: map<string, nat>

    constructor (reliable: bool)
      ensures this.reliable == reliable && batches == map[] && manifests == map[]
    {
      this.reliable := reliable;
      batches, manifests := map[], map[];
    }

    /** An atomic write. A call that reports failure may still have stored the object. */
    method PutBatch(k: Object, batch: seq<Event>) returns (ok: bool, ghost stored: bool)
      modifies this`batches
      ensures batches == if stored then old(batches)[k := batch] else old(batches)
      ensures ok ==> stored
      ensures reliable ==> ok
    {
      var fails, lost := *, *;
      if !reliable && fails && lost { return false, false; }
      batches := batches[k := batch];
      return reliable || !fails, true;
    }

    method PutManifest(d: string, k: nat) returns (ok: bool, ghost stored: bool)
      modifies this`manifests
      ensures manifests == if stored then old(manifests)[d := k] else old(manifests)
      ensures ok ==> stored
      ensures reliable ==> ok
    {
      var fails, lost := *, *;
      if !reliable && fails && lost { return false, false; }
      manifests := manifests[d := k];
      return reliable || !fails, true;
    }

    /** Fetches and decrypts one batch. */
    method GetBatch(k: Object) returns (r: Result<seq<Event>>)
      ensures r.Ok? ==> k in batches && r.value == batches[k]
      ensures reliable && k in batches ==> r.Ok?
    {
      var fails := *;
      if !reliable && fails { return Err(IoError); }
      return if k in batches then Ok(batches[k]) else Err(NotFound);
    }

    /** The latest batch a device's manifest names; nothing when it has no manifest. */
    method LoadManifest(d: string) returns (r: Result<Option<nat>>)
      ensures r.Ok? ==> r.value == if d in manifests then Some(manifests[d]) else None
      ensures reliable ==> r.Ok?
    {
      var fails := *;
      if !reliable && fails { return Err(IoError); }
      return Ok(if d in manifests then Some(manifests[d]) else None);
    }

    /** A device's keys beyond a bound, ascending. */
    method List(d: string, after: int) returns (r: Result<seq<nat>>)
      ensures r.Ok? ==> IsListing(r.value, batches, d, after)
      ensures reliable ==> r.Ok?
    {
      var fails := *;
      if !reliable && fails { return Err(IoError); }
      var out: seq<nat>, rest := [], batches.Keys;
      while rest != {}
        invariant rest <= batches.Keys && Ascending(out)
        invariant forall k: nat :: k in out <==> Object(d, k) in batches && Object(d, k) !in rest && k > after
        decreases |rest|
      {
        var o :| o in rest;
        rest := rest - {o};
        if o.device == d && o.position > after {
          InsertKeyAscends(o.position, out);
          out := InsertKey(o.position, out);
          assert o == Object(d, o.position);
        }
      }
      return Ok(out);
    }

    /** Something is stored under the device's id. */
    ghost predicate Holds(d: string)
      reads this
    {
      d in manifests || exists o :: o in batches && o.device == d
    }

    /** The device ids under which anything is stored, each once. */
    method Children() returns (r: Result<seq<string>>)
      ensures r.Ok? ==> Unique(r.value) && forall d :: d in r.value <==> Holds(d)
      ensures reliable ==> r.Ok?
    {
      var fails := *;
      if !reliable && fails { return Err(IoError); }
      var out: seq<string>, rest := [], manifests.Keys + set o | o in batches :: o.device;
      while rest != {}
        invariant Unique(out) && forall d :: Holds(d) <==> d in out || d in rest
        invariant forall d :: d in out ==> d !in rest
        decreases |rest|
      {
        var d :| d in rest;
        rest := rest - {d};
        out := out + [d];
      }
      return Ok(out);
    }
  }

  // ------------------------------------------------------------- queues and batches

  function Concat(batches: seq<seq<Event>>): seq<Event> {
    if batches == [] then [] else batches[0] + Concat(batches[1..])
  }

  lemma {:induction false} ConcatSnoc(batches: seq<seq<Event>>, b: seq<Event>)
    ensures Concat(batches + [b]) == Concat(batches) + b
  {
    if batches == [] {
      assert Concat([b]) == b + Concat([]);
      assert [] + [b] == [b];
    } else {
      assert (batches + [b])[1..] == batches[1..] + [b];
      ConcatSnoc(batches[1..], b);
    }
  }

  /** After its head is marked synced the queue is the rest of itself. */
  lemma QueueAdvances(events: map<string, Event>, synced: set<string>, d: string, queue: seq<Event>, n: nat)
    requires Keyed(events) && Lists(queue, Pending(events, synced, d)) && n <= |queue|
    ensures Lists(queue[n..], Pending(events, synced + (set e | e in queue[..n] && e.eventId in events :: e.eventId), d))
  {
    var done := set e | e in queue[..n] && e.eventId in events :: e.eventId;
    forall i, j | 0 <= i < j < |queue[n..]| ensures Before(queue[n..][i], queue[n..][j]) {
      assert queue[n..][i] == queue[n+i] && queue[n..][j] == queue[n+j];
    }
    forall e ensures e in Elements(queue[n..]) <==> e in Pending(events, synced + done, d) {
      assert e in Elements(queue) <==> e in Pending(events, synced, d);
      if e in queue {
        assert e in Elements(queue);
        var i :| 0 <= i < |queue| && queue[i] == e;
        if i < n {
          assert queue[..n][i] == e;
          SortedDistinct(queue, n, e);
        } else {
          assert queue[n..][i-n] == e;
          forall x | x in queue[..n] ensures x.eventId != e.eventId {
            SortedDistinct(queue, n, x);
            assert x in queue && x in Elements(queue);
          }
        }
      }
    }
  }

  lemma SortedDistinct(queue: seq<Event>, n: nat, e: Event)
    requires Sorted(queue) && n <= |queue| && e in queue[..n]
    ensures e !in queue[n..]
  {
    var i :| 0 <= i < n && queue[i] == e;
    forall k | 0 <= k < |queue[n..]| ensures queue[n..][k] != e {
      assert Before(queue[i], queue[n+k]);
      BeforeIrreflexive(e);
    }
  }

  /** The next key is sure to sort above everything the device has stored, whatever its suffix: by
      ReaderSafety.PushKeepsHIff, exactly what H asks of a push in millisecond `now`. */
  ghost predicate CanAscend(batches: map<Object, seq<Event>>, manifests: map<string, nat>, d: string, now: nat) {
    StoredBelow(batches, d, Position(NextStamp(now, if d in manifests then Some(manifests[d]) else None), 0))
  }

  /** Nothing is stored beyond the manifest. */
  ghost predicate NothingBeyond(batches: map<Object, seq<Event>>, manifests: map<string, nat>, d: string) {
    forall k :: k in batches && k.device == d ==> d in manifests && k.position <= manifests[d]
  }

  lemma NothingBeyondAscends(batches: map<Object, seq<Event>>, manifests: map<string, nat>, d: string, now: nat)
    requires NothingBeyond(batches, manifests, d)
    ensures CanAscend(batches, manifests, d, now)
  {
  }

  /** The batches of a drain are stored, none empty or over the limit, under ascending keys of which
      the manifest names the last. */
  ghost predicate Stored(batches: map<Object, seq<Event>>, manifests: map<string, nat>, d: string,
                         sent: seq<seq<Event>>, keys: seq<nat>) {
    && |keys| == |sent| && Ascending(keys)
    && (forall i :: 0 <= i < |sent| ==> 0 < |sent[i]| <= BATCH_LIMIT)
    && (forall i :: 0 <= i < |sent| ==> Object(d, keys[i]) in batches && batches[Object(d, keys[i])] == sent[i])
    && (keys != [] ==> d in manifests && manifests[d] == keys[|keys|-1])
  }

  lemma NoneStored(batches: map<Object, seq<Event>>, manifests: map<string, nat>, d: string)
    ensures Stored(batches, manifests, d, [], [])
  {
  }

  lemma StoredMore(batches: map<Object, seq<Event>>, manifests: map<string, nat>, d: string,
                   sent: seq<seq<Event>>, keys: seq<nat>, batch: seq<Event>, key: nat)
    requires Stored(batches, manifests, d, sent, keys) && 0 < |batch| <= BATCH_LIMIT
    requires d in manifests ==> key > manifests[d]
    ensures Stored(batches[Object(d, key) := batch], manifests[d := key], d, sent + [batch], keys + [key])
  {
  }

  ghost predicate Plain(x: Assumption) {
    x == Nothing || x == Faithful
  }

  /** Only `d`, its prefix and its manifest may have changed. */
  ghost predicate OnlyMoved(w: World, w': World, d: string) {
    && w'.nodes.Keys == w.nodes.Keys
    && (forall p :: p in w.nodes && p != d ==> w'.nodes[p] == w.nodes[p])
    && (forall p :: p != d ==> Latest(w', p) == Latest(w, p))
    && (forall k: Object :: k.device != d ==> (k in w'.batches <==> k in w.batches) && (k in w.batches ==> w'.batches[k] == w.batches[k]))
  }

  lemma MovedOnce(w: World, a: Action)
    requires Enabled(w, a)
    ensures OnlyMoved(w, Next(w, a), a.d)
  {
    hide IsListing, IsHead, Decodes;
  }

  lemma MovedNowhere(w: World, d: string)
    ensures OnlyMoved(w, w, d)
  {
  }

  lemma MovedAgain(w: World, w': World, w'': World, d: string)
    requires OnlyMoved(w, w', d) && OnlyMoved(w', w'', d)
    ensures OnlyMoved(w, w'', d)
  {
  }

  // ------------------------------------------------------------- the engine

  class SyncEngine {
    const store: EventStore
    const bucket: Bucket
    const device: string

    /** The whole protocol's state as this engine's calls have left it. */
    ghost var world: World

    /** The engine's tables and the bucket are what `world` says. */
    ghost predicate Mirrors()
      reads this, store, bucket
    {
      && device in world.nodes
      && world.nodes[device].events == store.events
      && world.nodes[device].synced == store.synced
      && world.nodes[device].cursors == store.cursors
      && world.batches == bucket.batches
      && world.manifests == bucket.manifests
    }

    ghost predicate Valid()
      reads this, store, bucket
    {
      store.Valid() && Mirrors() && WriterInv(world) && world.nodes[device].phase == Idle
    }

    constructor (store: EventStore, bucket: Bucket, device: string, ghost world: World)
      requires device in world.nodes && world.nodes[device].events == store.events
      requires world.nodes[device].synced == store.synced && world.nodes[device].cursors == store.cursors
      requires world.batches == bucket.batches && world.manifests == bucket.manifests
      requires store.Valid() && WriterInv(world) && world.nodes[device].phase == Idle
      ensures Valid() && this.store == store && this.bucket == bucket && this.device == device && this.world == world
    {
      this.store, this.bucket, this.device, this.world := store, bucket, device, world;
    }

    /** Follows one step in `world`. */
    ghost method Move(a: Action, x: Assumption, start: World)
      requires WriterInv(world) && Enabled(world, a) && a.d == device && Plain(x)
      requires Reaches(x, start, world) && OnlyMoved(start, world, device)
      requires !a.Append? && (a.PutBatch? && x == Faithful ==> KeyAboveAll(world, a))
      modifies this`world
      ensures world == Next(old(world), a) && WriterInv(world)
      ensures Reaches(x, start, world) && OnlyMoved(start, world, device)
    {
      hide WriterInv, Enabled, Reaches, NodeAfter, Next, OnlyMoved;
      var w' := Next(world, a);
      WriterStep(world, a);
      MovedOnce(world, a);
      MovedAgain(start, world, w', device);
      ReachesStep(x, start, world, a, w');
      world := w';
    }

    ghost predicate At(phase: Phase)
      reads this, store, bucket
    {
      Mirrors() && WriterInv(world) && world.nodes[device].phase == phase
    }

    /** The two Puts of a push: the batch, then the manifest that names it. */
    method Upload(events: seq<Event>, key: nat, ghost x: Assumption, ghost start: World) returns (ok: bool)
      requires At(Named(events, key)) && Plain(x) && Reaches(x, start, world) && OnlyMoved(start, world, device)
      requires x == Faithful ==> KeyAboveAll(world, Protocol.PutBatch(device))
      modifies this`world, bucket
      ensures At(if ok then Published(events, key) else Idle)
      ensures Reaches(x, start, world) && OnlyMoved(start, world, device)
      ensures ok ==> bucket.batches == old(bucket.batches)[Object(device, key) := events]
                     && bucket.manifests == old(bucket.manifests)[device := key]
      ensures bucket.reliable ==> ok
    {
      hide WriterInv, Reaches, OnlyMoved, IsHead, IsListing, KeyAboveAll;
      ghost var stored;
      ok, stored := bucket.PutBatch(Object(device, key), events);
      if stored { Move(Protocol.PutBatch(device), x, start); }
      if !ok { Move(Crash(device), x, start); return; }
      ok, stored := bucket.PutManifest(device, key);
      if stored { Move(Protocol.PutManifest(device), x, start); }
      if !ok { Move(Crash(device), x, start); }
    }

    /** Reads the device's own manifest and names the next batch after it. */
    method NameBatch(events: seq<Event>, now: nat, suffix: Suffix, ghost x: Assumption, ghost start: World)
      returns (r: Result<nat>)
      requires At(Collected(events)) && Plain(x) && Reaches(x, start, world) && OnlyMoved(start, world, device)
      modifies this`world
      ensures At(if r.Ok? then Named(events, r.value) else Idle)
      ensures Reaches(x, start, world) && OnlyMoved(start, world, device)
      ensures r.Ok? ==> r.value == NextPosition(now, if device in bucket.manifests then Some(bucket.manifests[device]) else None, suffix)
      ensures bucket.reliable ==> r.Ok?
    {
      hide WriterInv, Reaches, OnlyMoved, IsHead, IsListing;
      var m := bucket.LoadManifest(device);
      if m.Err? { Move(Crash(device), x, start); return Err(m.error); }
      r := Ok(NextPosition(now, m.value, suffix));
      Move(Name(device, now, suffix), x, start);
    }

    /** Marks a published batch's events synced. */
    method Finish(events: seq<Event>, key: nat, ghost x: Assumption, ghost start: World) returns (r: Result<()>)
      requires store.Valid() && At(Published(events, key)) && Plain(x) && Reaches(x, start, world) && OnlyMoved(start, world, device)
      modifies this`world, store`synced
      ensures store.Valid() && At(Idle)
      ensures Reaches(x, start, world) && OnlyMoved(start, world, device)
      ensures r.Ok? ==> store.synced == old(store.synced) + set e | e in events && e.eventId in store.events :: e.eventId
      ensures r.Err? ==> store.synced == old(store.synced)
      ensures store.reliable ==> r.Ok?
    {
      hide WriterInv, Reaches, OnlyMoved, IsHead, IsListing, Derived, Unique;
      var ids := seq(|events|, i requires 0 <= i < |events| => events[i].eventId);
      r := store.MarkSynced(ids);
      IdsOf(events, ids, store.events);
      if r.Err? { Move(Crash(device), x, start); } else { Move(Mark(device), x, start); }
    }

    /** Uploads the head of the queue: at most 500 of the device's own pending events. */
    method PushBatch(now: nat, suffix: Suffix, ghost x: Assumption)
      returns (r: Result<nat>, ghost queue: seq<Event>, ghost batch: seq<Event>, ghost key: nat)
      requires Valid() && Plain(x) && (x == Faithful ==> CanAscend(bucket.batches, bucket.manifests, device, now))
      modifies this`world, store`synced, bucket
      ensures Valid()
      ensures Reaches(x, old(world), world) && OnlyMoved(old(world), world, device)
      ensures Lists(queue, Pending(store.events, old(store.synced), device))
      ensures r.Ok? ==> batch == (if |queue| <= BATCH_LIMIT then queue else queue[..BATCH_LIMIT]) && r.value == |batch|
      ensures r.Err? ==> store.synced == old(store.synced)
      ensures r.Ok? && batch == [] ==> world == old(world) && bucket.batches == old(bucket.batches)
                                       && bucket.manifests == old(bucket.manifests) && store.synced == old(store.synced)
      ensures r.Ok? && batch != [] ==>
                && (device in old(bucket.manifests) ==> key > old(bucket.manifests)[device])
                && bucket.batches == old(bucket.batches)[Object(device, key) := batch]
                && bucket.manifests == old(bucket.manifests)[device := key]
                && store.synced == old(store.synced) + set e | e in batch && e.eventId in store.events :: e.eventId
      ensures r.Ok? && batch != [] && x == Faithful ==> NothingBeyond(bucket.batches, bucket.manifests, device)
      ensures store.reliable && bucket.reliable ==> r.Ok?
    {
      hide WriterInv, Reaches, CanAscend, NothingBeyond, Derived, IsListing, Keyed, Lists, Decodes, OnlyMoved, Unique, KeyAboveAll,
           Pending, Lex.Less;
      batch, key := [], 0;
      ghost var start := world;
      ReachesSelf(x, start);
      MovedNowhere(start, device);
      var pending: Result<seq<Event>>;
      pending, queue := store.UnsyncedEvents(device, BATCH_LIMIT);
      if pending.Err? { return Err(pending.error), queue, [], 0; }
      batch := pending.value;
      if pending.value == [] { return Ok(0), queue, batch, 0; }
      assert IsHead(batch, Pending(store.events, store.synced, device));
      Move(Collect(device, batch), x, start);
      var named := NameBatch(pending.value, now, suffix, x, start);
      if named.Err? { return Err(named.error), queue, batch, 0; }
      key := named.value;
      if x == Faithful { KeyIsAbove(world, device, now, suffix); }
      var ok := Upload(pending.value, named.value, x, start);
      if !ok { return Err(IoError), queue, batch, key; }
      if x == Faithful { AllBelowManifest(start.batches, start.manifests, device, now, suffix, batch); }
      var marked := Finish(pending.value, named.value, x, start);
      if marked.Err? { return Err(marked.error), queue, batch, key; }
      return Ok(|pending.value|), queue, batch, key;
    }

    lemma Mirrored()
      requires Valid()
      ensures world.batches == bucket.batches && world.manifests == bucket.manifests
    {
    }

    ghost function Queue(): (queue: seq<Event>)
      requires Valid()
      reads this, store, bucket
      ensures Lists(queue, Pending(store.events, store.synced, device)) && Keyed(store.events)
    {
      QueueOf(store.events, store.synced, device)
    }

    /** How far a drain has come: `sent` is the front of the queue, stored under `keys`, and what is
        left of the queue is what is pending. */
    ghost predicate Sent(queue: seq<Event>, total: nat, sent: seq<seq<Event>>, keys: seq<nat>)
      reads this, store, bucket
    {
      && total <= |queue| && Concat(sent) == queue[..total] && (total == 0 <==> sent == [])
      && Stored(bucket.batches, bucket.manifests, device, sent, keys)
      && Lists(queue[total..], Pending(store.events, store.synced, device))
    }

    /** One more batch of a drain; none when the queue is empty. */
    method PushNext(now: nat, suffix: Suffix, ghost x: Assumption, ghost start: World, ghost queue: seq<Event>,
                    ghost total: nat, ghost sent: seq<seq<Event>>, ghost keys: seq<nat>)
      returns (r: Result<nat>, ghost sent': seq<seq<Event>>, ghost keys': seq<nat>)
      requires Valid() && Plain(x) && (x == Faithful ==> CanAscend(bucket.batches, bucket.manifests, device, now))
      requires Reaches(x, start, world) && OnlyMoved(start, world, device) && Sent(queue, total, sent, keys)
      modifies this`world, store`synced, bucket
      ensures Valid() && Reaches(x, start, world) && OnlyMoved(start, world, device)
      ensures r.Ok? ==> Sent(queue, total + r.value, sent', keys') && |sent'| == |sent| + if r.value > 0 then 1 else 0
      ensures r.Err? ==> Lists(queue[total..], Pending(store.events, store.synced, device))
      ensures r.Ok? && r.value < BATCH_LIMIT ==> total + r.value == |queue|
      ensures r.Ok? && r.value == 0 ==> sent' == sent && bucket.manifests == old(bucket.manifests) && bucket.batches == old(bucket.batches)
      ensures r.Ok? && r.value > 0 && x == Faithful ==> NothingBeyond(bucket.batches, bucket.manifests, device)
      ensures store.reliable && bucket.reliable ==> r.Ok?
    {
      hide WriterInv, Reaches, CanAscend, NothingBeyond, Derived, IsListing, Decodes, OnlyMoved, Unique, Sorted, Elements,
           Pending, Concat, Keyed, Lists, Mirrors, Valid, Stored;
      sent', keys' := sent, keys;
      ghost var before := world;
      assert before.batches == bucket.batches && before.manifests == bucket.manifests by { Mirrored(); }
      ghost var synced := store.synced;
      ghost var pending := Queue();
      ghost var left, batch, key;
      r, left, batch, key := PushBatch(now, suffix, x);
      ReachesTransitive(x, start, before, world);
      MovedAgain(start, before, world, device);
      if r.Err? { return; }
      SameListing(left, queue[total..], Pending(store.events, synced, device));
      if r.value > 0 {
        StoredMore(before.batches, before.manifests, device, sent, keys, batch, key);
        BatchSent(store.events, synced, device, queue, total, r.value, batch, sent);
        sent', keys' := sent + [batch], keys + [key];
      }
    }

    /** Drains the queue, one batch after another. `clock` and `suffixes` are what the clock and the
        random source return for each batch. */
    method PushOnce(clock: nat -> nat, suffixes: nat -> Suffix, ghost x: Assumption)
      returns (total: nat, ok: bool, ghost queue: seq<Event>, ghost sent: seq<seq<Event>>, ghost keys: seq<nat>)
      requires Valid() && Plain(x) && (x == Faithful ==> CanAscend(bucket.batches, bucket.manifests, device, clock(0)))
      modifies this`world, store`synced, bucket
      ensures Valid()
      ensures Reaches(x, old(world), world) && OnlyMoved(old(world), world, device)
      ensures Lists(queue, Pending(store.events, old(store.synced), device))
      // What was sent is a partition of the front of the queue, in order; the rest is still pending.
      ensures total <= |queue| && Concat(sent) == queue[..total]
      ensures Lists(queue[total..], Pending(store.events, store.synced, device))
      ensures ok ==> Stored(bucket.batches, bucket.manifests, device, sent, keys)
      ensures ok ==> total == |queue| && Pending(store.events, store.synced, device) == {}
      ensures ok && queue == [] ==> bucket.manifests == old(bucket.manifests) && bucket.batches == old(bucket.batches)
      ensures ok && queue != [] && x == Faithful ==> NothingBeyond(bucket.batches, bucket.manifests, device)
      ensures store.reliable && bucket.reliable ==> ok
    {
      hide WriterInv, Reaches, CanAscend, NothingBeyond, Derived, IsListing, Decodes, OnlyMoved, Unique, Sorted, Elements,
           Pending, Concat, Keyed, Lists, Mirrors, Valid, Stored;
      total, sent, keys := 0, [], [];
      NoneStored(bucket.batches, bucket.manifests, device);
      var round := 0;
      ReachesSelf(x, world);
      MovedNowhere(world, device);
      queue := Queue();
      assert queue[0..] == queue && queue[..0] == [] && Concat([]) == [] by { ConcatNone(); }
      while true
        invariant Valid() && Reaches(x, old(world), world) && OnlyMoved(old(world), world, device)
        invariant Sent(queue, total, sent, keys) && |sent| == round
        invariant x == Faithful ==> if sent == [] then CanAscend(bucket.batches, bucket.manifests, device, clock(0))
                                    else NothingBeyond(bucket.batches, bucket.manifests, device)
        invariant sent == [] ==> bucket.manifests == old(bucket.manifests) && bucket.batches == old(bucket.batches)
        decreases |queue| - total
      {
        if x == Faithful && sent != [] {
          NothingBeyondAscends(bucket.batches, bucket.manifests, device, clock(round));
        }
        ghost var sent', keys';
        var r;
        r, sent', keys' := PushNext(clock(round), suffixes(round), x, old(world), queue, total, sent, keys);
        if r.Err? { ok := false; return; }
        sent, keys := sent', keys';
        total, round := total + r.value, if r.value > 0 then round + 1 else round;
        // Fewer than the limit: nothing is left.
        if r.value < BATCH_LIMIT {
          QueueEmpty(queue, total, Pending(store.events, store.synced, device));
          ok := true;
          return;
        }
        var cancelled := *;
        if !(store.reliable && bucket.reliable) && cancelled { ok := false; return; }
      }
    }

    /** Adds the next event of a fetched batch. */
    method ApplyOne(peer: string, at: int, left: seq<Event>, keys: seq<nat>, ghost x: Assumption, ghost start: World)
      returns (r: Result<bool>)
      requires left != [] && store.Valid() && At(Applying(peer, at, left, keys)) && Plain(x)
      requires Reaches(x, start, world) && OnlyMoved(start, world, device)
      modifies this`world, store
      ensures store.Valid() && store.cursors == old(store.cursors)
      ensures Reaches(x, start, world) && OnlyMoved(start, world, device)
      ensures At(Applying(peer, at, if r.Ok? then left[1..] else left, keys))
      ensures |store.events| == |old(store.events)| + if r.Ok? && r.value then 1 else 0
      ensures Pending(store.events, store.synced, device) == old(Pending(store.events, store.synced, device))
      ensures OnlyAdded(old(store.events), old(store.synced), store.events, store.synced)
      ensures left[0].eventId in old(store.events) ==> store.Tables() == old(store.Tables())
      ensures forall k :: k in old(store.events) ==> k in store.events
      ensures store.reliable ==> r.Ok?
    {
      hide WriterInv, Reaches, OnlyMoved, IsHead, IsListing, Derived, Unique, Pending, Keyed, Decodes, Extends, OnlyAdded;
      AddedNothing(store.events, store.synced);
      PeersEventDecodes(world, device);
      RemoteKeepsPending(store.events, store.synced, store.commands, store.index, left[0], device);
      r := store.Append(left[0], true);
      AddedOne(old(store.events), old(store.synced), left[0]);
      if r.Ok? { Move(Apply(device), x, start); }
    }

    /** Adds the events of a fetched batch, one after another, up to the first that cannot be added. */
    method ApplyAll(peer: string, at: int, batch: seq<Event>, keys: seq<nat>, ghost x: Assumption, ghost start: World)
      returns (n: nat, ok: bool)
      requires store.Valid() && At(Applying(peer, at, batch, keys)) && Plain(x)
      requires Reaches(x, start, world) && OnlyMoved(start, world, device)
      modifies this`world, store
      ensures store.Valid() && store.cursors == old(store.cursors)
      ensures Reaches(x, start, world) && OnlyMoved(start, world, device)
      ensures ok ==> At(Applying(peer, at, [], keys))
      ensures !ok ==> PulledTo(peer, at)
      ensures |store.events| == |old(store.events)| + n
      ensures Pending(store.events, store.synced, device) == old(Pending(store.events, store.synced, device))
      ensures OnlyAdded(old(store.events), old(store.synced), store.events, store.synced)
      ensures Held(old(store.events), batch) ==> n == 0 && store.Tables() == old(store.Tables())
      ensures store.reliable ==> ok
    {
      hide WriterInv, Reaches, OnlyMoved, IsHead, IsListing, Derived, Unique, Pending, Keyed, Decodes, Extends, Mirrors, OnlyAdded;
      AddedNothing(store.events, store.synced);
      n := 0;
      assert batch[0..] == batch;
      var j := 0;
      while j < |batch|
        invariant j <= |batch| && store.Valid() && store.cursors == old(store.cursors)
        invariant At(Applying(peer, at, batch[j..], keys))
        invariant Reaches(x, start, world) && OnlyMoved(start, world, device)
        invariant |store.events| == |old(store.events)| + n
        invariant Pending(store.events, store.synced, device) == old(Pending(store.events, store.synced, device))
        invariant OnlyAdded(old(store.events), old(store.synced), store.events, store.synced)
        invariant Held(old(store.events), batch) ==> n == 0 && store.Tables() == old(store.Tables())
      {
        assert batch[j..][1..] == batch[j+1..];
        assert batch[j] in batch;
        ghost var events, synced := store.events, store.synced;
        var added := ApplyOne(peer, at, batch[j..], keys, x, start);
        AddedTwice(old(store.events), old(store.synced), events, synced, store.events, store.synced);
        if added.Err? { return n, false; }
        if added.value { n := n + 1; }
        j := j + 1;
      }
      assert batch[j..] == [];
      ok := true;
    }

    /** Fetches one listed batch and adds its events. Counts the events that were new, also when it
        stops early; a batch whose events are all held changes no table. */
    method ApplyBatch(peer: string, at: int, keys: seq<nat>, ghost x: Assumption, ghost start: World)
      returns (n: nat, ok: bool)
      requires keys != [] && store.Valid() && At(Reading(peer, at, keys)) && Plain(x)
      requires Reaches(x, start, world) && OnlyMoved(start, world, device)
      modifies this`world, store
      ensures store.Valid() && store.cursors == old(store.cursors)
      ensures Reaches(x, start, world) && OnlyMoved(start, world, device)
      ensures ok ==> At(Reading(peer, keys[0], keys[1..]))
      ensures !ok ==> PulledTo(peer, at)
      ensures |store.events| == |old(store.events)| + n
      ensures Pending(store.events, store.synced, device) == old(Pending(store.events, store.synced, device))
      ensures OnlyAdded(old(store.events), old(store.synced), store.events, store.synced)
      ensures Object(peer, keys[0]) in bucket.batches && Held(old(store.events), bucket.batches[Object(peer, keys[0])]) ==>
                n == 0 && store.Tables() == old(store.Tables())
      ensures store.reliable && bucket.reliable && Object(peer, keys[0]) in bucket.batches ==> ok
    {
      hide WriterInv, Reaches, OnlyMoved, IsHead, IsListing, Derived, Unique, Pending, Keyed, Decodes, Extends, Held, OnlyAdded;
      AddedNothing(store.events, store.synced);
      n := 0;
      var got := bucket.GetBatch(Object(peer, keys[0]));
      if got.Err? { return 0, false; }
      Move(Fetch(device), x, start);
      n, ok := ApplyAll(peer, at, got.value, keys, x, start);
      if ok { Move(Advance(device), x, start); }
    }

    /** The engine is reading `peer` and everything it has applied lies at or below `at`. */
    ghost predicate PulledTo(peer: string, at: int)
      reads this, store, bucket
    {
      && Mirrors() && WriterInv(world)
      && var p := world.nodes[device].phase;
         (p.Reading? || p.Applying?) && p.peer == peer && p.at == at
    }

    /** Applies the listed batches in order, up to the first that cannot be read. `at` is the key of
        the last one applied. */
    method ReadListed(peer: string, cursor: int, keys: seq<nat>, ghost x: Assumption, ghost start: World)
      returns (at: int, applied: nat, failed: bool)
      requires store.Valid() && At(Reading(peer, cursor, keys)) && Plain(x)
      requires forall k :: k in keys ==> Object(peer, k) in bucket.batches
      requires Reaches(x, start, world) && OnlyMoved(start, world, device)
      modifies this`world, store
      ensures store.Valid() && store.cursors == old(store.cursors) && PulledTo(peer, at)
      ensures Reaches(x, start, world) && OnlyMoved(start, world, device)
      ensures at == cursor || at in keys
      ensures !failed ==> at == (if keys == [] then cursor else keys[|keys|-1]) && |store.events| == |old(store.events)| + applied
      ensures |store.events| >= |old(store.events)| + applied && (applied > 0 ==> at in keys)
      ensures Pending(store.events, store.synced, device) == old(Pending(store.events, store.synced, device))
      ensures OnlyAdded(old(store.events), old(store.synced), store.events, store.synced)
      ensures store.reliable && bucket.reliable ==> !failed
    {
      hide WriterInv, Reaches, OnlyMoved, IsHead, Derived, Unique, Pending, Keyed, Decodes, Extends, Ascending, IsListing, OnlyAdded;
      AddedNothing(store.events, store.synced);
      applied := 0;
      assert keys[0..] == keys;
      var i := 0;
      at, failed := cursor, false;
      while i < |keys| && !failed
        invariant i <= |keys| && store.Valid() && store.cursors == old(store.cursors)
        invariant failed ==> PulledTo(peer, at)
        invariant !failed ==> At(Reading(peer, at, keys[i..])) && |store.events| == |old(store.events)| + applied
        invariant |store.events| >= |old(store.events)| + applied && (applied > 0 ==> i > 0)
        invariant at == if i == 0 then cursor else keys[i-1]
        invariant Reaches(x, start, world) && OnlyMoved(start, world, device)
        invariant Pending(store.events, store.synced, device) == old(Pending(store.events, store.synced, device))
        invariant OnlyAdded(old(store.events), old(store.synced), store.events, store.synced)
        invariant store.reliable && bucket.reliable ==> !failed
        decreases |keys| - i, !failed
      {
        assert keys[i..][1..] == keys[i+1..] && keys[i..][0] == keys[i];
        assert keys[i] in keys;
        ghost var events, synced := store.events, store.synced;
        var n, applies := ApplyBatch(peer, at, keys[i..], x, start);
        AddedTwice(old(store.events), old(store.synced), events, synced, store.events, store.synced);
        if applies {
          applied, at, i := applied + n, keys[i], i + 1;
        } else {
          failed := true;
        }
      }
    }

    /** Saves how far a peer has been read, after a clean pass or a stopped one. */
    method KeepCursor(peer: string, at: int, ghost x: Assumption, ghost start: World) returns (ok: bool)
      requires store.Valid() && PulledTo(peer, at) && Plain(x)
      requires Reaches(x, start, world) && OnlyMoved(start, world, device)
      modifies this`world, store`cursors
      ensures store.Valid() && At(Idle)
      ensures Reaches(x, start, world) && OnlyMoved(start, world, device)
      ensures store.cursors == if ok then old(store.cursors)[peer := at] else old(store.cursors)
      ensures store.reliable ==> ok
    {
      hide WriterInv, Reaches, OnlyMoved, IsHead, Derived, Unique, IsListing;
      var saved := store.SaveCursor(peer, at);
      ok := saved.Ok?;
      if ok { Move(Save(device), x, start); } else { Move(Crash(device), x, start); }
    }

    /** Asks whether a peer has anything new and, if it has, lists it. */
    method ListPeer(peer: string, ghost x: Assumption, ghost start: World) returns (r: Result<(int, seq<nat>)>)
      requires store.Valid() && At(Idle) && Plain(x) && peer != device
      requires Reaches(x, start, world) && OnlyMoved(start, world, device)
      modifies this`world
      ensures At(if r.Ok? && r.value.1 != [] then Reading(peer, r.value.0, r.value.1) else Idle)
      ensures Reaches(x, start, world) && OnlyMoved(start, world, device)
      ensures r.Ok? ==> r.value.0 == CursorAt(store.cursors, peer)
      ensures r.Ok? ==> forall k :: k in r.value.1 ==> Object(peer, k) in bucket.batches && k > r.value.0
      ensures r.Ok? && peer in bucket.manifests ==>
                if r.value.1 == [] then r.value.0 >= bucket.manifests[peer]
                else r.value.1[|r.value.1|-1] >= bucket.manifests[peer]
      ensures store.reliable && bucket.reliable ==> r.Ok?
    {
      hide WriterInv, Reaches, OnlyMoved, IsHead, Derived, Unique, Ascending;
      var m := bucket.LoadManifest(peer);
      if m.Err? { return Err(m.error); }
      var cursor := store.Cursor(peer);
      if cursor.Err? { return Err(cursor.error); }
      if m.value == None || m.value.value <= cursor.value { return Ok((cursor.value, [])); }
      Move(Poll(device, peer), x, start);
      var listed := bucket.List(peer, cursor.value);
      if listed.Err? { Move(Crash(device), x, start); return Err(listed.error); }
      Move(Protocol.List(device, listed.value), x, start);
      LatestIsListed(world, peer, cursor.value, listed.value);
      return Ok((cursor.value, listed.value));
    }

    /** Reads what one peer has published beyond this device's cursor, stopping at the first batch it
        cannot read; the progress made is kept either way. Counts the events that were new. */
    method PullPeer(peer: string, ghost x: Assumption) returns (applied: nat, ok: bool)
      requires Valid() && Plain(x) && peer != device
      modifies this`world, store
      ensures Valid()
      ensures Reaches(x, old(world), world) && OnlyMoved(old(world), world, device)
      ensures ok ==> |store.events| == |old(store.events)| + applied
      ensures ok && peer in bucket.manifests ==> CursorAt(store.cursors, peer) >= bucket.manifests[peer]
      // A pull that stops early counts no more than it added, and does not read it all again.
      ensures |store.events| >= |old(store.events)| + applied
      ensures store.reliable && applied > 0 ==> CursorAt(store.cursors, peer) > CursorAt(old(store.cursors), peer)
      ensures forall p :: p != peer ==> CursorAt(store.cursors, p) == CursorAt(old(store.cursors), p)
      ensures Pending(store.events, store.synced, device) == old(Pending(store.events, store.synced, device))
      ensures OnlyAdded(old(store.events), old(store.synced), store.events, store.synced)
      ensures store.reliable && bucket.reliable ==> ok
    {
      hide WriterInv, Reaches, OnlyMoved, IsHead, Derived, Unique, Pending, Keyed, Decodes, Extends, Ascending, IsListing, OnlyAdded;
      AddedNothing(store.events, store.synced);
      ghost var start := world;
      ReachesSelf(x, start);
      MovedNowhere(start, device);
      applied, ok := 0, false;
      var listed := ListPeer(peer, x, start);
      if listed.Err? { return; }
      var (cursor, keys) := listed.value;
      if keys == [] { return 0, true; }
      var at, failed;
      at, applied, failed := ReadListed(peer, cursor, keys, x, start);
      var saved := KeepCursor(peer, at, x, start);
      ok := saved && !failed;
    }

    /** Every device that has written to the bucket, but this one. */
    method Peers() returns (r: Result<seq<string>>)
      ensures r.Ok? ==> Unique(r.value) && forall d :: d in r.value <==> bucket.Holds(d) && d != device && d != ""
      ensures bucket.reliable ==> r.Ok?
    {
      var ids := bucket.Children();
      if ids.Err? { return ids; }
      var out: seq<string> := [];
      assert ids.value[..|ids.value|] == ids.value;
      for i := 0 to |ids.value|
        invariant Unique(out) && forall d :: d in out <==> d in ids.value[..i] && d != device && d != ""
      {
        assert ids.value[..i+1] == ids.value[..i] + [ids.value[i]];
        NotYet(ids.value, i);
        if ids.value[i] != "" && ids.value[i] != device { out := out + [ids.value[i]]; }
      }
      return Ok(out);
    }

    /** Reads every peer. One that cannot be read does not stop the others; only when none can is the
        pull a failure. `peers` are the other devices in the bucket, None when they could not be listed;
        `failed` are those whose pull failed. */
    method PullOnce(ghost x: Assumption) returns (total: nat, ok: bool, ghost peers: Option<set<string>>, ghost failed: set<string>)
      requires Valid() && Plain(x)
      modifies this`world, store
      ensures Valid()
      ensures Reaches(x, old(world), world) && OnlyMoved(old(world), world, device)
      ensures Pending(store.events, store.synced, device) == old(Pending(store.events, store.synced, device))
      ensures OnlyAdded(old(store.events), old(store.synced), store.events, store.synced)
      ensures peers.Some? ==> forall d :: d in peers.value <==> bucket.Holds(d) && d != device && d != ""
      ensures peers.None? ==> !ok && total == 0 && store.events == old(store.events) && store.cursors == old(store.cursors)
      // The verdict: a failure means that no peer could be read, a success that one was or none is there.
      ensures peers.Some? ==> failed <= peers.value && (!ok <==> failed != {} && failed == peers.value)
      ensures peers.Some? ==> forall p :: p in peers.value - failed && p in bucket.manifests ==>
                CursorAt(store.cursors, p) >= bucket.manifests[p]
      ensures ok && peers.value != {} ==>
                exists p :: p in peers.value - failed && (p in bucket.manifests ==> CursorAt(store.cursors, p) >= bucket.manifests[p])
      ensures |store.events| >= |old(store.events)| + total
      ensures ok && failed == {} ==> |store.events| == |old(store.events)| + total
      ensures store.reliable && bucket.reliable ==> ok && failed == {}
    {
      hide WriterInv, Reaches, OnlyMoved, Derived, Unique, Pending, Keyed, Decodes, Mirrors, Valid, ReadBut, CursorAt, OnlyAdded;
      AddedNothing(store.events, store.synced);
      NoneRead(store.cursors, bucket.manifests);
      total, ok, peers, failed := 0, false, None, {};
      ReachesSelf(x, world);
      MovedNowhere(world, device);
      var listed := Peers();
      if listed.Err? { return; }
      var failures := 0;
      for i := 0 to |listed.value|
        invariant Valid() && Reaches(x, old(world), world) && OnlyMoved(old(world), world, device)
        invariant Pending(store.events, store.synced, device) == old(Pending(store.events, store.synced, device))
        invariant OnlyAdded(old(store.events), old(store.synced), store.events, store.synced)
        invariant |store.events| >= |old(store.events)| + total
        invariant ReadBut(store.cursors, bucket.manifests, listed.value[..i], failed) && failures == |failed|
        invariant failed == {} ==> |store.events| == |old(store.events)| + total
        invariant store.reliable && bucket.reliable ==> failed == {}
      {
        ghost var before, cursors, events, synced := world, store.cursors, store.events, store.synced;
        var peer := listed.value[i];
        assert peer in listed.value;
        var n, pulled := PullPeer(peer, x);
        OneMoreRead(cursors, store.cursors, bucket.manifests, listed.value, i, failed, pulled);
        AddedTwice(old(store.events), old(store.synced), events, synced, store.events, store.synced);
        ReachesTransitive(x, old(world), before, world);
        MovedAgain(old(world), before, world, device);
        total := total + n;
        if !pulled {
          failures := failures + 1;
          failed := failed + {peer};
        }
      }
      ok := failures == 0 || failures < |listed.value|;
      assert listed.value[..|listed.value|] == listed.value;
      peers := Some(set p | p in listed.value);
      AllOrSome(store.cursors, bucket.manifests, listed.value, failed);
    }

    /** One full cycle: push, then pull. With every call succeeding the device ends with nothing left
        to push and every peer read. `drained` says whether the push went through; `peers` and `failed`
        are the pull's. */
    method SyncOnce(clock: nat -> nat, suffixes: nat -> Suffix, ghost x: Assumption)
      returns (pushed: nat, pulled: nat, ok: bool, ghost drained: bool, ghost peers: Option<set<string>>, ghost failed: set<string>)
      requires Valid() && Plain(x) && (x == Faithful ==> CanAscend(bucket.batches, bucket.manifests, device, clock(0)))
      requires "" !in bucket.manifests && device != ""
      modifies this`world, store, bucket
      ensures Valid()
      ensures Reaches(x, old(world), world) && OnlyMoved(old(world), world, device)
      // The cycle succeeds exactly if the push does and then not every pull fails.
      ensures ok <==> drained && peers.Some? && (failed == {} || failed != peers.value)
      ensures !drained ==> pulled == 0 && store.events == old(store.events) && store.cursors == old(store.cursors)
      ensures drained ==> Pending(store.events, store.synced, device) == {}
      ensures |Pending(store.events, store.synced, device)| + pushed == |old(Pending(store.events, store.synced, device))|
      ensures drained && peers.Some? ==>
                && failed <= peers.value
                && (forall d :: d in peers.value <==> bucket.Holds(d) && d != device && d != "")
                && (forall p :: p in peers.value - failed && p in bucket.manifests ==> CursorAt(store.cursors, p) >= bucket.manifests[p])
      ensures |store.events| >= |old(store.events)| + pulled && (ok && failed == {} ==> |store.events| == |old(store.events)| + pulled)
      ensures store.reliable && bucket.reliable ==> ok && failed == {} && Synced(old(world), world, device)
      ensures store.reliable && bucket.reliable && x == Faithful ==>
                forall now: nat :: CanAscend(old(bucket.batches), old(bucket.manifests), device, now) ==>
                                   CanAscend(bucket.batches, bucket.manifests, device, now)
    {
      hide WriterInv, Reaches, Derived, Unique, Pending, Keyed, Decodes, CanAscend, Stored, Concat, Sorted, Elements, NothingBeyond;
      pushed, pulled, drained, peers, failed := 0, 0, false, None, {};
      ghost var queue, sent, keys;
      ghost var start := world;
      pushed, ok, queue, sent, keys := PushOnce(clock, suffixes, x);
      SizeOf(queue, old(Pending(store.events, store.synced, device)));
      SizeOf(queue[pushed..], Pending(store.events, store.synced, device));
      if !ok { return; }
      drained := true;
      ghost var middle := world;
      if queue != [] && x == Faithful {
        forall now: nat ensures CanAscend(bucket.batches, bucket.manifests, device, now) {
          NothingBeyondAscends(bucket.batches, bucket.manifests, device, now);
        }
      }
      if Drained(start, device) { EmptyQueue(queue, Pending(start.nodes[device].events, start.nodes[device].synced, device)); }
      pulled, ok, peers, failed := PullOnce(x);
      ReachesTransitive(x, start, middle, world);
      MovedAgain(start, middle, world, device);
      if store.reliable && bucket.reliable {
        forall p | p in world.manifests && p != device ensures CursorOf(world.nodes[device], p) >= world.manifests[p] {
          assert Latest(world, p) == Latest(start, p);
          assert bucket.Holds(p);
        }
      }
    }
  }

  lemma NotYet(peers: seq<string>, i: nat)
    requires Unique(peers) && i < |peers|
    ensures peers[i] !in peers[..i]
  {
  }

  /** Of these peers all but those in `failed` have been read as far as their manifest says. */
  ghost predicate ReadBut(cursors: map<string, int>, manifests: map<string, nat>, peers: seq<string>, failed: set<string>) {
    && (forall p :: p in failed ==> p in peers)
    && (forall p :: p in peers && p !in failed && p in manifests ==> CursorAt(cursors, p) >= manifests[p])
  }

  lemma NoneRead(cursors: map<string, int>, manifests: map<string, nat>)
    ensures ReadBut(cursors, manifests, [], {})
  {
  }

  lemma OneMoreRead(before: map<string, int>, after: map<string, int>, manifests: map<string, nat>, peers: seq<string>, i: nat,
                    failed: set<string>, ok: bool)
    requires Unique(peers) && i < |peers| && ReadBut(before, manifests, peers[..i], failed)
    requires forall p :: p != peers[i] ==> CursorAt(after, p) == CursorAt(before, p)
    requires ok && peers[i] in manifests ==> CursorAt(after, peers[i]) >= manifests[peers[i]]
    ensures peers[i] !in failed
    ensures ReadBut(after, manifests, peers[..i+1], if ok then failed else failed + {peers[i]})
  {
    hide CursorAt;
    NotYet(peers, i);
    assert peers[..i+1] == peers[..i] + [peers[i]];
  }

  /** Counting the failures tells whether every peer failed. */
  lemma AllOrSome(cursors: map<string, int>, manifests: map<string, nat>, peers: seq<string>, failed: set<string>)
    requires Unique(peers) && ReadBut(cursors, manifests, peers, failed)
    ensures var all := set p | p in peers;
            && failed <= all && (|failed| < |peers| <==> failed != all)
            && (forall p :: p in all - failed && p in manifests ==> CursorAt(cursors, p) >= manifests[p])
            && (failed != all ==> exists p :: p in all - failed && (p in manifests ==> CursorAt(cursors, p) >= manifests[p]))
  {
    var all := set p | p in peers;
    DistinctIs(peers);
    if failed != all {
      var p :| p in all && p !in failed;
      SubsetCount(failed, all - {p});
    }
  }

  lemma {:induction false} DistinctIs(peers: seq<string>)
    requires Unique(peers)
    ensures |set p | p in peers| == |peers|
  {
    if peers == [] {
      assert (set p | p in peers) == {};
    } else {
      var rest, x := peers[..|peers|-1], peers[|peers|-1];
      assert peers == rest + [x];
      DistinctIs(rest);
      assert (set p | p in peers) == (set p | p in rest) + {x};
    }
  }

  lemma {:induction false} SubsetCount(a: set<string>, b: set<string>)
    requires a <= b
    ensures |a| <= |b|
  {
    if a != {} {
      var x :| x in a;
      SubsetCount(a - {x}, b - {x});
    }
  }

  lemma SizeOf(queue: seq<Event>, pending: set<Event>)
    requires Lists(queue, pending)
    ensures |queue| == |pending|
  {
    SortedCount(queue);
  }

  lemma IdsOf(events: seq<Event>, ids: seq<string>, table: map<string, Event>)
    requires |ids| == |events| && forall i :: 0 <= i < |ids| ==> ids[i] == events[i].eventId
    ensures (set id | id in ids && id in table) == set e | e in events && e.eventId in table :: e.eventId
  {
    forall e | e in events ensures e.eventId in ids {
      var i :| 0 <= i < |events| && events[i] == e;
      assert ids[i] == e.eventId;
    }
    forall id | id in ids ensures exists e :: e in events && e.eventId == id {
      var i :| 0 <= i < |ids| && ids[i] == id;
      assert events[i] in events;
    }
  }

  lemma KeyIsAbove(w: World, d: string, now: nat, suffix: Suffix)
    requires CanAscend(w.batches, w.manifests, d, now)
    requires d in w.nodes && w.nodes[d].phase.Named? && w.nodes[d].phase.key == NextPosition(now, Latest(w, d), suffix)
    ensures Enabled(w, Protocol.PutBatch(d)) && KeyAboveAll(w, Protocol.PutBatch(d))
  {
  }

  lemma AllBelowManifest(batches: map<Object, seq<Event>>, manifests: map<string, nat>, d: string, now: nat, suffix: Suffix,
                         batch: seq<Event>)
    requires CanAscend(batches, manifests, d, now)
    ensures var key := NextPosition(now, if d in manifests then Some(manifests[d]) else None, suffix);
            NothingBeyond(batches[Object(d, key) := batch], manifests[d := key], d)
  {
  }

  lemma SameListing(a: seq<Event>, b: seq<Event>, s: set<Event>)
    requires Lists(a, s) && Lists(b, s)
    ensures a == b
  {
    ListingUnique(a, b);
  }

  lemma ConcatNone()
    ensures Concat([]) == []
  {
  }

  lemma QueueEmpty(queue: seq<Event>, total: nat, pending: set<Event>)
    requires total == |queue| && Lists(queue[total..], pending)
    ensures pending == {}
  {
    assert Elements(queue[total..]) == {};
  }

  ghost function QueueOf(events: map<string, Event>, synced: set<string>, d: string): (queue: seq<Event>)
    requires Keyed(events)
    ensures Lists(queue, Pending(events, synced, d))
  {
    PendingDistinct(events, synced, d);
    Listing(Pending(events, synced, d))
  }

  lemma PendingDistinct(events: map<string, Event>, synced: set<string>, d: string)
    requires Keyed(events)
    ensures DistinctIds(Pending(events, synced, d))
  {
    var s := Pending(events, synced, d);
    forall a, b | a in s && b in s && a.eventId == b.eventId ensures a == b {
      var i :| i in events && events[i] == a;
      var j :| j in events && events[j] == b;
    }
  }

  /** One more batch taken off the front of the queue. */
  lemma BatchSent(events: map<string, Event>, synced: set<string>, d: string, queue: seq<Event>, total: nat, n: nat,
                  batch: seq<Event>, sent: seq<seq<Event>>)
    requires Keyed(events) && total + n <= |queue| && Lists(queue[total..], Pending(events, synced, d))
    requires batch == queue[total..][..n] && Concat(sent) == queue[..total]
    ensures Concat(sent + [batch]) == queue[..total + n]
    ensures Lists(queue[total + n..], Pending(events, synced + (set e | e in batch && e.eventId in events :: e.eventId), d))
  {
    hide Concat, Lists, Pending;
    ConcatSnoc(sent, batch);
    assert queue[..total] + batch == queue[..total + n];
    QueueAdvances(events, synced, d, queue[total..], n);
    assert queue[total..][n..] == queue[total + n..];
  }

  /** The batch a manifest names is among the keys listed beyond an older cursor, and the last of
      them is no earlier. */
  lemma LatestIsListed(w: World, peer: string, at: int, keys: seq<nat>)
    requires WriterInv(w) && peer in w.manifests && w.manifests[peer] > at
    requires IsListing(keys, w.batches, peer, at)
    ensures keys != [] && keys[|keys|-1] >= w.manifests[peer]
  {
    hide Ownership, SyncedMeansUploaded, PhaseOk;
    assert w.manifests[peer] in keys;
    var i :| 0 <= i < |keys| && keys[i] == w.manifests[peer];
  }

  function CursorAt(cursors: map<string, int>, peer: string): int {
    if peer in cursors then cursors[peer] else NOTHING_READ
  }

  /** The log has only grown, and what is new in it, and nothing else, has been flagged as synced: a
      pulled event is never this device's to upload. */
  ghost predicate OnlyAdded(events: map<string, Event>, synced: set<string>, events': map<string, Event>, synced': set<string>) {
    Extends(events', events) && synced' == synced + (events'.Keys - events.Keys)
  }

  lemma AddedNothing(events: map<string, Event>, synced: set<string>)
    ensures OnlyAdded(events, synced, events, synced)
  {
  }

  lemma AddedOne(events: map<string, Event>, synced: set<string>, e: Event)
    ensures OnlyAdded(events, synced, Inserted(events, e), if e.eventId in events then synced else synced + {e.eventId})
  {
  }

  lemma AddedTwice(a: map<string, Event>, sa: set<string>, b: map<string, Event>, sb: set<string>, c: map<string, Event>, sc: set<string>)
    requires OnlyAdded(a, sa, b, sb) && OnlyAdded(b, sb, c, sc)
    ensures OnlyAdded(a, sa, c, sc)
  {
    assert c.Keys - a.Keys == (b.Keys - a.Keys) + (c.Keys - b.Keys);
  }

  /** What a peer has uploaded can be replayed here. */
  lemma PeersEventDecodes(w: World, d: string)
    requires WriterInv(w) && d in w.nodes && w.nodes[d].phase.Applying? && w.nodes[d].phase.left != []
    ensures Decodes(w.nodes[d].phase.left[0])
  {
    hide Ownership, ManifestsNameBatches, SyncedMeansUploaded;
    var peer, e := w.nodes[d].phase.peer, w.nodes[d].phase.left[0];
    assert PhaseOk(w, d, w.nodes[d]) && TablesOk(w.nodes[peer]);
    assert e in w.nodes[d].phase.left;
  }

  /** A pulled event is synced from the start: it never joins the queue. */
  lemma RemoteKeepsPending(events: map<string, Event>, synced: set<string>, rows: map<string, Row>,
                           index: map<string, string>, e: Event, d: string)
    requires Derived(events, rows, index)
    ensures var known := e.eventId in events;
            Pending(Inserted(events, e), if known then synced else synced + {e.eventId}, d) == Pending(events, synced, d)
  {
    if e.eventId !in events {
      var after := Inserted(events, e);
      forall y | y in events.Values ensures y in after.Values {
        var k :| k in events && events[k] == y;
        assert after[k] == y;
      }
      forall y | y in events.Values ensures y.eventId != e.eventId {
        var k :| k in events && events[k] == y;
      }
    }
  }

  lemma EmptyQueue(queue: seq<Event>, pending: set<Event>)
    requires Lists(queue, pending) && pending == {}
    ensures queue == []
  {
    EmptyElements(queue);
  }
}
