/** Every device's engine over one bucket, syncing in turn: the two fault-free rounds of the convergence
    lemmas, made of the engines' own cycles. */
module Fleet {
  import opened BatchKeys
  import opened Events
  import opened Rows
  import opened Store
  import opened Protocol
  import opened WriterSafety
  import opened Convergence
  import opened Engine

  /** Distinct engines with databases of their own over one bucket, none failing, whose common world is w. */
  ghost predicate Together(engines: seq<SyncEngine>, bucket: Bucket, w: World)
    reads engines, (set e | e in engines :: e.store), bucket
  {
    && bucket.reliable && "" !in bucket.manifests
    && (forall e :: e in engines ==> e.bucket == bucket && e.world == w && e.store.reliable && e.device != "" && e.Valid())
    && (forall i, j :: 0 <= i < j < |engines| ==>
          engines[i] != engines[j] && engines[i].store != engines[j].store && engines[i].device != engines[j].device)
  }

  function Devices(engines: seq<SyncEngine>): seq<string> {
    seq(|engines|, i requires 0 <= i < |engines| => engines[i].device)
  }

  /** The clock of each device's next push is fit for what it has stored. */
  ghost predicate ClocksAscend(engines: seq<SyncEngine>, w: World, clocks: seq<nat -> nat>)
    requires |clocks| == |engines|
  {
    forall i :: 0 <= i < |engines| ==> CanAscend(w.batches, w.manifests, engines[i].device, clocks[i](0))
  }

  lemma OthersAscend(w: World, w': World, d: string, p: string, now: nat)
    requires OnlyMoved(w, w', d) && p != d
    ensures CanAscend(w'.batches, w'.manifests, p, now) <==> CanAscend(w.batches, w.manifests, p, now)
  {
    assert Latest(w', p) == Latest(w, p);
    forall k: Object | k.device == p ensures k in w'.batches <==> k in w.batches {
    }
  }

  /** One device's cycle; the others hear of the new world. */
  method SyncOne(engines: seq<SyncEngine>, bucket: Bucket, i: nat, clock: nat -> nat, suffixes: nat -> Suffix,
                 ghost x: Assumption, ghost w: World)
    returns (ghost w': World)
    requires i < |engines| && Together(engines, bucket, w) && Plain(x)
    requires x == Faithful ==> CanAscend(w.batches, w.manifests, engines[i].device, clock(0))
    modifies engines, engines[i].store, bucket
    ensures Together(engines, bucket, w') && Reaches(x, w, w') && Synced(w, w', engines[i].device)
    ensures x == Faithful ==> forall p, now: nat ::
              CanAscend(w.batches, w.manifests, p, now) ==> CanAscend(w'.batches, w'.manifests, p, now)
  {
    hide WriterInv, Reaches, CanAscend, Synced, EventStore.Valid;
    var e := engines[i];
    assert e in engines;
    ghost var drained, peers, failed;
    var pushed, pulled, ok;
    pushed, pulled, ok, drained, peers, failed := e.SyncOnce(clock, suffixes, x);
    w' := e.world;
    forall p, now: nat | x == Faithful && CanAscend(w.batches, w.manifests, p, now)
      ensures CanAscend(w'.batches, w'.manifests, p, now)
    {
      if p != e.device { OthersAscend(w, w', e.device, p, now); }
    }
    forall f | f in engines { f.world := w'; }
    assert Latest(w', "") == Latest(w, "");
  }

  /** One round: every device syncs once, in turn. */
  method SyncRound(engines: seq<SyncEngine>, bucket: Bucket, clocks: seq<nat -> nat>, suffixes: seq<nat -> Suffix>,
                   ghost x: Assumption, ghost w: World)
    returns (ghost worlds: seq<World>)
    requires |clocks| == |suffixes| == |engines| && Together(engines, bucket, w) && Plain(x)
    requires x == Faithful ==> ClocksAscend(engines, w, clocks)
    modifies engines, (set e | e in engines :: e.store), bucket
    ensures |worlds| == |engines| + 1 && Round(worlds, Devices(engines)) && worlds[0] == w
    ensures Together(engines, bucket, worlds[|engines|]) && Reaches(x, w, worlds[|engines|])
    ensures x == Faithful ==> forall p, now: nat ::
              CanAscend(w.batches, w.manifests, p, now) ==>
              CanAscend(worlds[|engines|].batches, worlds[|engines|].manifests, p, now)
  {
    hide Reaches, CanAscend, Synced, Together;
    worlds := [w];
    ReachesSelf(x, w);
    ghost var order := Devices(engines);
    for i := 0 to |engines|
      invariant |worlds| == i + 1 && worlds[0] == w && Together(engines, bucket, worlds[i]) && Reaches(x, w, worlds[i])
      invariant forall j :: 0 <= j < i ==> Synced(worlds[j], worlds[j+1], order[j])
      invariant x == Faithful ==> forall p, now: nat ::
                  CanAscend(w.batches, w.manifests, p, now) ==> CanAscend(worlds[i].batches, worlds[i].manifests, p, now)
    {
      ghost var w' := SyncOne(engines, bucket, i, clocks[i], suffixes[i], x, worlds[i]);
      ReachesTransitive(x, w, worlds[i], w');
      worlds := worlds + [w'];
    }
  }

  /** Equal logs mean equal databases to look at: the same rows, but for the device of a row no start or
      import has named, and the same search entries. */
  lemma SameHistory(engines: seq<SyncEngine>, bucket: Bucket, w: World, e: SyncEngine, f: SyncEngine)
    requires Together(engines, bucket, w) && e in engines && f in engines
    requires forall a, b :: a in w.nodes && b in w.nodes ==> w.nodes[a].events == w.nodes[b].events
    ensures e.store.events == f.store.events && e.store.index == f.store.index
    ensures e.store.commands.Keys == f.store.commands.Keys
    ensures forall id :: id in e.store.commands ==>
              e.store.commands[id] == f.store.commands[id].(deviceId := e.store.commands[id].deviceId)
  {
    hide Derived, WriterInv;
    SameEventsSameViews(e.store.events, e.store.commands, e.store.index, f.store.commands, f.store.index);
  }

  /** Two rounds of everyone, in one order and with no call failing: nothing is left to push and every
      manifest is read. If the world they start from is one devices can reach under the hypotheses, all
      devices then hold the same events. */
  method TwoRounds(engines: seq<SyncEngine>, bucket: Bucket, clocks: seq<nat -> nat>, again: seq<nat -> nat>,
                   suffixes: seq<nat -> Suffix>, ghost x: Assumption, ghost w: World)
    returns (ghost w': World)
    requires |clocks| == |again| == |suffixes| == |engines| && Together(engines, bucket, w) && Plain(x)
    requires forall d :: d in w.nodes ==> d in Devices(engines)
    requires x == Faithful ==> ClocksAscend(engines, w, clocks) && ClocksAscend(engines, w, again)
    modifies engines, (set e | e in engines :: e.store), bucket
    ensures Together(engines, bucket, w') && Reaches(x, w, w') && Quiet(w')
    ensures x == Faithful && (exists init :: Init(init) && Reaches(Faithful, init, w)) ==>
              && (forall a, b :: a in w'.nodes && b in w'.nodes ==> w'.nodes[a].events == w'.nodes[b].events)
              && forall e, f :: e in engines && f in engines ==>
                   e.store.events == f.store.events && e.store.index == f.store.index && e.store.commands.Keys == f.store.commands.Keys
  {
    hide Reaches, CanAscend, Synced, Together, Round, Init, Quiet;
    ghost var order := Devices(engines);
    ghost var first := SyncRound(engines, bucket, clocks, suffixes, x, w);
    ghost var middle := first[|engines|];
    ghost var second := SyncRound(engines, bucket, again, suffixes, x, middle);
    w' := second[|engines|];
    ReachesTransitive(x, w, middle, w');
    TwoRoundsQuiet(first, second, order);
    if init :| x == Faithful && Init(init) && Reaches(Faithful, init, w) {
      ReachesTransitive(x, init, w, w');
      TwoRoundsConverge(init, first, second, order);
      forall e, f | e in engines && f in engines
        ensures e.store.events == f.store.events && e.store.index == f.store.index && e.store.commands.Keys == f.store.commands.Keys
      {
        SameHistory(engines, bucket, w', e, f);
      }
    }
  }
}
