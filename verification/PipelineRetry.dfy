/**
  * One retry item per vault and chain.
  *
  * The spawner logs an error for a vault and chain with several retry items and signs none of them.
  * This module proves that the branch is unreachable, crashes and restarts included, when no lock is
  * released between the listing of the store and the reading of that lock.
  */
module PipelineRetry {
  import opened Outcome
  import opened SignerStore
  import opened Selection
  import opened Pipeline
  import opened PipelineLocks

  type Items = map<string, StoreItem>

  /** The items a call still has to visit, and the vaults and chains it will not touch. */
  function Pending(sp: Spawner): seq<StoreItem> {
    match sp
    case Acquiring(pending, _) => pending
    case Snapshotting(pending, _, _) => pending
    case Spawning(pending, _) => pending
    case _ => []
  }

  function Locked(sp: Spawner): set<VaultChain> {
    match sp
    case Snapshotting(_, _, locked) => locked
    case Spawning(_, locked) => locked
    case _ => {}
  }

  /** Nobody works for `vc`, and the call in progress may still start an item of it. */
  ghost predicate Open(sp: Spawner, routines: Routines, vc: VaultChain) {
    vc !in Locked(sp) && Holders(routines, vc) == {}
  }

  /** A retry item where a routine works is the item of that routine. */
  ghost predicate RetryIsRunning(store: Items, routines: Routines) {
    forall id, k, vc :: HoldsAt(routines, id, vc) && RetryAt(store, k, vc) ==> k == routines[id].item.retrievalKey
  }

  /** A retry item that a pending item could overtake is that pending item. */
  ghost predicate RetryIsPending(store: Items, routines: Routines, sp: Spawner) {
    forall x, k :: x in Pending(sp) && RetryAt(store, k, Vc(x)) && Open(sp, routines, Vc(x)) ==> k == x.retrievalKey
  }

  ghost predicate KeysKnown(routines: Routines, sp: Spawner) {
    && (forall id :: id in routines ==> routines[id].item.retrievalKey != "")
    && (forall x :: x in Pending(sp) ==> x.retrievalKey != "")
  }

  ghost predicate RetryInv(s: State) {
    && LockInv(s)
    && WellKept(s.store)
    && OneRetryPerVaultChain(s.store)
    && RetryIsRunning(s.store, s.routines)
    && RetryIsPending(s.store, s.routines, s.spawner)
    && KeysKnown(s.routines, s.spawner)
  }

  // ---------- spawner ----------

  /** A move that neither starts a routine nor widens what the call may start. */
  lemma Narrowed(s: State, t: State)
    requires RetryInv(s) && LockInv(t) && t.store == s.store && t.routines == s.routines
    requires forall x :: x in Pending(t.spawner) ==> x in Pending(s.spawner)
    requires Pending(t.spawner) == [] || Locked(s.spawner) <= Locked(t.spawner)
    ensures RetryInv(t)
  {
  }

  lemma ListStep(env: Env, s: State, all: seq<StoreItem>, pending: seq<StoreItem>)
    requires RetryInv(s) && s.spawner.Ready? && IsListing(env.hashing, s.store, all) && IsSelection(all, pending)
    ensures RetryIsPending(s.store, s.routines, Acquiring(pending, SEMAPHORES))
    ensures forall x :: x in pending ==> x in all && x.retrievalKey != ""
  {
    forall x | x in pending ensures x in all && x.retrievalKey != "" {
      SelectionAt(all, pending, x);
      RetriesMember(all, Vc(x), x);
      assert Listed(s.store, x);
    }
    forall x, k | x in pending && RetryAt(s.store, k, Vc(x)) ensures k == x.retrievalKey {
      var y := Retrieved(k, s.store[k]);
      assert Listed(s.store, y);
      SelectionAt(all, pending, x);
      RetriesMember(all, Vc(x), y);
    }
  }

  lemma SpawnRunning(store: Items, routines: Routines, id: nat, r: Routine)
    requires RetryIsRunning(store, routines) && id !in routines
    requires forall k :: RetryAt(store, k, Vc(r.item)) ==> k == r.item.retrievalKey
    ensures RetryIsRunning(store, routines[id := r])
  {
  }

  lemma SpawnPending(store: Items, routines: Routines, sp: Spawner, id: nat, r: Routine, sp': Spawner)
    requires RetryIsPending(store, routines, sp) && id !in routines
    requires Locked(sp) <= Locked(sp') && forall x :: x in Pending(sp') ==> x in Pending(sp)
    ensures RetryIsPending(store, routines[id := r], sp')
  {
  }

  lemma SpawnRetryStep(env: Env, s: State, l: SpawnerLabel)
    requires RetryInv(s) && SpawnerEnabled(env, s, l) && l.Visit? && VisitDecision(s, l).Spawn?
    ensures RetryInv(ApplyVisit(s, l))
  {
    var t := ApplyVisit(s, l);
    var x := s.spawner.pending[0];
    var r := t.routines[l.id];
    assert x in Pending(s.spawner) && r.item.retrievalKey == x.retrievalKey && Vc(r.item) == Vc(x);
    assert Open(s.spawner, s.routines, Vc(x)) by { FreeLock(s, Vc(x)); }
    SpawnStep(env, s, l);
    hide LockInv, Open;
    SpawnRunning(s.store, s.routines, l.id, r);
    SpawnPending(s.store, s.routines, s.spawner, l.id, r, t.spawner);
    hide RetryIsRunning, RetryIsPending;
  }

  /** A free lock means that no routine works there. */
  lemma FreeLock(s: State, vc: VaultChain)
    requires LockInv(s) && s.pipe.Some? && s.pipe.value.LockLen(vc) == 0
    ensures Holders(s.routines, vc) == {}
  {
  }

  lemma ListRetryStep(env: Env, s: State, l: SpawnerLabel)
    requires RetryInv(s) && SpawnerEnabled(env, s, l) && l.List?
    ensures RetryInv(ApplySpawner(env, s, l))
  {
    SpawnerStep(env, s, l);
    ListStep(env, s, l.all, l.pending);
    hide LockInv, IsListing, IsSelection, RetryIsRunning, RetryIsPending;
  }

  lemma QuietRetryStep(env: Env, s: State, l: SpawnerLabel)
    requires RetryInv(s) && SpawnerEnabled(env, s, l) && !l.List?
    requires l.Visit? ==> !VisitDecision(s, l).Spawn?
    ensures RetryInv(ApplySpawner(env, s, l))
  {
    SpawnerStep(env, s, l);
    QuietShape(env, s, l);
    hide *;
    Narrowed(s, ApplySpawner(env, s, l));
  }

  lemma QuietShape(env: Env, s: State, l: SpawnerLabel)
    requires SpawnerEnabled(env, s, l) && !l.List?
    requires l.Visit? ==> !VisitDecision(s, l).Spawn?
    ensures var t := ApplySpawner(env, s, l);
            && t.store == s.store && t.routines == s.routines
            && (forall x :: x in Pending(t.spawner) ==> x in Pending(s.spawner))
            && (Pending(t.spawner) == [] || Locked(s.spawner) <= Locked(t.spawner))
  {
    match l {
      case Visit(_, _, _) =>
        hide Decide;
        assert forall x :: x in s.spawner.pending[1..] ==> x in s.spawner.pending;
      case _ =>
    }
  }

  lemma SpawnerRetryStep(env: Env, s: State, l: SpawnerLabel)
    requires RetryInv(s) && SpawnerEnabled(env, s, l)
    ensures RetryInv(ApplySpawner(env, s, l))
  {
    hide RetryInv;
    if l.Visit? && VisitDecision(s, l).Spawn? {
      SpawnRetryStep(env, s, l);
    } else if l.List? {
      ListRetryStep(env, s, l);
    } else {
      QuietRetryStep(env, s, l);
    }
  }

  // ---------- routines ----------

  /** What the window flag buys: a released lock was seen taken, or will be read later. */
  lemma UnlockIsSeen(env: Env, s: State, id: nat)
    requires LockInv(s) && RoutineEnabled(env, s, id, Unlock) && !env.releaseInWindow
    ensures Pending(s.spawner) == [] || Vc(s.routines[id].item) in Locked(s.spawner)
  {
  }

  lemma PhaseRetryStep(s: State, id: nat, phase: Phase)
    requires RetryInv(s) && id in s.routines && Holds(s.routines[id]) && !phase.Unlocked?
    ensures RetryInv(At(s, id, phase))
  {
    var t := At(s, id, phase);
    PhaseChange(s, id, phase, s.store);
    SameHolders(s.routines, id, t.routines[id]);
    hide LockInv, Holders;
  }

  lemma SameHolders(routines: Routines, id: nat, r: Routine)
    requires id in routines && r.item == routines[id].item && Holds(r) == Holds(routines[id])
    ensures forall j, vc :: HoldsAt(routines[id := r], j, vc) <==> HoldsAt(routines, j, vc)
    ensures forall vc :: Holders(routines[id := r], vc) == Holders(routines, vc)
  {
  }

  /** A routine writes its own item back. */
  lemma WriteRetryStep(env: Env, s: State, id: nat, item: StoreItem)
    requires RetryInv(s) && id in s.routines && Holds(s.routines[id])
    requires item.retrievalKey == s.routines[id].item.retrievalKey && Vc(item) == Vc(s.routines[id].item)
    ensures RetryInv(Write(env, s, item, true))
  {
    var t := Write(env, s, item, true);
    var key, mine := item.retrievalKey, Vc(item);
    assert t.store == s.store[key := Stored(item)];
    assert HoldsAt(s.routines, id, mine) && id in Holders(s.routines, mine);
    forall k, vc | RetryAt(t.store, k, vc) ensures RetryAt(s.store, k, vc) || (k == key && vc == mine) {
    }
    forall j, vc | HoldsAt(s.routines, j, vc) && vc == mine ensures j == id {
      Exclusive(s, j, id, mine);
    }
    hide LockInv, Holders;
  }

  lemma RemoveRetryStep(s: State, key: string)
    requires RetryInv(s)
    ensures RetryInv(s.(store := s.store - {key}))
  {
    var t := s.(store := s.store - {key});
    forall k, vc | RetryAt(t.store, k, vc) ensures RetryAt(s.store, k, vc) {
    }
    hide LockInv;
  }

  /** Unlocking changes nothing but the lock and the phase, and only one vault and chain loses its holder. */
  lemma UnlockShape(env: Env, s: State, id: nat)
    requires RoutineEnabled(env, s, id, Unlock)
    ensures var t := ApplyRoutine(env, s, id, Unlock);
            && t.store == s.store && t.spawner == s.spawner
            && t.routines == s.routines[id := s.routines[id].(phase := Unlocked)]
            && (forall j, vc :: HoldsAt(t.routines, j, vc) ==> HoldsAt(s.routines, j, vc))
            && (forall vc :: vc != Vc(s.routines[id].item) ==> Holders(t.routines, vc) == Holders(s.routines, vc))
  {
  }

  /** The last thing a routine does takes it out of the picture and nothing else. */
  lemma ReleaseShape(env: Env, s: State, id: nat)
    requires RoutineEnabled(env, s, id, Release)
    ensures var t := ApplyRoutine(env, s, id, Release);
            && t.store == s.store && t.spawner == s.spawner && t.routines == s.routines - {id}
            && (forall j, vc :: HoldsAt(t.routines, j, vc) ==> HoldsAt(s.routines, j, vc))
            && (forall vc :: Holders(t.routines, vc) == Holders(s.routines, vc))
  {
  }

  lemma UnlockRetryStep(env: Env, s: State, id: nat)
    requires RetryInv(s) && RoutineEnabled(env, s, id, Unlock) && !env.releaseInWindow
    ensures RetryInv(ApplyRoutine(env, s, id, Unlock))
  {
    UnlockStep(env, s, id);
    UnlockIsSeen(env, s, id);
    UnlockShape(env, s, id);
    hide LockInv, Holders, HoldsAt, ApplyRoutine, RoutineEnabled, Pending, Locked;
  }

  lemma ReleaseRetryStep(env: Env, s: State, id: nat)
    requires RetryInv(s) && RoutineEnabled(env, s, id, Release)
    ensures RetryInv(ApplyRoutine(env, s, id, Release))
  {
    ReleaseStep(env, s, id);
    ReleaseShape(env, s, id);
    hide LockInv, Holders, HoldsAt, ApplyRoutine, RoutineEnabled, Pending, Locked;
  }

  lemma RoutineRetryStep(env: Env, s: State, id: nat, l: RoutineLabel)
    requires RetryInv(s) && RoutineEnabled(env, s, id, l) && !env.releaseInWindow
    ensures RetryInv(ApplyRoutine(env, s, id, l))
  {
    var t := ApplyRoutine(env, s, id, l);
    var r := s.routines[id];
    match l {
      case Unlock => UnlockRetryStep(env, s, id);
      case Release => ReleaseRetryStep(env, s, id);
      case Remove(ok) =>
        var u := if ok then s.(store := s.store - {Key(env.hashing, r.item)}) else s;
        if ok { RemoveRetryStep(s, Key(env.hashing, r.item)); }
        hide RetryInv;
        PhaseRetryStep(u, id, Finished);
      case StoreSigned(ok) =>
        var item := r.item.(signedTx := r.phase.bytes);
        if ok { WriteRetryStep(env, s, id, item); }
        hide RetryInv;
        PhaseRetryStep(Write(env, s, item, ok), id, Failed(r.phase.round7, ""));
      case MarkRetry(ok) =>
        var item := r.item.(round7Retry := true, checkpoint := r.phase.checkpoint);
        if ok { WriteRetryStep(env, s, id, item); }
        hide RetryInv;
        PhaseRetryStep(Write(env, s, item, ok), id, Finished);
      case _ =>
        hide RetryInv;
        PhaseRetryStep(s, id, t.routines[id].phase);
    }
  }

  // ---------- arrivals and crashes ----------

  /** A batch leaves an entry alone or replaces it by a new item. */
  lemma {:induction false} BatchEntry(h: Hashing, store: Items, items: seq<StoreItem>, k: string)
    requires k in AfterBatch(h, store, items)
    ensures (k in store && AfterBatch(h, store, items)[k] == store[k])
         || exists x :: x in items && Key(h, x) == k && AfterBatch(h, store, items)[k] == Stored(x)
  {
    if items != [] {
      var n := |items| - 1;
      if Key(h, items[n]) == k {
        assert items[n] in items;
      } else {
        BatchEntry(h, store, items[..n], k);
      }
    }
  }

  lemma BatchRetryStep(env: Env, s: State, items: seq<StoreItem>)
    requires ValidHashing(env.hashing) && RetryInv(s) && Enabled(env, s, Batch(items))
    ensures RetryInv(Apply(env, s, Batch(items)))
  {
    var store := AfterBatch(env.hashing, s.store, items);
    assert LockInv(s.(store := store));
    hide LockInv;
    forall k | k in store ensures k != "" && store[k].retrievalKey == "" {
      BatchEntry(env.hashing, s.store, items, k);
    }
    forall k, vc | RetryAt(store, k, vc) ensures RetryAt(s.store, k, vc) {
      BatchEntry(env.hashing, s.store, items, k);
    }
  }

  lemma CrashRetryStep(env: Env, s: State)
    requires RetryInv(s)
    ensures RetryInv(Apply(env, s, Crash))
  {
  }

  lemma StepKeepsRetryInv(env: Env, s: State, l: Label)
    requires ValidHashing(env.hashing) && RetryInv(s) && Enabled(env, s, l) && !env.releaseInWindow
    ensures RetryInv(Apply(env, s, l))
  {
    hide RetryInv;
    match l
    case Spawner(sl) => SpawnerRetryStep(env, s, sl);
    case Routine(id, rl) => RoutineRetryStep(env, s, id, rl);
    case Batch(items) => BatchRetryStep(env, s, items);
    case Crash => CrashRetryStep(env, s);
  }

  lemma InitRetry(s: State)
    requires Init(s)
    ensures RetryInv(s)
  {
  }

  lemma {:induction false} RunKeepsRetryInv(env: Env, s: State, ls: seq<Label>)
    requires ValidHashing(env.hashing) && RetryInv(s) && Valid(env, s, ls) && !env.releaseInWindow
    ensures RetryInv(Exec(env, s, ls))
    decreases |ls|
  {
    hide RetryInv, Enabled, Apply;
    if ls != [] {
      StepKeepsRetryInv(env, s, ls[0]);
      RunKeepsRetryInv(env, Apply(env, s, ls[0]), ls[1..]);
    }
  }
}
