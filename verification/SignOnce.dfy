/**
  * Sign once: from the moment signed bytes of an item are in the store, every later attempt over the
  * whole run broadcasts exactly those bytes and never asks for another signature, until the item is
  * removed. Crashes, restarts and changes of the pipeline included.
  */
module SignOnce {
  import opened SignerStore
  import opened Selection
  import opened Pipeline
  import opened PipelineLocks
  import opened PipelineRetry

  /** The conditions under which the claim holds. */
  predicate Calm(env: Env) { !env.releaseInWindow && !env.staleBatch && !env.round7OnBroadcast }

  // ---------- the claim ----------

  /** A call of SignTx, whatever it returns. */
  predicate CallsSignTx(l: RoutineLabel) { l.Sign? || l.SignFails? || l.SignsNothing? }

  predicate Broadcasts(l: RoutineLabel) { l.BroadcastOk? || l.BroadcastFails? }

  /** If the step is one of a routine for item `k`, it does not sign, and it broadcasts only `b`. */
  predicate Faithful(s: State, l: Label, k: string, b: Blob) {
    l.Routine? && l.id in s.routines && s.routines[l.id].item.retrievalKey == k ==>
      !CallsSignTx(l.r) && (Broadcasts(l.r) ==> s.routines[l.id].phase == Holding(b))
  }

  /** Every step of the run is faithful, and the stored bytes stay `b`, until `k` leaves the store. */
  ghost predicate SignedOnce(env: Env, s: State, ls: seq<Label>, k: string, b: Blob)
    requires Valid(env, s, ls)
    decreases |ls|
  {
    ls == []
    || (&& Faithful(s, ls[0], k, b)
        && var t := Apply(env, s, ls[0]);
           (k in t.store ==> t.store[k].signedTx == b && SignedOnce(env, t, ls[1..], k, b)))
  }

  // ---------- invariants ----------

  /** The routine may still use its copy of the item. */
  predicate Active(r: Routine) { !r.phase.Finished? && !r.phase.Unlocked? }

  /** What the routine would sign, broadcast or write agrees with the stored bytes `b`. */
  predicate Agrees(r: Routine, b: Blob) {
    match r.phase
    case Deciding => r.item.signedTx == b
    case Holding(bytes) => bytes == b
    case Rejected(bytes, round7) => bytes == b
    case Failed(round7, _) => round7 ==> r.item.signedTx == b
    case _ => true
  }

  predicate Carries(store: Items, r: Routine) {
    && (r.phase.Rejected? ==> !r.phase.round7)
    && (Active(r) ==>
          var k := r.item.retrievalKey;
          && k in store && Vc(store[k]) == Vc(r.item)
          && (store[k].signedTx != "" ==> Agrees(r, store[k].signedTx)))
  }

  ghost predicate AllCarry(store: Items, routines: Routines) {
    forall id :: id in routines ==> Carries(store, routines[id])
  }

  /** An item the call may still start is the stored one. */
  ghost predicate PendingStored(store: Items, routines: Routines, sp: Spawner) {
    forall x :: x in Pending(sp) && Open(sp, routines, Vc(x)) ==>
      x.retrievalKey in store && store[x.retrievalKey] == Stored(x)
  }

  ghost predicate SignedInv(s: State) {
    && RetryInv(s)
    && AllCarry(s.store, s.routines)
    && PendingStored(s.store, s.routines, s.spawner)
  }

  // ---------- spawner ----------

  lemma ListSignedStep(env: Env, s: State, l: SpawnerLabel)
    requires SignedInv(s) && SpawnerEnabled(env, s, l) && l.List?
    ensures SignedInv(ApplySpawner(env, s, l))
  {
    ListRetryStep(env, s, l);
    ListStep(env, s, l.all, l.pending);
    forall x | x in l.pending ensures x.retrievalKey in s.store && s.store[x.retrievalKey] == Stored(x) {
      assert Listed(s.store, x);
    }
    hide RetryInv, Open, IsListing, IsSelection;
  }

  lemma SpawnSignedStep(env: Env, s: State, l: SpawnerLabel)
    requires SignedInv(s) && SpawnerEnabled(env, s, l) && l.Visit? && VisitDecision(s, l).Spawn?
    ensures SignedInv(ApplyVisit(s, l))
  {
    var t := ApplyVisit(s, l);
    var x := s.spawner.pending[0];
    var r := t.routines[l.id];
    assert x in Pending(s.spawner);
    assert Open(s.spawner, s.routines, Vc(x)) by { FreeLock(s, Vc(x)); }
    SpawnRetryStep(env, s, l);
    hide RetryInv;
    assert Carries(t.store, r);
    SpawnStored(s.store, s.routines, s.spawner, l.id, r, t.spawner);
    hide PendingStored;
  }

  lemma SpawnStored(store: Items, routines: Routines, sp: Spawner, id: nat, r: Routine, sp': Spawner)
    requires PendingStored(store, routines, sp) && id !in routines
    requires Locked(sp) <= Locked(sp') && forall x :: x in Pending(sp') ==> x in Pending(sp)
    ensures PendingStored(store, routines[id := r], sp')
  {
  }

  lemma QuietSignedStep(env: Env, s: State, l: SpawnerLabel)
    requires SignedInv(s) && SpawnerEnabled(env, s, l) && !l.List?
    requires l.Visit? ==> !VisitDecision(s, l).Spawn?
    ensures SignedInv(ApplySpawner(env, s, l))
  {
    QuietRetryStep(env, s, l);
    QuietShape(env, s, l);
    hide RetryInv, ApplySpawner, SpawnerEnabled, VisitDecision, Pending, Locked;
    NarrowedStored(s.store, s.routines, s.spawner, ApplySpawner(env, s, l).spawner);
    hide PendingStored;
  }

  lemma NarrowedStored(store: Items, routines: Routines, sp: Spawner, sp': Spawner)
    requires PendingStored(store, routines, sp)
    requires Pending(sp') == [] || Locked(sp) <= Locked(sp')
    requires forall x :: x in Pending(sp') ==> x in Pending(sp)
    ensures PendingStored(store, routines, sp')
  {
  }

  lemma SpawnerSignedStep(env: Env, s: State, l: SpawnerLabel)
    requires SignedInv(s) && SpawnerEnabled(env, s, l)
    ensures SignedInv(ApplySpawner(env, s, l))
  {
    hide SignedInv;
    if l.Visit? && VisitDecision(s, l).Spawn? {
      SpawnSignedStep(env, s, l);
    } else if l.List? {
      ListSignedStep(env, s, l);
    } else {
      QuietSignedStep(env, s, l);
    }
  }

  // ---------- routines ----------

  /** A routine moves on to a phase in which it still agrees with the store. */
  lemma PhaseSignedStep(s: State, id: nat, phase: Phase)
    requires SignedInv(s) && id in s.routines && Holds(s.routines[id]) && !phase.Unlocked?
    requires Carries(s.store, s.routines[id].(phase := phase))
    ensures SignedInv(At(s, id, phase))
  {
    var t := At(s, id, phase);
    PhaseRetryStep(s, id, phase);
    SameHolders(s.routines, id, t.routines[id]);
    hide RetryInv, Holders, Carries;
  }

  /** Two routines that still use their items use different items. */
  lemma KeyIsMine(s: State, id: nat, j: nat)
    requires SignedInv(s) && id in s.routines && j in s.routines
    requires Active(s.routines[id]) && Active(s.routines[j])
    requires s.routines[id].item.retrievalKey == s.routines[j].item.retrievalKey
    ensures id == j
  {
    assert Carries(s.store, s.routines[id]) && Carries(s.store, s.routines[j]);
    Exclusive(s, id, j, Vc(s.routines[id].item));
  }

  /** The pending copies of an item are out of play while a routine uses it. */
  lemma NotOpen(s: State, id: nat, x: StoreItem)
    requires SignedInv(s) && id in s.routines && Active(s.routines[id])
    requires x in Pending(s.spawner) && Open(s.spawner, s.routines, Vc(x))
    ensures x.retrievalKey != s.routines[id].item.retrievalKey
  {
    var r := s.routines[id];
    assert Carries(s.store, r);
    assert HoldsAt(s.routines, id, Vc(r.item)) && id in Holders(s.routines, Vc(r.item));
  }

  /** Writing back: bytes `b` (or none yet) stay, or first bytes are stored. */
  lemma WriteSignedStep(env: Env, s: State, id: nat, item: StoreItem)
    requires SignedInv(s) && id in s.routines && Active(s.routines[id])
    requires item.retrievalKey == s.routines[id].item.retrievalKey && Vc(item) == Vc(s.routines[id].item)
    ensures var t := Write(env, s, item, true);
            && RetryInv(t)
            && (forall j :: j in t.routines && j != id ==> Carries(t.store, t.routines[j]))
            && PendingStored(t.store, t.routines, t.spawner)
            && t.store == s.store[item.retrievalKey := Stored(item)]
  {
    var t := Write(env, s, item, true);
    WriteRetryStep(env, s, id, item);
    assert t.store == s.store[item.retrievalKey := Stored(item)];
    forall j | j in t.routines && j != id ensures Carries(t.store, t.routines[j]) {
      assert Carries(s.store, s.routines[j]);
      if Active(s.routines[j]) && s.routines[j].item.retrievalKey == item.retrievalKey { KeyIsMine(s, id, j); }
    }
    forall x | x in Pending(t.spawner) && Open(t.spawner, t.routines, Vc(x))
      ensures x.retrievalKey in t.store && t.store[x.retrievalKey] == Stored(x)
    {
      NotOpen(s, id, x);
    }
  }

  /** The moved routine joins the others. */
  lemma JoinSigned(s: State, id: nat, phase: Phase)
    requires RetryInv(s) && id in s.routines && Holds(s.routines[id]) && !phase.Unlocked?
    requires forall j :: j in s.routines && j != id ==> Carries(s.store, s.routines[j])
    requires Carries(s.store, s.routines[id].(phase := phase))
    requires PendingStored(s.store, s.routines, s.spawner)
    ensures SignedInv(At(s, id, phase))
  {
    var t := At(s, id, phase);
    PhaseRetryStep(s, id, phase);
    SameHolders(s.routines, id, t.routines[id]);
    hide RetryInv, Holders, Carries;
  }

  lemma StoreSignedStep(env: Env, s: State, id: nat, ok: bool)
    requires SignedInv(s) && RoutineEnabled(env, s, id, StoreSigned(ok))
    ensures SignedInv(ApplyRoutine(env, s, id, StoreSigned(ok)))
  {
    var r := s.routines[id];
    assert Carries(s.store, r);
    var item := r.item.(signedTx := r.phase.bytes);
    var next := Failed(r.phase.round7, "");
    if ok {
      WriteSignedStep(env, s, id, item);
      hide SignedInv, RetryInv;
      JoinSigned(Write(env, s, item, true), id, next);
    } else {
      PhaseSignedStep(s, id, next);
    }
  }

  lemma MarkRetryStep(env: Env, s: State, id: nat, ok: bool)
    requires SignedInv(s) && RoutineEnabled(env, s, id, MarkRetry(ok))
    ensures SignedInv(ApplyRoutine(env, s, id, MarkRetry(ok)))
  {
    var r := s.routines[id];
    var item := r.item.(round7Retry := true, checkpoint := r.phase.checkpoint);
    if ok {
      WriteSignedStep(env, s, id, item);
      hide SignedInv, RetryInv;
      JoinSigned(Write(env, s, item, true), id, Finished);
    } else {
      PhaseSignedStep(s, id, Finished);
    }
  }

  lemma RemoveStep(env: Env, s: State, id: nat, ok: bool)
    requires SignedInv(s) && RoutineEnabled(env, s, id, Remove(ok))
    ensures SignedInv(ApplyRoutine(env, s, id, Remove(ok)))
  {
    var r := s.routines[id];
    if ok {
      var t := s.(store := s.store - {r.item.retrievalKey});
      RemoveRetryStep(s, r.item.retrievalKey);
      assert Key(env.hashing, r.item) == r.item.retrievalKey;
      forall j | j in t.routines && j != id ensures Carries(t.store, t.routines[j]) {
        assert Carries(s.store, s.routines[j]);
        if Active(s.routines[j]) && s.routines[j].item.retrievalKey == r.item.retrievalKey { KeyIsMine(s, id, j); }
      }
      forall x | x in Pending(t.spawner) && Open(t.spawner, t.routines, Vc(x))
        ensures x.retrievalKey in t.store && t.store[x.retrievalKey] == Stored(x)
      {
        NotOpen(s, id, x);
      }
      hide SignedInv, RetryInv;
      JoinSigned(t, id, Finished);
    } else {
      PhaseSignedStep(s, id, Finished);
    }
  }

  lemma UnlockSignedStep(env: Env, s: State, id: nat)
    requires SignedInv(s) && RoutineEnabled(env, s, id, Unlock) && !env.releaseInWindow
    ensures SignedInv(ApplyRoutine(env, s, id, Unlock))
  {
    UnlockRetryStep(env, s, id);
    UnlockIsSeen(env, s, id);
    UnlockShape(env, s, id);
    hide RetryInv, Holders, HoldsAt, ApplyRoutine, RoutineEnabled, Pending, Locked;
  }

  lemma ReleaseSignedStep(env: Env, s: State, id: nat)
    requires SignedInv(s) && RoutineEnabled(env, s, id, Release)
    ensures SignedInv(ApplyRoutine(env, s, id, Release))
  {
    ReleaseRetryStep(env, s, id);
    ReleaseShape(env, s, id);
    hide RetryInv, Holders, HoldsAt, ApplyRoutine, RoutineEnabled, Pending, Locked, Carries;
  }

  lemma RoutineSignedStep(env: Env, s: State, id: nat, l: RoutineLabel)
    requires SignedInv(s) && RoutineEnabled(env, s, id, l) && Calm(env)
    ensures SignedInv(ApplyRoutine(env, s, id, l))
  {
    assert Carries(s.store, s.routines[id]);
    hide SignedInv;
    match l {
      case Unlock => UnlockSignedStep(env, s, id);
      case Release => ReleaseSignedStep(env, s, id);
      case Remove(ok) => RemoveStep(env, s, id, ok);
      case StoreSigned(ok) => StoreSignedStep(env, s, id, ok);
      case MarkRetry(ok) => MarkRetryStep(env, s, id, ok);
      case _ => PhaseSignedStep(s, id, ApplyRoutine(env, s, id, l).routines[id].phase);
    }
  }

  // ---------- arrivals and crashes ----------

  lemma {:induction false} BatchKeeps(h: Hashing, store: Items, items: seq<StoreItem>, k: string)
    requires k in store && forall x :: x in items ==> Key(h, x) != k
    ensures k in AfterBatch(h, store, items) && AfterBatch(h, store, items)[k] == store[k]
  {
    if items != [] {
      var n := |items| - 1;
      assert items[n] in items;
      BatchKeeps(h, store, items[..n], k);
    }
  }

  lemma BatchSignedStep(env: Env, s: State, items: seq<StoreItem>)
    requires ValidHashing(env.hashing) && SignedInv(s) && Enabled(env, s, Batch(items)) && Calm(env)
    ensures SignedInv(Apply(env, s, Batch(items)))
  {
    var store := AfterBatch(env.hashing, s.store, items);
    BatchRetryStep(env, s, items);
    hide RetryInv;
    forall k | k in s.store ensures k in store && store[k] == s.store[k] {
      BatchKeeps(env.hashing, s.store, items, k);
    }
  }

  lemma StepKeepsSignedInv(env: Env, s: State, l: Label)
    requires ValidHashing(env.hashing) && SignedInv(s) && Enabled(env, s, l) && Calm(env)
    ensures SignedInv(Apply(env, s, l))
  {
    match l
    case Spawner(sl) =>
      hide SignedInv;
      SpawnerSignedStep(env, s, sl);
    case Routine(id, rl) =>
      hide SignedInv;
      RoutineSignedStep(env, s, id, rl);
    case Batch(items) =>
      hide SignedInv;
      BatchSignedStep(env, s, items);
    case Crash =>
      CrashRetryStep(env, s);
      hide RetryInv;
  }

  // ---------- the theorem ----------

  lemma RoutineIsFaithful(env: Env, s: State, id: nat, l: RoutineLabel, k: string)
    requires RoutineEnabled(env, s, id, l) && Calm(env) && Carries(s.store, s.routines[id])
    requires s.routines[id].item.retrievalKey != ""
    requires k in s.store && s.store[k].signedTx != ""
    ensures Faithful(s, Label.Routine(id, l), k, s.store[k].signedTx)
    ensures var t := ApplyRoutine(env, s, id, l); k in t.store ==> t.store[k].signedTx == s.store[k].signedTx
  {
  }

  /** One step, seen from an item with stored bytes. */
  lemma StepIsFaithful(env: Env, s: State, l: Label, k: string)
    requires SignedInv(s) && Enabled(env, s, l) && Calm(env)
    requires k in s.store && s.store[k].signedTx != ""
    ensures Faithful(s, l, k, s.store[k].signedTx)
    ensures var t := Apply(env, s, l); k in t.store ==> t.store[k].signedTx == s.store[k].signedTx
  {
    match l {
      case Routine(id, rl) =>
        assert Carries(s.store, s.routines[id]);
        assert s.routines[id].item.retrievalKey != "";
        hide RetryInv, Carries, Faithful;
        RoutineIsFaithful(env, s, id, rl, k);
      case Spawner(sl) =>
        hide RetryInv;
        SpawnerLeavesStore(env, s, sl);
      case Batch(items) =>
        hide RetryInv;
        BatchKeeps(env.hashing, s.store, items, k);
      case Crash =>
    }
  }

  lemma SpawnerLeavesStore(env: Env, s: State, l: SpawnerLabel)
    requires SpawnerEnabled(env, s, l)
    ensures ApplySpawner(env, s, l).store == s.store
  {
  }

  lemma {:induction false} SignedOnceFrom(env: Env, s: State, ls: seq<Label>, k: string)
    requires ValidHashing(env.hashing) && SignedInv(s) && Valid(env, s, ls) && Calm(env)
    requires k in s.store && s.store[k].signedTx != ""
    ensures SignedOnce(env, s, ls, k, s.store[k].signedTx)
    decreases |ls|
  {
    hide SignedInv, Enabled, Apply, Faithful;
    if ls != [] {
      StepIsFaithful(env, s, ls[0], k);
      StepKeepsSignedInv(env, s, ls[0]);
      var t := Apply(env, s, ls[0]);
      if k in t.store {
        SignedOnceFrom(env, t, ls[1..], k);
      }
    }
  }

  lemma {:induction false} RunKeepsSignedInv(env: Env, s: State, ls: seq<Label>)
    requires ValidHashing(env.hashing) && SignedInv(s) && Valid(env, s, ls) && Calm(env)
    ensures SignedInv(Exec(env, s, ls))
    decreases |ls|
  {
    hide SignedInv, Enabled, Apply;
    if ls != [] {
      StepKeepsSignedInv(env, s, ls[0]);
      RunKeepsSignedInv(env, Apply(env, s, ls[0]), ls[1..]);
    }
  }

  lemma InitSigned(s: State)
    requires Init(s)
    ensures SignedInv(s)
  {
  }
}
