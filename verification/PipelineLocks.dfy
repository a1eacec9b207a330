/**
  * Locks and semaphores of the signing pipeline, for the code as it stands: every interleaving,
  * every crash, every change of the concurrency setting.
  */
module PipelineLocks {
  import opened Outcome
  import opened SignerStore
  import opened Selection
  import opened Pipeline

  type Routines = map<nat, Routine>
  type Locks = map<VaultChain, nat>

  // ---------- who has what ----------

  predicate Holds(r: Routine) { !r.phase.Unlocked? }

  predicate HoldsAt(routines: Routines, id: nat, vc: VaultChain) {
    id in routines && Holds(routines[id]) && Vc(routines[id].item) == vc
  }

  /** The routines working for a vault and chain. */
  ghost function Holders(routines: Routines, vc: VaultChain): set<nat> {
    set id | id in routines && HoldsAt(routines, id, vc)
  }

  ghost function WithStatus(routines: Routines, st: VaultStatus): set<nat> {
    set id | id in routines && routines[id].status == st
  }

  /** The unfinished routines that entered with this vault status. */
  ghost function Count(routines: Routines, st: VaultStatus): nat { |WithStatus(routines, st)| }

  // ---------- invariants ----------

  /** Tokens are where they should be: with a routine or with the spawner. */
  ghost predicate Conserved(len: PerStatus, held: PerStatus, routines: Routines) {
    && len.active == held.active + Count(routines, ActiveVault)
    && len.retiring == held.retiring + Count(routines, RetiringVault)
    && len.inactive == held.inactive + Count(routines, InactiveVault)
    && Count(routines, InitVault) == 0
  }

  ghost predicate WithinCapacity(p: Pipe) {
    p.concurrency >= 1 && p.len.active <= p.concurrency && p.len.retiring <= p.concurrency && p.len.inactive <= 1
  }

  /** A lock is taken exactly while one routine works for its vault and chain, and never by two. */
  ghost predicate LocksMatch(locks: Locks, routines: Routines) {
    forall vc :: Len(locks, vc) == |Holders(routines, vc)| <= 1
  }

  /** Every routine was started by this pipeline. */
  ghost predicate AllOf(gen: nat, routines: Routines) {
    forall id :: id in routines ==> routines[id].gen == gen
  }

  /** What the spawner knows at each of its stations. */
  ghost predicate SpawnerKnows(spawner: Spawner, held: PerStatus, p: Pipe) {
    match spawner
    case Idle => held == NONE
    case Ready => held == NONE
    case Waiting(target, unchecked) =>
      held == NONE && target >= 1 && forall st :: st in SEMAPHORES && st !in unchecked ==> p.len.Get(st) == 0
    case Acquiring(_, _) => true
    case Snapshotting(_, unread, locked) => forall vc :: Len(p.locks, vc) > 0 ==> vc in unread || vc in locked
    case Spawning(_, locked) => forall vc :: Len(p.locks, vc) > 0 ==> vc in locked
    case Releasing => true
  }

  ghost predicate LockInv(s: State) {
    match s.pipe
    case None => s.routines == map[] && s.spawner.Idle? && s.held == NONE
    case Some(p) =>
      && AllOf(p.gen, s.routines)
      && Conserved(p.len, s.held, s.routines)
      && WithinCapacity(p)
      && LocksMatch(p.locks, s.routines)
      && SpawnerKnows(s.spawner, s.held, p)
  }

  // ---------- counting ----------

  lemma CountAdd(routines: Routines, id: nat, r: Routine, st: VaultStatus)
    requires id !in routines
    ensures Count(routines[id := r], st) == Count(routines, st) + if r.status == st then 1 else 0
  {
    var before := WithStatus(routines, st);
    assert WithStatus(routines[id := r], st) == if r.status == st then before + {id} else before;
  }

  lemma CountSame(routines: Routines, id: nat, r: Routine, st: VaultStatus)
    requires id in routines && routines[id].status == r.status
    ensures Count(routines[id := r], st) == Count(routines, st)
  {
    assert WithStatus(routines[id := r], st) == WithStatus(routines, st);
  }

  lemma CountRemove(routines: Routines, id: nat, st: VaultStatus)
    requires id in routines
    ensures Count(routines, st) == Count(routines - {id}, st) + if routines[id].status == st then 1 else 0
  {
    var after := routines - {id};
    assert routines == after[id := routines[id]];
    CountAdd(after, id, routines[id], st);
  }

  lemma CountNone(st: VaultStatus)
    ensures Count(map[], st) == 0
  {
  }

  lemma CountAllNone(routines: Routines)
    requires forall st :: Count(routines, st) == 0
    ensures routines == map[]
  {
    forall st ensures WithStatus(routines, st) == {} {
      assert Count(routines, st) == 0;
    }
    assert forall id :: id in routines ==> id in WithStatus(routines, routines[id].status);
  }

  lemma HoldersSet(routines: Routines, id: nat, r: Routine, vc: VaultChain)
    ensures Holders(routines[id := r], vc)
         == (if Holds(r) && Vc(r.item) == vc then {id} else {}) + (Holders(routines, vc) - {id})
  {
  }

  lemma HoldersNone(vc: VaultChain)
    ensures Holders(map[], vc) == {}
  {
  }

  /** Two routines never work for the same vault and chain. */
  lemma Exclusive(s: State, a: nat, b: nat, vc: VaultChain)
    requires LockInv(s) && HoldsAt(s.routines, a, vc) && HoldsAt(s.routines, b, vc)
    ensures a == b
  {
    var hs := Holders(s.routines, vc);
    assert a in hs && b in hs;
    assert Len(s.pipe.value.locks, vc) == |hs|;
    if a != b {
      assert {a, b} <= hs;
      CardSubset({a, b}, hs);
    }
  }

  lemma CardSubset<T>(a: set<T>, b: set<T>)
    requires a <= b
    ensures |a| <= |b|
  {
    assert b == a + (b - a);
  }

  lemma HolderLocks(s: State, id: nat)
    requires LockInv(s) && id in s.routines && Holds(s.routines[id])
    ensures s.pipe.Some? && s.pipe.value.LockLen(Vc(s.routines[id].item)) == 1
  {
    var vc := Vc(s.routines[id].item);
    assert s.pipe.Some?;
    assert id in Holders(s.routines, vc);
    assert Len(s.pipe.value.locks, vc) == |Holders(s.routines, vc)|;
  }

  lemma TokenCounted(s: State, id: nat)
    requires LockInv(s) && id in s.routines
    ensures s.pipe.Some? && s.pipe.value.len.Get(s.routines[id].status) > 0
  {
    var st := s.routines[id].status;
    assert id in WithStatus(s.routines, st);
  }

  // ---------- parts of a step ----------

  /** A routine moves on without giving up its lock. */
  lemma PhaseChange(s: State, id: nat, phase: Phase, store: map<string, StoreItem>)
    requires LockInv(s) && id in s.routines && Holds(s.routines[id]) && !phase.Unlocked?
    ensures LockInv(At(s.(store := store), id, phase))
  {
    var t := At(s.(store := store), id, phase);
    forall st ensures Count(t.routines, st) == Count(s.routines, st) {
      CountSame(s.routines, id, t.routines[id], st);
    }
    forall vc ensures Holders(t.routines, vc) == Holders(s.routines, vc) {
      HoldersSet(s.routines, id, t.routines[id], vc);
    }
  }

  lemma LocksUnlock(locks: Locks, routines: Routines, id: nat, r: Routine)
    requires LocksMatch(locks, routines) && id in routines && Holds(routines[id])
    requires r == routines[id].(phase := Unlocked)
    ensures var vc := Vc(r.item); Len(locks, vc) == 1 && LocksMatch(locks[vc := 0], routines[id := r])
  {
    var mine := Vc(r.item);
    assert id in Holders(routines, mine);
    assert Len(locks, mine) == |Holders(routines, mine)| <= 1;
    var locks', routines' := locks[mine := 0], routines[id := r];
    forall vc ensures Len(locks', vc) == |Holders(routines', vc)| <= 1 {
      HoldersSet(routines, id, r, vc);
      assert Len(locks, vc) == |Holders(routines, vc)| <= 1;
      assert id in Holders(routines, vc) <==> vc == mine;
    }
  }

  lemma UnlockStep(env: Env, s: State, id: nat)
    requires LockInv(s) && RoutineEnabled(env, s, id, Unlock)
    ensures LockInv(ApplyRoutine(env, s, id, Unlock))
  {
    hide LocksMatch;
    var p := s.pipe.value;
    var t := ApplyRoutine(env, s, id, Unlock);
    var mine := Vc(s.routines[id].item);
    LocksUnlock(p.locks, s.routines, id, t.routines[id]);
    forall st ensures Count(t.routines, st) == Count(s.routines, st) {
      CountSame(s.routines, id, t.routines[id], st);
    }
    assert t.pipe.value.locks == p.locks[mine := 0];
    assert forall vc :: Len(t.pipe.value.locks, vc) <= Len(p.locks, vc);
  }

  lemma ReleaseStep(env: Env, s: State, id: nat)
    requires LockInv(s) && RoutineEnabled(env, s, id, Release)
    ensures LockInv(ApplyRoutine(env, s, id, Release))
  {
    var t := ApplyRoutine(env, s, id, Release);
    forall st ensures Count(s.routines, st) == Count(t.routines, st) + if s.routines[id].status == st then 1 else 0 {
      CountRemove(s.routines, id, st);
    }
    forall vc ensures Holders(t.routines, vc) == Holders(s.routines, vc) {
    }
  }

  lemma RoutineStep(env: Env, s: State, id: nat, l: RoutineLabel)
    requires LockInv(s) && RoutineEnabled(env, s, id, l)
    ensures LockInv(ApplyRoutine(env, s, id, l))
  {
    if l.Unlock? {
      UnlockStep(env, s, id);
    } else if l.Release? {
      ReleaseStep(env, s, id);
    } else {
      var t := ApplyRoutine(env, s, id, l);
      hide LockInv;
      PhaseChange(s, id, t.routines[id].phase, t.store);
      assert t == At(s.(store := t.store), id, t.routines[id].phase);
    }
  }

  lemma LocksSpawn(locks: Locks, routines: Routines, id: nat, r: Routine)
    requires LocksMatch(locks, routines) && id !in routines && Holds(r) && Len(locks, Vc(r.item)) == 0
    ensures LocksMatch(locks[Vc(r.item) := 1], routines[id := r])
  {
    var mine := Vc(r.item);
    var locks', routines' := locks[mine := 1], routines[id := r];
    forall vc ensures Len(locks', vc) == |Holders(routines', vc)| <= 1 {
      HoldersSet(routines, id, r, vc);
      assert Len(locks, vc) == |Holders(routines, vc)| <= 1;
      assert id !in Holders(routines, vc);
    }
  }

  lemma SpawnStep(env: Env, s: State, l: SpawnerLabel)
    requires LockInv(s) && SpawnerEnabled(env, s, l) && l.Visit? && VisitDecision(s, l).Spawn?
    ensures LockInv(ApplyVisit(s, l))
  {
    hide LocksMatch;
    var t := ApplyVisit(s, l);
    var p, mine := s.pipe.value, Vc(s.spawner.pending[0]);
    var r := t.routines[l.id];
    assert Vc(r.item) == mine && Holds(r);
    forall st ensures Count(t.routines, st) == Count(s.routines, st) + if r.status == st then 1 else 0 {
      CountAdd(s.routines, l.id, r, st);
    }
    LocksSpawn(p.locks, s.routines, l.id, r);
    assert t.pipe.value.locks == p.locks[mine := 1];
  }

  /** Wait returned: every token is back, so every routine is gone and every lock is free. */
  lemma Drained(s: State)
    requires LockInv(s) && s.spawner.Waiting? && s.spawner.unchecked == {}
    ensures s.routines == map[]
    ensures s.pipe.Some? && forall vc :: s.pipe.value.LockLen(vc) == 0
  {
    forall st ensures Count(s.routines, st) == 0 {
      assert s.pipe.value.len.Get(st) == 0;
    }
    CountAllNone(s.routines);
    forall vc ensures s.pipe.value.LockLen(vc) == 0 {
      HoldersNone(vc);
      assert Len(s.pipe.value.locks, vc) == |Holders(s.routines, vc)|;
    }
  }

  lemma FreshPipe(s: State, target: nat)
    requires s.routines == map[] && s.held == NONE && target >= 1
    ensures LockInv(s.(pipe := Some(NewPipe(s.gens, target)), gens := s.gens + 1, spawner := Ready))
  {
    CountNone(ActiveVault);
    CountNone(RetiringVault);
    CountNone(InactiveVault);
    CountNone(InitVault);
    NoLocks();
  }

  lemma NoLocks()
    ensures LocksMatch(map[], map[])
  {
  }

  /** A move of the spawner that changes neither locks nor tokens. */
  lemma QuietStep(s: State, t: State)
    requires LockInv(s) && s.pipe.Some? && t.pipe.Some?
    requires t.routines == s.routines && t.held == s.held
    requires t.pipe.value.(locks := s.pipe.value.locks) == s.pipe.value
    requires forall vc :: Len(t.pipe.value.locks, vc) == Len(s.pipe.value.locks, vc)
    requires SpawnerKnows(t.spawner, t.held, t.pipe.value)
    ensures LockInv(t)
  {
  }

  lemma TokenStep(s: State, t: State)
    requires LockInv(s) && s.pipe.Some? && t.pipe.Some?
    requires t.routines == s.routines && t.spawner == s.spawner && (t.spawner.Acquiring? || t.spawner.Releasing?)
    requires t.pipe.value.(len := s.pipe.value.len) == s.pipe.value && WithinCapacity(t.pipe.value)
    requires t.pipe.value.len.active - s.pipe.value.len.active == t.held.active - s.held.active
    requires t.pipe.value.len.retiring - s.pipe.value.len.retiring == t.held.retiring - s.held.retiring
    requires t.pipe.value.len.inactive - s.pipe.value.len.inactive == t.held.inactive - s.held.inactive
    ensures LockInv(t)
  {
  }

  lemma BeginStep(s: State, mimir: int)
    requires LockInv(s) && s.spawner.Idle?
    ensures LockInv(ApplyBegin(s, mimir))
  {
    if s.pipe.None? {
      FreshPipe(s, Concurrency(mimir));
    } else {
      QuietStep(s, ApplyBegin(s, mimir));
    }
  }

  lemma VisitStep(env: Env, s: State, l: SpawnerLabel)
    requires LockInv(s) && SpawnerEnabled(env, s, l) && l.Visit?
    ensures LockInv(ApplyVisit(s, l))
  {
    hide Conserved, LocksMatch, AllOf;
    if VisitDecision(s, l).Spawn? {
      SpawnStep(env, s, l);
    } else {
      QuietStep(s, ApplyVisit(s, l));
    }
  }

  lemma TokensStep(env: Env, s: State, l: SpawnerLabel)
    requires LockInv(s) && SpawnerEnabled(env, s, l) && (l.AcquireOne? || l.ReleaseOne?)
    ensures LockInv(ApplySpawner(env, s, l))
  {
    hide Conserved, LocksMatch, AllOf;
    TokenStep(s, ApplySpawner(env, s, l));
  }

  lemma SpawnerStep(env: Env, s: State, l: SpawnerLabel)
    requires LockInv(s) && SpawnerEnabled(env, s, l)
    ensures LockInv(ApplySpawner(env, s, l))
  {
    hide Conserved, LocksMatch, AllOf, WithinCapacity;
    match l {
      case Begin(mimir) => BeginStep(s, mimir);
      case Replace =>
        Drained(s);
        FreshPipe(s, s.spawner.target);
      case AcquireOne(_) => TokensStep(env, s, l);
      case ReleaseOne(_) => TokensStep(env, s, l);
      case Visit(_, _, _) => VisitStep(env, s, l);
      case _ => QuietStep(s, ApplySpawner(env, s, l));
    }
  }

  lemma StepKeepsLockInv(env: Env, s: State, l: Label)
    requires LockInv(s) && Enabled(env, s, l)
    ensures LockInv(Apply(env, s, l))
  {
    match l
    case Spawner(sl) => SpawnerStep(env, s, sl);
    case Routine(id, rl) => RoutineStep(env, s, id, rl);
    case Batch(_) =>
    case Crash =>
  }

  // ---------- whole runs ----------

  lemma {:induction false} RunKeepsLockInv(env: Env, s: State, ls: seq<Label>)
    requires LockInv(s) && Valid(env, s, ls)
    ensures LockInv(Exec(env, s, ls))
    decreases |ls|
  {
    hide LockInv, Enabled, Apply;
    if ls != [] {
      StepKeepsLockInv(env, s, ls[0]);
      RunKeepsLockInv(env, Apply(env, s, ls[0]), ls[1..]);
    }
  }

  /** What a token count means: nothing is lost, and no status runs over its capacity. */
  ghost predicate TokensAccounted(s: State) {
    s.pipe.Some? ==> forall st ::
      && s.pipe.value.len.Get(st) == s.held.Get(st) + Count(s.routines, st)
      && Count(s.routines, st) <= s.pipe.value.Cap(st)
  }

  lemma LockInvMeans(t: State)
    requires LockInv(t)
    ensures TokensAccounted(t)
    ensures forall id :: id in t.routines ==> Current(t, t.routines[id])
    ensures t.spawner.Idle? || t.spawner.Waiting? || t.spawner.Ready? ==> t.held == NONE
  {
    hide LocksMatch;
  }

  /**
    * In every state of every run: one routine per vault and chain, tokens accounted for, no routine
    * of an older pipeline, and no token with the spawner between calls, however the last call ended.
    */
  lemma SafeOverRuns(env: Env, s: State, ls: seq<Label>)
    requires Init(s) && Valid(env, s, ls)
    ensures var t := Exec(env, s, ls);
            && (forall a, b, vc :: HoldsAt(t.routines, a, vc) && HoldsAt(t.routines, b, vc) ==> a == b)
            && TokensAccounted(t)
            && (forall id :: id in t.routines ==> Current(t, t.routines[id]))
            && (t.spawner.Idle? || t.spawner.Waiting? || t.spawner.Ready? ==> t.held == NONE)
  {
    RunKeepsLockInv(env, s, ls);
    var t := Exec(env, s, ls);
    hide Exec, Valid, Init;
    LockInvMeans(t);
    hide LockInv, HoldsAt;
    forall a, b, vc | HoldsAt(t.routines, a, vc) && HoldsAt(t.routines, b, vc) ensures a == b {
      Exclusive(t, a, b, vc);
    }
  }

  /** The pipeline is replaced only when every routine has finished and every lock is free. */
  lemma ReplacedWhenDrained(env: Env, s: State, ls: seq<Label>)
    requires Init(s) && Valid(env, s, ls)
    requires SpawnerEnabled(env, Exec(env, s, ls), Replace)
    ensures var t := Exec(env, s, ls);
            t.routines == map[] && t.pipe.Some? && forall vc :: t.pipe.value.LockLen(vc) == 0
  {
    RunKeepsLockInv(env, s, ls);
    Drained(Exec(env, s, ls));
  }

  lemma SpawnerReady(env: Env, t: State, id: nat, answer: Answer, stopped: bool, st: VaultStatus)
    requires LockInv(t)
    ensures t.spawner.Spawning? && t.spawner.pending != [] && id !in t.routines ==>
              SpawnerEnabled(env, t, Visit(stopped, answer, id))
    ensures t.spawner.Releasing? && t.held.Get(st) > 0 ==> SpawnerEnabled(env, t, ReleaseOne(st))
  {
  }

  lemma RoutineReady(env: Env, t: State, id: nat)
    requires LockInv(t) && env.releaseInWindow && id in t.routines
    ensures t.routines[id].phase.Finished? ==> RoutineEnabled(env, t, id, Unlock)
    ensures t.routines[id].phase.Unlocked? ==> RoutineEnabled(env, t, id, Release)
  {
    TokenCounted(t, id);
    if Holds(t.routines[id]) { HolderLocks(t, id); }
    hide LockInv;
  }

  /**
    * No channel operation ever blocks: the lock send of a spawn, the spawner's and the routines'
    * token releases, and the lock release all find the channel ready.
    */
  lemma NeverBlocks(env: Env, s: State, ls: seq<Label>, id: nat, answer: Answer, stopped: bool, st: VaultStatus)
    requires Init(s) && Valid(env, s, ls) && env.releaseInWindow
    ensures var t := Exec(env, s, ls);
            && (t.spawner.Spawning? && t.spawner.pending != [] && id !in t.routines ==>
                  SpawnerEnabled(env, t, Visit(stopped, answer, id)))
            && (t.spawner.Releasing? && t.held.Get(st) > 0 ==> SpawnerEnabled(env, t, ReleaseOne(st)))
            && (id in t.routines && t.routines[id].phase.Finished? ==> RoutineEnabled(env, t, id, Unlock))
            && (id in t.routines && t.routines[id].phase.Unlocked? ==> RoutineEnabled(env, t, id, Release))
  {
    RunKeepsLockInv(env, s, ls);
    var t := Exec(env, s, ls);
    hide Exec, Valid, LockInv, SpawnerEnabled, RoutineEnabled;
    SpawnerReady(env, t, id, answer, stopped, st);
    if id in t.routines { RoutineReady(env, t, id); }
  }
}
