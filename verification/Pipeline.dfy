/**
  * The outbound signing scheduler as a transition system: bifrost/signer/pipeline.go with the parts
  * of bifrost/signer/sign.go that touch the store (processTransactions, processTransaction, the
  * signing, broadcasting and storing of signAndBroadcast, and processTxnOut).
  *
  * One spawner and any number of signing routines interleave. Every channel operation, every store
  * operation and every visit of the spawn loop is one step. A channel operation is enabled only when
  * it would not block. `Enabled` says what can happen next, `Apply` what it does; a label carries
  * every choice the code does not make itself (map order, answers of the network, scheduling).
  */
module Pipeline {
  import opened Outcome
  import opened SignerStore
  import opened Selection

  /**
    * What the surroundings may do. All three flags set is the code as it stands.
    *  - releaseInWindow: a routine may give up its lock after the spawner has listed the store and
    *    before the spawner has read that lock.
    *  - staleBatch: processTxnOut may deliver an item whose key is still in the store.
    *  - round7OnBroadcast: BroadcastTx may fail with an error that counts as a round 7 keysign error.
    */
  datatype Env = Env(hashing: Hashing, releaseInWindow: bool, staleBatch: bool, round7OnBroadcast: bool)

  const SEMAPHORES: set<VaultStatus> := {ActiveVault, RetiringVault, InactiveVault}
  const NONE := PerStatus(0, 0, 0)

  datatype Pipe = Pipe(gen: nat, concurrency: nat, len: PerStatus, locks: map<VaultChain, nat>) {
    function Cap(s: VaultStatus): nat {
      match s
      case ActiveVault => concurrency
      case RetiringVault => concurrency
      case InactiveVault => 1
      case InitVault => 0
    }

    function LockLen(vc: VaultChain): nat { Len(locks, vc) }

    function SetLock(vc: VaultChain, n: nat): Pipe { this.(locks := locks[vc := n]) }

    function SetLen(s: VaultStatus, n: nat): Pipe { this.(len := len.Put(s, n)) }
  }

  function Len(locks: map<VaultChain, nat>, vc: VaultChain): nat { if vc in locks then locks[vc] else 0 }

  function NewPipe(gen: nat, concurrency: nat): Pipe { Pipe(gen, concurrency, NONE, map[]) }

  /** The mimir value, or 10 when it is unset. */
  function Concurrency(mimir: int): (n: nat)
    ensures n >= 1
  {
    if mimir <= 0 then 10 else mimir
  }

  /**
    * Where a signing routine stands in processTransaction and signAndBroadcast.
    *  - Deciding: no decision to sign or broadcast yet
    *  - Holding: has signed bytes, about to broadcast them
    *  - Rejected: the broadcast failed, about to store the bytes
    *  - Failed: signAndBroadcast returned an error
    *  - Succeeded: signAndBroadcast returned no error, about to remove the item
    *  - Finished: processTransaction returned, about to release the lock
    *  - Unlocked: lock released, about to release the semaphore token
    */
  datatype Phase =
    | Deciding
    | Holding(bytes: Blob)
    | Rejected(bytes: Blob, round7: bool)
    | Failed(round7: bool, checkpoint: Blob)
    | Succeeded
    | Finished
    | Unlocked

  datatype Routine = Routine(item: StoreItem, status: VaultStatus, gen: nat, phase: Phase)

  /**
    * Where the spawner stands: between calls, in Wait, about to list, taking semaphore capacity,
    * reading the locks, in the spawn loop, giving capacity back.
    */
  datatype Spawner =
    | Idle
    | Waiting(target: nat, unchecked: set<VaultStatus>)
    | Ready
    | Acquiring(pending: seq<StoreItem>, todo: set<VaultStatus>)
    | Snapshotting(pending: seq<StoreItem>, unread: set<VaultChain>, locked: set<VaultChain>)
    | Spawning(pending: seq<StoreItem>, locked: set<VaultChain>)
    | Releasing

  /** `held` counts the tokens the spawner took and has not passed on. */
  datatype State = State(
    store: map<string, StoreItem>, spawner: Spawner, pipe: Option<Pipe>, gens: nat,
    held: PerStatus, routines: map<nat, Routine>)

  datatype SpawnerLabel =
    | Begin(mimir: int)
    | CheckSemaphore(status: VaultStatus)
    | Replace
    | List(all: seq<StoreItem>, pending: seq<StoreItem>)
    | AcquireOne(status: VaultStatus)
    | AcquireDone(status: VaultStatus)
    | BeginSnapshot
    | ReadLock(vc: VaultChain)
    | BeginSpawn
    | Visit(stopped: bool, answer: Answer, id: nat)
    | FinishLoop
    | ReleaseOne(status: VaultStatus)
    | Return

  datatype RoutineLabel =
    | Discard
    | Abort(round7: bool)
    | SignFails(round7: bool, checkpoint: Blob)
    | SignsNothing
    | Sign(bytes: Blob)
    | Reuse
    | BroadcastOk
    | BroadcastFails(round7: bool)
    | StoreSigned(ok: bool)
    | MarkRetry(ok: bool)
    | GiveUp
    | Remove(ok: bool)
    | Unlock
    | Release

  datatype Label =
    | Spawner(s: SpawnerLabel)
    | Routine(id: nat, r: RoutineLabel)
    | Batch(items: seq<StoreItem>)
    | Crash

  // ---------- the spawner ----------

  function VisitDecision(s: State, l: SpawnerLabel): Decision
    requires s.spawner.Spawning? && s.spawner.pending != [] && l.Visit?
  {
    if l.stopped then Abandon else Decide(s.spawner.pending[0], s.spawner.locked, s.held, l.answer)
  }

  ghost predicate SpawnerEnabled(env: Env, s: State, l: SpawnerLabel) {
    match l
    case Begin(_) => s.spawner.Idle?
    case CheckSemaphore(st) => s.spawner.Waiting? && s.pipe.Some? && st in s.spawner.unchecked
    case Replace => s.spawner.Waiting? && s.spawner.unchecked == {}
    case List(all, pending) =>
      s.spawner.Ready? && IsListing(env.hashing, s.store, all) && IsSelection(all, pending)
    case AcquireOne(st) =>
      s.spawner.Acquiring? && s.pipe.Some? && st in s.spawner.todo && s.pipe.value.len.Get(st) < s.pipe.value.Cap(st)
    case AcquireDone(st) =>
      s.spawner.Acquiring? && s.pipe.Some? && st in s.spawner.todo && s.pipe.value.len.Get(st) >= s.pipe.value.Cap(st)
    case BeginSnapshot => s.spawner.Acquiring? && s.pipe.Some? && s.spawner.todo == {}
    case ReadLock(vc) => s.spawner.Snapshotting? && s.pipe.Some? && vc in s.spawner.unread
    case BeginSpawn => s.spawner.Snapshotting? && s.spawner.unread == {}
    case Visit(_, _, id) =>
      && s.spawner.Spawning? && s.pipe.Some? && s.spawner.pending != []
      && (VisitDecision(s, l).Spawn? ==> id !in s.routines && s.pipe.value.LockLen(Vc(s.spawner.pending[0])) == 0)
    case FinishLoop => s.spawner.Spawning? && s.spawner.pending == []
    case ReleaseOne(st) =>
      s.spawner.Releasing? && s.pipe.Some? && s.held.Get(st) > 0 && s.pipe.value.len.Get(st) > 0
    case Return => s.spawner.Releasing? && s.held == NONE
  }

  /** The lock of a visited vault and chain exists from the visit on, whatever the visit decides. */
  function Visited(s: State, vc: VaultChain): Pipe
    requires s.pipe.Some? && s.spawner.Spawning?
  {
    var p := s.pipe.value;
    if vc in s.spawner.locked || vc in p.locks then p else p.SetLock(vc, 0)
  }

  function ApplyVisit(s: State, l: SpawnerLabel): State
    requires s.pipe.Some? && s.spawner.Spawning? && s.spawner.pending != [] && l.Visit?
  {
    var item, rest := s.spawner.pending[0], s.spawner.pending[1..];
    var vc := Vc(item);
    if l.stopped then s.(spawner := Releasing)
    else
      var p := Visited(s, vc);
      match VisitDecision(s, l)
      case Skip => s.(pipe := Some(p), spawner := Spawning(rest, s.spawner.locked))
      case Abandon => s.(pipe := Some(p), spawner := Releasing)
      case Spawn(started, status) =>
        s.(pipe := Some(p.SetLock(vc, p.LockLen(vc) + 1)),
           spawner := Spawning(rest, s.spawner.locked + {vc}),
           held := s.held.Put(status, s.held.Get(status) - 1),
           routines := s.routines[l.id := Routine.Routine(started, status, p.gen, Deciding)])
  }

  function ApplyBegin(s: State, mimir: int): State {
    var target := Concurrency(mimir);
    match s.pipe
    case None => s.(pipe := Some(NewPipe(s.gens, target)), gens := s.gens + 1, spawner := Ready)
    case Some(p) => s.(spawner := if p.concurrency != target then Waiting(target, SEMAPHORES) else Ready)
  }

  ghost function ApplySpawner(env: Env, s: State, l: SpawnerLabel): State
    requires SpawnerEnabled(env, s, l)
  {
    match l
    case Begin(mimir) => ApplyBegin(s, mimir)
    case CheckSemaphore(st) =>
      var target, unchecked := s.spawner.target, s.spawner.unchecked;
      s.(spawner := Waiting(target, if s.pipe.value.len.Get(st) > 0 then SEMAPHORES else unchecked - {st}))
    case Replace => s.(pipe := Some(NewPipe(s.gens, s.spawner.target)), gens := s.gens + 1, spawner := Ready)
    case List(_, pending) => s.(spawner := Acquiring(pending, SEMAPHORES))
    case AcquireOne(st) =>
      var p := s.pipe.value;
      s.(pipe := Some(p.SetLen(st, p.len.Get(st) + 1)), held := s.held.Put(st, s.held.Get(st) + 1))
    case AcquireDone(st) => s.(spawner := Acquiring(s.spawner.pending, s.spawner.todo - {st}))
    case BeginSnapshot => s.(spawner := Snapshotting(s.spawner.pending, s.pipe.value.locks.Keys, {}))
    case ReadLock(vc) =>
      var Snapshotting(pending, unread, locked) := s.spawner;
      s.(spawner := Snapshotting(pending, unread - {vc}, if s.pipe.value.LockLen(vc) > 0 then locked + {vc} else locked))
    case BeginSpawn => s.(spawner := Spawning(s.spawner.pending, s.spawner.locked))
    case Visit(_, _, _) => ApplyVisit(s, l)
    case FinishLoop => s.(spawner := Releasing)
    case ReleaseOne(st) =>
      var p := s.pipe.value;
      s.(pipe := Some(p.SetLen(st, p.len.Get(st) - 1)), held := s.held.Put(st, s.held.Get(st) - 1))
    case Return => s.(spawner := Idle)
  }

  // ---------- a signing routine ----------

  /** The spawner has listed the store and not yet read the lock of `vc`. */
  predicate InWindow(s: State, vc: VaultChain) {
    s.spawner.Acquiring? || (s.spawner.Snapshotting? && vc in s.spawner.unread)
  }

  /** The routine's own pipeline is the current one. */
  predicate Current(s: State, r: Routine) { s.pipe.Some? && s.pipe.value.gen == r.gen }

  predicate RoutineEnabled(env: Env, s: State, id: nat, l: RoutineLabel) {
    && id in s.routines
    && var r := s.routines[id];
       match l
       case Discard => r.phase.Deciding?
       case Abort(_) => r.phase.Deciding?
       case SignFails(_, _) => r.phase.Deciding? && r.item.signedTx == ""
       case SignsNothing => r.phase.Deciding? && r.item.signedTx == ""
       case Sign(bytes) => r.phase.Deciding? && r.item.signedTx == "" && bytes != ""
       case Reuse => r.phase.Deciding? && r.item.signedTx != ""
       case BroadcastOk => r.phase.Holding?
       case BroadcastFails(round7) => r.phase.Holding? && (round7 ==> env.round7OnBroadcast)
       case StoreSigned(_) => r.phase.Rejected?
       case MarkRetry(_) => r.phase.Failed? && r.phase.round7
       case GiveUp => r.phase.Failed? && !r.phase.round7
       case Remove(_) => r.phase.Succeeded?
       case Unlock =>
         && r.phase.Finished?
         && (Current(s, r) ==> s.pipe.value.LockLen(Vc(r.item)) > 0)
         && (InWindow(s, Vc(r.item)) ==> env.releaseInWindow)
       case Release => r.phase.Unlocked? && (Current(s, r) ==> s.pipe.value.len.Get(r.status) > 0)
  }

  function At(s: State, id: nat, phase: Phase): State
    requires id in s.routines
  {
    s.(routines := s.routines[id := s.routines[id].(phase := phase)])
  }

  /** storage.Set of the routine's item, which may fail. */
  function Write(env: Env, s: State, item: StoreItem, ok: bool): State {
    if ok then s.(store := s.store[Key(env.hashing, item) := Stored(item)]) else s
  }

  function ApplyRoutine(env: Env, s: State, id: nat, l: RoutineLabel): State
    requires RoutineEnabled(env, s, id, l)
  {
    var r := s.routines[id];
    match l
    case Discard => At(s, id, Succeeded)
    case Abort(round7) => At(s, id, Failed(round7, ""))
    case SignFails(round7, checkpoint) => At(s, id, Failed(round7, checkpoint))
    case SignsNothing => At(s, id, Succeeded)
    case Sign(bytes) => At(s, id, Holding(bytes))
    case Reuse => At(s, id, Holding(r.item.signedTx))
    case BroadcastOk => At(s, id, Succeeded)
    case BroadcastFails(round7) => At(s, id, Rejected(r.phase.bytes, round7))
    case StoreSigned(ok) => At(Write(env, s, r.item.(signedTx := r.phase.bytes), ok), id, Failed(r.phase.round7, ""))
    case MarkRetry(ok) =>
      At(Write(env, s, r.item.(round7Retry := true, checkpoint := r.phase.checkpoint), ok), id, Finished)
    case GiveUp => At(s, id, Finished)
    case Remove(ok) => At(if ok then s.(store := s.store - {Key(env.hashing, r.item)}) else s, id, Finished)
    case Unlock =>
      var vc := Vc(r.item);
      At(if Current(s, r) then s.(pipe := Some(s.pipe.value.SetLock(vc, s.pipe.value.LockLen(vc) - 1))) else s, id, Unlocked)
    case Release =>
      var p := if Current(s, r) then Some(s.pipe.value.SetLen(r.status, s.pipe.value.len.Get(r.status) - 1)) else s.pipe;
      s.(pipe := p, routines := s.routines - {id})
  }

  // ---------- everything ----------

  predicate IsNew(item: StoreItem) { item == NewItem(item.height, item.tx, item.index) }

  ghost predicate Enabled(env: Env, s: State, l: Label) {
    match l
    case Spawner(sl) => SpawnerEnabled(env, s, sl)
    case Routine(id, rl) => RoutineEnabled(env, s, id, rl)
    case Batch(items) => forall x :: x in items ==> IsNew(x) && (Key(env.hashing, x) in s.store ==> env.staleBatch)
    case Crash => true
  }

  /** A crash leaves only the store. */
  ghost function Apply(env: Env, s: State, l: Label): State
    requires Enabled(env, s, l)
  {
    match l
    case Spawner(sl) => ApplySpawner(env, s, sl)
    case Routine(id, rl) => ApplyRoutine(env, s, id, rl)
    case Batch(items) => s.(store := AfterBatch(env.hashing, s.store, items))
    case Crash => State(s.store, Idle, None, s.gens, NONE, map[])
  }

  /** `ls` can happen from `s`. */
  ghost predicate Valid(env: Env, s: State, ls: seq<Label>)
    decreases |ls|
  {
    ls == [] || (Enabled(env, s, ls[0]) && Valid(env, Apply(env, s, ls[0]), ls[1..]))
  }

  ghost function Exec(env: Env, s: State, ls: seq<Label>): State
    requires Valid(env, s, ls)
    decreases |ls|
  {
    if ls == [] then s else Exec(env, Apply(env, s, ls[0]), ls[1..])
  }

  /** An item a listing shows and the spawner takes for a retry. */
  predicate Retry(item: StoreItem) { item.status != TxSpent && InRetry(item) }

  predicate RetryAt(store: map<string, StoreItem>, k: string, vc: VaultChain) {
    k in store && Retry(store[k]) && Vc(store[k]) == vc
  }

  ghost predicate OneRetryPerVaultChain(store: map<string, StoreItem>) {
    forall j, k, vc :: RetryAt(store, j, vc) && RetryAt(store, k, vc) ==> j == k
  }

  /** Keys carry a prefix, so none is empty, and the retrieval key is not stored. */
  ghost predicate WellKept(store: map<string, StoreItem>) {
    forall k :: k in store ==> k != "" && store[k].retrievalKey == ""
  }

  ghost predicate ValidHashing(h: Hashing) {
    forall tx, height, index :: h.derive(tx, height, index) != ""
  }

  /** A process start on the empty store, or on a store an earlier process left in order. */
  ghost predicate Init(s: State) {
    && s == State(s.store, Idle, None, s.gens, NONE, map[])
    && WellKept(s.store)
    && OneRetryPerVaultChain(s.store)
  }
}
