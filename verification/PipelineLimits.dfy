/**
  * Exactly when the two store-level claims hold: each condition is needed, shown by a run of the
  * code that breaks the claim, and together they are enough.
  */
module PipelineLimits {
  import opened Outcome
  import opened Ordering
  import opened SignerStore
  import opened Selection
  import opened Pipeline
  import opened PipelineLocks
  import opened PipelineRetry
  import opened SignOnce

  // ---------- the claims over all runs ----------

  ghost predicate AlwaysOneRetry(env: Env) {
    forall s, ls :: Init(s) && Valid(env, s, ls) ==> OneRetryPerVaultChain(Exec(env, s, ls).store)
  }

  ghost predicate AlwaysSignedOnce(env: Env) {
    forall s, t, post, k ::
      (Init(s) && Reaches(env, s, t) && Valid(env, t, post) && k in t.store && t.store[k].signedTx != "") ==>
        SignedOnce(env, t, post, k, t.store[k].signedTx)
  }

  // ---------- reachability ----------

  ghost predicate Reaches(env: Env, s: State, t: State) {
    exists ls :: Valid(env, s, ls) && Exec(env, s, ls) == t
  }

  lemma {:induction false} ExecAppend(env: Env, s: State, ls: seq<Label>, l: Label)
    requires Valid(env, s, ls) && Enabled(env, Exec(env, s, ls), l)
    ensures Valid(env, s, ls + [l]) && Exec(env, s, ls + [l]) == Apply(env, Exec(env, s, ls), l)
    decreases |ls|
  {
    hide Enabled, Apply;
    if ls != [] {
      assert (ls + [l])[1..] == ls[1..] + [l];
      ExecAppend(env, Apply(env, s, ls[0]), ls[1..], l);
    } else {
      assert [l][1..] == [];
    }
  }

  lemma Here(env: Env, s: State)
    ensures Reaches(env, s, s)
  {
    assert Valid(env, s, []) && Exec(env, s, []) == s;
  }

  lemma Go(env: Env, s: State, t: State, l: Label, u: State)
    requires Reaches(env, s, t) && Enabled(env, t, l) && Apply(env, t, l) == u
    ensures Reaches(env, s, u)
  {
    var ls :| Valid(env, s, ls) && Exec(env, s, ls) == t;
    hide Enabled, Apply;
    ExecAppend(env, s, ls, l);
  }

  // ---------- one call of SpawnSignings with concurrency 1 ----------

  function Pipe1(gen: nat, len: PerStatus, locks: map<VaultChain, nat>): Pipe { Pipe(gen, 1, len, locks) }

  function Acquired(store: Items, gen: nat, gens: nat, pending: seq<StoreItem>, todo: set<VaultStatus>,
                    locks: map<VaultChain, nat>, n: PerStatus): State {
    State(store, Acquiring(pending, todo), Some(Pipe1(gen, n, locks)), gens, n, map[])
  }

  lemma TakeTokens(env: Env, s: State, store: Items, gen: nat, gens: nat, pending: seq<StoreItem>, locks: map<VaultChain, nat>)
    requires Reaches(env, s, Acquired(store, gen, gens, pending, SEMAPHORES, locks, NONE))
    ensures Reaches(env, s, Acquired(store, gen, gens, pending, {}, locks, PerStatus(1, 1, 1)))
  {
    hide Reaches;
    var a0 := Acquired(store, gen, gens, pending, SEMAPHORES, locks, NONE);
    var a1 := Acquired(store, gen, gens, pending, SEMAPHORES, locks, PerStatus(1, 0, 0));
    var a2 := Acquired(store, gen, gens, pending, SEMAPHORES, locks, PerStatus(1, 1, 0));
    var a3 := Acquired(store, gen, gens, pending, SEMAPHORES, locks, PerStatus(1, 1, 1));
    Go(env, s, a0, Label.Spawner(AcquireOne(ActiveVault)), a1);
    Go(env, s, a1, Label.Spawner(AcquireOne(RetiringVault)), a2);
    Go(env, s, a2, Label.Spawner(AcquireOne(InactiveVault)), a3);
    DrainTodo(env, s, store, gen, gens, pending, locks);
  }

  lemma DrainTodo(env: Env, s: State, store: Items, gen: nat, gens: nat, pending: seq<StoreItem>, locks: map<VaultChain, nat>)
    requires Reaches(env, s, Acquired(store, gen, gens, pending, SEMAPHORES, locks, PerStatus(1, 1, 1)))
    ensures Reaches(env, s, Acquired(store, gen, gens, pending, {}, locks, PerStatus(1, 1, 1)))
  {
    hide Reaches;
    var all := PerStatus(1, 1, 1);
    var t1 := SEMAPHORES - {ActiveVault};
    var t2 := t1 - {RetiringVault};
    assert t2 - {InactiveVault} == {};
    var a3 := Acquired(store, gen, gens, pending, SEMAPHORES, locks, all);
    var a4 := Acquired(store, gen, gens, pending, t1, locks, all);
    var a5 := Acquired(store, gen, gens, pending, t2, locks, all);
    var a6 := Acquired(store, gen, gens, pending, {}, locks, all);
    Go(env, s, a3, Label.Spawner(AcquireDone(ActiveVault)), a4);
    Go(env, s, a4, Label.Spawner(AcquireDone(RetiringVault)), a5);
    Go(env, s, a5, Label.Spawner(AcquireDone(InactiveVault)), a6);
  }

  /** The state right after the first pending item has been started for an active vault. */
  function Started(store: Items, gen: nat, gens: nat, pending: seq<StoreItem>, eddsa: PubKey): State
    requires pending != []
  {
    var vc := Vc(pending[0]);
    State(store, Spawning(pending[1..], {vc}), Some(Pipe1(gen, PerStatus(1, 1, 1), map[vc := 1])), gens,
          PerStatus(0, 1, 1), map[0 := Routine.Routine(WithEddsa(pending[0], eddsa), ActiveVault, gen, Deciding)])
  }

  lemma SnapshotAndStart(env: Env, s: State, store: Items, gen: nat, gens: nat, pending: seq<StoreItem>,
                         locks: map<VaultChain, nat>, eddsa: PubKey)
    requires pending != [] && (locks == map[] || locks == map[Vc(pending[0]) := 0])
    requires Reaches(env, s, Acquired(store, gen, gens, pending, SEMAPHORES, locks, NONE))
    ensures Reaches(env, s, Started(store, gen, gens, pending, eddsa))
  {
    TakeTokens(env, s, store, gen, gens, pending, locks);
    hide Reaches;
    var vc := Vc(pending[0]);
    var all := PerStatus(1, 1, 1);
    var p := Some(Pipe1(gen, all, locks));
    var b0 := Acquired(store, gen, gens, pending, {}, locks, all);
    var b1 := State(store, Snapshotting(pending, locks.Keys, {}), p, gens, all, map[]);
    var b2 := State(store, Snapshotting(pending, {}, {}), p, gens, all, map[]);
    var b3 := State(store, Spawning(pending, {}), p, gens, all, map[]);
    Go(env, s, b0, Label.Spawner(BeginSnapshot), b1);
    if locks != map[] {
      assert locks.Keys - {vc} == {};
      Go(env, s, b1, Label.Spawner(ReadLock(vc)), b2);
    } else {
      assert locks.Keys == {};
    }
    Go(env, s, b2, Label.Spawner(BeginSpawn), b3);
    StartIt(env, s, store, gen, gens, pending, locks, eddsa);
  }

  lemma StartIt(env: Env, s: State, store: Items, gen: nat, gens: nat, pending: seq<StoreItem>,
                locks: map<VaultChain, nat>, eddsa: PubKey)
    requires pending != [] && (locks == map[] || locks == map[Vc(pending[0]) := 0])
    requires Reaches(env, s, State(store, Spawning(pending, {}), Some(Pipe1(gen, PerStatus(1, 1, 1), locks)), gens, PerStatus(1, 1, 1), map[]))
    ensures Reaches(env, s, Started(store, gen, gens, pending, eddsa))
  {
    hide Reaches;
    var b3 := State(store, Spawning(pending, {}), Some(Pipe1(gen, PerStatus(1, 1, 1), locks)), gens, PerStatus(1, 1, 1), map[]);
    var l := Visit(false, Vault(ActiveVault, eddsa), 0);
    assert locks[Vc(pending[0]) := 1] == map[Vc(pending[0]) := 1];
    assert locks[Vc(pending[0]) := 0][Vc(pending[0]) := 1] == map[Vc(pending[0]) := 1];
    assert {} + {Vc(pending[0])} == {Vc(pending[0])};
    assert VisitDecision(b3, l) == Spawn(WithEddsa(pending[0], eddsa), ActiveVault);
    assert ApplyVisit(b3, l) == Started(store, gen, gens, pending, eddsa);
    Go(env, s, b3, Label.Spawner(l), Started(store, gen, gens, pending, eddsa));
  }

  // ---------- the first call: one item, one routine ----------

  function Boot(store: Items): State { State(store, Idle, None, 0, NONE, map[]) }

  /** Between calls, with one routine in `phase` on `y`. */
  function Running(store: Items, sp: Spawner, y: StoreItem, phase: Phase): State {
    State(store, sp, Some(Pipe1(0, PerStatus(1, 0, 0), map[Vc(y) := 1])), 1, NONE,
          map[0 := Routine.Routine(y, ActiveVault, 0, phase)])
  }

  /** Items without a retry among them are all selected, in order. */
  lemma SelectAll(all: seq<StoreItem>)
    requires forall x :: x in all ==> !InRetry(x)
    ensures IsSelection(all, all)
  {
    forall vc ensures RetriesAt(all, vc) == [] {
      HasMember(RetriesAt(all, vc));
      forall x ensures x !in RetriesAt(all, vc) { RetriesMember(all, vc, x); }
    }
    AllUnretried(all, all);
    assert LoneRetries(all, []);
    assert all == [] + Unretried(all, all);
  }

  lemma {:induction false} AllUnretried(whole: seq<StoreItem>, all: seq<StoreItem>)
    requires forall vc :: RetriesAt(whole, vc) == []
    ensures Unretried(whole, all) == all
  {
    if all != [] {
      AllUnretried(whole, all[1..]);
    }
  }

  lemma FirstCall(env: Env, store: Items, y: StoreItem)
    requires IsListing(env.hashing, store, [y]) && !InRetry(y)
    ensures Reaches(env, Boot(store), Running(store, Idle, y, Deciding))
  {
    var s := Boot(store);
    Here(env, s);
    SelectAll([y]);
    var c1 := State(store, Ready, Some(NewPipe(0, 1)), 1, NONE, map[]);
    var c2 := Acquired(store, 0, 1, [y], SEMAPHORES, map[], NONE);
    hide Reaches, IsListing, IsSelection;
    Go(env, s, s, Label.Spawner(Begin(1)), c1);
    Go(env, s, c1, Label.Spawner(List([y], [y])), c2);
    SnapshotAndStart(env, s, store, 0, 1, [y], map[], y.tx.vaultEddsa);
    GiveBack(env, s, store, y);
  }

  lemma GiveBack(env: Env, s: State, store: Items, y: StoreItem)
    requires Reaches(env, s, Started(store, 0, 1, [y], y.tx.vaultEddsa))
    ensures Reaches(env, s, Running(store, Idle, y, Deciding))
  {
    hide Reaches;
    assert WithEddsa(y, y.tx.vaultEddsa) == y;
    var d0 := Started(store, 0, 1, [y], y.tx.vaultEddsa);
    Go(env, s, d0, Label.Spawner(FinishLoop), Giving(store, y, 1, 1));
    GiveBackTwo(env, s, store, y);
    Go(env, s, Giving(store, y, 0, 0), Label.Spawner(Return), Running(store, Idle, y, Deciding));
  }

  /** The spawner still holds `r` and `i` tokens for retiring and inactive vaults. */
  function Giving(store: Items, y: StoreItem, r: nat, i: nat): State {
    State(store, Releasing, Some(Pipe1(0, PerStatus(1, r, i), map[Vc(y) := 1])), 1, PerStatus(0, r, i),
          map[0 := Routine.Routine(y, ActiveVault, 0, Deciding)])
  }

  lemma GiveBackTwo(env: Env, s: State, store: Items, y: StoreItem)
    requires Reaches(env, s, Giving(store, y, 1, 1))
    ensures Reaches(env, s, Giving(store, y, 0, 0))
  {
    hide Reaches;
    Go(env, s, Giving(store, y, 1, 1), Label.Spawner(ReleaseOne(RetiringVault)), Giving(store, y, 0, 1));
    Go(env, s, Giving(store, y, 0, 1), Label.Spawner(ReleaseOne(InactiveVault)), Giving(store, y, 0, 0));
  }

  // ---------- the second call lists while the routine is at work ----------

  lemma SecondList(env: Env, s: State, store: Items, y: StoreItem, all: seq<StoreItem>)
    requires Reaches(env, s, Running(store, Idle, y, Deciding))
    requires IsListing(env.hashing, store, all) && forall x :: x in all ==> !InRetry(x)
    ensures Reaches(env, s, Running(store, Acquiring(all, SEMAPHORES), y, Deciding))
  {
    SelectAll(all);
    hide Reaches, IsListing, IsSelection;
    var e0 := Running(store, Idle, y, Deciding);
    var e1 := Running(store, Ready, y, Deciding);
    Go(env, s, e0, Label.Spawner(Begin(1)), e1);
    Go(env, s, e1, Label.Spawner(List(all, all)), Running(store, Acquiring(all, SEMAPHORES), y, Deciding));
  }

  lemma Move(env: Env, s: State, store: Items, sp: Spawner, y: StoreItem, phase: Phase, l: RoutineLabel, store': Items, phase': Phase)
    requires y.retrievalKey != "" && Reaches(env, s, Running(store, sp, y, phase))
    requires RoutineEnabled(env, Running(store, sp, y, phase), 0, l) && !l.Unlock? && !l.Release?
    requires ApplyRoutine(env, Running(store, sp, y, phase), 0, l) == Running(store', sp, y, phase')
    ensures Reaches(env, s, Running(store', sp, y, phase'))
  {
    hide Reaches;
    Go(env, s, Running(store, sp, y, phase), Label.Routine(0, l), Running(store', sp, y, phase'));
  }

  /** The routine leaves between the listing and the reading of its lock. */
  lemma LeaveInWindow(env: Env, s: State, store: Items, y: StoreItem, all: seq<StoreItem>)
    requires env.releaseInWindow && Reaches(env, s, Running(store, Acquiring(all, SEMAPHORES), y, Finished))
    ensures Reaches(env, s, Acquired(store, 0, 1, all, SEMAPHORES, map[Vc(y) := 0], NONE))
  {
    hide Reaches;
    UnlockInWindow(env, s, store, y, all);
    var f1 := Unlocking(store, y, all);
    assert f1.routines - {0} == map[];
    Go(env, s, f1, Label.Routine(0, Release), Acquired(store, 0, 1, all, SEMAPHORES, map[Vc(y) := 0], NONE));
  }

  function Unlocking(store: Items, y: StoreItem, all: seq<StoreItem>): State {
    State(store, Acquiring(all, SEMAPHORES), Some(Pipe1(0, PerStatus(1, 0, 0), map[Vc(y) := 0])), 1, NONE,
          map[0 := Routine.Routine(y, ActiveVault, 0, Unlocked)])
  }

  lemma UnlockInWindow(env: Env, s: State, store: Items, y: StoreItem, all: seq<StoreItem>)
    requires env.releaseInWindow && Reaches(env, s, Running(store, Acquiring(all, SEMAPHORES), y, Finished))
    ensures Reaches(env, s, Unlocking(store, y, all))
  {
    hide Reaches;
    assert map[Vc(y) := 1][Vc(y) := 0] == map[Vc(y) := 0];
    Go(env, s, Running(store, Acquiring(all, SEMAPHORES), y, Finished), Label.Routine(0, Unlock), Unlocking(store, y, all));
  }

  // ---------- the items of the runs below ----------

  function Outbound(body: Blob): TxOutItem { TxOutItem("BTC", "vault", "eddsa", body) }

  /** A new item as a listing shows it. */
  function Shown(key: string, height: int, body: Blob): StoreItem {
    Retrieved(key, NewItem(height, Outbound(body), 0))
  }

  lemma ListOne(h: Hashing, x: StoreItem)
    requires x.status != TxSpent
    ensures IsListing(h, map[x.retrievalKey := Stored(x)], [x])
  {
  }

  lemma ListTwo(h: Hashing, x: StoreItem, y: StoreItem)
    requires x.status != TxSpent && y.status != TxSpent && x.retrievalKey != y.retrievalKey && x.height < y.height
    ensures IsListing(h, map[y.retrievalKey := Stored(y)][x.retrievalKey := Stored(x)], [x, y])
  {
  }

  lemma BootIsInit(x: StoreItem)
    requires x.retrievalKey != ""
    ensures Init(Boot(map[x.retrievalKey := Stored(x)]))
  {
  }

  // ---------- two retry items ----------

  /**
    * Item y runs; item x, older, arrives; the next call lists both; y fails in round 7 and unlocks
    * before its lock is read; x is started and fails in round 7 too.
    */
  lemma TwoRetries(env: Env)
    requires ValidHashing(env.hashing) && env.releaseInWindow
    ensures !AlwaysOneRetry(env)
  {
    var kx := env.hashing.derive(Outbound("x"), 1, 0);
    var x, y := Shown(kx, 1, "x"), Shown(kx + "y", 2, "y");
    var st0 := map[y.retrievalKey := Stored(y)];
    var st1 := st0[kx := Stored(x)];
    BootIsInit(y);
    ListOne(env.hashing, y);
    ListTwo(env.hashing, x, y);
    hide Reaches, IsListing, Valid, Exec, Init, AlwaysOneRetry;
    FirstCall(env, st0, y);
    Arrival(env, Boot(st0), st0, y, x);
    SecondList(env, Boot(st0), st1, y, [x, y]);
    BothFail(env, Boot(st0), st1, x, y);
  }

  lemma BothFail(env: Env, s: State, store: Items, x: StoreItem, y: StoreItem)
    requires env.releaseInWindow && Init(s) && Vc(x) == Vc(y) && x.retrievalKey != y.retrievalKey
    requires x.retrievalKey != "" && y.retrievalKey != "" && x.signedTx == "" && y.signedTx == ""
    requires x.status != TxSpent && y.status != TxSpent
    requires Reaches(env, s, Running(store, Acquiring([x, y], SEMAPHORES), y, Deciding))
    ensures !AlwaysOneRetry(env)
  {
    var x', y' := x.(round7Retry := true, checkpoint := ""), y.(round7Retry := true, checkpoint := "");
    var st2 := store[y.retrievalKey := Stored(y')];
    var st3 := st2[x.retrievalKey := Stored(x')];
    assert RetryAt(st3, x.retrievalKey, Vc(x)) && RetryAt(st3, y.retrievalKey, Vc(x));
    assert !OneRetryPerVaultChain(st3);
    hide OneRetryPerVaultChain, Retry, Valid, Exec, Init;
    FailInRound7(env, s, store, Acquiring([x, y], SEMAPHORES), y);
    LeaveInWindow(env, s, st2, y, [x, y]);
    SnapshotAndStart(env, s, st2, 0, 1, [x, y], map[Vc(x) := 0], x.tx.vaultEddsa);
    LastRetry(env, s, st2, x, y);
    var ls :| Valid(env, s, ls) && Exec(env, s, ls).store == st3;
  }

  lemma FailInRound7(env: Env, s: State, store: Items, sp: Spawner, y: StoreItem)
    requires y.retrievalKey != "" && y.signedTx == "" && Reaches(env, s, Running(store, sp, y, Deciding))
    ensures Reaches(env, s, Running(store[y.retrievalKey := Stored(y.(round7Retry := true, checkpoint := ""))], sp, y, Finished))
  {
    hide Reaches;
    var y' := y.(round7Retry := true, checkpoint := "");
    Move(env, s, store, sp, y, Deciding, SignFails(true, ""), store, Failed(true, ""));
    Move(env, s, store, sp, y, Failed(true, ""), MarkRetry(true), store[y.retrievalKey := Stored(y')], Finished);
  }

  lemma Arrival(env: Env, s: State, store: Items, y: StoreItem, x: StoreItem)
    requires x.retrievalKey == env.hashing.derive(x.tx, x.height, x.index) != "" && x.retrievalKey !in store
    requires IsNew(Stored(x)) && Reaches(env, s, Running(store, Idle, y, Deciding))
    ensures Reaches(env, s, Running(store[x.retrievalKey := Stored(x)], Idle, y, Deciding))
  {
    hide Reaches;
    var items := [Stored(x)];
    assert items[..0] == [];
    assert AfterBatch(env.hashing, store, items) == store[x.retrievalKey := Stored(x)];
    Go(env, s, Running(store, Idle, y, Deciding), Batch(items), Running(store[x.retrievalKey := Stored(x)], Idle, y, Deciding));
  }

  lemma LastRetry(env: Env, s: State, store: Items, x: StoreItem, y: StoreItem)
    requires x.retrievalKey != "" && x.signedTx == ""
    requires Reaches(env, s, Started(store, 0, 1, [x, y], x.tx.vaultEddsa))
    ensures exists ls :: Valid(env, s, ls)
              && Exec(env, s, ls).store == store[x.retrievalKey := Stored(x.(round7Retry := true, checkpoint := ""))]
  {
    hide Valid, Exec;
    var g0 := Started(store, 0, 1, [x, y], x.tx.vaultEddsa);
    assert WithEddsa(x, x.tx.vaultEddsa) == x;
    var g1 := At(g0, 0, Failed(true, ""));
    var item := x.(round7Retry := true, checkpoint := "");
    var g2 := At(Write(env, g1, item, true), 0, Finished);
    Go(env, s, g0, Label.Routine(0, SignFails(true, "")), g1);
    Go(env, s, g1, Label.Routine(0, MarkRetry(true)), g2);
  }

  /** At most one retry item per vault and chain, in every run, exactly when no release falls in the window. */
  lemma OneRetryIff(env: Env)
    requires ValidHashing(env.hashing)
    ensures AlwaysOneRetry(env) <==> !env.releaseInWindow
  {
    if env.releaseInWindow {
      TwoRetries(env);
    } else {
      forall s, ls | Init(s) && Valid(env, s, ls) ensures OneRetryPerVaultChain(Exec(env, s, ls).store) {
        OneRetryOverRuns(env, s, ls);
      }
    }
  }

  /**
    * Without such a release, in every reachable state: one retry item at most per vault and chain;
    * where a routine works it is that routine's item; so no listing shows the spawner several.
    */
  lemma OneRetryOverRuns(env: Env, s: State, ls: seq<Label>)
    requires ValidHashing(env.hashing) && Init(s) && Valid(env, s, ls) && !env.releaseInWindow
    ensures var t := Exec(env, s, ls);
            && OneRetryPerVaultChain(t.store)
            && RetryIsRunning(t.store, t.routines)
            && forall all, vc :: IsListing(env.hashing, t.store, all) ==> |RetriesAt(all, vc)| <= 1
  {
    InitRetry(s);
    RunKeepsRetryInv(env, s, ls);
    var t := Exec(env, s, ls);
    hide LockInv, Exec, Valid;
    forall all, vc | IsListing(env.hashing, t.store, all) ensures |RetriesAt(all, vc)| <= 1 {
      FewRetries(env, t.store, all, vc);
    }
  }

  lemma FewRetries(env: Env, store: Items, all: seq<StoreItem>, vc: VaultChain)
    requires OneRetryPerVaultChain(store) && IsListing(env.hashing, store, all)
    ensures |RetriesAt(all, vc)| <= 1
  {
    var r := RetriesAt(all, vc);
    if |r| > 1 {
      RetriesOrdered(env.hashing, all, vc);
      RetriesMember(all, vc, r[0]);
      RetriesMember(all, vc, r[1]);
      var a, b := r[0], r[1];
      assert Listed(store, a) && Listed(store, b);
      assert RetryAt(store, a.retrievalKey, vc) && RetryAt(store, b.retrievalKey, vc);
      assert Order(env.hashing)(a, b);
      LexAsymmetric(Hash(env.hashing, a.tx), Hash(env.hashing, a.tx));
      LexAsymmetric(a.retrievalKey, a.retrievalKey);
      assert false;
    }
  }

  lemma {:induction false} RetriesOrdered(h: Hashing, all: seq<StoreItem>, vc: VaultChain)
    requires Pairwise(all, Order(h))
    ensures Pairwise(RetriesAt(all, vc), Order(h))
  {
    if all != [] {
      var rest := RetriesAt(all[1..], vc);
      RetriesOrdered(h, all[1..], vc);
      forall x | x in rest ensures Order(h)(all[0], x) {
        RetriesMember(all[1..], vc, x);
        var i :| 0 < i < |all| && all[i] == x;
      }
    }
  }

  // ---------- signed twice, or bytes lost ----------

  /** One step from a reachable state that breaks the claim for `k`. */
  lemma Broken(env: Env, s: State, t: State, l: Label, k: string)
    requires Init(s) && Reaches(env, s, t) && Enabled(env, t, l) && k in t.store && t.store[k].signedTx != ""
    requires !Faithful(t, l, k, t.store[k].signedTx)
             || (var u := Apply(env, t, l); k in u.store && u.store[k].signedTx != t.store[k].signedTx)
    ensures !AlwaysSignedOnce(env)
  {
    hide Reaches, Init, Enabled, Apply, Faithful;
    var post := [l];
    assert Valid(env, t, post) by { assert post[1..] == []; }
    assert !SignedOnce(env, t, post, k, t.store[k].signedTx);
  }

  /** A second signature: the spawner starts the copy it listed before the bytes were stored. */
  lemma SignedTwice(env: Env)
    requires env.releaseInWindow
    ensures !AlwaysSignedOnce(env)
  {
    var y := Shown("y", 1, "y");
    var st0 := map["y" := Stored(y)];
    BootIsInit(y);
    ListOne(env.hashing, y);
    hide Reaches, IsListing, Init, AlwaysSignedOnce;
    FirstCall(env, st0, y);
    SecondList(env, Boot(st0), st0, y, [y]);
    StaleStart(env, Boot(st0), st0, y);
  }

  /** The routine stores its bytes and leaves; the copy listed before is started and signed. */
  lemma StaleStart(env: Env, s: State, store: Items, y: StoreItem)
    requires env.releaseInWindow && Init(s) && y.retrievalKey != "" && y.signedTx == ""
    requires Reaches(env, s, Running(store, Acquiring([y], SEMAPHORES), y, Deciding))
    ensures !AlwaysSignedOnce(env)
  {
    hide Reaches, Init, AlwaysSignedOnce;
    var sp, k := Acquiring([y], SEMAPHORES), y.retrievalKey;
    var st1 := store[k := Stored(y.(signedTx := "b"))];
    SignAndReject(env, s, store, sp, y, false);
    Move(env, s, st1, sp, y, Failed(false, ""), GiveUp, st1, Finished);
    LeaveInWindow(env, s, st1, y, [y]);
    SnapshotAndStart(env, s, st1, 0, 1, [y], map[Vc(y) := 0], y.tx.vaultEddsa);
    SignAgain(env, s, st1, y, k);
  }

  lemma SignAgain(env: Env, s: State, store: Items, y: StoreItem, k: string)
    requires Init(s) && Reaches(env, s, Started(store, 0, 1, [y], y.tx.vaultEddsa))
    requires y.signedTx == "" && y.retrievalKey == k && k in store && store[k].signedTx == "b"
    ensures !AlwaysSignedOnce(env)
  {
    hide Reaches, Init, AlwaysSignedOnce;
    assert WithEddsa(y, y.tx.vaultEddsa) == y;
    Broken(env, s, Started(store, 0, 1, [y], y.tx.vaultEddsa), Label.Routine(0, Sign("c")), k);
  }

  lemma SignAndReject(env: Env, s: State, store: Items, sp: Spawner, y: StoreItem, round7: bool)
    requires y.retrievalKey != "" && y.signedTx == "" && Reaches(env, s, Running(store, sp, y, Deciding))
    requires round7 ==> env.round7OnBroadcast
    ensures Reaches(env, s, Running(store[y.retrievalKey := Stored(y.(signedTx := "b"))], sp, y, Failed(round7, "")))
  {
    hide Reaches, Stored;
    Move(env, s, store, sp, y, Deciding, Sign("b"), store, Holding("b"));
    Move(env, s, store, sp, y, Holding("b"), BroadcastFails(round7), store, Rejected("b", round7));
    KeepBytes(env, s, store, sp, y, round7);
  }

  lemma KeepBytes(env: Env, s: State, store: Items, sp: Spawner, y: StoreItem, round7: bool)
    requires y.retrievalKey != "" && Reaches(env, s, Running(store, sp, y, Rejected("b", round7)))
    ensures Reaches(env, s, Running(store[y.retrievalKey := Stored(y.(signedTx := "b"))], sp, y, Failed(round7, "")))
  {
    hide Reaches, Stored;
    Move(env, s, store, sp, y, Rejected("b", round7), StoreSigned(true),
         store[y.retrievalKey := Stored(y.(signedTx := "b"))], Failed(round7, ""));
  }

  /** A broadcast error taken for a round 7 error writes the item back without its bytes. */
  lemma BytesLost(env: Env)
    requires env.round7OnBroadcast
    ensures !AlwaysSignedOnce(env)
  {
    var y := Shown("y", 1, "y");
    var st0 := map["y" := Stored(y)];
    var s := Boot(st0);
    BootIsInit(y);
    ListOne(env.hashing, y);
    hide Reaches, IsListing, Init, AlwaysSignedOnce;
    FirstCall(env, st0, y);
    SignAndReject(env, s, st0, Idle, y, true);
    var st1 := st0["y" := Stored(y.(signedTx := "b"))];
    var t := Running(st1, Idle, y, Failed(true, ""));
    Broken(env, s, t, Label.Routine(0, MarkRetry(true)), "y");
  }

  /** An item delivered again overwrites its stored bytes. */
  lemma BytesOverwritten(env: Env)
    requires ValidHashing(env.hashing) && env.staleBatch
    ensures !AlwaysSignedOnce(env)
  {
    var k := env.hashing.derive(Outbound("y"), 1, 0);
    var item := NewItem(1, Outbound("y"), 0);
    var s := Boot(map[k := item.(signedTx := "b")]);
    assert Init(s);
    Here(env, s);
    var items := [item];
    assert items[..0] == [];
    assert AfterBatch(env.hashing, s.store, items) == s.store[k := item];
    hide Reaches, Init, AlwaysSignedOnce;
    Broken(env, s, s, Batch(items), k);
  }

  /** Sign once, over all runs, exactly under the three conditions. */
  lemma SignOnceIff(env: Env)
    requires ValidHashing(env.hashing)
    ensures AlwaysSignedOnce(env) <==> Calm(env)
  {
    if env.releaseInWindow { SignedTwice(env); }
    if env.round7OnBroadcast { BytesLost(env); }
    if env.staleBatch { BytesOverwritten(env); }
    if Calm(env) {
      forall s, t, post, k | Init(s) && Reaches(env, s, t) && Valid(env, t, post) && k in t.store && t.store[k].signedTx != ""
        ensures SignedOnce(env, t, post, k, t.store[k].signedTx)
      {
        var pre :| Valid(env, s, pre) && Exec(env, s, pre) == t;
        InitSigned(s);
        hide SignedInv;
        RunKeepsSignedInv(env, s, pre);
        SignedOnceFrom(env, t, post, k);
      }
    }
  }
}
