/**
  * One call of SpawnSignings (bifrost/signer/pipeline.go) as far as it is local to the caller:
  * which items it considers, in which order, and which of them it starts.
  */
module Selection {
  import opened Outcome
  import opened SignerStore

  datatype VaultChain = VaultChain(vault: PubKey, chain: Chain)

  datatype VaultStatus = InactiveVault | ActiveVault | RetiringVault | InitVault

  /** A number per vault status that has a semaphore; InitVault has none and always reads 0. */
  datatype PerStatus = PerStatus(active: nat, retiring: nat, inactive: nat) {
    function Get(s: VaultStatus): nat {
      match s
      case ActiveVault => active
      case RetiringVault => retiring
      case InactiveVault => inactive
      case InitVault => 0
    }

    function Put(s: VaultStatus, n: nat): PerStatus {
      match s
      case ActiveVault => this.(active := n)
      case RetiringVault => this.(retiring := n)
      case InactiveVault => this.(inactive := n)
      case InitVault => this
    }
  }

  function Vc(item: StoreItem): VaultChain { VaultChain(item.tx.vault, item.tx.chain) }

  predicate InRetry(item: StoreItem) { item.round7Retry || |item.signedTx| > 0 }

  // ---------- items to sign ----------

  /** The retry items of one vault and chain, in list order. */
  function RetriesAt(all: seq<StoreItem>, vc: VaultChain): seq<StoreItem> {
    if all == [] then []
    else
      var r := RetriesAt(all[1..], vc);
      if InRetry(all[0]) && Vc(all[0]) == vc then [all[0]] + r else r
  }

  lemma {:induction false} RetriesMember(all: seq<StoreItem>, vc: VaultChain, x: StoreItem)
    ensures x in RetriesAt(all, vc) <==> x in all && InRetry(x) && Vc(x) == vc
  {
    if all != [] {
      RetriesMember(all[1..], vc, x);
      assert all == [all[0]] + all[1..];
    }
  }

  /** The items of `all` whose vault and chain has no retry item in `whole`, in list order. */
  function Unretried(whole: seq<StoreItem>, all: seq<StoreItem>): seq<StoreItem> {
    if all == [] then []
    else
      var r := Unretried(whole, all[1..]);
      if RetriesAt(whole, Vc(all[0])) == [] then [all[0]] + r else r
  }

  lemma {:induction false} UnretriedMember(whole: seq<StoreItem>, all: seq<StoreItem>, x: StoreItem)
    ensures x in Unretried(whole, all) <==> x in all && RetriesAt(whole, Vc(x)) == []
  {
    if all != [] {
      UnretriedMember(whole, all[1..], x);
      assert all == [all[0]] + all[1..];
    }
  }

  ghost predicate NoDuplicates(s: seq<StoreItem>) {
    forall i, j :: 0 <= i < j < |s| ==> s[i] != s[j]
  }

  /** In any order (it comes from a Go map): the retry items that are alone at their vault and chain. */
  ghost predicate LoneRetries(all: seq<StoreItem>, lone: seq<StoreItem>) {
    && NoDuplicates(lone)
    && forall x :: x in lone <==> RetriesAt(all, Vc(x)) == [x]
  }

  ghost predicate IsSelection(all: seq<StoreItem>, pending: seq<StoreItem>) {
    exists lone :: LoneRetries(all, lone) && pending == lone + Unretried(all, all)
  }

  /** What selection means for one vault and chain. */
  lemma SelectionAt(all: seq<StoreItem>, pending: seq<StoreItem>, x: StoreItem)
    requires IsSelection(all, pending)
    ensures x in pending <==> RetriesAt(all, Vc(x)) == [x] || (x in all && RetriesAt(all, Vc(x)) == [])
  {
    var lone :| LoneRetries(all, lone) && pending == lone + Unretried(all, all);
    UnretriedMember(all, all, x);
  }

  /** The retry map of lines 101-108. */
  ghost predicate IsRetryMap(all: seq<StoreItem>, m: map<VaultChain, seq<StoreItem>>) {
    forall vc :: (if vc in m then m[vc] != [] && m[vc] == RetriesAt(all, vc) else RetriesAt(all, vc) == [])
  }

  function GetOr(m: map<VaultChain, seq<StoreItem>>, vc: VaultChain): seq<StoreItem> {
    if vc in m then m[vc] else []
  }

  method GatherRetries(all: seq<StoreItem>) returns (m: map<VaultChain, seq<StoreItem>>)
    ensures IsRetryMap(all, m)
  {
    m := map[];
    var i := 0;
    while i < |all|
      invariant 0 <= i <= |all|
      invariant forall vc :: vc in m ==> m[vc] != []
      invariant forall vc :: RetriesAt(all, vc) == GetOr(m, vc) + RetriesAt(all[i..], vc)
    {
      hide RetriesAt;
      var item := all[i];
      var before := m;
      if InRetry(item) {
        m := m[Vc(item) := GetOr(m, Vc(item)) + [item]];
      }
      assert all[i..][1..] == all[i + 1..];
      forall vc ensures RetriesAt(all, vc) == GetOr(m, vc) + RetriesAt(all[i + 1..], vc) {
        RetriesStep(all[i..], vc, GetOr(before, vc));
      }
      i := i + 1;
    }
  }

  lemma RetriesStep(left: seq<StoreItem>, vc: VaultChain, had: seq<StoreItem>)
    requires left != []
    ensures had + RetriesAt(left, vc)
         == (if InRetry(left[0]) && Vc(left[0]) == vc then had + [left[0]] else had) + RetriesAt(left[1..], vc)
  {
  }

  /** Lines 112-128: map iteration order is arbitrary; several retry items are logged and dropped. */
  method TakeLone(all: seq<StoreItem>, m: map<VaultChain, seq<StoreItem>>) returns (lone: seq<StoreItem>)
    requires IsRetryMap(all, m)
    ensures LoneRetries(all, lone)
  {
    lone := [];
    var left := m.Keys;
    while left != {}
      invariant left <= m.Keys
      invariant NoDuplicates(lone)
      invariant forall x :: x in lone <==> RetriesAt(all, Vc(x)) == [x] && Vc(x) !in left
      decreases left
    {
      var vc :| vc in left;
      left := left - {vc};
      if |m[vc]| <= 1 {
        LoneIsHere(all, vc, m[vc][0]);
        lone := lone + [m[vc][0]];
      }
    }
  }

  lemma LoneIsHere(all: seq<StoreItem>, vc: VaultChain, x: StoreItem)
    requires RetriesAt(all, vc) == [x]
    ensures Vc(x) == vc
    ensures forall y :: RetriesAt(all, Vc(y)) == [y] && Vc(y) == vc ==> y == x
  {
    RetriesMember(all, vc, x);
  }

  /** Lines 101-136: the lone retry items, then everything not behind a retry. */
  method Select(all: seq<StoreItem>) returns (itemsToSign: seq<StoreItem>)
    ensures IsSelection(all, itemsToSign)
  {
    var retryItems := GatherRetries(all);
    var lone := TakeLone(all, retryItems);
    itemsToSign := lone;
    var i := 0;
    while i < |all|
      invariant 0 <= i <= |all|
      invariant itemsToSign + Unretried(all, all[i..]) == lone + Unretried(all, all)
    {
      hide RetriesAt, Unretried;
      assert all[i..][1..] == all[i + 1..];
      UnretriedStep(all, all[i..], itemsToSign);
      if Vc(all[i]) !in retryItems {
        itemsToSign := itemsToSign + [all[i]];
      }
      i := i + 1;
    }
    assert itemsToSign + [] == itemsToSign;
  }

  lemma UnretriedStep(whole: seq<StoreItem>, left: seq<StoreItem>, had: seq<StoreItem>)
    requires left != []
    ensures had + Unretried(whole, left)
         == (if RetriesAt(whole, Vc(left[0])) == [] then had + [left[0]] else had) + Unretried(whole, left[1..])
  {
  }

  // ---------- the spawn loop ----------

  datatype Answer = VaultError | Vault(status: VaultStatus, pubKeyEddsa: PubKey)

  datatype Decision = Skip | Abandon | Spawn(item: StoreItem, status: VaultStatus)

  function WithEddsa(item: StoreItem, eddsa: PubKey): StoreItem {
    item.(tx := item.tx.(vaultEddsa := eddsa))
  }

  /** One turn of the loop, lines 160-198, for an item reached while the signer runs. */
  function Decide(item: StoreItem, locked: set<VaultChain>, available: PerStatus, answer: Answer): Decision {
    if Vc(item) in locked then Skip
    else if answer.VaultError? then Abandon
    else if available.Get(answer.status) == 0 then Skip
    else Spawn(WithEddsa(item, answer.pubKeyEddsa), answer.status)
  }

  function CountStatus(spawned: seq<(StoreItem, VaultStatus)>, s: VaultStatus): nat {
    if spawned == [] then 0
    else
      var n := |spawned| - 1;
      CountStatus(spawned[..n], s) + (if spawned[n].1 == s then 1 else 0)
  }

  /** The first item of one vault and chain. */
  function First(items: seq<StoreItem>, vc: VaultChain): Option<StoreItem> {
    if items == [] then None else if Vc(items[0]) == vc then Some(items[0]) else First(items[1..], vc)
  }

  predicate IsFirst(items: seq<StoreItem>, x: StoreItem) { First(items, Vc(x)) == Some(x) }

  /** `started` is what the loop made of `x`, the first item of an unlocked vault and chain. */
  predicate StartedFrom(items: seq<StoreItem>, snapshot: set<VaultChain>, vaultOf: PubKey -> Answer,
                        x: StoreItem, started: (StoreItem, VaultStatus)) {
    && IsFirst(items, x)
    && Vc(x) !in snapshot
    && vaultOf(x.tx.vault) == Vault(started.1, started.0.tx.vaultEddsa)
    && started.0 == WithEddsa(x, started.0.tx.vaultEddsa)
  }

  /** An item passed over without a lock was passed over for lack of capacity. */
  predicate PassedOver(x: StoreItem, locked: set<VaultChain>, available: PerStatus, vaultOf: PubKey -> Answer) {
    Vc(x) !in locked ==> Decide(x, locked, available, vaultOf(x.tx.vault)) == Skip
  }

  /** The vault and chain of `x` was locked, or got a routine, or found no capacity left. */
  ghost predicate Settled(x: StoreItem, snapshot: set<VaultChain>, origin: seq<StoreItem>, available: PerStatus,
                          vaultOf: PubKey -> Answer) {
    || Vc(x) in snapshot
    || (exists y :: y in origin && Vc(y) == Vc(x))
    || (vaultOf(x.tx.vault).Vault? && available.Get(vaultOf(x.tx.vault).status) == 0)
  }

  /**
    * The spawn loop over a whole call in which no vault changes status: `vaultOf` is what GetVault
    * answers, and the signer is seen stopped when `stopAt` items have been visited.
    */
  method SpawnLoop(items: seq<StoreItem>, snapshot: set<VaultChain>, capacities: PerStatus,
                   vaultOf: PubKey -> Answer, stopAt: nat)
    returns (spawned: seq<(StoreItem, VaultStatus)>, origin: seq<StoreItem>, available: PerStatus)
    ensures |origin| == |spawned|
    ensures forall k :: 0 <= k < |spawned| ==> StartedFrom(items, snapshot, vaultOf, origin[k], spawned[k])
    ensures forall j, k :: 0 <= j < k < |spawned| ==> Vc(origin[j]) != Vc(origin[k])
    ensures forall s :: available.Get(s) + CountStatus(spawned, s) == capacities.Get(s)
    ensures stopAt >= |items| && (forall x :: x in items ==> vaultOf(x.tx.vault).Vault?) ==>
              forall x :: x in items ==> Settled(x, snapshot, origin, available, vaultOf)
  {
    hide StartedFrom, PassedOver, IsFirst, Decide, Settled;
    spawned, origin, available := [], [], capacities;
    var locked := snapshot;
    var i := 0;
    while i < |items| && i != stopAt
      invariant 0 <= i <= |items| && |origin| == |spawned|
      invariant snapshot <= locked
      invariant forall k :: 0 <= k < |spawned| ==> StartedFrom(items, snapshot, vaultOf, origin[k], spawned[k])
      invariant forall k :: 0 <= k < |spawned| ==> Vc(origin[k]) in locked
      invariant forall vc :: vc in locked ==> vc in snapshot || exists y :: y in origin && Vc(y) == vc
      invariant forall j, k :: 0 <= j < k < |spawned| ==> Vc(origin[j]) != Vc(origin[k])
      invariant forall s :: available.Get(s) + CountStatus(spawned, s) == capacities.Get(s)
      invariant forall j :: 0 <= j < i ==> PassedOver(items[j], locked, available, vaultOf)
    {
      var item := items[i];
      var decision := Decide(item, locked, available, vaultOf(item.tx.vault));
      if decision.Abandon? {
        AbandonIsError(item, locked, available, vaultOf);
        return;
      }
      SkipPasses(item, locked, available, vaultOf);
      if decision.Spawn? {
        var (started, status) := (decision.item, decision.status);
        SpawnIsFirst(items, i, snapshot, locked, available, vaultOf);
        StaysPassed(items, i, locked, available, vaultOf, status);
        available := available.Put(status, available.Get(status) - 1);
        locked := locked + {Vc(item)};
        assert (spawned + [(started, status)])[..|spawned|] == spawned;
        spawned, origin := spawned + [(started, status)], origin + [item];
        assert item in origin;
      }
      i := i + 1;
    }
    forall x | x in items && stopAt >= |items| && vaultOf(x.tx.vault).Vault?
      ensures Settled(x, snapshot, origin, available, vaultOf)
    {
      var j :| 0 <= j < |items| && items[j] == x;
      PassedIsSettled(x, snapshot, locked, origin, available, vaultOf);
    }
  }

  lemma AbandonIsError(x: StoreItem, locked: set<VaultChain>, available: PerStatus, vaultOf: PubKey -> Answer)
    requires Decide(x, locked, available, vaultOf(x.tx.vault)).Abandon?
    ensures !vaultOf(x.tx.vault).Vault?
  {
  }

  lemma PassedIsSettled(x: StoreItem, snapshot: set<VaultChain>, locked: set<VaultChain>, origin: seq<StoreItem>,
                        available: PerStatus, vaultOf: PubKey -> Answer)
    requires PassedOver(x, locked, available, vaultOf)
    requires forall vc :: vc in locked ==> vc in snapshot || exists y :: y in origin && Vc(y) == vc
    ensures Settled(x, snapshot, origin, available, vaultOf)
  {
  }

  lemma SkipPasses(x: StoreItem, locked: set<VaultChain>, available: PerStatus, vaultOf: PubKey -> Answer)
    ensures Decide(x, locked, available, vaultOf(x.tx.vault)).Skip? ==> PassedOver(x, locked, available, vaultOf)
  {
  }

  /** Capacity only goes down and locks only grow, so nothing passed over becomes eligible. */
  lemma StaysPassed(items: seq<StoreItem>, i: nat, locked: set<VaultChain>, available: PerStatus,
                    vaultOf: PubKey -> Answer, status: VaultStatus)
    requires i < |items| && available.Get(status) > 0
    requires forall j :: 0 <= j < i ==> PassedOver(items[j], locked, available, vaultOf)
    ensures forall j :: 0 <= j <= i ==>
              PassedOver(items[j], locked + {Vc(items[i])}, available.Put(status, available.Get(status) - 1), vaultOf)
  {
  }

  lemma SpawnIsFirst(items: seq<StoreItem>, i: nat, snapshot: set<VaultChain>, locked: set<VaultChain>,
                     available: PerStatus, vaultOf: PubKey -> Answer)
    requires i < |items| && snapshot <= locked
    requires forall j :: 0 <= j < i ==> PassedOver(items[j], locked, available, vaultOf)
    requires Decide(items[i], locked, available, vaultOf(items[i].tx.vault)).Spawn?
    ensures var d := Decide(items[i], locked, available, vaultOf(items[i].tx.vault));
            && StartedFrom(items, snapshot, vaultOf, items[i], (d.item, d.status))
            && Vc(items[i]) !in locked && available.Get(d.status) > 0
  {
    FirstAt(items, i);
  }

  lemma {:induction false} FirstAt(items: seq<StoreItem>, i: nat)
    requires i < |items| && forall j :: 0 <= j < i ==> Vc(items[j]) != Vc(items[i])
    ensures IsFirst(items, items[i])
  {
    if i > 0 {
      FirstAt(items[1..], i - 1);
    }
  }

  /**
    * Per call: an unlocked vault and chain starts its lone retry item if it has one, nothing if it
    * has several, and otherwise only the first of its items in list order.
    */
  lemma SpawnedPerVaultChain(all: seq<StoreItem>, pending: seq<StoreItem>, x: StoreItem)
    requires IsSelection(all, pending) && IsFirst(pending, x)
    ensures var retries := RetriesAt(all, Vc(x));
            if retries != [] then retries == [x] else IsFirst(all, x)
  {
    FirstIsMember(pending, Vc(x));
    SelectionAt(all, pending, x);
    if RetriesAt(all, Vc(x)) == [] {
      var lone :| LoneRetries(all, lone) && pending == lone + Unretried(all, all);
      forall y | y in lone ensures Vc(y) != Vc(x) {
        assert RetriesAt(all, Vc(y)) == [y];
      }
      SkipLone(lone, Unretried(all, all), Vc(x));
      FirstUnretried(all, all, Vc(x));
    }
  }

  lemma {:induction false} FirstIsMember(items: seq<StoreItem>, vc: VaultChain)
    ensures First(items, vc).Some? ==> First(items, vc).value in items && Vc(First(items, vc).value) == vc
  {
    if items != [] {
      FirstIsMember(items[1..], vc);
    }
  }

  lemma {:induction false} SkipLone(lone: seq<StoreItem>, rest: seq<StoreItem>, vc: VaultChain)
    requires forall x :: x in lone ==> Vc(x) != vc
    ensures First(lone + rest, vc) == First(rest, vc)
  {
    if lone == [] {
      assert lone + rest == rest;
    } else {
      assert (lone + rest)[1..] == lone[1..] + rest;
      assert lone[0] in lone;
      SkipLone(lone[1..], rest, vc);
    }
  }

  lemma {:induction false} FirstUnretried(whole: seq<StoreItem>, all: seq<StoreItem>, vc: VaultChain)
    requires RetriesAt(whole, vc) == []
    ensures First(Unretried(whole, all), vc) == First(all, vc)
  {
    if all != [] {
      FirstUnretried(whole, all[1..], vc);
      if RetriesAt(whole, Vc(all[0])) == [] {
        assert Unretried(whole, all)[1..] == Unretried(whole, all[1..]);
      }
    }
  }
}
