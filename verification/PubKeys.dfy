/**
  * The public keys a node watches, bifrost/pubkeymanager/pubkey_manager.go. The prune loop removes
  * from the slice it ranges over, by moving the last entry into the gap.
  */
module PubKeys {
  import opened Outcome

  type PubKey = string

  datatype Info = Info(key: PubKey, algo: string, signer: bool, node: bool)

  /** The zero value a removal leaves behind the end of the slice. */
  const ZERO := Info("", "", false, false)

  ghost predicate Distinct(s: seq<Info>) {
    forall i, j :: 0 <= i < j < |s| ==> s[i].key != s[j].key
  }

  predicate Has(s: seq<Info>, pk: PubKey) { exists i :: 0 <= i < |s| && s[i].key == pk }

  // ---------- what the operations do ----------

  /** A known key can become a signer's key but not stop being one. */
  function Added(s: seq<Info>, pk: PubKey, signer: bool, algo: string): seq<Info> {
    if !Has(s, pk) then s + [Info(pk, algo, signer, false)]
    else seq(|s|, i requires 0 <= i < |s| => if s[i].key == pk then s[i].(signer := s[i].signer || signer) else s[i])
  }

  function AddedNode(s: seq<Info>, pk: PubKey, algo: string): seq<Info> {
    if s == [] then [Info(pk, algo, true, true)]
    else if s[0].key == pk then [s[0].(signer := true, node := true)] + s[1..]
    else [s[0]] + AddedNode(s[1..], pk, algo)
  }

  /** Entry `i` replaced by the last one, and the slice cut by one. */
  function Without(s: seq<Info>, i: nat): seq<Info>
    requires i < |s|
  {
    s[i := s[|s| - 1]][..|s| - 1]
  }

  predicate Protected(x: Info, fetched: seq<PubKey>) { x.node || x.key in fetched }

  /** The prune loop from index `i` on; the two most recent entries are out of its reach. */
  function Pruned(s: seq<Info>, fetched: seq<PubKey>, i: nat): seq<Info>
    decreases |s| - i
  {
    if i + 2 >= |s| then s
    else if Protected(s[i], fetched) then Pruned(s, fetched, i + 1)
    else Pruned(Without(s, i), fetched, i + 1)
  }

  // ---------- distinct keys ----------

  lemma AddedDistinct(s: seq<Info>, pk: PubKey, signer: bool, algo: string)
    requires Distinct(s)
    ensures Distinct(Added(s, pk, signer, algo)) && Has(Added(s, pk, signer, algo), pk)
    ensures forall k :: Has(s, k) ==> Has(Added(s, pk, signer, algo), k)
  {
    var t := Added(s, pk, signer, algo);
    assert forall i :: 0 <= i < |s| ==> t[i].key == s[i].key;
    if !Has(s, pk) { assert t[|s|].key == pk; }
  }

  lemma WithoutFacts(s: seq<Info>, i: nat)
    requires Distinct(s) && i < |s|
    ensures Distinct(Without(s, i))
    ensures forall x :: x in Without(s, i) <==> x in s && x != s[i]
  {
    var t := Without(s, i);
    forall x | x in s && x != s[i] ensures x in t {
      var k :| 0 <= k < |s| && s[k] == x;
      assert t[if k == |s| - 1 then i else k] == x;
    }
  }

  // ---------- the prune loop ----------

  /** It keeps keys distinct, removes only unprotected entries, and adds none. */
  lemma {:induction false} PruneSound(s: seq<Info>, fetched: seq<PubKey>, i: nat)
    requires Distinct(s)
    ensures Distinct(Pruned(s, fetched, i))
    ensures forall x :: x in Pruned(s, fetched, i) ==> x in s
    ensures forall x :: x in s && Protected(x, fetched) ==> x in Pruned(s, fetched, i)
    decreases |s| - i
  {
    if i + 2 < |s| {
      if Protected(s[i], fetched) {
        PruneSound(s, fetched, i + 1);
      } else {
        WithoutFacts(s, i);
        PruneSound(Without(s, i), fetched, i + 1);
      }
    }
  }

  /** What is behind index `i`, and the two most recent entries, survive the rest of the loop. */
  lemma {:induction false} PruneKeeps(s: seq<Info>, fetched: seq<PubKey>, i: nat, k: nat)
    requires k < |s| && (k < i || k + 2 >= |s|)
    ensures s[k] in Pruned(s, fetched, i)
    decreases |s| - i
  {
    if i + 2 < |s| {
      if Protected(s[i], fetched) {
        PruneKeeps(s, fetched, i + 1, k);
      } else {
        var t := Without(s, i);
        PruneKeeps(t, fetched, i + 1, if k == |s| - 1 then i else k);
      }
    }
  }

  lemma {:induction false} PruneLength(s: seq<Info>, fetched: seq<PubKey>, i: nat)
    ensures |Pruned(s, fetched, i)| <= |s|
    ensures |Pruned(s, fetched, i)| == |s| ==> Pruned(s, fetched, i) == s
    decreases |s| - i
  {
    if i + 2 < |s| {
      if Protected(s[i], fetched) {
        PruneLength(s, fetched, i + 1);
      } else {
        PruneLength(Without(s, i), fetched, i + 1);
      }
    }
  }

  ghost predicate Clean(s: seq<Info>, fetched: seq<PubKey>, i: nat) {
    forall k :: i <= k < |s| - 2 ==> Protected(s[k], fetched)
  }

  /** A pass changes nothing exactly when nothing within its reach is unprotected. */
  lemma {:induction false} PruneFixedIff(s: seq<Info>, fetched: seq<PubKey>, i: nat)
    ensures Pruned(s, fetched, i) == s <==> Clean(s, fetched, i)
    decreases |s| - i
  {
    if i + 2 < |s| {
      if Protected(s[i], fetched) {
        PruneFixedIff(s, fetched, i + 1);
      } else {
        PruneLength(Without(s, i), fetched, i + 1);
      }
    }
  }

  function Passes(s: seq<Info>, fetched: seq<PubKey>, n: nat): seq<Info>
    decreases n
  {
    if n == 0 then s else Passes(Pruned(s, fetched, 0), fetched, n - 1)
  }

  /** One pass can miss entries it moved; as many passes as there are entries reach a clean list. */
  lemma {:induction false} PassesClean(s: seq<Info>, fetched: seq<PubKey>, n: nat)
    requires n >= |s|
    ensures Clean(Passes(s, fetched, n), fetched, 0)
    decreases n
  {
    if n > 0 {
      var t := Pruned(s, fetched, 0);
      PruneLength(s, fetched, 0);
      PruneFixedIff(s, fetched, 0);
      if t == s {
        PassesFixed(s, fetched, n);
      } else {
        PassesClean(t, fetched, n - 1);
      }
    }
  }

  lemma {:induction false} PassesFixed(s: seq<Info>, fetched: seq<PubKey>, n: nat)
    requires Pruned(s, fetched, 0) == s
    ensures Passes(s, fetched, n) == s
  {
    if n > 0 {
      PassesFixed(s, fetched, n - 1);
    }
  }

  /** The indices a pass finds unprotected, of a list it takes to be `n` long, less one per find. */
  function Gaps(s: seq<Info>, fetched: seq<PubKey>, i: nat, n: nat): seq<nat>
    requires n <= |s|
    decreases n - i
  {
    if i + 2 >= n then []
    else if Protected(s[i], fetched) then Gaps(s, fetched, i + 1, n)
    else [i] + Gaps(s, fetched, i + 1, n - 1)
  }

  /** `t` is `s` with the entries at `gaps` replaced, in turn, by the last ones of its first `n`. */
  ghost predicate Refilled(s: seq<Info>, gaps: seq<nat>, n: nat, t: seq<Info>, i: nat) {
    && |gaps| + |t| == n <= |s|
    && (forall j :: 0 <= j < |gaps| ==> i <= gaps[j] < |t| && t[gaps[j]] == s[n - 1 - j])
    && (forall k :: i <= k < |t| && k !in gaps ==> t[k] == s[k])
  }

  /** What the loop from index `i` on makes of the current list `cur`. */
  ghost predicate Swept(s: seq<Info>, cur: seq<Info>, fetched: seq<PubKey>, i: nat, t: seq<Info>, gaps: seq<nat>) {
    && Refilled(s, gaps, |cur|, t, i)
    && (forall k :: 0 <= k < i && k < |t| ==> t[k] == cur[k])
    && (forall k :: i <= k < |t| - 2 && k !in gaps ==> Protected(s[k], fetched))
    && (i < |cur| ==> i < |t|)
  }

  /** `cur` agrees with the list the pass began with from index `i` on. */
  lemma {:induction false} PruneSweeps(s: seq<Info>, cur: seq<Info>, fetched: seq<PubKey>, i: nat)
    requires |cur| <= |s| && forall k :: i <= k < |cur| ==> cur[k] == s[k]
    ensures Swept(s, cur, fetched, i, Pruned(cur, fetched, i), Gaps(s, fetched, i, |cur|))
    decreases |cur| - i
  {
    hide Swept, Protected;
    if i + 2 >= |cur| {
      SweepEnds(s, cur, fetched, i);
    } else if Protected(s[i], fetched) {
      PruneSweeps(s, cur, fetched, i + 1);
      SweepKeeps(s, cur, fetched, i, Pruned(cur, fetched, i + 1), Gaps(s, fetched, i + 1, |cur|));
    } else {
      var next := Without(cur, i);
      PruneSweeps(s, next, fetched, i + 1);
      SweepMoves(s, cur, fetched, i, Pruned(next, fetched, i + 1), Gaps(s, fetched, i + 1, |cur| - 1));
    }
  }

  lemma SweepEnds(s: seq<Info>, cur: seq<Info>, fetched: seq<PubKey>, i: nat)
    requires |cur| <= |s| && i + 2 >= |cur| && forall k :: i <= k < |cur| ==> cur[k] == s[k]
    ensures Swept(s, cur, fetched, i, cur, [])
  {
  }

  lemma SweepKeeps(s: seq<Info>, cur: seq<Info>, fetched: seq<PubKey>, i: nat, t: seq<Info>, gaps: seq<nat>)
    requires i + 2 < |cur| <= |s| && cur[i] == s[i] && Protected(s[i], fetched) && Swept(s, cur, fetched, i + 1, t, gaps)
    ensures Swept(s, cur, fetched, i, t, gaps)
  {
    hide Protected;
  }

  lemma SweepMoves(s: seq<Info>, cur: seq<Info>, fetched: seq<PubKey>, i: nat, t: seq<Info>, gaps: seq<nat>)
    requires i + 2 < |cur| <= |s| && cur[|cur| - 1] == s[|cur| - 1] && Swept(s, Without(cur, i), fetched, i + 1, t, gaps)
    ensures Swept(s, cur, fetched, i, t, [i] + gaps)
  {
    hide Protected;
    RefillsOne(s, gaps, |cur|, t, i);
  }

  lemma RefillsOne(s: seq<Info>, gaps: seq<nat>, n: nat, t: seq<Info>, i: nat)
    requires 0 < n <= |s| && Refilled(s, gaps, n - 1, t, i + 1) && i < |t| && t[i] == s[n - 1]
    ensures Refilled(s, [i] + gaps, n, t, i)
  {
    var all := [i] + gaps;
    forall j | 0 <= j < |all| ensures i <= all[j] < |t| && t[all[j]] == s[n - 1 - j] {
      if j > 0 { assert all[j] == gaps[j - 1]; }
    }
  }

  /**
    * One pass with r removals puts exactly the last r entries, the last one first, where it removed.
    * It leaves a clean list iff every one of them that lands within the reach of a pass is protected.
    */
  lemma PassCleanIff(s: seq<Info>, fetched: seq<PubKey>)
    ensures var t, gaps := Pruned(s, fetched, 0), Gaps(s, fetched, 0, |s|);
            && Refilled(s, gaps, |s|, t, 0)
            && (Clean(t, fetched, 0) <==>
                  forall j :: 0 <= j < |gaps| && gaps[j] < |t| - 2 ==> Protected(s[|s| - 1 - j], fetched))
  {
    PruneSweeps(s, s, fetched, 0);
    var t, gaps := Pruned(s, fetched, 0), Gaps(s, fetched, 0, |s|);
    hide Pruned, Gaps, Protected;
    if forall j :: 0 <= j < |gaps| && gaps[j] < |t| - 2 ==> Protected(s[|s| - 1 - j], fetched) {
      forall k | 0 <= k < |t| - 2 ensures Protected(t[k], fetched) {
        if k in gaps {
          var j :| 0 <= j < |gaps| && gaps[j] == k;
        }
      }
    }
    if Clean(t, fetched, 0) {
      forall j | 0 <= j < |gaps| && gaps[j] < |t| - 2 ensures Protected(s[|s| - 1 - j], fetched) {
        assert t[gaps[j]] == s[|s| - 1 - j];
      }
    }
  }

  /** A pass does miss one here: `d` moves into the gap, unprotected, and is not looked at. */
  lemma PassMisses(a: Info, b: Info, c: Info, d: Info)
    requires !a.node && a.key != b.key && !Protected(d, [b.key])
    ensures Pruned([a, b, c, d], [b.key], 0) == [d, b, c]
    ensures !Clean([d, b, c], [b.key], 0) && Clean([d, b, c], [b.key], 1)
  {
    var t := [d, b, c];
    assert t[0] == d;
  }

  // ---------- the manager ----------

  datatype Vault = Vault(key: PubKey, members: seq<PubKey>)

  /** The node's own key for an algorithm, or the empty key. */
  function NodeKey(s: seq<Info>, algo: string): PubKey {
    if s == [] then "" else if s[0].node && s[0].algo == algo then s[0].key else NodeKey(s[1..], algo)
  }

  function AddAll(s: seq<Info>, pairs: seq<(PubKey, string)>): seq<Info> {
    if pairs == [] then s
    else Added(AddAll(s, pairs[..|pairs| - 1]), pairs[|pairs| - 1].0, false, pairs[|pairs| - 1].1)
  }

  const SECP := "secp256k1"

  /** The keys of the vaults the node is a member of. */
  function OwnVaults(vaults: seq<Vault>, node: PubKey): seq<PubKey> {
    if vaults == [] then []
    else
      var n := |vaults| - 1;
      OwnVaults(vaults[..n], node) + (if node in vaults[n].members then [vaults[n].key] else [])
  }

  function AddVaults(s: seq<Info>, keys: seq<PubKey>): seq<Info> {
    if keys == [] then s else Added(AddVaults(s, keys[..|keys| - 1]), keys[|keys| - 1], true, SECP)
  }

  function KeysOf(pairs: seq<(PubKey, string)>): seq<PubKey> { seq(|pairs|, i requires 0 <= i < |pairs| => pairs[i].0) }

  /** fetchPubKeys; a request that fails is None. */
  function Fetched(s: seq<Info>, pairs: Option<seq<(PubKey, string)>>, vaults: Option<seq<Vault>>, prune: bool): seq<Info> {
    if pairs.None? then s
    else
      var t := AddAll(s, pairs.value);
      if vaults.None? then t
      else
        var own := OwnVaults(vaults.value, NodeKey(t, SECP));
        var u := AddVaults(t, own);
        if prune then Pruned(u, KeysOf(pairs.value) + own, 0) else u
  }

  class PubKeyManager {
    var pubkeys: seq<Info>

    constructor ()
      ensures pubkeys == []
    {
      pubkeys := [];
    }

    method HasPubKey(pk: PubKey) returns (found: bool)
      ensures found == Has(pubkeys, pk)
    {
      var i := 0;
      while i < |pubkeys|
        invariant 0 <= i <= |pubkeys| && forall k :: 0 <= k < i ==> pubkeys[k].key != pk
      {
        if pk == pubkeys[i].key { return true; }
        i := i + 1;
      }
      return false;
    }

    method AddPubKey(pk: PubKey, signer: bool, algo: string)
      modifies this
      ensures pubkeys == Added(old(pubkeys), pk, signer, algo)
    {
      var found := HasPubKey(pk);
      if found {
        if signer {
          var i := 0;
          while i < |pubkeys|
            invariant 0 <= i <= |pubkeys| == |old(pubkeys)|
            invariant forall k :: 0 <= k < i ==> pubkeys[k] == Added(old(pubkeys), pk, signer, algo)[k]
            invariant forall k :: i <= k < |pubkeys| ==> pubkeys[k] == old(pubkeys)[k]
          {
            if pk == pubkeys[i].key {
              pubkeys := pubkeys[i := pubkeys[i].(signer := signer)];
            }
            i := i + 1;
          }
        }
      } else {
        pubkeys := pubkeys + [Info(pk, algo, signer, false)];
      }
    }

    method AddNodePubKey(pk: PubKey, algo: string)
      modifies this
      ensures pubkeys == AddedNode(old(pubkeys), pk, algo)
    {
      var i := 0;
      while i < |pubkeys|
        invariant 0 <= i <= |pubkeys| && pubkeys == old(pubkeys)
        invariant forall k :: 0 <= k < i ==> pubkeys[k].key != pk
      {
        if pubkeys[i].key == pk {
          AddedNodeAt(pubkeys, pk, algo, i);
          pubkeys := pubkeys[i := pubkeys[i].(signer := true, node := true)];
          return;
        }
        i := i + 1;
      }
      AddedNodeAt(pubkeys, pk, algo, i);
      pubkeys := pubkeys + [Info(pk, algo, true, true)];
    }

    method RemovePubKey(pk: PubKey)
      requires Distinct(pubkeys)
      modifies this
      ensures !Has(old(pubkeys), pk) ==> pubkeys == old(pubkeys)
      ensures forall i :: 0 <= i < |old(pubkeys)| && old(pubkeys)[i].key == pk ==> pubkeys == Without(old(pubkeys), i)
    {
      var i := 0;
      while i < |pubkeys|
        invariant 0 <= i <= |pubkeys| && pubkeys == old(pubkeys)
        invariant forall k :: 0 <= k < i ==> pubkeys[k].key != pk
      {
        if pk == pubkeys[i].key {
          var last := |pubkeys| - 1;
          pubkeys := pubkeys[i := pubkeys[last]];
          pubkeys := pubkeys[..last];
          return;
        }
        i := i + 1;
      }
    }

    /** The range runs over the length at its start and reads the current entries. */
    method Prune(fetched: seq<PubKey>)
      requires Distinct(pubkeys)
      modifies this
      ensures pubkeys == Pruned(old(pubkeys), fetched, 0) && Distinct(pubkeys)
    {
      var i, length := 0, |pubkeys|;
      while i < length
        invariant 0 <= i <= length && Distinct(pubkeys) && |pubkeys| <= length
        invariant Pruned(pubkeys, fetched, i) == Pruned(old(pubkeys), fetched, 0)
      {
        var pk := if i < |pubkeys| then pubkeys[i] else ZERO;
        if !pk.node && i < |pubkeys| - 2 && pk.key !in fetched {
          WithoutFacts(pubkeys, i);
          RemovePubKey(pk.key);
        }
        i := i + 1;
      }
    }

    method GetNodePubKey(algo: string) returns (key: PubKey)
      ensures key == NodeKey(pubkeys, algo)
    {
      var i := 0;
      assert pubkeys[0..] == pubkeys;
      while i < |pubkeys|
        invariant 0 <= i <= |pubkeys| && NodeKey(pubkeys, algo) == NodeKey(pubkeys[i..], algo)
      {
        assert pubkeys[i..][1..] == pubkeys[i + 1..];
        if pubkeys[i].node && pubkeys[i].algo == algo { return pubkeys[i].key; }
        i := i + 1;
      }
      return "";
    }

    method FetchPubKeys(pairs: Option<seq<(PubKey, string)>>, vaults: Option<seq<Vault>>, prune: bool)
      requires Distinct(pubkeys)
      modifies this
      ensures pubkeys == Fetched(old(pubkeys), pairs, vaults, prune) && Distinct(pubkeys)
    {
      if pairs.None? { return; }
      AddPairs(pairs.value);
      if vaults.None? { return; }
      var own := AddOwnVaults(vaults.value);
      if prune {
        Prune(KeysOf(pairs.value) + own);
      }
    }

    method AddPairs(pairs: seq<(PubKey, string)>)
      requires Distinct(pubkeys)
      modifies this
      ensures pubkeys == AddAll(old(pubkeys), pairs) && Distinct(pubkeys)
    {
      var i := 0;
      while i < |pairs|
        invariant 0 <= i <= |pairs| && Distinct(pubkeys) && pubkeys == AddAll(old(pubkeys), pairs[..i])
      {
        assert pairs[..i + 1][..i] == pairs[..i];
        AddedDistinct(pubkeys, pairs[i].0, false, pairs[i].1);
        AddPubKey(pairs[i].0, false, pairs[i].1);
        i := i + 1;
      }
      assert pairs[..i] == pairs;
    }

    /** The node's key does not change while the vaults are added, since none of them is a node key. */
    method AddOwnVaults(vaults: seq<Vault>) returns (own: seq<PubKey>)
      requires Distinct(pubkeys)
      modifies this
      ensures own == OwnVaults(vaults, NodeKey(old(pubkeys), SECP))
      ensures pubkeys == AddVaults(old(pubkeys), own) && Distinct(pubkeys)
    {
      own := [];
      var i := 0;
      while i < |vaults|
        invariant 0 <= i <= |vaults| && Distinct(pubkeys)
        invariant own == OwnVaults(vaults[..i], NodeKey(old(pubkeys), SECP))
        invariant pubkeys == AddVaults(old(pubkeys), own) && NodeKey(pubkeys, SECP) == NodeKey(old(pubkeys), SECP)
      {
        assert vaults[..i + 1][..i] == vaults[..i];
        var node := GetNodePubKey(SECP);
        if node in vaults[i].members {
          AddedDistinct(pubkeys, vaults[i].key, true, SECP);
          AddedNodeKey(pubkeys, vaults[i].key, true, SECP, SECP);
          AddPubKey(vaults[i].key, true, SECP);
          assert (own + [vaults[i].key])[..|own|] == own;
          own := own + [vaults[i].key];
        }
        i := i + 1;
      }
      assert vaults[..i] == vaults;
    }
  }

  lemma {:induction false} AddedNodeAt(s: seq<Info>, pk: PubKey, algo: string, i: nat)
    requires i <= |s| && (forall k :: 0 <= k < i ==> s[k].key != pk) && (i < |s| ==> s[i].key == pk)
    ensures AddedNode(s, pk, algo)
         == if i < |s| then s[i := s[i].(signer := true, node := true)] else s + [Info(pk, algo, true, true)]
    decreases i
  {
    if i > 0 {
      var rest := s[1..];
      AddedNodeAt(rest, pk, algo, i - 1);
      assert AddedNode(s, pk, algo) == [s[0]] + AddedNode(rest, pk, algo);
      hide AddedNode;
      assert s == [s[0]] + rest;
    }
  }

  lemma {:induction false} SameNodeKey(s: seq<Info>, t: seq<Info>, algo: string)
    requires |s| <= |t| && (forall i :: 0 <= i < |s| ==> t[i].key == s[i].key && t[i].node == s[i].node && t[i].algo == s[i].algo)
    requires forall i :: |s| <= i < |t| ==> !t[i].node
    ensures NodeKey(t, algo) == NodeKey(s, algo)
    decreases |t|
  {
    if s != [] {
      SameNodeKey(s[1..], t[1..], algo);
    } else if t != [] {
      SameNodeKey(s, t[1..], algo);
    }
  }

  lemma AddedNodeKey(s: seq<Info>, pk: PubKey, signer: bool, algo: string, want: string)
    ensures NodeKey(Added(s, pk, signer, algo), want) == NodeKey(s, want)
  {
    SameNodeKey(s, Added(s, pk, signer, algo), want);
  }

  // ---------- runs ----------

  /**
    * One operation under the lock. A fetch takes the lock once per key it adds and once to prune, so
    * operations of others may fall in between: such a fetch is a run of Add and one PruneWith.
    */
  datatype Op =
    | Add(pk: PubKey, signer: bool, algo: string)
    | AddNode(pk: PubKey, algo: string)
    | Remove(pk: PubKey)
    | Fetch(pairs: Option<seq<(PubKey, string)>>, vaults: Option<seq<Vault>>, prune: bool)
    | PruneWith(fetched: seq<PubKey>)

  ghost function Apply(s: seq<Info>, op: Op): seq<Info> {
    match op
    case Add(pk, signer, algo) => Added(s, pk, signer, algo)
    case AddNode(pk, algo) => AddedNode(s, pk, algo)
    case Remove(pk) => if Has(s, pk) then (var i :| 0 <= i < |s| && s[i].key == pk; Without(s, i)) else s
    case Fetch(pairs, vaults, prune) => Fetched(s, pairs, vaults, prune)
    case PruneWith(fetched) => Pruned(s, fetched, 0)
  }

  ghost function Exec(s: seq<Info>, ops: seq<Op>): seq<Info>
    decreases |ops|
  {
    if ops == [] then s else Exec(Apply(s, ops[0]), ops[1..])
  }

  ghost predicate HasNode(s: seq<Info>, pk: PubKey) { exists x :: x in s && x.key == pk && x.node }

  lemma AddedKeepsNode(s: seq<Info>, pk: PubKey, signer: bool, algo: string, node: PubKey)
    requires HasNode(s, node)
    ensures HasNode(Added(s, pk, signer, algo), node)
  {
  }

  lemma FirstWith(s: seq<Info>, pk: PubKey) returns (i: nat)
    ensures i <= |s| && (forall k :: 0 <= k < i ==> s[k].key != pk) && (i < |s| ==> s[i].key == pk)
  {
    i := 0;
    while i < |s| && s[i].key != pk
      invariant i <= |s| && forall k :: 0 <= k < i ==> s[k].key != pk
    {
      i := i + 1;
    }
  }

  lemma AddedNodeKeeps(s: seq<Info>, pk: PubKey, algo: string)
    requires Distinct(s)
    ensures Distinct(AddedNode(s, pk, algo)) && HasNode(AddedNode(s, pk, algo), pk)
    ensures forall node :: HasNode(s, node) ==> HasNode(AddedNode(s, pk, algo), node)
  {
    var i := FirstWith(s, pk);
    AddedNodeAt(s, pk, algo, i);
    hide AddedNode, HasNode;
    var t := AddedNode(s, pk, algo);
    assert forall k :: 0 <= k < |s| ==> t[k].key == s[k].key && (s[k].node ==> t[k].node);
    NodeAt(t, i);
    forall node | HasNode(s, node) ensures HasNode(t, node) {
      var k := NodeIndex(s, node);
      NodeAt(t, k);
    }
  }

  lemma NodeAt(s: seq<Info>, i: nat)
    requires i < |s| && s[i].node
    ensures HasNode(s, s[i].key)
  {
    assert s[i] in s;
  }

  lemma NodeIndex(s: seq<Info>, node: PubKey) returns (k: nat)
    requires HasNode(s, node)
    ensures k < |s| && s[k].key == node && s[k].node
  {
    var x :| x in s && x.key == node && x.node;
    k :| 0 <= k < |s| && s[k] == x;
  }

  lemma {:induction false} AddAllKeeps(s: seq<Info>, pairs: seq<(PubKey, string)>, node: PubKey)
    requires Distinct(s)
    ensures Distinct(AddAll(s, pairs)) && (HasNode(s, node) ==> HasNode(AddAll(s, pairs), node))
    ensures forall k :: k in KeysOf(pairs) ==> Has(AddAll(s, pairs), k)
    decreases |pairs|
  {
    if pairs != [] {
      var n := |pairs| - 1;
      AddAllKeeps(s, pairs[..n], node);
      var t := AddAll(s, pairs[..n]);
      AddedDistinct(t, pairs[n].0, false, pairs[n].1);
      if HasNode(s, node) { AddedKeepsNode(t, pairs[n].0, false, pairs[n].1, node); }
      hide Added, AddAll, Has;
      assert KeysOf(pairs) == KeysOf(pairs[..n]) + [pairs[n].0];
    }
  }

  lemma {:induction false} AddVaultsKeeps(s: seq<Info>, keys: seq<PubKey>, node: PubKey)
    requires Distinct(s)
    ensures Distinct(AddVaults(s, keys)) && (HasNode(s, node) ==> HasNode(AddVaults(s, keys), node))
    ensures forall k :: Has(s, k) || k in keys ==> Has(AddVaults(s, keys), k)
    decreases |keys|
  {
    if keys != [] {
      var n := |keys| - 1;
      AddVaultsKeeps(s, keys[..n], node);
      var t := AddVaults(s, keys[..n]);
      AddedDistinct(t, keys[n], true, SECP);
      if HasNode(s, node) { AddedKeepsNode(t, keys[n], true, SECP, node); }
      hide Added, Has;
      assert keys == keys[..n] + [keys[n]];
    }
  }

  /** After a fetch every fetched key is watched, pruning or not, and so is every node key there was. */
  lemma FetchKeeps(s: seq<Info>, pairs: Option<seq<(PubKey, string)>>, vaults: Option<seq<Vault>>, prune: bool, node: PubKey)
    requires Distinct(s)
    ensures var t := Fetched(s, pairs, vaults, prune);
            && Distinct(t)
            && (HasNode(s, node) ==> HasNode(t, node))
            && (pairs.Some? ==> forall k :: k in KeysOf(pairs.value) ==> Has(t, k))
            && (pairs.Some? && vaults.Some? ==>
                  forall k :: k in OwnVaults(vaults.value, NodeKey(AddAll(s, pairs.value), SECP)) ==> Has(t, k))
  {
    if pairs.Some? {
      AddAllKeeps(s, pairs.value, node);
      var t := AddAll(s, pairs.value);
      if vaults.Some? {
        var own := OwnVaults(vaults.value, NodeKey(t, SECP));
        AddVaultsKeeps(t, own, node);
        PruneKeepsKeys(AddVaults(t, own), KeysOf(pairs.value) + own, node);
        hide AddAll, AddVaults, Pruned, OwnVaults, NodeKey, HasNode, Has;
      }
    }
  }

  lemma PruneKeepsKeys(s: seq<Info>, fetched: seq<PubKey>, node: PubKey)
    requires Distinct(s)
    ensures Distinct(Pruned(s, fetched, 0)) && (HasNode(s, node) ==> HasNode(Pruned(s, fetched, 0), node))
    ensures forall k :: k in fetched && Has(s, k) ==> Has(Pruned(s, fetched, 0), k)
  {
    PruneSound(s, fetched, 0);
    var t := Pruned(s, fetched, 0);
    forall k | k in fetched && Has(s, k) ensures Has(t, k) {
      var i :| 0 <= i < |s| && s[i].key == k;
      assert s[i] in s && Protected(s[i], fetched) && s[i] in t;
    }
    if HasNode(s, node) {
      var x :| x in s && x.key == node && x.node;
      assert Protected(x, fetched) && x in t;
    }
  }

  /** Over any run the keys stay distinct, and a node key stays until it is removed by name. */
  lemma {:induction false} NodeKeysStay(s: seq<Info>, ops: seq<Op>, node: PubKey)
    requires Distinct(s) && Remove(node) !in ops
    ensures Distinct(Exec(s, ops)) && (HasNode(s, node) ==> HasNode(Exec(s, ops), node))
    decreases |ops|
  {
    hide HasNode;
    if ops != [] {
      assert ops[0] in ops;
      OpKeeps(s, ops[0], node);
      hide Apply;
      NodeKeysStay(Apply(s, ops[0]), ops[1..], node);
    }
  }

  lemma OpKeeps(s: seq<Info>, op: Op, node: PubKey)
    requires Distinct(s) && op != Remove(node)
    ensures Distinct(Apply(s, op)) && (HasNode(s, node) ==> HasNode(Apply(s, op), node))
  {
    match op {
      case Add(pk, signer, algo) =>
        AddedDistinct(s, pk, signer, algo);
        if HasNode(s, node) { AddedKeepsNode(s, pk, signer, algo, node); }
      case AddNode(pk, algo) => AddedNodeKeeps(s, pk, algo);
      case Remove(pk) =>
        if Has(s, pk) {
          var i :| 0 <= i < |s| && s[i].key == pk;
          WithoutFacts(s, i);
        }
      case Fetch(pairs, vaults, prune) => FetchKeeps(s, pairs, vaults, prune, node);
      case PruneWith(fetched) => PruneKeepsKeys(s, fetched, node);
    }
  }

  /** The operation cannot take `key` off the list. */
  predicate Spares(op: Op, key: PubKey) {
    match op
    case Add(_, _, _) => true
    case AddNode(_, _) => true
    case Remove(pk) => pk != key
    case Fetch(_, _, prune) => !prune
    case PruneWith(fetched) => key in fetched
  }

  lemma {:induction false} AddAllGrows(s: seq<Info>, pairs: seq<(PubKey, string)>, key: PubKey)
    requires Distinct(s) && Has(s, key)
    ensures Distinct(AddAll(s, pairs)) && Has(AddAll(s, pairs), key)
    decreases |pairs|
  {
    hide Has;
    if pairs != [] {
      var n := |pairs| - 1;
      AddAllGrows(s, pairs[..n], key);
      AddedDistinct(AddAll(s, pairs[..n]), pairs[n].0, false, pairs[n].1);
    }
  }

  lemma OpSpares(s: seq<Info>, op: Op, key: PubKey)
    requires Distinct(s) && Has(s, key) && Spares(op, key)
    ensures Distinct(Apply(s, op)) && Has(Apply(s, op), key)
  {
    match op {
      case Add(pk, signer, algo) => AddedDistinct(s, pk, signer, algo);
      case AddNode(pk, algo) =>
        AddedNodeKeeps(s, pk, algo);
        AddedNodeGrows(s, pk, algo, key);
      case Remove(pk) =>
        if Has(s, pk) {
          var i :| 0 <= i < |s| && s[i].key == pk && Apply(s, op) == Without(s, i);
          WithoutFacts(s, i);
          var k :| 0 <= k < |s| && s[k].key == key;
          assert s[k] in Without(s, i);
        }
      case Fetch(pairs, vaults, _) =>
        if pairs.Some? {
          AddAllGrows(s, pairs.value, key);
          var t := AddAll(s, pairs.value);
          if vaults.Some? { AddVaultsKeeps(t, OwnVaults(vaults.value, NodeKey(t, SECP)), ""); }
        }
      case PruneWith(fetched) => PruneKeepsKeys(s, fetched, "");
    }
  }

  lemma AddedNodeGrows(s: seq<Info>, pk: PubKey, algo: string, key: PubKey)
    requires Has(s, key)
    ensures Has(AddedNode(s, pk, algo), key)
  {
    var i := FirstWith(s, pk);
    AddedNodeAt(s, pk, algo, i);
    var k :| 0 <= k < |s| && s[k].key == key;
    assert AddedNode(s, pk, algo)[k].key == key;
  }

  /** Over any run, a watched key stays that is removed by nobody and fetched for every prune. */
  lemma {:induction false} FetchedKeysStay(s: seq<Info>, ops: seq<Op>, key: PubKey)
    requires Distinct(s) && Has(s, key) && forall op :: op in ops ==> Spares(op, key)
    ensures Has(Exec(s, ops), key)
    decreases |ops|
  {
    hide Apply, Has, Spares;
    if ops != [] {
      assert ops[0] in ops;
      OpSpares(s, ops[0], key);
      FetchedKeysStay(Apply(s, ops[0]), ops[1..], key);
    }
  }
}
