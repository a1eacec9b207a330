/**
  * bifrost/signer/storage.go: the persistent store of outbound items.
  *
  * LevelDB is an ordered map, and the encrypted JSON codec of its values reads back what it wrote.
  * SHA-256 is a pair of functions: `derive` makes storage keys, `digest` is TxOutItem.Hash.
  */
module SignerStore {
  import opened Outcome
  import opened Ordering

  type PubKey = string
  type Chain = string
  type Blob = string

  /** `body` stands for the fields the signer neither reads nor writes. */
  datatype TxOutItem = TxOutItem(chain: Chain, vault: PubKey, vaultEddsa: PubKey, body: Blob)

  datatype TxStatus = TxUnknown | TxAvailable | TxUnavailable | TxSpent

  datatype StoreItem = StoreItem(
    tx: TxOutItem, status: TxStatus, height: int, index: int,
    round7Retry: bool, checkpoint: Blob, signedTx: Blob, retrievalKey: string)

  datatype Hashing = Hashing(
    derive: (TxOutItem, int, int) -> string,
    digest: (Chain, PubKey, Blob) -> string)

  function NewItem(height: int, tx: TxOutItem, index: int): StoreItem {
    StoreItem(tx, TxAvailable, height, index, false, "", "", "")
  }

  /** TxOutItem.Hash does not cover VaultPubKeyEddsa. */
  function Hash(h: Hashing, tx: TxOutItem): string {
    h.digest(tx.chain, tx.vault, tx.body)
  }

  function Key(h: Hashing, item: StoreItem): string {
    if |item.retrievalKey| != 0 then item.retrievalKey else h.derive(item.tx, item.height, item.index)
  }

  /** The retrieval key is not part of the stored value. */
  function Stored(item: StoreItem): StoreItem { item.(retrievalKey := "") }

  function Retrieved(key: string, value: StoreItem): StoreItem { value.(retrievalKey := key) }

  // ---------- listing ----------

  predicate Before(h: Hashing, a: StoreItem, b: StoreItem) {
    a.height < b.height
    || (a.height == b.height
        && (LexLess(Hash(h, a.tx), Hash(h, b.tx))
            || (Hash(h, a.tx) == Hash(h, b.tx) && LexLess(a.retrievalKey, b.retrievalKey))))
  }

  function Order(h: Hashing): (StoreItem, StoreItem) -> bool { (a, b) => Before(h, a, b) }
  function KeyOrder(): (StoreItem, StoreItem) -> bool { (a: StoreItem, b: StoreItem) => LexLess(a.retrievalKey, b.retrievalKey) }
  function HashOrder(h: Hashing): (StoreItem, StoreItem) -> bool { (a: StoreItem, b: StoreItem) => LexLess(Hash(h, a.tx), Hash(h, b.tx)) }
  function HeightOrder(): (StoreItem, StoreItem) -> bool { (a: StoreItem, b: StoreItem) => a.height < b.height }

  /** `x` is what a listing of `db` shows of one unspent entry. */
  predicate Listed(db: map<string, StoreItem>, x: StoreItem) {
    x.retrievalKey in db && x == Retrieved(x.retrievalKey, db[x.retrievalKey]) && x.status != TxSpent
  }

  /** The unspent entries of `db`, each once, in order of (height, hash, key). */
  ghost predicate IsListing(h: Hashing, db: map<string, StoreItem>, all: seq<StoreItem>) {
    && Pairwise(all, Order(h))
    && forall x :: x in all <==> Listed(db, x)
  }

  /** A listing is determined by the stored map alone. */
  lemma ListingUnique(h: Hashing, db: map<string, StoreItem>, a: seq<StoreItem>, b: seq<StoreItem>)
    requires IsListing(h, db, a) && IsListing(h, db, b)
    ensures a == b
  {
    forall x, y | Order(h)(x, y) ensures !Order(h)(y, x) {
      LexAsymmetric(Hash(h, x.tx), Hash(h, y.tx));
      LexAsymmetric(x.retrievalKey, y.retrievalKey);
    }
    SortedUnique(a, b, Order(h));
  }

  lemma LexWeakOrder<T(!new)>(key: T -> string, less: (T, T) -> bool)
    requires forall a, b :: less(a, b) == LexLess(key(a), key(b))
    ensures WeakOrder(less)
  {
    forall a, b | less(a, b) ensures !less(b, a) {
      LexAsymmetric(key(a), key(b));
    }
    forall a, b, c | less(a, c) ensures less(a, b) || less(b, c) {
      LexTotal(key(a), key(b));
      LexTotal(key(b), key(c));
      if LexLess(key(b), key(a)) { LexTransitive(key(b), key(a), key(c)); }
    }
  }

  lemma HashOrderIsWeak(h: Hashing)
    ensures WeakOrder(HashOrder(h))
  {
    LexWeakOrder((x: StoreItem) => Hash(h, x.tx), HashOrder(h));
  }

  lemma HeightOrderIsWeak()
    ensures WeakOrder(HeightOrder())
  {
  }

  /** Two stable sorts over key order make the order of (height, hash, key). */
  lemma TwoStableSorts(h: Hashing, s: seq<StoreItem>)
    requires Pairwise(s, KeyOrder())
    ensures var t := StableSort(StableSort(s, HashOrder(h)), HeightOrder());
            Pairwise(t, Order(h)) && multiset(t) == multiset(s)
  {
    HashOrderIsWeak(h);
    hide WeakOrder, Then;
    assert WeakOrder(HeightOrder()) by { HeightOrderIsWeak(); }
    SortPairwise(s, HashOrder(h), KeyOrder());
    var byHash := StableSort(s, HashOrder(h));
    SortPairwise(byHash, HeightOrder(), Then(HashOrder(h), KeyOrder()));
    var t := StableSort(byHash, HeightOrder());
    forall i, j | 0 <= i < j < |t| ensures Order(h)(t[i], t[j]) {
      ThreeLevels(h, t[i], t[j]);
    }
  }

  lemma ThreeLevels(h: Hashing, a: StoreItem, b: StoreItem)
    requires Then(HeightOrder(), Then(HashOrder(h), KeyOrder()))(a, b)
    ensures Before(h, a, b)
  {
    LexTotal(Hash(h, a.tx), Hash(h, b.tx));
  }

  lemma MinKey(keys: set<string>) returns (m: string)
    requires keys != {}
    ensures m in keys && forall k :: k in keys ==> k == m || LexLess(m, k)
  {
    var k0 :| k0 in keys;
    if keys == {k0} {
      m := k0;
    } else {
      var rest := keys - {k0};
      m := MinKey(rest);
      LexTotal(m, k0);
      if LexLess(k0, m) {
        forall k | k in keys ensures k == k0 || LexLess(k0, k) {
          if k in rest && k != m { LexTransitive(k0, m, k); }
        }
        m := k0;
      }
    }
  }

  function Lookup(db: map<string, StoreItem>, key: string): Option<StoreItem> {
    if key in db then Some(Retrieved(key, db[key])) else None
  }

  /**
    * A retrieved item, changed in any way: storing it and reading its key gives it back as changed,
    * removing it leaves nothing under its key, and neither shows under another key.
    */
  lemma ReadsBack(h: Hashing, db: map<string, StoreItem>, got: StoreItem, item: StoreItem, other: string)
    requires got.retrievalKey != "" && Lookup(db, got.retrievalKey) == Some(got)
    requires item.retrievalKey == got.retrievalKey != other
    ensures var written, removed := db[Key(h, item) := Stored(item)], db - {Key(h, item)};
            && Lookup(written, got.retrievalKey) == Some(item) && Lookup(removed, got.retrievalKey) == None
            && Lookup(written, other) == Lookup(removed, other) == Lookup(db, other)
  {
  }

  class Store {
    const hashing: Hashing
    var db: map<string, StoreItem>

    constructor (hashing: Hashing)
      ensures this.hashing == hashing && db == map[]
    {
      this.hashing := hashing;
      db := map[];
    }

    /**
      * A retrieved item overwrites the entry it came from, whatever happened to its fields since.
      * `ok` says whether encoding and writing work.
      */
    method Set(item: StoreItem, ok: bool)
      modifies this
      ensures db == if ok then old(db)[Key(hashing, item) := Stored(item)] else old(db)
      ensures item.retrievalKey != "" ==> forall k :: k in old(db) && k != item.retrievalKey ==> k in db && db[k] == old(db[k])
    {
      if ok { db := db[Key(hashing, item) := Stored(item)]; }
    }

    /** `encoded` items can be encoded before one fails; `ok` says whether the batch is written. */
    method Batch(items: seq<StoreItem>, encoded: nat, ok: bool)
      modifies this
      ensures db == if encoded >= |items| && ok then AfterBatch(hashing, old(db), items) else old(db)
    {
      var batch := map[];
      var i := 0;
      while i < |items|
        invariant 0 <= i <= |items| && i <= encoded
        invariant db == old(db)
        invariant db + batch == AfterBatch(hashing, db, items[..i])
      {
        if i >= encoded { return; }
        assert items[..i + 1][..i] == items[..i];
        var before := batch;
        batch := batch[Key(hashing, items[i]) := Stored(items[i])];
        assert db + batch == (db + before)[Key(hashing, items[i]) := Stored(items[i])];
        i := i + 1;
      }
      assert items[..i] == items;
      if ok { db := db + batch; }
    }

    method Get(key: string) returns (item: Option<StoreItem>)
      ensures item == Lookup(db, key)
    {
      if key !in db { return None; }
      return Some(Retrieved(key, db[key]));
    }

    method Remove(item: StoreItem, ok: bool)
      modifies this
      ensures db == if ok then old(db) - {Key(hashing, item)} else old(db)
    {
      if ok { db := db - {Key(hashing, item)}; }
    }

    method List() returns (results: seq<StoreItem>)
      ensures IsListing(hashing, db, results)
    {
      results := [];
      var left := db.Keys;
      while left != {}
        invariant left <= db.Keys
        invariant forall x :: x in results <==> Listed(db, x) && x.retrievalKey !in left
        invariant Pairwise(results, KeyOrder())
        invariant forall x, k :: x in results && k in left ==> LexLess(x.retrievalKey, k)
        decreases left
      {
        ghost var m := MinKey(left);
        var key :| key in left && forall k :: k in left ==> k == key || LexLess(key, k);
        var item := Retrieved(key, db[key]);
        left := left - {key};
        if item.status != TxSpent {
          results := results + [item];
        }
      }
      ghost var byKey := results;
      TwoStableSorts(hashing, results);
      results := StableSort(StableSort(results, HashOrder(hashing)), HeightOrder());
      forall x ensures x in results <==> Listed(db, x) {
        assert x in results <==> x in multiset(results);
        assert x in byKey <==> x in multiset(byKey);
      }
    }
  }

  function AfterBatch(h: Hashing, db: map<string, StoreItem>, items: seq<StoreItem>): map<string, StoreItem> {
    if items == [] then db
    else
      var n := |items| - 1;
      AfterBatch(h, db, items[..n])[Key(h, items[n]) := Stored(items[n])]
  }

  /**
    * Writing back a listed item with new flags, bytes or EdDSA key replaces it where it stands:
    * the rest of the listing and its order do not move.
    */
  lemma SetKeepsPlace(h: Hashing, db: map<string, StoreItem>, all: seq<StoreItem>, i: nat, item: StoreItem)
    requires IsListing(h, db, all) && i < |all|
    requires all[i].retrievalKey != ""
    requires item == all[i].(tx := all[i].tx.(vaultEddsa := item.tx.vaultEddsa), round7Retry := item.round7Retry,
                             checkpoint := item.checkpoint, signedTx := item.signedTx)
    ensures IsListing(h, db[Key(h, item) := Stored(item)], all[i := item])
  {
    var k := all[i].retrievalKey;
    var db' := db[k := Stored(item)];
    var all' := all[i := item];
    assert Hash(h, item.tx) == Hash(h, all[i].tx);
    assert Pairwise(all', Order(h));
    assert all[i] in all && Listed(db, all[i]) && Listed(db', item);
    forall x ensures x in all' <==> Listed(db', x) {
      if x in all' {
        var j :| 0 <= j < |all'| && all'[j] == x;
        if j != i {
          assert all[j] == x && all[j] in all && Listed(db, x);
          DistinctKeys(h, all, i, j);
        }
      }
      if Listed(db', x) {
        if x.retrievalKey == k {
          assert all'[i] == x;
        } else {
          assert Listed(db, x);
          var j :| 0 <= j < |all| && all[j] == x;
          assert all'[j] == x;
        }
      }
    }
  }

  /** Removing a listed item, whatever was changed in it, takes just it out of the listing. */
  lemma RemoveDropsPlace(h: Hashing, db: map<string, StoreItem>, all: seq<StoreItem>, i: nat, item: StoreItem)
    requires IsListing(h, db, all) && i < |all|
    requires item.retrievalKey == all[i].retrievalKey != ""
    ensures IsListing(h, db - {Key(h, item)}, all[..i] + all[i + 1..])
  {
    hide Listed;
    PairwiseCut(all, i, Order(h));
    forall x ensures x in all[..i] + all[i + 1..] <==> Listed(db - {item.retrievalKey}, x) {
      CutMember(h, db, all, i, x);
    }
  }

  lemma PairwiseCut<T>(s: seq<T>, i: nat, r: (T, T) -> bool)
    requires Pairwise(s, r) && i < |s|
    ensures Pairwise(s[..i] + s[i + 1..], r)
  {
    var t := s[..i] + s[i + 1..];
    forall a, b | 0 <= a < b < |t| ensures r(t[a], t[b]) {
      assert t[a] == s[if a < i then a else a + 1] && t[b] == s[if b < i then b else b + 1];
    }
  }

  lemma CutMember(h: Hashing, db: map<string, StoreItem>, all: seq<StoreItem>, i: nat, x: StoreItem)
    requires IsListing(h, db, all) && i < |all|
    ensures x in all[..i] + all[i + 1..] <==> Listed(db - {all[i].retrievalKey}, x)
  {
    var rest := all[..i] + all[i + 1..];
    CutIn(all, i, x);
    assert all[i] in all;
    if x in rest {
      var c := CutFrom(all, i, x);
      DistinctKeys(h, all, i, c);
    }
  }

  lemma CutIn<T>(s: seq<T>, i: nat, x: T)
    requires i < |s|
    ensures x in s <==> x in s[..i] + s[i + 1..] || x == s[i]
  {
    assert s == s[..i] + [s[i]] + s[i + 1..];
  }

  lemma CutFrom<T>(s: seq<T>, i: nat, x: T) returns (c: nat)
    requires i < |s| && x in s[..i] + s[i + 1..]
    ensures c < |s| && c != i && s[c] == x
  {
    var t := s[..i] + s[i + 1..];
    var a :| 0 <= a < |t| && t[a] == x;
    c := if a < i then a else a + 1;
  }

  lemma DistinctKeys(h: Hashing, all: seq<StoreItem>, i: nat, j: nat)
    requires Pairwise(all, Order(h)) && i < |all| && j < |all| && i != j
    requires forall x, y :: x in all && y in all && x.retrievalKey == y.retrievalKey ==> x == y
    ensures all[i].retrievalKey != all[j].retrievalKey
  {
    assert Order(h)(all[if i < j then i else j], all[if i < j then j else i]);
    LexAsymmetric(Hash(h, all[i].tx), Hash(h, all[j].tx));
    LexAsymmetric(all[i].retrievalKey, all[j].retrievalKey);
  }
}
