/**
  * The observer's on-deck queue, bifrost/observer/observe.go, as values: sorting and cutting into
  * chunks, what a pass over the deck keeps and what the network accepts, merging of arrivals, and
  * removal of transactions that a re-organisation undid. `Observer` has the methods.
  */
module Deck {
  import opened Ordering

  type Chain = string

  /** `body` is everything else about the transaction, the observed vault included. */
  datatype Item = Item(height: int, tx: string, body: string)

  /** One deck entry, and also one chunk sent to the network. The count text is left out. */
  datatype TxIn = TxIn(chain: Chain, txs: seq<Item>, filtered: bool, memPool: bool,
                       sentUnFinalised: bool, finalised: bool, confirmations: int)

  const MAX_CHUNK := 100

  /** Chains whose entries may hold several blocks. */
  const BUNDLING: set<Chain> := {"ARB", "BNB", "KUJI", "XRD"}

  // ---------- sorting and chunks ----------

  predicate Lower(a: Item, b: Item) { a.height < b.height }

  function ByHeight(txs: seq<Item>): seq<Item> { StableSort(txs, Lower) }

  function AtHeight(txs: seq<Item>, h: int): seq<Item> {
    if txs == [] then []
    else AtHeight(txs[..|txs| - 1], h) + (if txs[|txs| - 1].height == h then [txs[|txs| - 1]] else [])
  }

  lemma AtHeightSnoc(txs: seq<Item>, x: Item, h: int)
    ensures AtHeight(txs + [x], h) == AtHeight(txs, h) + (if x.height == h then [x] else [])
  {
  }

  lemma {:induction false} InsertAtHeight(s: seq<Item>, x: Item, h: int)
    ensures AtHeight(Insert(s, x, Lower), h) == AtHeight(s + [x], h)
  {
    if s != [] && Lower(x, s[|s| - 1]) {
      var init, last := s[..|s| - 1], s[|s| - 1];
      var t := Insert(init, x, Lower);
      assert Insert(s, x, Lower) == t + [last] && s == init + [last];
      InsertAtHeight(init, x, h);
      hide Insert, AtHeight;
      AtHeightSnoc(t, last, h);
      AtHeightSnoc(init, x, h);
      AtHeightSnoc(init, last, h);
      AtHeightSnoc(s, x, h);
    }
  }

  /** Sorted by height, and every block's transactions stay in the order they had. */
  lemma {:induction false} ByHeightIsStable(txs: seq<Item>, h: int)
    ensures AtHeight(ByHeight(txs), h) == AtHeight(txs, h)
    ensures forall i, j :: 0 <= i < j < |txs| ==> ByHeight(txs)[i].height <= ByHeight(txs)[j].height
  {
    SortSorted(txs, Lower);
    assert forall i, j :: 0 <= i < j < |txs| ==> !Lower(ByHeight(txs)[j], ByHeight(txs)[i]);
    if txs != [] {
      var init, last := txs[..|txs| - 1], txs[|txs| - 1];
      ByHeightIsStable(init, h);
      InsertAtHeight(ByHeight(init), last, h);
      AtHeightSnoc(ByHeight(init), last, h);
    }
  }

  function Concat<T>(cs: seq<seq<T>>): seq<T> {
    if cs == [] then [] else cs[0] + Concat(cs[1..])
  }

  /** Chunks join up to `s`; none is empty or too long; only the last may be short. */
  ghost predicate IsChunking(s: seq<Item>, cs: seq<seq<Item>>) {
    && Concat(cs) == s
    && forall i :: 0 <= i < |cs| ==> 0 < |cs[i]| <= MAX_CHUNK && (i < |cs| - 1 ==> |cs[i]| == MAX_CHUNK)
  }

  function Chunks(s: seq<Item>): seq<seq<Item>> {
    if s == [] then [] else if |s| > MAX_CHUNK then [s[..MAX_CHUNK]] + Chunks(s[MAX_CHUNK..]) else [s]
  }

  /** There is exactly one such way to cut. */
  lemma {:induction false} ChunkingIff(s: seq<Item>, cs: seq<seq<Item>>)
    ensures IsChunking(s, cs) <==> cs == Chunks(s)
    decreases |s| + |cs|
  {
    if cs == [] {
    } else if s == [] {
      assert Concat(cs) == cs[0] + Concat(cs[1..]);
    } else {
      var c, rest := cs[0], cs[1..];
      assert cs == [c] + rest;
      if |s| > MAX_CHUNK {
        ChunkingIff(s[MAX_CHUNK..], rest);
        if IsChunking(s, cs) {
          assert rest != [];
          assert s[..MAX_CHUNK] == c && s[MAX_CHUNK..] == Concat(rest);
        }
        if cs == Chunks(s) {
          assert c + s[MAX_CHUNK..] == s;
        }
      } else {
        assert Concat(cs) == c + Concat(rest);
        if rest != [] {
          assert rest[0] == cs[1] && Concat(rest) == rest[0] + Concat(rest[1..]);
        }
        assert rest == [] ==> cs == [c] && Concat(cs) == c;
      }
    }
  }

  // ---------- one pass over the deck ----------

  /**
    * What the surroundings answer during one pass: the supported chains, and by deck index the
    * filtered transactions, the confirmation count, whether enough blocks have passed, and whether
    * the network accepts a chunk (deck index, chunk index).
    */
  datatype Answers = Answers(supported: set<Chain>, filter: nat -> seq<Item>, confirmations: nat -> int,
                             ready: nat -> bool, ok: (nat, nat) -> bool)

  function Prepared(e: TxIn, a: Answers, i: nat): TxIn {
    if e.filtered then e else e.(txs := a.filter(i), confirmations := a.confirmations(i))
  }

  /** The transactions of the rejected chunks from `j` on, in order. */
  function Rejected(cs: seq<seq<Item>>, a: Answers, i: nat, j: nat): seq<Item>
    decreases |cs| - j
  {
    if j >= |cs| then [] else (if a.ok(i, j) then [] else cs[j]) + Rejected(cs, a, i, j + 1)
  }

  /** The chunks the network accepts, with the header of entry `p`. */
  function Accepted(p: TxIn, cs: seq<seq<Item>>, a: Answers, i: nat, j: nat): seq<TxIn>
    decreases |cs| - j
  {
    if j >= |cs| then [] else (if a.ok(i, j) then [p.(txs := cs[j])] else []) + Accepted(p, cs, a, i, j + 1)
  }

  /** Whether the pass sends the entry at all: finalised once ready, otherwise at most once. */
  predicate Sends(p: TxIn, a: Answers, i: nat) { a.ready(i) || !p.sentUnFinalised }

  function EntryAccepted(e: TxIn, a: Answers, i: nat): seq<TxIn> {
    var p := Prepared(e, a, i);
    if Sends(p, a, i) then Accepted(p.(finalised := a.ready(i)), Chunks(ByHeight(p.txs)), a, i, 0) else []
  }

  /** The entry for the next deck; dropped when it holds no transaction. */
  function Kept(e: TxIn, a: Answers, i: nat): TxIn {
    var p := Prepared(e, a, i);
    var left := if Sends(p, a, i) then Rejected(Chunks(ByHeight(p.txs)), a, i, 0) else p.txs;
    p.(filtered := true, finalised := false,
       txs := if a.ready(i) then left else p.txs,
       sentUnFinalised := p.sentUnFinalised || (!a.ready(i) && left == []))
  }

  function NewDeck(deck: seq<TxIn>, a: Answers, n: nat): seq<TxIn>
    requires n <= |deck|
  {
    if n == 0 then []
    else
      var e := deck[n - 1];
      NewDeck(deck, a, n - 1)
      + (if e.chain in a.supported && Kept(e, a, n - 1).txs != [] then [Kept(e, a, n - 1)] else [])
  }

  function AllAccepted(deck: seq<TxIn>, a: Answers, n: nat): seq<TxIn>
    requires n <= |deck|
  {
    if n == 0 then []
    else
      var e := deck[n - 1];
      AllAccepted(deck, a, n - 1) + (if e.chain in a.supported then EntryAccepted(e, a, n - 1) else [])
  }

  // ---------- conservation for one entry ----------

  /** All transactions of a deck or of several chunks. */
  function Txs(deck: seq<TxIn>): seq<Item> {
    if deck == [] then [] else deck[0].txs + Txs(deck[1..])
  }

  lemma {:induction false} TxsConcat(d: seq<TxIn>, e: seq<TxIn>)
    ensures Txs(d + e) == Txs(d) + Txs(e)
  {
    if d == [] {
      assert d + e == e;
    } else {
      var rest := d[1..];
      TxsConcat(rest, e);
      assert Txs(d + e) == d[0].txs + Txs(rest + e) by { assert (d + e)[1..] == rest + e; }
      assert Txs(d) == d[0].txs + Txs(rest);
      hide Txs;
      Associative(d[0].txs, Txs(rest), Txs(e));
    }
  }

  lemma Associative<T>(a: seq<T>, b: seq<T>, c: seq<T>)
    ensures a + (b + c) == (a + b) + c
  {
  }

  lemma TxsOne(e: TxIn)
    ensures Txs([e]) == e.txs
  {
  }

  /** The transactions of finalised chunks. */
  function Finalised(chunks: seq<TxIn>): seq<TxIn> {
    if chunks == [] then []
    else
      var n := |chunks| - 1;
      Finalised(chunks[..n]) + (if chunks[n].finalised then [chunks[n]] else [])
  }

  lemma {:induction false} FinalisedConcat(c: seq<TxIn>, d: seq<TxIn>)
    ensures Finalised(c + d) == Finalised(c) + Finalised(d)
  {
    if d == [] {
      assert c + d == c;
    } else {
      var n := |d| - 1;
      FinalisedConcat(c, d[..n]);
      assert (c + d)[..|c| + n] == c + d[..n];
    }
  }

  lemma {:induction false} FinalisedAll(chunks: seq<TxIn>, flag: bool)
    requires forall c :: c in chunks ==> c.finalised == flag
    ensures Finalised(chunks) == if flag then chunks else []
  {
    if chunks != [] {
      var n := |chunks| - 1;
      FinalisedAll(chunks[..n], flag);
      assert chunks == chunks[..n] + [chunks[n]];
    }
  }

  lemma {:induction false} SendSplits(p: TxIn, cs: seq<seq<Item>>, a: Answers, i: nat, j: nat)
    requires j <= |cs|
    ensures multiset(Rejected(cs, a, i, j)) + multiset(Txs(Accepted(p, cs, a, i, j))) == multiset(Concat(cs[j..]))
    decreases |cs| - j
  {
    if j == |cs| {
      return;
    }
    SendSplits(p, cs, a, i, j + 1);
    SendOne(p, cs, a, i, j);
    hide Rejected, Accepted, Txs, Concat;
  }

  /** One chunk goes one way or the other. */
  lemma SendOne(p: TxIn, cs: seq<seq<Item>>, a: Answers, i: nat, j: nat)
    requires j < |cs|
    ensures Rejected(cs, a, i, j) == (if a.ok(i, j) then [] else cs[j]) + Rejected(cs, a, i, j + 1)
    ensures Txs(Accepted(p, cs, a, i, j)) == (if a.ok(i, j) then cs[j] else []) + Txs(Accepted(p, cs, a, i, j + 1))
    ensures Concat(cs[j..]) == cs[j] + Concat(cs[j + 1..])
  {
    var one, rest := p.(txs := cs[j]), Accepted(p, cs, a, i, j + 1);
    assert cs[j..][1..] == cs[j + 1..];
    if a.ok(i, j) {
      assert Accepted(p, cs, a, i, j) == [one] + rest;
      assert ([one] + rest)[1..] == rest;
    } else {
      assert Accepted(p, cs, a, i, j) == [] + rest == rest;
    }
  }

  lemma {:induction false} AcceptedHeader(p: TxIn, cs: seq<seq<Item>>, a: Answers, i: nat, j: nat, c: TxIn)
    requires c in Accepted(p, cs, a, i, j)
    ensures c == p.(txs := c.txs)
    decreases |cs| - j
  {
    if j < |cs| && !(a.ok(i, j) && c == p.(txs := cs[j])) {
      AcceptedHeader(p, cs, a, i, j + 1, c);
    }
  }

  /**
    * Nothing is lost or duplicated by a pass: the filtered transactions of an entry are those in
    * chunks accepted as finalised plus those kept; and an entry that still waits keeps them all.
    */
  lemma EntryConserved(e: TxIn, a: Answers, i: nat)
    ensures multiset(Prepared(e, a, i).txs) == multiset(Kept(e, a, i).txs) + multiset(Txs(Finalised(EntryAccepted(e, a, i))))
    ensures !a.ready(i) ==> Kept(e, a, i).txs == Prepared(e, a, i).txs
    ensures forall c :: c in EntryAccepted(e, a, i) ==> c.finalised == a.ready(i)
  {
    var p := Prepared(e, a, i);
    var q, cs := p.(finalised := a.ready(i)), Chunks(ByHeight(p.txs));
    ChunkingIff(ByHeight(p.txs), cs);
    SendSplits(q, cs, a, i, 0);
    forall c | c in Accepted(q, cs, a, i, 0) ensures c.finalised == a.ready(i) {
      AcceptedHeader(q, cs, a, i, 0, c);
    }
    assert cs[0..] == cs;
    hide Chunks, ByHeight, Accepted, Rejected;
    FinalisedAll(EntryAccepted(e, a, i), a.ready(i));
  }

  /**
    * Across passes: a kept entry is not filtered again; and while it waits it is offered again, whole,
    * exactly if some chunk was rejected the time before.
    */
  lemma NextPass(e: TxIn, a: Answers, i: nat, b: Answers, j: nat)
    requires !a.ready(i) && !b.ready(j)
    ensures Prepared(Kept(e, a, i), b, j) == Kept(e, a, i)
    ensures Sends(Prepared(e, a, i), a, i) ==>
              (Sends(Kept(e, a, i), b, j) <==> Rejected(Chunks(ByHeight(Prepared(e, a, i).txs)), a, i, 0) != [])
    ensures !Sends(Prepared(e, a, i), a, i) ==> EntryAccepted(Kept(e, a, i), b, j) == []
  {
  }

  // ---------- arrivals ----------

  /** The entry can take the arrival in. */
  predicate Matches(e: TxIn, txIn: TxIn) {
    && e.chain == txIn.chain && e.memPool == txIn.memPool && e.filtered == txIn.filtered
    && (e.chain in BUNDLING || e.txs == [] || txIn.txs == [] || e.txs[0].height == txIn.txs[0].height)
  }

  /** The arrival joins the first entry that can take it, or becomes an entry of its own. */
  function Merge(deck: seq<TxIn>, txIn: TxIn): seq<TxIn> {
    if deck == [] then [txIn]
    else if Matches(deck[0], txIn) then [deck[0].(txs := deck[0].txs + txIn.txs)] + deck[1..]
    else [deck[0]] + Merge(deck[1..], txIn)
  }

  lemma {:induction false} MergeAdds(deck: seq<TxIn>, txIn: TxIn)
    ensures multiset(Txs(Merge(deck, txIn))) == multiset(Txs(deck)) + multiset(txIn.txs)
  {
    if deck == [] {
      TxsOne(txIn);
    } else {
      var e, rest := deck[0], deck[1..];
      MergeAdds(rest, txIn);
      if Matches(e, txIn) {
        var e' := e.(txs := e.txs + txIn.txs);
        assert ([e'] + rest)[1..] == rest;
      } else {
        assert ([e] + Merge(rest, txIn))[1..] == Merge(rest, txIn);
      }
    }
  }

  // ---------- re-organised transactions ----------

  function RemoveFirst(txs: seq<Item>, id: string): seq<Item> {
    if txs == [] then [] else if txs[0].tx == id then txs[1..] else [txs[0]] + RemoveFirst(txs[1..], id)
  }

  /** An entry after an errata block: each listed id takes out its first occurrence. */
  function Erase(txs: seq<Item>, ids: seq<string>): seq<Item> {
    if ids == [] then txs else RemoveFirst(Erase(txs, ids[..|ids| - 1]), ids[|ids| - 1])
  }

  function Occurrences(txs: seq<Item>, id: string): nat {
    if txs == [] then 0 else (if txs[0].tx == id then 1 else 0) + Occurrences(txs[1..], id)
  }

  function Others(txs: seq<Item>, ids: seq<string>): seq<Item> {
    if txs == [] then [] else (if txs[0].tx in ids then [] else [txs[0]]) + Others(txs[1..], ids)
  }

  lemma {:induction false} RemoveFirstFacts(txs: seq<Item>, id: string, other: string, ids: seq<string>)
    ensures Occurrences(RemoveFirst(txs, id), other)
         == if other == id && Occurrences(txs, id) > 0 then Occurrences(txs, id) - 1 else Occurrences(txs, other)
    ensures id in ids ==> Others(RemoveFirst(txs, id), ids) == Others(txs, ids)
    ensures multiset(RemoveFirst(txs, id)) <= multiset(txs)
  {
    if txs != [] {
      assert txs == [txs[0]] + txs[1..];
      if txs[0].tx != id {
        RemoveFirstFacts(txs[1..], id, other, ids);
        var r := RemoveFirst(txs[1..], id);
        assert ([txs[0]] + r)[1..] == r;
      }
    }
  }

  /** Every id loses as many occurrences as it is listed; everything else stays, in order. */
  lemma {:induction false} EraseExact(txs: seq<Item>, ids: seq<string>, id: string, all: seq<string>)
    requires forall x :: x in ids ==> x in all
    ensures var n, m := Occurrences(txs, id), multiset(ids)[id];
            Occurrences(Erase(txs, ids), id) == if n > m then n - m else 0
    ensures Others(Erase(txs, ids), all) == Others(txs, all)
    ensures multiset(Erase(txs, ids)) <= multiset(txs)
    decreases |ids|
  {
    if ids != [] {
      var init, last := ids[..|ids| - 1], ids[|ids| - 1];
      assert ids == init + [last];
      assert forall x :: x in init ==> x in ids;
      EraseExact(txs, init, id, all);
      RemoveFirstFacts(Erase(txs, init), last, id, all);
    }
  }

  lemma {:induction false} OccurrencesZero(txs: seq<Item>, id: string)
    ensures Occurrences(txs, id) == 0 <==> forall x :: x in txs ==> x.tx != id
  {
    if txs != [] {
      OccurrencesZero(txs[1..], id);
      assert txs == [txs[0]] + txs[1..];
    }
  }

  /**
    * An undone transaction is gone from an entry exactly when the block lists it at least as often
    * as the entry holds it. An internal transaction is held twice and usually listed once.
    */
  lemma GoneIff(txs: seq<Item>, ids: seq<string>, id: string)
    ensures (forall x :: x in Erase(txs, ids) ==> x.tx != id) <==> Occurrences(txs, id) <= multiset(ids)[id]
  {
    EraseExact(txs, ids, id, ids);
    OccurrencesZero(Erase(txs, ids), id);
  }

  lemma InternalStays(a: Item, b: Item)
    requires a.tx == b.tx
    ensures Erase([a, b], [a.tx]) == [b]
  {
  }
}
