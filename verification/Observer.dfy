/**
  * The observer and its on-deck queue, bifrost/observer/observe.go: each method does to the fields
  * what the functions of `Deck` say.
  */
module Observer {
  import opened Ordering
  import opened Deck

  function Arrays(chunks: seq<TxIn>): seq<seq<Item>> {
    seq(|chunks|, i requires 0 <= i < |chunks| => chunks[i].txs)
  }

  /** chunkify: sorts, then cuts from the front while anything is left. */
  method Chunkify(txIn: TxIn) returns (result: seq<TxIn>)
    ensures Arrays(result) == Chunks(ByHeight(txIn.txs))
    ensures forall c :: c in result ==> c == txIn.(txs := c.txs)
  {
    var rest := StableSort(txIn.txs, Lower);
    result := [];
    while |rest| > 0
      invariant Arrays(result) + Chunks(rest) == Chunks(ByHeight(txIn.txs))
      invariant forall c :: c in result ==> c == txIn.(txs := c.txs)
      decreases |rest|
    {
      ghost var before := result;
      if |rest| > MAX_CHUNK {
        result := result + [txIn.(txs := rest[..MAX_CHUNK])];
        assert Arrays(result) == Arrays(before) + [rest[..MAX_CHUNK]];
        rest := rest[MAX_CHUNK..];
      } else {
        result := result + [txIn.(txs := rest)];
        assert Arrays(result) == Arrays(before) + [rest];
        rest := [];
      }
    }
  }

  /** One step of a send, for both results. */
  lemma SendStep(p: TxIn, cs: seq<seq<Item>>, a: Answers, i: nat, j: nat, left: seq<Item>, sent: seq<TxIn>)
    requires j < |cs|
    ensures left + Rejected(cs, a, i, j) == (if a.ok(i, j) then left else left + cs[j]) + Rejected(cs, a, i, j + 1)
    ensures sent + Accepted(p, cs, a, i, j)
         == (if a.ok(i, j) then sent + [p.(txs := cs[j])] else sent) + Accepted(p, cs, a, i, j + 1)
  {
  }

  class Observer {
    var onDeck: seq<TxIn>
    /** The deck in the key-value store. */
    var stored: seq<TxIn>
    /** The chunks the network has accepted. */
    var accepted: seq<TxIn>

    constructor ()
      ensures onDeck == [] && stored == [] && accepted == []
    {
      onDeck, stored, accepted := [], [], [];
    }

    /** restoreDeck: a failed read leaves an empty deck. */
    method RestoreDeck(readOk: bool)
      modifies `onDeck
      ensures onDeck == if readOk then stored else []
    {
      onDeck := if readOk then stored else [];
    }

    method ChunkifyAndSend(deck: TxIn, finalised: bool, a: Answers, i: nat) returns (left: seq<Item>)
      modifies `accepted
      ensures left == Rejected(Chunks(ByHeight(deck.txs)), a, i, 0)
      ensures accepted == old(accepted) + Accepted(deck.(finalised := finalised), Chunks(ByHeight(deck.txs)), a, i, 0)
    {
      var chunks := Chunkify(deck.(finalised := finalised));
      ghost var p, cs := deck.(finalised := finalised), Chunks(ByHeight(deck.txs));
      hide Chunks, ByHeight, Rejected, Accepted;
      left := [];
      var j := 0;
      while j < |chunks|
        invariant 0 <= j <= |chunks|
        invariant left + Rejected(cs, a, i, j) == Rejected(cs, a, i, 0)
        invariant accepted + Accepted(p, cs, a, i, j) == old(accepted) + Accepted(p, cs, a, i, 0)
      {
        SendStep(p, cs, a, i, j, left, accepted);
        assert cs[j] == chunks[j].txs && chunks[j] in chunks;
        if !a.ok(i, j) {
          left := left + chunks[j].txs;
        } else {
          accepted := accepted + [chunks[j]];
        }
        j := j + 1;
      }
      SendEnd(p, cs, a, i, j);
    }

    method SendEntry(e: TxIn, a: Answers, i: nat) returns (kept: TxIn)
      modifies `accepted
      ensures kept == Kept(e, a, i) && accepted == old(accepted) + EntryAccepted(e, a, i)
    {
      hide Chunks, ByHeight, Rejected, Accepted;
      var deck := e;
      if !deck.filtered {
        deck := deck.(txs := a.filter(i), confirmations := a.confirmations(i));
      }
      kept := TxIn(deck.chain, [], true, deck.memPool, deck.sentUnFinalised, false, deck.confirmations);
      if !a.ready(i) {
        kept := kept.(txs := kept.txs + deck.txs);
        if !deck.sentUnFinalised {
          var left := ChunkifyAndSend(deck, false, a, i);
          if |left| == 0 {
            kept := kept.(sentUnFinalised := true);
          }
        }
      } else {
        var left := ChunkifyAndSend(deck, true, a, i);
        if |left| > 0 {
          kept := kept.(txs := kept.txs + left);
        }
      }
    }

    method SendDeck(a: Answers, saveOk: bool)
      modifies this
      ensures onDeck == NewDeck(old(onDeck), a, |old(onDeck)|)
      ensures accepted == old(accepted) + AllAccepted(old(onDeck), a, |old(onDeck)|)
      ensures stored == if saveOk then onDeck else old(stored)
    {
      hide Kept, EntryAccepted;
      var newDeck: seq<TxIn> := [];
      var i := 0;
      while i < |onDeck|
        invariant 0 <= i <= |onDeck| && onDeck == old(onDeck) && stored == old(stored)
        invariant newDeck == NewDeck(onDeck, a, i)
        invariant accepted == old(accepted) + AllAccepted(onDeck, a, i)
      {
        var e := onDeck[i];
        if e.chain in a.supported {
          var kept := SendEntry(e, a, i);
          if |kept.txs| > 0 {
            newDeck := newDeck + [kept];
          }
        }
        i := i + 1;
      }
      if saveOk { stored := newDeck; }
      onDeck := newDeck;
    }

    /** One round of processTxIns, under the lock. */
    method ProcessTxIn(txIn: TxIn, saveOk: bool)
      modifies `onDeck, `stored
      ensures onDeck == Merge(old(onDeck), txIn) && stored == if saveOk then onDeck else old(stored)
    {
      JoinTxIn(txIn);
      SaveDeck(saveOk);
    }

    method SaveDeck(ok: bool)
      modifies `stored
      ensures stored == if ok then onDeck else old(stored)
    {
      if ok { stored := onDeck; }
    }

    method JoinTxIn(txIn: TxIn)
      modifies `onDeck
      ensures onDeck == Merge(old(onDeck), txIn)
    {
      var i := 0;
      while i < |onDeck| && !Matches(onDeck[i], txIn)
        invariant 0 <= i <= |onDeck| && onDeck == old(onDeck)
        invariant forall k :: 0 <= k < i ==> !Matches(onDeck[k], txIn)
      {
        i := i + 1;
      }
      MergeAt(onDeck, txIn, i);
      if i < |onDeck| {
        onDeck := onDeck[i := onDeck[i].(txs := onDeck[i].txs + txIn.txs)];
      } else {
        onDeck := onDeck + [txIn];
      }
    }

    /** filterErrataTx: the deck is not saved. */
    method FilterErrata(ids: seq<string>)
      modifies `onDeck
      ensures onDeck == ErasedDeck(old(onDeck), ids)
    {
      var k := 0;
      assert onDeck == ErasedDeck(onDeck, []);
      while k < |ids|
        invariant 0 <= k <= |ids| && onDeck == ErasedDeck(old(onDeck), ids[..k])
      {
        assert ids[..k + 1][..k] == ids[..k];
        EraseId(ids[k]);
        assert onDeck == ErasedDeck(old(onDeck), ids[..k + 1]);
        k := k + 1;
      }
      assert ids[..k] == ids;
    }

    method EraseId(id: string)
      modifies `onDeck
      ensures |onDeck| == |old(onDeck)|
      ensures forall d :: 0 <= d < |onDeck| ==> onDeck[d] == old(onDeck)[d].(txs := RemoveFirst(old(onDeck)[d].txs, id))
    {
      var d := 0;
      while d < |onDeck|
        invariant 0 <= d <= |onDeck| == |old(onDeck)|
        invariant forall c :: 0 <= c < d ==> onDeck[c] == old(onDeck)[c].(txs := RemoveFirst(old(onDeck)[c].txs, id))
        invariant forall c :: d <= c < |onDeck| ==> onDeck[c] == old(onDeck)[c]
      {
        var txs := onDeck[d].txs;
        var idx := IndexOf(txs, id);
        RemoveFirstAt(txs, id, if idx == -1 then |txs| else idx);
        if idx != -1 {
          onDeck := onDeck[d := onDeck[d].(txs := txs[..idx] + txs[idx + 1..])];
        }
        d := d + 1;
      }
    }
  }

  lemma SendEnd(p: TxIn, cs: seq<seq<Item>>, a: Answers, i: nat, j: nat)
    requires j >= |cs|
    ensures Rejected(cs, a, i, j) == [] && Accepted(p, cs, a, i, j) == []
  {
  }

  /** The deck after an errata block. */
  function ErasedDeck(deck: seq<TxIn>, ids: seq<string>): seq<TxIn> {
    seq(|deck|, d requires 0 <= d < |deck| => deck[d].(txs := Erase(deck[d].txs, ids)))
  }

  /** The first index of `id`, or -1. */
  method IndexOf(txs: seq<Item>, id: string) returns (idx: int)
    ensures -1 <= idx < |txs| && (idx != -1 ==> txs[idx].tx == id)
    ensures forall k :: 0 <= k < (if idx == -1 then |txs| else idx) ==> txs[k].tx != id
  {
    idx := 0;
    while idx < |txs|
      invariant 0 <= idx <= |txs| && forall k :: 0 <= k < idx ==> txs[k].tx != id
    {
      if txs[idx].tx == id { return; }
      idx := idx + 1;
    }
    return -1;
  }

  lemma {:induction false} RemoveFirstAt(txs: seq<Item>, id: string, i: nat)
    requires i <= |txs| && (forall k :: 0 <= k < i ==> txs[k].tx != id) && (i < |txs| ==> txs[i].tx == id)
    ensures RemoveFirst(txs, id) == if i < |txs| then txs[..i] + txs[i + 1..] else txs
    decreases i
  {
    if i > 0 {
      var rest := txs[1..];
      RemoveFirstAt(rest, id, i - 1);
      assert RemoveFirst(txs, id) == [txs[0]] + RemoveFirst(rest, id);
      if i < |txs| {
        assert rest[..i - 1] == txs[1..i] && rest[i..] == txs[i + 1..];
        assert [txs[0]] + txs[1..i] == txs[..i];
      }
    }
  }

  lemma {:induction false} MergeAt(deck: seq<TxIn>, txIn: TxIn, i: nat)
    requires i <= |deck| && (forall k :: 0 <= k < i ==> !Matches(deck[k], txIn)) && (i < |deck| ==> Matches(deck[i], txIn))
    ensures Merge(deck, txIn)
         == if i < |deck| then deck[i := deck[i].(txs := deck[i].txs + txIn.txs)] else deck + [txIn]
    decreases i
  {
    hide Matches;
    if i > 0 {
      var rest := deck[1..];
      MergeAt(rest, txIn, i - 1);
      assert Merge(deck, txIn) == [deck[0]] + Merge(rest, txIn);
    }
  }
}
