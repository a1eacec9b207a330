/**
  * Size, MarshalToSizedBuffer, Marshal and Unmarshal of common/common.pb.go.
  *
  * The writers fill a buffer from its end towards its start. Each is proved to leave exactly the
  * wire form of its message in the last bytes of the part it was given, and to touch nothing else.
  */
module Marshal {
  import opened Outcome
  import opened Varint
  import opened Wire
  import opened UnknownFields
  import opened Messages

  // ---------- sizes ----------

  function SizeText(l: nat): nat { if l > 0 then 1 + l + Sov(l) else 0 }
  function SizeBody(l: nat): nat { 1 + l + Sov(l) }

  function SizeAsset(m: Asset): nat {
    SizeText(|m.chain|) + SizeText(|m.symbol|) + SizeText(|m.ticker|)
    + (if m.synth then 2 else 0) + (if m.trade then 2 else 0)
  }

  function SizeCoin(uc: UintCodec, m: Coin): nat {
    SizeBody(SizeAsset(m.asset)) + SizeBody(|uc.encode(m.amount)|)
    + (if m.decimals != 0 then 1 + Sov(ToUint64(m.decimals)) else 0)
  }

  function SizeCoins(uc: UintCodec, coins: seq<Coin>): nat {
    if coins == [] then 0 else SizeBody(SizeCoin(uc, coins[0])) + SizeCoins(uc, coins[1..])
  }

  function SizePubKeySet(m: PubKeySet): nat {
    SizeText(|m.secp256k1|) + SizeText(|m.ed25519|)
  }

  function SizeTx(uc: UintCodec, m: Tx): nat {
    SizeText(|m.id|) + SizeText(|m.chain|) + SizeText(|m.fromAddress|) + SizeText(|m.toAddress|)
    + SizeCoins(uc, m.coins) + SizeCoins(uc, m.gas) + SizeText(|m.memo|)
  }

  function SizeFee(uc: UintCodec, m: Fee): nat {
    SizeCoins(uc, m.coins) + SizeBody(|uc.encode(m.poolDeduct)|)
  }

  lemma SizeFields(tag: Byte, body: Text)
    ensures SizeBody(|body|) == |LenField(tag, body)|
    ensures SizeText(|body|) == |TextField(tag, body)|
  {
    SovIsLength(|body|);
  }

  lemma SizeAssetExact(m: Asset)
    ensures SizeAsset(m) == |EncodeAsset(m)|
  {
    SizeFields(0x0a, m.chain);
    SizeFields(0x12, m.symbol);
    SizeFields(0x1a, m.ticker);
  }

  lemma SizeCoinExact(uc: UintCodec, m: Coin)
    ensures SizeCoin(uc, m) == |EncodeCoin(uc, m)|
  {
    SizeAssetExact(m.asset);
    SizeFields(0x0a, EncodeAsset(m.asset));
    SizeFields(0x12, uc.encode(m.amount));
    SovIsLength(ToUint64(m.decimals));
  }

  lemma {:induction false} SizeCoinsExact(uc: UintCodec, tag: Byte, coins: seq<Coin>)
    ensures SizeCoins(uc, coins) == |EncodeCoins(uc, tag, coins)|
  {
    hide SizeCoin, EncodeCoin, SizeBody, LenField;
    if coins != [] {
      SizeCoinExact(uc, coins[0]);
      SizeFields(tag, EncodeCoin(uc, coins[0]));
      SizeCoinsExact(uc, tag, coins[1..]);
    }
  }

  lemma SizePubKeySetExact(m: PubKeySet)
    ensures SizePubKeySet(m) == |EncodePubKeySet(m)|
  {
    SizeFields(0x0a, m.secp256k1);
    SizeFields(0x12, m.ed25519);
  }

  lemma SizeTxExact(uc: UintCodec, m: Tx)
    ensures SizeTx(uc, m) == |EncodeTx(uc, m)|
  {
    hide SizeText, TextField, SizeCoins, EncodeCoins;
    SizeFields(0x0a, m.id);
    SizeFields(0x12, m.chain);
    SizeFields(0x1a, m.fromAddress);
    SizeFields(0x22, m.toAddress);
    SizeCoinsExact(uc, 0x2a, m.coins);
    SizeCoinsExact(uc, 0x32, m.gas);
    SizeFields(0x3a, m.memo);
  }

  lemma SizeFeeExact(uc: UintCodec, m: Fee)
    ensures SizeFee(uc, m) == |EncodeFee(uc, m)|
  {
    SizeCoinsExact(uc, 0x0a, m.coins);
    SizeFields(0x12, uc.encode(m.poolDeduct));
  }

  // ---------- backward writing ----------

  /** now[i..end] is `written`, and nothing outside now[i..end] differs from `was`. */
  ghost predicate Wrote(now: seq<Byte>, was: seq<Byte>, i: int, end: int, written: Text) {
    && 0 <= i <= end <= |now| == |was|
    && now[i..end] == written
    && now[..i] == was[..i]
    && now[end..] == was[end..]
  }

  /** Writing just below a written part extends it. */
  lemma WroteBelow(now: seq<Byte>, mid: seq<Byte>, was: seq<Byte>, j: int, i: int, end: int, more: Text, written: Text)
    requires Wrote(mid, was, i, end, written) && Wrote(now, mid, j, i, more)
    ensures Wrote(now, was, j, end, more + written)
  {
  }

  method PrependByte(buf: array<Byte>, i: nat, b: Byte, ghost was: seq<Byte>, ghost end: nat, ghost written: Text)
    returns (j: nat)
    requires 1 <= i && Wrote(buf[..], was, i, end, written)
    modifies buf
    ensures j == i - 1 && Wrote(buf[..], was, j, end, [b] + written)
  {
    j := i - 1;
    ghost var mid := buf[..];
    buf[j] := b;
    WroteBelow(buf[..], mid, was, j, i, end, [b], written);
  }

  /** A varint and the tag before it, in front of what is written already. */
  method PrependHead(buf: array<Byte>, i: nat, tag: Byte, v: Uint64, ghost was: seq<Byte>, ghost end: nat, ghost written: Text)
    returns (j: nat)
    requires 1 + |Encode(v)| <= i && Wrote(buf[..], was, i, end, written)
    modifies buf
    ensures j == i - 1 - |Encode(v)| && Wrote(buf[..], was, j, end, [tag] + (Encode(v) + written))
  {
    hide Encode;
    ghost var mid := buf[..];
    j := EncodeVarint(buf, i, v);
    assert buf[..][j..i] == buf[j..i] && buf[..][i..] == buf[i..] && buf[..][..j] == buf[..j];
    WroteBelow(buf[..], mid, was, j, i, end, Encode(v), written);
    j := PrependByte(buf, j, tag, was, end, Encode(v) + written);
  }

  lemma InsideBuffer(now: seq<Byte>, was: seq<Byte>, i: int, end: int, written: Text)
    requires Wrote(now, was, i, end, written)
    ensures 0 <= i <= end <= |now|
  {
  }

  method CopyBody(buf: array<Byte>, j: nat, body: Text)
    requires j + |body| <= buf.Length
    modifies buf
    ensures Wrote(buf[..], old(buf[..]), j, j + |body|, body)
  {
    forall k | 0 <= k < |body| { buf[j + k] := body[k]; }
    assert buf[..][j..j + |body|] == body;
  }

  /** Length and tag in front of a body that is written already. */
  method WrapBody(buf: array<Byte>, i: nat, tag: Byte, size: nat, ghost body: Text, ghost was: seq<Byte>, ghost end: nat,
                  ghost written: Text)
    returns (j: nat)
    requires size == |body| < TWO63 && |LenField(tag, body)| - |body| <= i && Wrote(buf[..], was, i, end, body + written)
    modifies buf
    ensures j == i + |body| - |LenField(tag, body)| && Wrote(buf[..], was, j, end, LenField(tag, body) + written)
  {
    hide Wrote, Encode, LenField;
    NestedField(tag, body, written);
    j := PrependHead(buf, i, tag, size, was, end, body + written);
  }

  /** A length-delimited field, from its last byte to its tag. */
  method PrependBody(buf: array<Byte>, i: nat, tag: Byte, body: Text, ghost was: seq<Byte>, ghost end: nat, ghost written: Text)
    returns (j: nat)
    requires |LenField(tag, body)| <= i < TWO63 && Wrote(buf[..], was, i, end, written)
    modifies buf
    ensures j == i - |LenField(tag, body)| && Wrote(buf[..], was, j, end, LenField(tag, body) + written)
  {
    InsideBuffer(buf[..], was, i, end, written);
    hide Wrote, Encode, LenField;
    j := i - |body|;
    ghost var mid := buf[..];
    CopyBody(buf, j, body);
    WroteBelow(buf[..], mid, was, j, i, end, body, written);
    j := WrapBody(buf, j, tag, |body|, body, was, end, written);
  }

  method PrependText(buf: array<Byte>, i: nat, tag: Byte, text: Text, ghost was: seq<Byte>, ghost end: nat, ghost written: Text)
    returns (j: nat)
    requires |TextField(tag, text)| <= i < TWO63 && Wrote(buf[..], was, i, end, written)
    modifies buf
    ensures j == i - |TextField(tag, text)| && Wrote(buf[..], was, j, end, TextField(tag, text) + written)
  {
    j := i;
    if |text| > 0 {
      j := PrependBody(buf, i, tag, text, was, end, written);
    } else {
      assert TextField(tag, text) + written == written;
    }
  }

  method PrependBool(buf: array<Byte>, i: nat, tag: Byte, b: bool, ghost was: seq<Byte>, ghost end: nat, ghost written: Text)
    returns (j: nat)
    requires |BoolField(tag, b)| <= i && Wrote(buf[..], was, i, end, written)
    modifies buf
    ensures j == i - |BoolField(tag, b)| && Wrote(buf[..], was, j, end, BoolField(tag, b) + written)
  {
    j := i;
    if b {
      j := PrependByte(buf, j, 1, was, end, written);
      j := PrependByte(buf, j, tag, was, end, [1] + written);
      assert [tag] + ([1] + written) == BoolField(tag, b) + written;
    } else {
      assert BoolField(tag, b) + written == written;
    }
  }

  // ---------- MarshalToSizedBuffer: dAtA is buf[..end] ----------

  method AssetToSizedBuffer(m: Asset, buf: array<Byte>, end: nat) returns (n: nat)
    requires |EncodeAsset(m)| <= end <= buf.Length && end < TWO63
    modifies buf
    ensures n == |EncodeAsset(m)| && Wrote(buf[..], old(buf[..]), end - n, end, EncodeAsset(m))
  {
    hide TextField, BoolField;
    ghost var was := buf[..];
    var i := end;
    ghost var w0 := [];
    i := PrependBool(buf, i, 0x28, m.trade, was, end, w0);
    ghost var w1 := BoolField(0x28, m.trade) + w0;
    assert w1 == BoolField(0x28, m.trade);
    i := PrependBool(buf, i, 0x20, m.synth, was, end, w1);
    ghost var w2 := BoolField(0x20, m.synth) + w1;
    i := PrependText(buf, i, 0x1a, m.ticker, was, end, w2);
    ghost var w3 := TextField(0x1a, m.ticker) + w2;
    i := PrependText(buf, i, 0x12, m.symbol, was, end, w3);
    ghost var w4 := TextField(0x12, m.symbol) + w3;
    i := PrependText(buf, i, 0x0a, m.chain, was, end, w4);
    n := end - i;
  }

  method CoinToSizedBuffer(uc: UintCodec, m: Coin, buf: array<Byte>, end: nat) returns (n: nat)
    requires |EncodeCoin(uc, m)| <= end <= buf.Length && end < TWO63
    modifies buf
    ensures n == |EncodeCoin(uc, m)| && Wrote(buf[..], old(buf[..]), end - n, end, EncodeCoin(uc, m))
  {
    hide EncodeAsset, Encode, LenField, IntField;
    ghost var was := buf[..];
    CoinParts(uc, m);
    WroteNothing(was, end);
    ghost var w1, amount := IntField(0x18, m.decimals), LenField(0x12, uc.encode(m.amount));
    hide EncodeCoin, Wrote;
    var i := PrependInt(buf, end, 0x18, m.decimals, was, end, []);
    assert w1 + [] == w1;
    i := PrependBody(buf, i, 0x12, uc.encode(m.amount), was, end, w1);
    i := PrependAsset(m.asset, buf, i, 0x0a, was, end, amount + w1);
    n := end - i;
  }

  lemma CoinParts(uc: UintCodec, m: Coin)
    ensures EncodeCoin(uc, m)
         == LenField(0x0a, EncodeAsset(m.asset)) + (LenField(0x12, uc.encode(m.amount)) + IntField(0x18, m.decimals))
  {
  }

  method PrependInt(buf: array<Byte>, i: nat, tag: Byte, v: Int64, ghost was: seq<Byte>, ghost end: nat, ghost written: Text)
    returns (j: nat)
    requires |IntField(tag, v)| <= i < TWO63 && Wrote(buf[..], was, i, end, written)
    modifies buf
    ensures j == i - |IntField(tag, v)| && Wrote(buf[..], was, j, end, IntField(tag, v) + written)
  {
    hide Wrote, Encode;
    j := i;
    if v != 0 {
      j := PrependHead(buf, i, tag, ToUint64(v), was, end, written);
      assert [tag] + (Encode(ToUint64(v)) + written) == IntField(tag, v) + written;
    } else {
      assert IntField(tag, v) + written == written;
    }
  }

  method PrependAsset(m: Asset, buf: array<Byte>, i: nat, tag: Byte, ghost was: seq<Byte>, ghost end: nat, ghost written: Text)
    returns (j: nat)
    requires |LenField(tag, EncodeAsset(m))| <= i < TWO63 && Wrote(buf[..], was, i, end, written)
    modifies buf
    ensures j == i - |LenField(tag, EncodeAsset(m))|
    ensures Wrote(buf[..], was, j, end, LenField(tag, EncodeAsset(m)) + written)
  {
    hide *;
    InsideBuffer(buf[..], was, i, end, written);
    ghost var body := EncodeAsset(m);
    ghost var mid := buf[..];
    var size := AssetToSizedBuffer(m, buf, i);
    WroteBelow(buf[..], mid, was, i - size, i, end, body, written);
    j := WrapBody(buf, i - size, tag, size, body, was, end, written);
  }

  lemma NestedField(tag: Byte, body: Text, written: Text)
    ensures [tag] + (Encode(|body|) + (body + written)) == LenField(tag, body) + written
    ensures |LenField(tag, body)| == 1 + |Encode(|body|)| + |body|
  {
  }

  /** One element of a repeated coin field. */
  method PrependCoin(uc: UintCodec, coin: Coin, buf: array<Byte>, i: nat, tag: Byte,
                     ghost was: seq<Byte>, ghost end: nat, ghost written: Text)
    returns (j: nat)
    requires |LenField(tag, EncodeCoin(uc, coin))| <= i < TWO63 && Wrote(buf[..], was, i, end, written)
    modifies buf
    ensures j == i - |LenField(tag, EncodeCoin(uc, coin))|
    ensures Wrote(buf[..], was, j, end, LenField(tag, EncodeCoin(uc, coin)) + written)
  {
    hide *;
    InsideBuffer(buf[..], was, i, end, written);
    ghost var body := EncodeCoin(uc, coin);
    ghost var mid := buf[..];
    var size := CoinToSizedBuffer(uc, coin, buf, i);
    WroteBelow(buf[..], mid, was, i - size, i, end, body, written);
    j := WrapBody(buf, i - size, tag, size, body, was, end, written);
  }

  /** The loop over a repeated field, from the last element to the first. */
  method PrependCoins(uc: UintCodec, coins: seq<Coin>, buf: array<Byte>, end0: nat, tag: Byte,
                      ghost was: seq<Byte>, ghost end: nat, ghost written: Text)
    returns (i: nat)
    requires |EncodeCoins(uc, tag, coins)| <= end0 < TWO63 && Wrote(buf[..], was, end0, end, written)
    modifies buf
    ensures i == end0 - |EncodeCoins(uc, tag, coins)|
    ensures Wrote(buf[..], was, i, end, EncodeCoins(uc, tag, coins) + written)
  {
    hide EncodeCoin, LenField, Wrote;
    i := end0;
    var iNdEx := |coins|;
    assert EncodeCoins(uc, tag, coins[|coins|..]) + written == written;
    while iNdEx > 0
      invariant 0 <= iNdEx <= |coins|
      invariant i == end0 - |EncodeCoins(uc, tag, coins[iNdEx..])|
      invariant Wrote(buf[..], was, i, end, EncodeCoins(uc, tag, coins[iNdEx..]) + written)
    {
      iNdEx := iNdEx - 1;
      ghost var field := LenField(tag, EncodeCoin(uc, coins[iNdEx]));
      ghost var w := EncodeCoins(uc, tag, coins[iNdEx + 1..]);
      CoinsFit(uc, tag, coins, iNdEx);
      i := PrependCoin(uc, coins[iNdEx], buf, i, tag, was, end, w + written);
      assert field + (w + written) == field + w + written;
    }
    assert coins[0..] == coins;
  }

  lemma {:induction false} CoinsFit(uc: UintCodec, tag: Byte, coins: seq<Coin>, i: nat)
    requires i < |coins|
    ensures EncodeCoins(uc, tag, coins[i..]) == LenField(tag, EncodeCoin(uc, coins[i])) + EncodeCoins(uc, tag, coins[i + 1..])
    ensures |EncodeCoins(uc, tag, coins[i..])| <= |EncodeCoins(uc, tag, coins)|
  {
    hide LenField, EncodeCoin;
    assert coins[i..][1..] == coins[i + 1..];
    if i == 0 {
      assert coins[0..] == coins;
    } else {
      CoinsFit(uc, tag, coins, i - 1);
    }
  }

  method PubKeySetToSizedBuffer(m: PubKeySet, buf: array<Byte>, end: nat) returns (n: nat)
    requires |EncodePubKeySet(m)| <= end <= buf.Length && end < TWO63
    modifies buf
    ensures n == |EncodePubKeySet(m)| && Wrote(buf[..], old(buf[..]), end - n, end, EncodePubKeySet(m))
  {
    hide TextField;
    ghost var was := buf[..];
    var i := PrependText(buf, end, 0x12, m.ed25519, was, end, []);
    ghost var w1 := TextField(0x12, m.ed25519);
    assert w1 + [] == w1;
    i := PrependText(buf, i, 0x0a, m.secp256k1, was, end, w1);
    n := end - i;
  }

  method TxToSizedBuffer(uc: UintCodec, m: Tx, buf: array<Byte>, end: nat) returns (n: nat)
    requires |EncodeTx(uc, m)| <= end <= buf.Length && end < TWO63
    modifies buf
    ensures n == |EncodeTx(uc, m)| && Wrote(buf[..], old(buf[..]), end - n, end, EncodeTx(uc, m))
  {
    hide TextField, EncodeCoins, Wrote;
    ghost var was := buf[..];
    assert Wrote(was, was, end, end, []) by { WroteNothing(was, end); }
    var i := PrependText(buf, end, 0x3a, m.memo, was, end, []);
    ghost var w1 := TextField(0x3a, m.memo);
    assert w1 + [] == w1;
    i := PrependCoins(uc, m.gas, buf, i, 0x32, was, end, w1);
    ghost var w2 := EncodeCoins(uc, 0x32, m.gas) + w1;
    i := PrependCoins(uc, m.coins, buf, i, 0x2a, was, end, w2);
    ghost var w3 := EncodeCoins(uc, 0x2a, m.coins) + w2;
    i := PrependText(buf, i, 0x22, m.toAddress, was, end, w3);
    ghost var w4 := TextField(0x22, m.toAddress) + w3;
    i := PrependText(buf, i, 0x1a, m.fromAddress, was, end, w4);
    ghost var w5 := TextField(0x1a, m.fromAddress) + w4;
    i := PrependText(buf, i, 0x12, m.chain, was, end, w5);
    ghost var w6 := TextField(0x12, m.chain) + w5;
    i := PrependText(buf, i, 0x0a, m.id, was, end, w6);
    n := end - i;
  }

  lemma WroteNothing(was: seq<Byte>, end: nat)
    requires end <= |was|
    ensures Wrote(was, was, end, end, [])
  {
  }

  method FeeToSizedBuffer(uc: UintCodec, m: Fee, buf: array<Byte>, end: nat) returns (n: nat)
    requires |EncodeFee(uc, m)| <= end <= buf.Length && end < TWO63
    modifies buf
    ensures n == |EncodeFee(uc, m)| && Wrote(buf[..], old(buf[..]), end - n, end, EncodeFee(uc, m))
  {
    hide EncodeCoins, LenField, Wrote;
    ghost var was := buf[..];
    assert Wrote(was, was, end, end, []) by { WroteNothing(was, end); }
    var amount := uc.encode(m.poolDeduct);
    var i := PrependBody(buf, end, 0x12, amount, was, end, []);
    ghost var w1 := LenField(0x12, amount);
    assert w1 + [] == w1;
    i := PrependCoins(uc, m.coins, buf, i, 0x0a, was, end, w1);
    n := end - i;
  }

  // ---------- Marshal: the sized buffer is filled down to offset 0 ----------

  method MarshalAsset(m: Asset) returns (data: Text)
    requires SizeAsset(m) < TWO63
    ensures |data| == SizeAsset(m) && data == EncodeAsset(m)
  {
    SizeAssetExact(m);
    var buf := new Byte[SizeAsset(m)];
    var n := AssetToSizedBuffer(m, buf, buf.Length);
    data := buf[..n];
  }

  method MarshalCoin(uc: UintCodec, m: Coin) returns (data: Text)
    requires SizeCoin(uc, m) < TWO63
    ensures |data| == SizeCoin(uc, m) && data == EncodeCoin(uc, m)
  {
    hide EncodeCoin, SizeCoin;
    SizeCoinExact(uc, m);
    var buf := new Byte[SizeCoin(uc, m)];
    var n := CoinToSizedBuffer(uc, m, buf, buf.Length);
    data := buf[..n];
  }

  method MarshalPubKeySet(m: PubKeySet) returns (data: Text)
    requires SizePubKeySet(m) < TWO63
    ensures |data| == SizePubKeySet(m) && data == EncodePubKeySet(m)
  {
    SizePubKeySetExact(m);
    var buf := new Byte[SizePubKeySet(m)];
    var n := PubKeySetToSizedBuffer(m, buf, buf.Length);
    data := buf[..n];
  }

  method MarshalTx(uc: UintCodec, m: Tx) returns (data: Text)
    requires SizeTx(uc, m) < TWO63
    ensures |data| == SizeTx(uc, m) && data == EncodeTx(uc, m)
  {
    hide EncodeTx, SizeTx;
    SizeTxExact(uc, m);
    var buf := new Byte[SizeTx(uc, m)];
    var n := TxToSizedBuffer(uc, m, buf, buf.Length);
    data := buf[..n];
  }

  method MarshalFee(uc: UintCodec, m: Fee) returns (data: Text)
    requires SizeFee(uc, m) < TWO63
    ensures |data| == SizeFee(uc, m) && data == EncodeFee(uc, m)
  {
    hide EncodeFee, SizeFee;
    SizeFeeExact(uc, m);
    var buf := new Byte[SizeFee(uc, m)];
    var n := FeeToSizedBuffer(uc, m, buf, buf.Length);
    data := buf[..n];
  }

  // ---------- unknown fields in an encoded Tx ----------

  /** `pre` decodes, so the cut is a field boundary of the encoding. */
  lemma TxIgnoresUnknownField(uc: UintCodec, m: Tx, pre: Text, f: Field, post: Text)
    requires SelfInverse(uc) && pre + post == EncodeTx(uc, m) && |EncodeTx(uc, m)| < TWO63
    requires DecodeTx(uc, pre, ZERO_TX).Ok?
    requires WellFormed(f) && Int32(Read(f.tag).value.0 / 8) > 7
    ensures DecodeTx(uc, pre + Serialize(f) + post, ZERO_TX) == Ok(m)
  {
    hide Run, WellFormed, EncodeTx, Serialize, Read;
    RoundTripTx(uc, m);
    UnknownFieldIsTransparent(TX_SCHEMA, TxStep(uc), pre, f, post, ZERO_TX);
  }
}
