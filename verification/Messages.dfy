/**
  * The messages Asset, Coin, PubKeySet, Tx and Fee of common/common.pb.go: their wire form,
  * their decoders, and the round trip between the two.
  *
  * sdk.Uint is a foreign type. Its text form is a parameter, and every claim below holds for any
  * codec that reads back what it wrote. (`Decimal` in UintText.dfy is one.)
  */
module Messages {
  import opened Outcome
  import opened Varint
  import opened Wire

  const TWO256 := 0x1_0000000000000000_0000000000000000_0000000000000000_0000000000000000

  type Uint = x: int | 0 <= x < TWO256
  type Int64 = x: int | -TWO63 <= x < TWO63
  type Text = seq<Byte>

  datatype Asset = Asset(chain: Text, symbol: Text, ticker: Text, synth: bool, trade: bool)
  datatype Coin = Coin(asset: Asset, amount: Uint, decimals: Int64)
  datatype PubKeySet = PubKeySet(secp256k1: Text, ed25519: Text)
  datatype Tx = Tx(id: Text, chain: Text, fromAddress: Text, toAddress: Text,
                   coins: seq<Coin>, gas: seq<Coin>, memo: Text)
  datatype Fee = Fee(coins: seq<Coin>, poolDeduct: Uint)

  const ZERO_ASSET := Asset([], [], [], false, false)
  const ZERO_COIN := Coin(ZERO_ASSET, 0, 0)
  const ZERO_PUBKEYSET := PubKeySet([], [])
  const ZERO_TX := Tx([], [], [], [], [], [], [])
  const ZERO_FEE := Fee([], 0)

  /** `decode` gets the value already in the field, as Uint.Unmarshal does. */
  datatype UintCodec = UintCodec(encode: Uint -> Text, decode: (Uint, Text) -> Option<Uint>)

  ghost predicate SelfInverse(uc: UintCodec) {
    forall was: Uint, v: Uint :: uc.decode(was, uc.encode(v)) == Some(v)
  }

  /** uint64(x) of an int64, and back. */
  function ToUint64(x: Int64): Uint64 { if x < 0 then x + TWO64 else x }
  function ToInt64(u: Uint64): Int64 { if u < TWO63 then u else u - TWO64 }

  // ---------- wire form ----------

  function LenField(tag: Byte, body: Text): (f: Text)
    ensures |body| < |f|
  {
    [tag] + (Encode(|body|) + body)
  }

  function TextField(tag: Byte, text: Text): (f: Text)
    ensures |text| <= |f|
  {
    if |text| > 0 then LenField(tag, text) else []
  }

  function BoolField(tag: Byte, b: bool): Text {
    if b then [tag, 1] else []
  }

  function IntField(tag: Byte, x: Int64): Text {
    if x != 0 then [tag] + Encode(ToUint64(x)) else []
  }

  function EncodeAsset(m: Asset): Text {
    TextField(0x0a, m.chain) + (TextField(0x12, m.symbol) + (TextField(0x1a, m.ticker)
    + (BoolField(0x20, m.synth) + BoolField(0x28, m.trade))))
  }

  function EncodeCoin(uc: UintCodec, m: Coin): Text {
    LenField(0x0a, EncodeAsset(m.asset)) + (LenField(0x12, uc.encode(m.amount)) + IntField(0x18, m.decimals))
  }

  function EncodeCoins(uc: UintCodec, tag: Byte, coins: seq<Coin>): Text {
    if coins == [] then [] else LenField(tag, EncodeCoin(uc, coins[0])) + EncodeCoins(uc, tag, coins[1..])
  }

  function EncodePubKeySet(m: PubKeySet): Text {
    TextField(0x0a, m.secp256k1) + TextField(0x12, m.ed25519)
  }

  function EncodeTx(uc: UintCodec, m: Tx): Text {
    TextField(0x0a, m.id) + (TextField(0x12, m.chain) + (TextField(0x1a, m.fromAddress)
    + (TextField(0x22, m.toAddress) + (EncodeCoins(uc, 0x2a, m.coins) + (EncodeCoins(uc, 0x32, m.gas)
    + TextField(0x3a, m.memo))))))
  }

  function EncodeFee(uc: UintCodec, m: Fee): Text {
    EncodeCoins(uc, 0x0a, m.coins) + LenField(0x12, uc.encode(m.poolDeduct))
  }

  // ---------- decoders ----------

  const ASSET_SCHEMA: Schema := map[1 := 2, 2 := 2, 3 := 2, 4 := 0, 5 := 0]
  const COIN_SCHEMA: Schema := map[1 := 2, 2 := 2, 3 := 0]
  const PUBKEYSET_SCHEMA: Schema := map[1 := 2, 2 := 2]
  const TX_SCHEMA: Schema := map[1 := 2, 2 := 2, 3 := 2, 4 := 2, 5 := 2, 6 := 2, 7 := 2]
  const FEE_SCHEMA: Schema := map[1 := 2, 2 := 2]

  function AssetStep(m: Asset, e: Event): Result<Asset, Error> {
    match e
    case Bytes(1, b) => Ok(m.(chain := b))
    case Bytes(2, b) => Ok(m.(symbol := b))
    case Bytes(3, b) => Ok(m.(ticker := b))
    case Number(4, v) => Ok(m.(synth := v != 0))
    case Number(5, v) => Ok(m.(trade := v != 0))
    case _ => Err(WrongWireType)
  }

  function DecodeAsset(data: Text, m: Asset): Result<Asset, Error> {
    Run(ASSET_SCHEMA, AssetStep, data, m)
  }

  function DecodeUint(uc: UintCodec, was: Uint, data: Text): Result<Uint, Error> {
    match uc.decode(was, data)
    case Some(v) => Ok(v)
    case None => Err(BadUint)
  }

  function StoreCoin(uc: UintCodec, m: Coin, e: Event): Result<Coin, Error> {
    match e
    case Bytes(1, b) => var asset :- DecodeAsset(b, m.asset); Ok(m.(asset := asset))
    case Bytes(2, b) => var amount :- DecodeUint(uc, m.amount, b); Ok(m.(amount := amount))
    case Number(3, v) => Ok(m.(decimals := ToInt64(v)))
    case _ => Err(WrongWireType)
  }

  function CoinStep(uc: UintCodec): (Coin, Event) -> Result<Coin, Error> {
    (m: Coin, e: Event) => StoreCoin(uc, m, e)
  }

  function DecodeCoin(uc: UintCodec, data: Text, m: Coin): Result<Coin, Error> {
    Run(COIN_SCHEMA, CoinStep(uc), data, m)
  }

  function PubKeySetStep(m: PubKeySet, e: Event): Result<PubKeySet, Error> {
    match e
    case Bytes(1, b) => Ok(m.(secp256k1 := b))
    case Bytes(2, b) => Ok(m.(ed25519 := b))
    case _ => Err(WrongWireType)
  }

  function DecodePubKeySet(data: Text, m: PubKeySet): Result<PubKeySet, Error> {
    Run(PUBKEYSET_SCHEMA, PubKeySetStep, data, m)
  }

  function StoreTx(uc: UintCodec, m: Tx, e: Event): Result<Tx, Error> {
    match e
    case Bytes(1, b) => Ok(m.(id := b))
    case Bytes(2, b) => Ok(m.(chain := b))
    case Bytes(3, b) => Ok(m.(fromAddress := b))
    case Bytes(4, b) => Ok(m.(toAddress := b))
    case Bytes(5, b) => var c :- DecodeCoin(uc, b, ZERO_COIN); Ok(m.(coins := m.coins + [c]))
    case Bytes(6, b) => var c :- DecodeCoin(uc, b, ZERO_COIN); Ok(m.(gas := m.gas + [c]))
    case Bytes(7, b) => Ok(m.(memo := b))
    case _ => Err(WrongWireType)
  }

  function TxStep(uc: UintCodec): (Tx, Event) -> Result<Tx, Error> {
    (m: Tx, e: Event) => StoreTx(uc, m, e)
  }

  function DecodeTx(uc: UintCodec, data: Text, m: Tx): Result<Tx, Error> {
    Run(TX_SCHEMA, TxStep(uc), data, m)
  }

  function StoreFee(uc: UintCodec, m: Fee, e: Event): Result<Fee, Error> {
    match e
    case Bytes(1, b) => var c :- DecodeCoin(uc, b, ZERO_COIN); Ok(m.(coins := m.coins + [c]))
    case Bytes(2, b) => var v :- DecodeUint(uc, m.poolDeduct, b); Ok(m.(poolDeduct := v))
    case _ => Err(WrongWireType)
  }

  function FeeStep(uc: UintCodec): (Fee, Event) -> Result<Fee, Error> {
    (m: Fee, e: Event) => StoreFee(uc, m, e)
  }

  function DecodeFee(uc: UintCodec, data: Text, m: Fee): Result<Fee, Error> {
    Run(FEE_SCHEMA, FeeStep(uc), data, m)
  }

  // ---------- one encoded field is read back ----------

  lemma ReadTag(tag: Byte, rest: Text)
    requires tag < 128
    ensures Read([tag] + rest) == Ok((tag, 1))
  {
  }

  lemma NextLenField(schema: Schema, num: int, body: Text, rest: Text)
    requires 1 <= num <= 15 && num in schema && schema[num] == LENGTH_DELIMITED && |body| < TWO63
    ensures NextField(schema, LenField(8 * num + 2, body) + rest) == Ok((Bytes(num, body), |LenField(8 * num + 2, body)|))
  {
    hide Read, Encode, LenField;
    var tag, len := 8 * num + 2, Encode(|body|);
    LenFieldIs(tag, body);
    LenFieldParts(tag, len, body, rest);
    ReadTag(tag, len + (body + rest));
    ReadEncode(|body|, body + rest);
  }

  lemma LenFieldIs(tag: Byte, body: Text)
    ensures LenField(tag, body) == [tag] + (Encode(|body|) + body)
  {
  }

  lemma LenFieldParts(tag: Byte, len: Text, body: Text, rest: Text)
    ensures var data := ([tag] + (len + body)) + rest;
            && data == [tag] + (len + (body + rest)) && data[1..] == len + (body + rest)
            && data[1 + |len|..1 + |len| + |body|] == body
  {
  }

  lemma NextNumber(schema: Schema, num: int, v: Uint64, rest: Text)
    requires 1 <= num <= 15 && num in schema && schema[num] == VARINT
    ensures NextField(schema, [8 * num] + Encode(v) + rest) == Ok((Number(num, v), 1 + |Encode(v)|))
  {
    var data := [8 * num] + Encode(v) + rest;
    assert data == [8 * num] + (Encode(v) + rest);
    ReadTag(8 * num, Encode(v) + rest);
    assert data[1..] == Encode(v) + rest;
    ReadEncode(v, rest);
  }

  lemma RunLenField<M>(schema: Schema, step: (M, Event) -> Result<M, Error>, num: int, body: Text, rest: Text, m: M, next: M)
    requires 1 <= num <= 15 && num in schema && schema[num] == LENGTH_DELIMITED && |body| < TWO63
    requires step(m, Bytes(num, body)) == Ok(next)
    ensures Run(schema, step, LenField(8 * num + 2, body) + rest, m) == Run(schema, step, rest, next)
  {
    hide NextField;
    var field := LenField(8 * num + 2, body);
    NextLenField(schema, num, body, rest);
    assert (field + rest)[|field|..] == rest;
  }

  /** An absent text leaves the message alone, so it must already hold the empty text. */
  lemma RunTextField<M>(schema: Schema, step: (M, Event) -> Result<M, Error>, num: int, text: Text, rest: Text, m: M, next: M)
    requires 1 <= num <= 15 && num in schema && schema[num] == LENGTH_DELIMITED && |text| < TWO63
    requires if text == [] then m == next else step(m, Bytes(num, text)) == Ok(next)
    ensures Run(schema, step, TextField(8 * num + 2, text) + rest, m) == Run(schema, step, rest, next)
  {
    if text == [] {
      assert TextField(8 * num + 2, text) + rest == rest;
    } else {
      RunLenField(schema, step, num, text, rest, m, next);
    }
  }

  lemma RunNumber<M>(schema: Schema, step: (M, Event) -> Result<M, Error>, num: int, v: Uint64, rest: Text, m: M, next: M)
    requires 1 <= num <= 15 && num in schema && schema[num] == VARINT
    requires step(m, Number(num, v)) == Ok(next)
    ensures Run(schema, step, [8 * num] + Encode(v) + rest, m) == Run(schema, step, rest, next)
  {
    hide NextField;
    var field := [8 * num] + Encode(v);
    NextNumber(schema, num, v, rest);
    assert (field + rest)[|field|..] == rest;
  }

  lemma RunBoolField<M>(schema: Schema, step: (M, Event) -> Result<M, Error>, num: int, b: bool, rest: Text, m: M, next: M)
    requires 1 <= num <= 15 && num in schema && schema[num] == VARINT
    requires if b then step(m, Number(num, 1)) == Ok(next) else m == next
    ensures Run(schema, step, BoolField(8 * num, b) + rest, m) == Run(schema, step, rest, next)
  {
    if b {
      assert BoolField(8 * num, b) == [8 * num] + Encode(1);
      RunNumber(schema, step, num, 1, rest, m, next);
    } else {
      assert BoolField(8 * num, b) + rest == rest;
    }
  }

  // ---------- round trips ----------

  lemma RoundTripAsset(m: Asset)
    requires |EncodeAsset(m)| < TWO63
    ensures DecodeAsset(EncodeAsset(m), ZERO_ASSET) == Ok(m)
  {
    hide Run;
    var s, f := ASSET_SCHEMA, AssetStep;
    var r4 := BoolField(0x28, m.trade);
    var r3 := BoolField(0x20, m.synth) + r4;
    var r2 := TextField(0x1a, m.ticker) + r3;
    var r1 := TextField(0x12, m.symbol) + r2;
    var m1 := ZERO_ASSET.(chain := m.chain);
    var m2 := m1.(symbol := m.symbol);
    var m3 := m2.(ticker := m.ticker);
    var m4 := m3.(synth := m.synth);
    RunTextField(s, f, 1, m.chain, r1, ZERO_ASSET, m1);
    RunTextField(s, f, 2, m.symbol, r2, m1, m2);
    RunTextField(s, f, 3, m.ticker, r3, m2, m3);
    RunBoolField(s, f, 4, m.synth, r4, m3, m4);
    RunBoolField(s, f, 5, m.trade, [], m4, m);
    assert r4 + [] == r4;
    RunEmpty(s, f, m);
  }

  lemma RunEmpty<M>(schema: Schema, step: (M, Event) -> Result<M, Error>, m: M)
    ensures Run(schema, step, [], m) == Ok(m)
  {
  }

  lemma RoundTripPubKeySet(m: PubKeySet)
    requires |EncodePubKeySet(m)| < TWO63
    ensures DecodePubKeySet(EncodePubKeySet(m), ZERO_PUBKEYSET) == Ok(m)
  {
    hide Run;
    var s, f := PUBKEYSET_SCHEMA, PubKeySetStep;
    var r1 := TextField(0x12, m.ed25519);
    var m1 := ZERO_PUBKEYSET.(secp256k1 := m.secp256k1);
    RunTextField(s, f, 1, m.secp256k1, r1, ZERO_PUBKEYSET, m1);
    RunTextField(s, f, 2, m.ed25519, [], m1, m);
    assert r1 + [] == r1;
    RunEmpty(s, f, m);
  }

  lemma RoundTripCoin(uc: UintCodec, m: Coin)
    requires SelfInverse(uc) && |EncodeCoin(uc, m)| < TWO63
    ensures DecodeCoin(uc, EncodeCoin(uc, m), ZERO_COIN) == Ok(m)
  {
    hide Run, DecodeAsset, EncodeAsset, LenField;
    var s, f := COIN_SCHEMA, CoinStep(uc);
    var asset, amount := EncodeAsset(m.asset), uc.encode(m.amount);
    var r2 := IntField(0x18, m.decimals);
    var r1 := LenField(0x12, amount) + r2;
    var m1 := ZERO_COIN.(asset := m.asset);
    var m2 := m1.(amount := m.amount);
    RoundTripAsset(m.asset);
    RunLenField(s, f, 1, asset, r1, ZERO_COIN, m1);
    assert f(m1, Bytes(2, amount)) == Ok(m2);
    RunLenField(s, f, 2, amount, r2, m1, m2);
    RunEmpty(s, f, m);
    if m.decimals != 0 {
      var v := ToUint64(m.decimals);
      assert ToInt64(v) == m.decimals;
      assert f(m2, Number(3, v)) == Ok(m2.(decimals := ToInt64(v)));
      RunNumber(s, f, 3, v, [], m2, m);
      assert r2 + [] == r2;
    }
  }

  lemma CoinsHead(uc: UintCodec, tag: Byte, coins: seq<Coin>, rest: Text)
    requires SelfInverse(uc) && coins != [] && |EncodeCoins(uc, tag, coins)| < TWO63
    ensures EncodeCoins(uc, tag, coins) + rest
         == LenField(tag, EncodeCoin(uc, coins[0])) + (EncodeCoins(uc, tag, coins[1..]) + rest)
    ensures |EncodeCoin(uc, coins[0])| < TWO63 && |EncodeCoins(uc, tag, coins[1..])| < TWO63
    ensures DecodeCoin(uc, EncodeCoin(uc, coins[0]), ZERO_COIN) == Ok(coins[0])
  {
    hide *;
    CoinsSplit(uc, tag, coins);
    var head, tail := LenField(tag, EncodeCoin(uc, coins[0])), EncodeCoins(uc, tag, coins[1..]);
    assert (head + tail) + rest == head + (tail + rest);
    RoundTripCoin(uc, coins[0]);
  }

  lemma CoinsSplit(uc: UintCodec, tag: Byte, coins: seq<Coin>)
    requires coins != []
    ensures var head := LenField(tag, EncodeCoin(uc, coins[0]));
            EncodeCoins(uc, tag, coins) == head + EncodeCoins(uc, tag, coins[1..]) && |EncodeCoin(uc, coins[0])| < |head|
  {
    hide EncodeCoin;
  }

  /** Repeated coins are appended in order. */
  lemma {:induction false} RunTxCoins(uc: UintCodec, coins: seq<Coin>, rest: Text, m: Tx)
    requires SelfInverse(uc) && |EncodeCoins(uc, 0x2a, coins)| < TWO63
    ensures Run(TX_SCHEMA, TxStep(uc), EncodeCoins(uc, 0x2a, coins) + rest, m)
         == Run(TX_SCHEMA, TxStep(uc), rest, m.(coins := m.coins + coins))
    decreases coins
  {
    hide Run, EncodeCoin, LenField, DecodeCoin;
    if coins == [] {
      assert EncodeCoins(uc, 0x2a, coins) + rest == rest;
      assert m.coins + coins == m.coins;
    } else {
      var body := EncodeCoin(uc, coins[0]);
      var tail := EncodeCoins(uc, 0x2a, coins[1..]);
      var next := m.(coins := m.coins + [coins[0]]);
      CoinsHead(uc, 0x2a, coins, rest);
      RunLenField(TX_SCHEMA, TxStep(uc), 5, body, tail + rest, m, next);
      RunTxCoins(uc, coins[1..], rest, next);
      assert next.coins + coins[1..] == m.coins + coins;
    }
  }

  lemma {:induction false} RunTxGas(uc: UintCodec, coins: seq<Coin>, rest: Text, m: Tx)
    requires SelfInverse(uc) && |EncodeCoins(uc, 0x32, coins)| < TWO63
    ensures Run(TX_SCHEMA, TxStep(uc), EncodeCoins(uc, 0x32, coins) + rest, m)
         == Run(TX_SCHEMA, TxStep(uc), rest, m.(gas := m.gas + coins))
    decreases coins
  {
    hide Run, EncodeCoin, LenField, DecodeCoin;
    if coins == [] {
      assert EncodeCoins(uc, 0x32, coins) + rest == rest;
      assert m.gas + coins == m.gas;
    } else {
      var body := EncodeCoin(uc, coins[0]);
      var tail := EncodeCoins(uc, 0x32, coins[1..]);
      var next := m.(gas := m.gas + [coins[0]]);
      CoinsHead(uc, 0x32, coins, rest);
      RunLenField(TX_SCHEMA, TxStep(uc), 6, body, tail + rest, m, next);
      RunTxGas(uc, coins[1..], rest, next);
      assert next.gas + coins[1..] == m.gas + coins;
    }
  }

  lemma {:induction false} RunFeeCoins(uc: UintCodec, coins: seq<Coin>, rest: Text, m: Fee)
    requires SelfInverse(uc) && |EncodeCoins(uc, 0x0a, coins)| < TWO63
    ensures Run(FEE_SCHEMA, FeeStep(uc), EncodeCoins(uc, 0x0a, coins) + rest, m)
         == Run(FEE_SCHEMA, FeeStep(uc), rest, m.(coins := m.coins + coins))
    decreases coins
  {
    hide Run, EncodeCoin, LenField, DecodeCoin;
    if coins == [] {
      assert EncodeCoins(uc, 0x0a, coins) + rest == rest;
      assert m.coins + coins == m.coins;
    } else {
      var body := EncodeCoin(uc, coins[0]);
      var tail := EncodeCoins(uc, 0x0a, coins[1..]);
      var next := m.(coins := m.coins + [coins[0]]);
      CoinsHead(uc, 0x0a, coins, rest);
      assert DecodeCoin(uc, body, ZERO_COIN) == Ok(coins[0]);
      RunLenField(FEE_SCHEMA, FeeStep(uc), 1, body, tail + rest, m, next);
      RunFeeCoins(uc, coins[1..], rest, next);
      assert next.coins + coins[1..] == m.coins + coins;
    }
  }

  lemma RunTxAddresses(uc: UintCodec, tx: Tx, rest: Text)
    requires |TextField(0x0a, tx.id)| + |TextField(0x12, tx.chain)| < TWO63
    requires |TextField(0x1a, tx.fromAddress)| + |TextField(0x22, tx.toAddress)| < TWO63
    ensures Run(TX_SCHEMA, TxStep(uc), TextField(0x0a, tx.id) + (TextField(0x12, tx.chain)
              + (TextField(0x1a, tx.fromAddress) + (TextField(0x22, tx.toAddress) + rest))), ZERO_TX)
         == Run(TX_SCHEMA, TxStep(uc), rest, Tx(tx.id, tx.chain, tx.fromAddress, tx.toAddress, [], [], []))
  {
    hide Run, DecodeCoin, LenField, TextField;
    var s, f := TX_SCHEMA, TxStep(uc);
    var r3 := TextField(0x22, tx.toAddress) + rest;
    var r2 := TextField(0x1a, tx.fromAddress) + r3;
    var r1 := TextField(0x12, tx.chain) + r2;
    var m1 := ZERO_TX.(id := tx.id);
    var m2 := m1.(chain := tx.chain);
    var m3 := m2.(fromAddress := tx.fromAddress);
    RunTextField(s, f, 1, tx.id, r1, ZERO_TX, m1);
    RunTextField(s, f, 2, tx.chain, r2, m1, m2);
    RunTextField(s, f, 3, tx.fromAddress, r3, m2, m3);
    RunTextField(s, f, 4, tx.toAddress, rest, m3, m3.(toAddress := tx.toAddress));
  }

  lemma RoundTripTx(uc: UintCodec, m: Tx)
    requires SelfInverse(uc) && |EncodeTx(uc, m)| < TWO63
    ensures DecodeTx(uc, EncodeTx(uc, m), ZERO_TX) == Ok(m)
  {
    hide Run, DecodeCoin, EncodeCoins, TextField;
    var s, f := TX_SCHEMA, TxStep(uc);
    var r6 := TextField(0x3a, m.memo);
    var r5 := EncodeCoins(uc, 0x32, m.gas) + r6;
    var r4 := EncodeCoins(uc, 0x2a, m.coins) + r5;
    var m4 := Tx(m.id, m.chain, m.fromAddress, m.toAddress, [], [], []);
    var m5 := m4.(coins := m.coins);
    var m6 := m5.(gas := m.gas);
    RunTxAddresses(uc, m, r4);
    assert [] + m.coins == m.coins && [] + m.gas == m.gas;
    RunTxCoins(uc, m.coins, r5, m4);
    RunTxGas(uc, m.gas, r6, m5);
    RunTextField(s, f, 7, m.memo, [], m6, m);
    assert r6 + [] == r6;
    RunEmpty(s, f, m);
  }

  lemma RoundTripFee(uc: UintCodec, m: Fee)
    requires SelfInverse(uc) && |EncodeFee(uc, m)| < TWO63
    ensures DecodeFee(uc, EncodeFee(uc, m), ZERO_FEE) == Ok(m)
  {
    hide Run, DecodeCoin, EncodeCoins, LenField;
    var s, f := FEE_SCHEMA, FeeStep(uc);
    var amount := uc.encode(m.poolDeduct);
    var r1 := LenField(0x12, amount);
    var m1 := ZERO_FEE.(coins := m.coins);
    assert [] + m.coins == m.coins;
    RunFeeCoins(uc, m.coins, r1, ZERO_FEE);
    assert f(m1, Bytes(2, amount)) == Ok(m);
    RunLenField(s, f, 2, amount, [], m1, m);
    assert r1 + [] == r1;
    RunEmpty(s, f, m);
  }
}
