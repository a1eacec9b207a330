/**
  * Base-128 varints as common/common.pb.go reads and writes them.
  *
  * `Encode` and `Read` are the reference forms. `EncodeVarint` and `ReadVarint` (the loops)
  * are proved equal to them.
  */
module Varint {
  import opened Outcome

  type Byte = x: int | 0 <= x < 256

  const TWO63 := 0x8000_0000_0000_0000
  const TWO64 := 0x1_0000_0000_0000_0000

  type Uint64 = x: int | 0 <= x < TWO64

  datatype Error =
    | IntOverflow
    | UnexpectedEof
    | InvalidLength
    | EndGroupTag
    | IllegalTag
    | WrongWireType
    | IllegalWireType
    | UnexpectedEndOfGroup
    | BadUint

  // ---------- reference encoder ----------

  function Encode(v: nat): (bs: seq<Byte>)
    ensures |bs| >= 1
  {
    if v < 128 then [v] else [v % 128 + 128] + Encode(v / 128)
  }

  /** Every byte but the last carries the continuation bit. */
  predicate IsRun(bs: seq<Byte>) {
    |bs| >= 1 && bs[|bs| - 1] < 128 && forall i :: 0 <= i < |bs| - 1 ==> bs[i] >= 128
  }

  /** A byte string the 64-bit reader accepts as one whole varint. */
  predicate IsVarint(bs: seq<Byte>) {
    IsRun(bs) && |bs| <= 10
  }

  function Pow128(n: nat): (p: nat)
    ensures p > 0
  {
    if n == 0 then 1 else 128 * Pow128(n - 1)
  }

  lemma {:induction false} EncodeIsRun(v: nat)
    ensures IsRun(Encode(v))
  {
    if v >= 128 {
      EncodeIsRun(v / 128);
    }
  }

  lemma {:induction false} EncodeLength(v: nat, n: nat)
    requires n > 0 && v < Pow128(n)
    ensures |Encode(v)| <= n
  {
    if v >= 128 {
      EncodeLength(v / 128, n - 1);
    }
  }

  lemma EncodeLength64(v: Uint64)
    ensures IsVarint(Encode(v))
  {
    assert Pow128(10) == 128 * 128 * 128 * 128 * 128 * 128 * 128 * 128 * 128 * 128 by {
      assert Pow128(4) == 128 * 128 * 128 * 128;
      assert Pow128(8) == 128 * 128 * 128 * 128 * Pow128(4);
    }
    EncodeLength(v, 10);
    EncodeIsRun(v);
  }

  // ---------- reference reader ----------

  /** Reads one varint; `k` bytes of it were consumed already (the source's shift is 7 * k). */
  function ReadFrom(data: seq<Byte>, k: nat): (r: Result<(nat, nat), Error>)
    ensures r.Ok? ==> 1 <= r.value.1 <= |data|
    decreases |data|
  {
    if 7 * k >= 64 then Err(IntOverflow)
    else if data == [] then Err(UnexpectedEof)
    else if data[0] < 128 then Ok((data[0], 1))
    else
      var (v, n) :- ReadFrom(data[1..], k + 1);
      Ok((data[0] - 128 + 128 * v, n + 1))
  }

  /** One varint truncated to 64 bits, and the number of bytes it takes. */
  function Read(data: seq<Byte>): (r: Result<(Uint64, nat), Error>)
    ensures r.Ok? ==> 1 <= r.value.1 <= |data|
  {
    var (v, n) :- ReadFrom(data, 0);
    Ok((v % TWO64, n))
  }

  /** What `ReadFrom` accepts: exactly the inputs that start with a short enough run. */
  lemma {:induction false} ReadFromRun(bs: seq<Byte>, rest: seq<Byte>, k: nat)
    requires IsRun(bs) && k + |bs| <= 10
    ensures ReadFrom(bs + rest, k).Ok?
    ensures ReadFrom(bs + rest, k).value.1 == |bs|
    ensures ReadFrom(bs + rest, k) == ReadFrom(bs, k)
    decreases |bs|
  {
    if |bs| > 1 {
      assert (bs + rest)[1..] == bs[1..] + rest;
      ReadFromRun(bs[1..], rest, k + 1);
    }
  }

  lemma {:induction false} ReadFromOk(data: seq<Byte>, k: nat)
    requires ReadFrom(data, k).Ok?
    ensures var n := ReadFrom(data, k).value.1; IsRun(data[..n]) && k + n <= 10
    decreases |data|
  {
    if data[0] >= 128 {
      ReadFromOk(data[1..], k + 1);
      var n := ReadFrom(data[1..], k + 1).value.1;
      assert data[..n + 1] == [data[0]] + data[1..][..n];
    }
  }

  /** The reader takes `n` bytes exactly when those bytes are one varint. */
  lemma ReadIff(data: seq<Byte>, n: nat)
    requires n <= |data|
    ensures (Read(data).Ok? && Read(data).value.1 == n) <==> IsVarint(data[..n])
  {
    if Read(data).Ok? && Read(data).value.1 == n {
      ReadFromOk(data, 0);
    }
    if IsVarint(data[..n]) {
      ReadFromRun(data[..n], data[n..], 0);
      assert data == data[..n] + data[n..];
    }
  }

  /** Bytes behind a complete varint never matter. */
  lemma ReadPrefix(data: seq<Byte>, rest: seq<Byte>)
    requires Read(data).Ok?
    ensures Read(data + rest) == Read(data)
  {
    var n := Read(data).value.1;
    ReadFromOk(data, 0);
    ReadFromRun(data[..n], data[n..], 0);
    ReadFromRun(data[..n], data[n..] + rest, 0);
    assert data == data[..n] + data[n..];
    assert data + rest == data[..n] + (data[n..] + rest);
  }

  lemma {:induction false} ReadFromEncode(v: nat, rest: seq<Byte>, k: nat)
    requires k + |Encode(v)| <= 10
    ensures ReadFrom(Encode(v) + rest, k) == Ok((v, |Encode(v)|))
    decreases v
  {
    if v >= 128 {
      assert (Encode(v) + rest)[1..] == Encode(v / 128) + rest;
      ReadFromEncode(v / 128, rest, k + 1);
    }
  }

  /** Round trip, whatever follows. */
  lemma ReadEncode(v: Uint64, rest: seq<Byte>)
    ensures Read(Encode(v) + rest) == Ok((v, |Encode(v)|))
  {
    EncodeLength64(v);
    ReadFromEncode(v, rest, 0);
  }

  // ---------- sizes ----------

  function BitLen(x: nat): nat {
    if x == 0 then 0 else 1 + BitLen(x / 2)
  }

  function SetLowBit(x: nat): nat {
    if x % 2 == 0 then x + 1 else x
  }

  /** sovCommon: (bits.Len64(x | 1) + 6) / 7. */
  function Sov(x: nat): nat {
    (BitLen(SetLowBit(x)) + 6) / 7
  }

  lemma BitLenShift7(x: nat)
    requires x >= 128
    ensures BitLen(x) == 7 + BitLen(x / 128)
  {
    var a := x / 2; var b := a / 2; var c := b / 2; var d := c / 2; var e := d / 2; var f := e / 2;
    assert f / 2 == x / 128;
    assert BitLen(x) == 1 + BitLen(a) && BitLen(a) == 1 + BitLen(b);
    assert BitLen(b) == 1 + BitLen(c) && BitLen(c) == 1 + BitLen(d);
    assert BitLen(d) == 1 + BitLen(e) && BitLen(e) == 1 + BitLen(f);
  }

  lemma BitLenSmall(x: nat)
    requires 0 < x < 128
    ensures 1 <= BitLen(x) <= 7
  {
  }

  /** The bit-length formula counts the bytes the encoder emits. */
  lemma {:induction false} SovIsLength(v: nat)
    ensures Sov(v) == |Encode(v)|
  {
    hide Sov;
    SovStep(v);
    if v >= 128 {
      SovIsLength(v / 128);
    }
  }

  lemma SovStep(v: nat)
    ensures Sov(v) == if v < 128 then 1 else 1 + Sov(v / 128)
  {
    hide BitLen;
    if v < 128 {
      BitLenSmall(SetLowBit(v));
    } else {
      BitLenShift7(SetLowBit(v));
      LowBitBelow7(v);
      BitLenSetLowBit(v / 128);
    }
  }

  lemma LowBitBelow7(v: nat)
    ensures SetLowBit(v) / 128 == v / 128
  {
  }

  lemma BitLenSetLowBit(x: nat)
    requires x > 0
    ensures BitLen(SetLowBit(x)) == BitLen(x)
  {
  }

  // ---------- the loops ----------

  /** encodeVarintCommon: reserves Sov(v) bytes below `offset`, then fills them upwards. */
  method EncodeVarint(buf: array<Byte>, offset: nat, v: Uint64) returns (base: nat)
    requires |Encode(v)| <= offset <= buf.Length
    modifies buf
    ensures base == offset - |Encode(v)|
    ensures buf[base..offset] == Encode(v)
    ensures buf[..base] == old(buf[..base]) && buf[offset..] == old(buf[offset..])
  {
    hide Encode;
    SovIsLength(v);
    base := offset - Sov(v);
    var i := base;
    var rest: nat := v;
    while rest >= 128
      invariant base <= i && i + |Encode(rest)| == offset
      invariant buf[base..i] + Encode(rest) == Encode(v)
      invariant buf[..base] == old(buf[..base]) && buf[offset..] == old(buf[offset..])
      decreases rest
    {
      EncodeStep(buf[base..i], rest);
      PutByte(buf, base, i, offset, rest % 128 + 128);
      rest := rest / 128;
      i := i + 1;
    }
    EncodeStep(buf[base..i], rest);
    PutByte(buf, base, i, offset, rest);
  }

  lemma EncodeStep(before: seq<Byte>, v: nat)
    ensures v < 128 ==> Encode(v) == [v]
    ensures v >= 128 ==> |Encode(v)| == 1 + |Encode(v / 128)|
    ensures v >= 128 ==> before + Encode(v) == before + [v % 128 + 128] + Encode(v / 128)
  {
  }

  method PutByte(buf: array<Byte>, lo: nat, i: nat, hi: nat, b: Byte)
    requires lo <= i < hi <= buf.Length
    modifies buf
    ensures buf[lo..i + 1] == old(buf[lo..i]) + [b]
    ensures buf[..lo] == old(buf[..lo]) && buf[hi..] == old(buf[hi..])
  {
    buf[i] := b;
  }

  /**
    * The read loop of the generated decoders. The accumulator stays below `unit` == 1 << shift,
    * so the source's `|=` of the shifted seven bits is an addition, cut to 64 bits by the shift.
    */
  method ReadVarint(data: seq<Byte>, start: nat) returns (r: Result<(Uint64, nat), Error>)
    requires start <= |data|
    ensures r == Read(data[start..])
  {
    hide ReadFrom, Resumes;
    var index := start;
    var shift := 0;
    var unit: nat := 1;
    var acc: Uint64 := 0;
    ghost var exact: nat := 0;
    ResumeStart(data[start..]);
    while true
      invariant start <= index <= |data| && shift == 7 * (index - start)
      invariant exact < unit && acc == exact % TWO64
      invariant Resumes(data[start..], data[index..], index - start, exact, unit)
      decreases |data| - index
    {
      if shift >= 64 || index >= |data| {
        ResumeFails(data[start..], data[index..], index - start, exact, unit);
        return if shift >= 64 then Err(IntOverflow) else Err(UnexpectedEof);
      }
      var b := data[index];
      ghost var left := data[index..];
      assert left[1..] == data[index + 1..];
      ResumeStep(data[start..], left, index - start, exact, unit);
      var add := (b % 128) * unit;
      AddModulo(exact, add);
      acc := (acc + add) % TWO64;
      index := index + 1;
      if b < 128 {
        return Ok((acc, index - start));
      }
      exact, unit := exact + add, 128 * unit;
      shift := shift + 7;
    }
  }

  lemma ResumeStart(all: seq<Byte>)
    ensures Resumes(all, all, 0, 0, 1)
  {
  }

  lemma ResumeFails(all: seq<Byte>, left: seq<Byte>, k: nat, exact: nat, p: nat)
    requires Resumes(all, left, k, exact, p) && (7 * k >= 64 || left == [])
    ensures ReadFrom(all, 0) == if 7 * k >= 64 then Err(IntOverflow) else Err(UnexpectedEof)
  {
  }

  /** Loop state: what the whole read gives, in terms of what is left to read. */
  ghost predicate Resumes(all: seq<Byte>, left: seq<Byte>, k: nat, exact: nat, p: nat) {
    match ReadFrom(left, k)
    case Err(e) => ReadFrom(all, 0) == Err(e)
    case Ok((v, n)) => ReadFrom(all, 0) == Ok((exact + p * v, n + k))
  }

  lemma ResumeStep(all: seq<Byte>, left: seq<Byte>, k: nat, exact: nat, p: nat)
    requires Resumes(all, left, k, exact, p) && 7 * k < 64 && left != [] && exact < p
    ensures left[0] < 128 ==> ReadFrom(all, 0) == Ok((exact + (left[0] % 128) * p, k + 1))
    ensures left[0] >= 128 ==> Resumes(all, left[1..], k + 1, exact + (left[0] % 128) * p, 128 * p)
    ensures 0 <= (left[0] % 128) * p && exact + (left[0] % 128) * p < 128 * p
  {
    hide Resumes, ReadFrom;
    MulMono(left[0] % 128, 127, p);
    if left[0] >= 128 {
      ResumeMore(all, left, k, exact, p, left[0] % 128);
    } else {
      ResumeLast(all, left, k, exact, p, left[0] % 128);
    }
  }

  lemma ResumeLast(all: seq<Byte>, left: seq<Byte>, k: nat, exact: nat, p: nat, c: nat)
    requires Resumes(all, left, k, exact, p) && 7 * k < 64 && left != [] && left[0] == c < 128
    ensures c * p >= 0 && ReadFrom(all, 0) == Ok((exact + c * p, k + 1))
  {
    assert ReadFrom(left, k) == Ok((c, 1));
    hide ReadFrom;
    MulMono(c, c, p);
  }

  lemma ResumeMore(all: seq<Byte>, left: seq<Byte>, k: nat, exact: nat, p: nat, c: nat)
    requires Resumes(all, left, k, exact, p) && 7 * k < 64 && left != [] && left[0] == c + 128
    ensures c * p >= 0 && Resumes(all, left[1..], k + 1, exact + c * p, 128 * p)
  {
    var next := ReadFrom(left[1..], k + 1);
    assert ReadFrom(left, k) == match next case Err(e) => Err(e) case Ok((v, n)) => Ok((c + 128 * v, n + 1));
    hide ReadFrom;
    MulMono(c, c, p);
    if next.Ok? {
      Distribute(p, c, next.value.0);
    }
  }

  lemma Distribute(p: int, c: int, v: int)
    ensures p * (c + 128 * v) == c * p + 128 * p * v
  {
  }

  lemma MulMono(a: nat, b: nat, p: nat)
    requires a <= b
    ensures 0 <= a * p <= b * p
  {
  }

  lemma AddModulo(a: nat, b: nat)
    ensures (a % TWO64 + b) % TWO64 == (a + b) % TWO64
  {
  }
}
