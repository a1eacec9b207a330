/**
  * The scan position in LevelDB, bifrost/blockscanner/leveldb_storage.go: a zigzag varint written
  * by Go's encoding/binary into a buffer of eight bytes. A write past the buffer panics.
  */
module ScanPos {
  import opened Outcome
  import opened Varint

  const TWO55 := 0x80_0000_0000_0000

  type Int64 = x: int | -TWO63 <= x < TWO63

  /** Signed numbers as unsigned ones, small magnitudes first. */
  function Zigzag(x: Int64): (u: Uint64) {
    if x >= 0 then 2 * x else -2 * x - 1
  }

  function Unzigzag(u: Uint64): Int64 {
    if u % 2 == 0 then u / 2 else -(u / 2) - 1
  }

  /** binary.Uvarint: 0 when the bytes are no varint or do not fit 64 bits. */
  function Uvarint(buf: seq<Byte>): Uint64 {
    match ReadFrom(buf, 0)
    case Ok((v, _)) => if v < TWO64 then v else 0
    case Err(_) => 0
  }

  lemma {:induction false} EncodeLengthIff(v: nat, n: nat)
    ensures |Encode(v)| <= n <==> n > 0 && v < Pow128(n)
    decreases n
  {
    if v >= 128 && n > 0 {
      EncodeLengthIff(v / 128, n - 1);
    }
  }

  lemma Pow128At8()
    ensures Pow128(8) == 2 * TWO55 && Pow128(9) == TWO63
  {
  }

  /** A position fits the eight-byte buffer exactly below 2^55 in magnitude. */
  lemma FitsIff(x: Int64)
    ensures |Encode(Zigzag(x))| <= 8 <==> -TWO55 <= x < TWO55
  {
    Pow128At8();
    EncodeLengthIff(Zigzag(x), 8);
  }

  lemma PositionRoundTrip(x: Int64)
    ensures Unzigzag(Uvarint(Encode(Zigzag(x)))) == x
  {
    EncodeLength64(Zigzag(x));
    ReadFromEncode(Zigzag(x), [], 0);
    assert Encode(Zigzag(x)) + [] == Encode(Zigzag(x));
  }

  /** binary.PutUvarint; None is a panic. */
  method PutUvarint(buf: array<Byte>, v: Uint64) returns (n: Option<nat>)
    modifies buf
    ensures n.None? <==> |Encode(v)| > buf.Length
    ensures n.Some? ==> n.value == |Encode(v)| && buf[..n.value] == Encode(v)
  {
    hide Encode;
    var i: nat, rest: nat := 0, v;
    while rest >= 128
      invariant i <= buf.Length && buf[..i] + Encode(rest) == Encode(v)
      decreases rest
    {
      EncodeStep(buf[..i], rest);
      if i >= buf.Length { return None; }
      PutByte(buf, 0, i, buf.Length, rest % 128 + 128);
      rest := rest / 128;
      i := i + 1;
    }
    EncodeStep(buf[..i], rest);
    if i >= buf.Length { return None; }
    PutByte(buf, 0, i, buf.Length, rest);
    return Some(i + 1);
  }

  /** The loop of binary.Uvarint over a buffer. */
  method ReadUvarint(buf: seq<Byte>) returns (r: Uint64)
    ensures r == Uvarint(buf)
  {
    var acc: Uint64, unit: nat := 0, 1;
    ghost var exact: nat := 0;
    hide ReadFrom, Uvarint, Resumes, Pow128;
    assert buf[0..] == buf;
    ResumeStart(buf);
    Pow128Step(0);
    var i := 0;
    while i < |buf|
      invariant 0 <= i <= |buf| && i <= 10 && unit == Pow128(i)
      invariant exact < unit && acc == exact % TWO64
      invariant Resumes(buf, buf[i..], i, exact, unit)
    {
      if i == 10 {
        UvarintFails(buf, i, exact, unit);
        return 0;
      }
      var b := buf[i];
      var add := StepBy(buf, i, exact, unit);
      if b < 128 {
        UvarintEnd(buf, i, exact, unit, b, add);
        return if i == 9 && b > 1 then 0 else acc + add;
      }
      AddModulo(exact, add);
      Pow128Step(i);
      acc := (acc + add) % TWO64;
      exact, unit := exact + add, 128 * unit;
      i := i + 1;
    }
    UvarintFails(buf, i, exact, unit);
    return 0;
  }

  lemma Pow128Step(i: nat)
    ensures Pow128(0) == 1 && Pow128(i + 1) == 128 * Pow128(i)
  {
  }

  lemma UvarintFails(buf: seq<Byte>, i: nat, exact: nat, unit: nat)
    requires i <= |buf| && (i == 10 || i == |buf|) && Resumes(buf, buf[i..], i, exact, unit)
    ensures Uvarint(buf) == 0
  {
  }

  /** The seven bits of byte `i` at their place. */
  method StepBy(buf: seq<Byte>, i: nat, ghost exact: nat, unit: nat) returns (add: nat)
    requires i < |buf| && i < 10 && exact < unit && Resumes(buf, buf[i..], i, exact, unit)
    ensures add == (buf[i] % 128) * unit && exact + add < 128 * unit
    ensures buf[i] < 128 ==> ReadFrom(buf, 0) == Ok((exact + add, i + 1))
    ensures buf[i] >= 128 ==> Resumes(buf, buf[i + 1..], i + 1, exact + add, 128 * unit)
  {
    hide ReadFrom, Resumes;
    assert buf[i..][1..] == buf[i + 1..];
    ResumeStep(buf, buf[i..], i, exact, unit);
    add := (buf[i] % 128) * unit;
  }

  lemma UvarintEnd(buf: seq<Byte>, i: nat, exact: nat, unit: nat, b: Byte, add: nat)
    requires i < 10 && unit == Pow128(i) && exact < unit && b < 128 && add == (b % 128) * unit
    requires ReadFrom(buf, 0) == Ok((exact + add, i + 1))
    ensures exact % TWO64 == exact
    ensures Uvarint(buf) == if i == 9 && b > 1 then 0 else exact + add
  {
    Pow128At8();
    MulMono(b, 127, unit);
    if i < 9 {
      Pow128Mono(i, 8);
    } else {
      if b <= 1 { MulMono(b, 1, unit); } else { MulMono(2, b, unit); }
    }
  }

  lemma {:induction false} Pow128Mono(m: nat, n: nat)
    requires m <= n
    ensures Pow128(m) <= Pow128(n)
  {
    if m < n {
      Pow128Mono(m, n - 1);
    }
  }

  datatype SetResult = Saved | Failed | Panicked

  /** The position a stored value stands for. */
  function Position(value: Option<seq<Byte>>): Option<int> {
    match value
    case None => None
    case Some(buf) => Some(Unzigzag(Uvarint(buf)))
  }

  class Storage {
    /** What the database holds under the scan position key. */
    var value: Option<seq<Byte>>

    constructor ()
      ensures value == None
    {
      value := None;
    }

    /** `putOk` says whether the database accepts the write. */
    method SetScanPos(block: Int64, putOk: bool) returns (r: SetResult)
      modifies this
      ensures r == if !(-TWO55 <= block < TWO55) then Panicked else if putOk then Saved else Failed
      ensures Position(value) == if r == Saved then Some(block) else old(Position(value))
    {
      var buf := new Byte[8];
      var n := PutUvarint(buf, Zigzag(block));
      FitsIff(block);
      if n.None? { return Panicked; }
      if !putOk { return Failed; }
      PositionRoundTrip(block);
      value := Some(buf[..n.value]);
      return Saved;
    }

    method GetScanPos() returns (r: Option<int>)
      ensures r == Position(value)
    {
      if value.None? { return None; }
      var u := ReadUvarint(value.value);
      return Some(Unzigzag(u));
    }
  }
}
