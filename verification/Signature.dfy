/**
  * getSignature of bifrost/tss/tss_signer.go: R and S as one string of 64 bytes, with S brought to
  * the lower half of the curve order (rule LOW_S of BIP 146).
  */
module Signature {
  import opened Outcome
  import opened Varint

  /** The order of secp256k1. */
  const N := 0xFFFFFFFF_FFFFFFFF_FFFFFFFF_FFFFFFFE_BAAEDCE6_AF48A03B_BFD25E8C_D0364141
  const HALF := N / 2

  function Pow256(k: nat): (p: nat)
    ensures p > 0
  {
    if k == 0 then 1 else 256 * Pow256(k - 1)
  }

  /** big.Int.SetBytes: big-endian. */
  function FromBytes(bs: seq<Byte>): nat {
    if bs == [] then 0 else 256 * FromBytes(bs[..|bs| - 1]) + bs[|bs| - 1]
  }

  /** big.Int.Bytes: big-endian, no leading zeros. */
  function ToBytes(n: nat): seq<Byte> {
    if n == 0 then [] else ToBytes(n / 256) + [n % 256]
  }

  lemma FromBytesSnoc(bs: seq<Byte>, b: Byte)
    ensures FromBytes(bs + [b]) == 256 * FromBytes(bs) + b
  {
  }

  lemma {:induction false} BytesRoundTrip(n: nat)
    ensures FromBytes(ToBytes(n)) == n
  {
    if n > 0 {
      BytesRoundTrip(n / 256);
      FromBytesSnoc(ToBytes(n / 256), n % 256);
    }
  }

  lemma {:induction false} ToBytesLength(n: nat, k: nat)
    ensures |ToBytes(n)| <= k <==> n < Pow256(k)
    decreases k
  {
    if n > 0 && k > 0 {
      ToBytesLength(n / 256, k - 1);
    }
  }

  lemma {:induction false} FromBytesBound(bs: seq<Byte>)
    ensures FromBytes(bs) < Pow256(|bs|)
  {
    if bs != [] {
      FromBytesBound(bs[..|bs| - 1]);
    }
  }

  function Zeros(k: nat): seq<Byte> { seq(k, _ => 0) }

  lemma {:induction false} LeadingZeros(k: nat, bs: seq<Byte>)
    ensures FromBytes(Zeros(k) + bs) == FromBytes(bs)
    decreases |bs| + k
  {
    if bs != [] {
      var init, last := bs[..|bs| - 1], bs[|bs| - 1];
      LeadingZeros(k, init);
      assert Zeros(k) + bs == Zeros(k) + init + [last];
      FromBytesSnoc(Zeros(k) + init, last);
    } else if k > 0 {
      LeadingZeros(k - 1, []);
      assert Zeros(k) + bs == (Zeros(k - 1) + []) + [0];
      FromBytesSnoc(Zeros(k - 1) + [], 0);
    }
  }

  /** Fixed-width big-endian strings with the same value are the same. */
  lemma {:induction false} FromBytesInjective(a: seq<Byte>, b: seq<Byte>)
    requires |a| == |b| && FromBytes(a) == FromBytes(b)
    ensures a == b
  {
    if a != [] {
      var n := |a| - 1;
      FromBytesInjective(a[..n], b[..n]);
      assert a == a[..n] + [a[n]] && b == b[..n] + [b[n]];
    }
  }

  /** The S that is written: its absolute value, as big.Int.Bytes drops the sign. */
  function LowS(s: nat): nat {
    if s <= HALF then s else if s <= N then N - s else s - N
  }

  lemma LowSFacts(s: nat)
    ensures 0 < s < N ==> LowS(s) == (if s < N - s then s else N - s) && LowS(N - s) == LowS(s)
    ensures LowS(s) <= HALF <==> s <= N + HALF
    ensures LowS(s) <= HALF ==> LowS(LowS(s)) == LowS(s)
  {
  }

  /** `s` with `src` over it from `at` on. */
  function Overlay(s: seq<Byte>, at: nat, src: seq<Byte>): (r: seq<Byte>)
    requires at + |src| <= |s|
    ensures |r| == |s|
  {
    s[..at] + src + s[at + |src|..]
  }

  /** Go's copy into a buffer. */
  method CopyInto(buf: array<Byte>, at: nat, src: seq<Byte>)
    requires at + |src| <= buf.Length
    modifies buf
    ensures buf[..] == Overlay(old(buf[..]), at, src)
  {
    forall k | 0 <= k < |src| { buf[at + k] := src[k]; }
  }

  /** Right-aligned in the two halves of a zero buffer. */
  lemma OverlayHalves(w: nat, r: seq<Byte>, s: seq<Byte>)
    requires |r| <= w && |s| <= w
    ensures var out := Overlay(Overlay(Zeros(w + w), w - |r|, r), w + w - |s|, s);
            out[..w] == Zeros(w - |r|) + r && out[w..] == Zeros(w - |s|) + s
  {
  }

  /** Two numbers of `w` bytes each. */
  predicate Encodes(sig: seq<Byte>, w: nat, r: nat, s: nat) {
    |sig| == w + w && FromBytes(sig[..w]) == r && FromBytes(sig[w..]) == s
  }

  const WIDTH: nat := 32

  datatype Signed = Signed(bytes: seq<Byte>) | BadInput | Panic

  /**
    * The inputs are the decoded strings, None where base64 decoding fails. The numbers come back
    * whenever both fit 32 bytes. A longer S is written over the end of R, up to 64 bytes.
    */
  method GetSignature(rBytes: Option<seq<Byte>>, sBytes: Option<seq<Byte>>) returns (sig: Signed)
    ensures sig.BadInput? <==> rBytes.None? || sBytes.None?
    ensures rBytes.Some? && sBytes.Some? ==>
              var r, s := FromBytes(rBytes.value), LowS(FromBytes(sBytes.value));
              && (sig.Panic? <==> r >= Pow256(WIDTH) || s >= Pow256(WIDTH + WIDTH))
              && (sig.Signed? ==> (Encodes(sig.bytes, WIDTH, r, s) <==> s < Pow256(WIDTH)))
  {
    hide Pow256, Encodes, FromBytes;
    if rBytes.None? || sBytes.None? { return BadInput; }
    var r, s := FromBytes(rBytes.value), FromBytes(sBytes.value);
    if s > HALF {
      s := if s <= N then N - s else s - N;
    }
    var out := Serialize(r, s, WIDTH);
    return match out case None => Panic case Some(bytes) => Signed(bytes);
  }

  method Serialize(r: nat, s: nat, w: nat) returns (sig: Option<seq<Byte>>)
    ensures sig.None? <==> r >= Pow256(w) || s >= Pow256(w + w)
    ensures sig.Some? ==> (Encodes(sig.value, w, r, s) <==> s < Pow256(w))
  {
    hide *;
    var rBytes, sBytes := ToBytes(r), ToBytes(s);
    ToBytesLength(r, w);
    ToBytesLength(s, w + w);
    if |rBytes| > w || |sBytes| > w + w { return None; }
    var buf := NewBuffer(w + w);
    CopyInto(buf, w - |rBytes|, rBytes);
    CopyInto(buf, w + w - |sBytes|, sBytes);
    var out := buf[..];
    if |sBytes| <= w {
      OverlayHalves(w, rBytes, sBytes);
    }
    Halves(r, s, w, out);
    return Some(out);
  }

  method NewBuffer(n: nat) returns (buf: array<Byte>)
    ensures fresh(buf) && buf.Length == n && buf[..] == Zeros(n)
  {
    buf := new Byte[n](_ => 0);
  }

  lemma Halves(r: nat, s: nat, w: nat, out: seq<Byte>)
    requires |ToBytes(r)| <= w && |out| == w + w
    requires |ToBytes(s)| <= w ==> out[..w] == Zeros(w - |ToBytes(r)|) + ToBytes(r)
    requires |ToBytes(s)| <= w ==> out[w..] == Zeros(w - |ToBytes(s)|) + ToBytes(s)
    ensures Encodes(out, w, r, s) <==> s < Pow256(w)
  {
    ToBytesLength(s, w);
    FromBytesBound(out[w..]);
    if |ToBytes(s)| <= w {
      LeadingZeros(w - |ToBytes(r)|, ToBytes(r));
      LeadingZeros(w - |ToBytes(s)|, ToBytes(s));
      BytesRoundTrip(r);
      BytesRoundTrip(s);
    }
  }

  /**
    * On the range a signer produces: exactly one string encodes R and the smaller of S and N - S, so
    * the result is the same for S and N - S, and a result is its own result.
    */
  lemma Canonical(w: nat, r: nat, s: nat, sig: seq<Byte>, other: seq<Byte>)
    requires 0 < s < N && Encodes(sig, w, r, LowS(s))
    ensures FromBytes(sig[w..]) <= HALF
    ensures Encodes(other, w, r, LowS(N - s)) ==> other == sig
    ensures Encodes(other, w, FromBytes(sig[..w]), LowS(FromBytes(sig[w..]))) ==> other == sig
  {
    LowSFacts(s);
    if Encodes(other, w, r, LowS(s)) {
      FromBytesInjective(sig[..w], other[..w]);
      FromBytesInjective(sig[w..], other[w..]);
      assert sig == sig[..w] + sig[w..] && other == other[..w] + other[w..];
    }
  }

  /** The order fits 32 bytes, so on that range neither half overflows. */
  lemma InRange(s: nat)
    requires 0 < s < N
    ensures LowS(s) < Pow256(WIDTH)
  {
    assert Pow256(4) == 0x1_0000_0000;
    assert Pow256(8) == Pow256(4) * 0x1_0000_0000;
    assert Pow256(12) == Pow256(8) * 0x1_0000_0000;
    assert Pow256(16) == Pow256(12) * 0x1_0000_0000;
    assert Pow256(20) == Pow256(16) * 0x1_0000_0000;
    assert Pow256(24) == Pow256(20) * 0x1_0000_0000;
    assert Pow256(28) == Pow256(24) * 0x1_0000_0000;
    assert Pow256(32) == Pow256(28) * 0x1_0000_0000;
  }
}
