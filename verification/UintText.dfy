/**
  * The text form sdk.Uint has on the wire: decimal digits without leading zeros. This is one codec
  * that satisfies `SelfInverse`, so the round trips of Messages.dfy are not about an empty class.
  */
module UintText {
  import opened Outcome
  import opened Messages

  function Digits(v: nat): (t: Text)
    ensures |t| >= 1
  {
    if v < 10 then [0x30 + v] else Digits(v / 10) + [0x30 + v % 10]
  }

  function Parse(t: Text): Option<nat> {
    if t == [] then Some(0)
    else
      var last := t[|t| - 1];
      var high :- Parse(t[..|t| - 1]);
      if 0x30 <= last < 0x3a then Some(10 * high + last - 0x30) else None
  }

  function DecodeDigits(was: Uint, t: Text): Option<Uint> {
    if t == [] then Some(was)
    else
      var v :- Parse(t);
      if v < TWO256 then Some(v) else None
  }

  function EncodeDigits(v: Uint): Text { Digits(v) }

  const Decimal := UintCodec(EncodeDigits, DecodeDigits)

  lemma {:induction false} ParseDigits(v: nat)
    ensures Parse(Digits(v)) == Some(v)
  {
    var t := Digits(v);
    if v < 10 {
      assert t[..0] == [];
    } else {
      ParseDigits(v / 10);
      assert t[..|t| - 1] == Digits(v / 10);
    }
  }

  lemma DecimalIsSelfInverse()
    ensures SelfInverse(Decimal)
  {
    forall was: Uint, v: Uint ensures Decimal.decode(was, Decimal.encode(v)) == Some(v) {
      ParseDigits(v);
    }
  }
}
