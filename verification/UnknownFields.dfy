/**
  * The grammar of fields a decoder may meet without knowing them, and the proof that skipCommon
  * accepts exactly that grammar. Varints need not be minimal, and groups may nest. As in the
  * source, the number on an end-group tag is not compared with the one that opened the group.
  */
module UnknownFields {
  import opened Outcome
  import opened Varint
  import opened Wire

  datatype Field =
    | VarintField(tag: seq<Byte>, value: seq<Byte>)
    | Fixed64(tag: seq<Byte>, body: seq<Byte>)
    | LengthDelimited(tag: seq<Byte>, len: seq<Byte>, body: seq<Byte>)
    | Group(tag: seq<Byte>, fields: seq<Field>, close: seq<Byte>)
    | Fixed32(tag: seq<Byte>, body: seq<Byte>)

  /** `tag` is one varint whose low three bits are `wireType`. */
  predicate IsTag(tag: seq<Byte>, wireType: int) {
    Holds(tag) && Read(tag).value.0 % 8 == wireType
  }

  /** `bs` is read as one varint, whole. */
  predicate Holds(bs: seq<Byte>) {
    Read(bs).Ok? && Read(bs).value.1 == |bs|
  }

  predicate WellFormed(f: Field) {
    match f
    case VarintField(tag, value) => IsTag(tag, 0) && Holds(value)
    case Fixed64(tag, body) => IsTag(tag, 1) && |body| == 8
    case LengthDelimited(tag, len, body) => IsTag(tag, 2) && Holds(len) && Read(len).value.0 == |body| < TWO63
    case Group(tag, fields, close) => IsTag(tag, 3) && IsTag(close, 4) && forall g :: g in fields ==> WellFormed(g)
    case Fixed32(tag, body) => IsTag(tag, 5) && |body| == 4
  }

  function Serialize(f: Field): seq<Byte> {
    match f
    case VarintField(tag, value) => tag + value
    case Fixed64(tag, body) => tag + body
    case LengthDelimited(tag, len, body) => tag + (len + body)
    case Group(tag, fields, close) => tag + (SerializeAll(fields) + close)
    case Fixed32(tag, body) => tag + body
  }

  function SerializeAll(fs: seq<Field>): seq<Byte> {
    if fs == [] then [] else Serialize(fs[0]) + SerializeAll(fs[1..])
  }

  function Shift(n: nat, r: Result<nat, Error>): Result<nat, Error> {
    match r
    case Ok(m) => Ok(n + m)
    case Err(e) => Err(e)
  }

  /** What Skip does once the first token of `data` is known. */
  lemma SkipAfterToken(data: seq<Byte>, kind: Kind, n: nat, depth: nat)
    requires Token(data) == Ok((kind, n)) && n <= |data|
    requires kind.End? ==> depth > 0
    ensures Skip(data, depth) == if Deeper(depth, kind) == 0 then Ok(n) else Shift(n, Skip(data[n..], Deeper(depth, kind)))
  {
    hide Token;
    TokenNeedsInput(data);
  }

  lemma TokenNeedsInput(data: seq<Byte>)
    requires Token(data).Ok?
    ensures data != []
  {
  }

  /** The token of a serialized leaf is the whole leaf. */
  lemma LeafToken(f: Field, rest: seq<Byte>)
    requires WellFormed(f) && !f.Group?
    ensures Token(Serialize(f) + rest) == Ok((Plain, |Serialize(f)|))
  {
    hide Read;
    match f {
      case VarintField(tag, value) =>
        TagFirst(tag, value, rest);
        ReadPrefix(value, rest);
      case LengthDelimited(tag, len, body) =>
        TagFirst(tag, len + body, rest);
        assert (len + body) + rest == len + (body + rest);
        ReadPrefix(len, body + rest);
      case Fixed64(tag, body) => TagFirst(tag, body, rest);
      case Fixed32(tag, body) => TagFirst(tag, body, rest);
    }
  }

  /** The reader takes the tag off whatever follows it. */
  lemma TagFirst(tag: seq<Byte>, body: seq<Byte>, rest: seq<Byte>)
    requires Holds(tag)
    ensures Read((tag + body) + rest) == Read(tag) && ((tag + body) + rest)[|tag|..] == body + rest
  {
    hide Read;
    ReadPrefix(tag, body + rest);
    assert (tag + body) + rest == tag + (body + rest);
  }

  lemma GroupTagToken(tag: seq<Byte>, rest: seq<Byte>)
    ensures IsTag(tag, 3) ==> Token(tag + rest) == Ok((Start, |tag|))
    ensures IsTag(tag, 4) ==> Token(tag + rest) == Ok((End, |tag|))
  {
    if Holds(tag) {
      ReadPrefix(tag, rest);
    }
  }

  /** Inside an open group, a field is passed over; at the top it is the whole of what is skipped. */
  lemma {:induction false} SkipAcceptsField(f: Field, rest: seq<Byte>, depth: nat)
    requires WellFormed(f)
    ensures Skip(Serialize(f) + rest, depth)
         == if depth == 0 then Ok(|Serialize(f)|) else Shift(|Serialize(f)|, Skip(rest, depth))
    decreases f, 1
  {
    hide Token, Skip, IsTag;
    var data := Serialize(f) + rest;
    if f.Group? {
      var inner := SerializeAll(f.fields);
      var tail := f.close + rest;
      assert data == f.tag + (inner + tail);
      GroupTagToken(f.tag, inner + tail);
      SkipAfterToken(data, Start, |f.tag|, depth);
      assert data[|f.tag|..] == inner + tail;
      SkipAcceptsFields(f.fields, tail, depth + 1);
      GroupTagToken(f.close, rest);
      SkipAfterToken(tail, End, |f.close|, depth + 1);
      assert tail[|f.close|..] == rest;
    } else {
      LeafToken(f, rest);
      SkipAfterToken(data, Plain, |Serialize(f)|, depth);
      assert data[|Serialize(f)|..] == rest;
    }
  }

  lemma {:induction false} SkipAcceptsFields(fs: seq<Field>, rest: seq<Byte>, depth: nat)
    requires depth > 0 && forall g :: g in fs ==> WellFormed(g)
    ensures Skip(SerializeAll(fs) + rest, depth) == Shift(|SerializeAll(fs)|, Skip(rest, depth))
    decreases fs, 0
  {
    hide Skip, WellFormed;
    if fs == [] {
      assert SerializeAll(fs) + rest == rest;
    } else {
      var tail := SerializeAll(fs[1..]) + rest;
      assert SerializeAll(fs) + rest == Serialize(fs[0]) + tail;
      SkipAcceptsField(fs[0], tail, depth);
      SkipAcceptsFields(fs[1..], rest, depth);
    }
  }

  /** The field behind a plain token that lies inside the input. */
  lemma LeafOfToken(data: seq<Byte>) returns (f: Field)
    requires Token(data).Ok? && Token(data).value.0.Plain? && Token(data).value.1 <= |data|
    ensures WellFormed(f) && !f.Group? && Serialize(f) == data[..Token(data).value.1]
  {
    hide Read;
    var (wire, n) := Read(data).value;
    var size := Token(data).value.1;
    ReadWhole(data);
    FrontAndBack(data, n, size);
    f := LeafFrom(data[..n], data[n..], wire % 8, size - n);
  }

  /** A field from its tag and the bytes behind it. */
  lemma LeafFrom(tag: seq<Byte>, after: seq<Byte>, wireType: int, size: nat) returns (f: Field)
    requires IsTag(tag, wireType) && size <= |after| && wireType in {0, 1, 2, 5}
    requires wireType == 0 ==> Read(after).Ok? && size == Read(after).value.1
    requires wireType == 1 ==> size == 8
    requires wireType == 2 ==>
               Read(after).Ok? && Read(after).value.0 < TWO63 && size == Read(after).value.1 + Read(after).value.0
    requires wireType == 5 ==> size == 4
    ensures WellFormed(f) && !f.Group? && Serialize(f) == tag + after[..size]
  {
    hide Read, IsTag;
    match wireType {
      case 0 =>
        ReadWhole(after);
        f := VarintField(tag, after[..size]);
      case 1 =>
        f := Fixed64(tag, after[..8]);
      case 2 =>
        var k := Read(after).value.1;
        ReadWhole(after);
        FrontAndMiddle(after, k, size);
        f := LengthDelimited(tag, after[..k], after[k..size]);
      case _ =>
        f := Fixed32(tag, after[..4]);
    }
  }

  lemma FrontAndBack(data: seq<Byte>, n: nat, size: nat)
    requires n <= size <= |data|
    ensures data[..size] == data[..n] + data[n..][..size - n]
  {
  }

  lemma FrontAndMiddle(data: seq<Byte>, k: nat, size: nat)
    requires k <= size <= |data|
    ensures data[..size] == data[..k] + data[k..size]
  {
  }

  lemma ReadWhole(data: seq<Byte>)
    requires Read(data).Ok?
    ensures var n := Read(data).value.1; Holds(data[..n]) && Read(data[..n]) == Read(data)
  {
    var n := Read(data).value.1;
    ReadIff(data, n);
    assert data[..n][..n] == data[..n];
    ReadIff(data[..n], n);
    ReadPrefix(data[..n], data[n..]);
    assert data == data[..n] + data[n..];
  }

  lemma TagOfToken(data: seq<Byte>)
    requires Token(data).Ok? && !Token(data).value.0.Plain?
    ensures var (kind, n) := Token(data).value;
            n <= |data| && IsTag(data[..n], if kind.Start? then 3 else 4)
  {
    ReadWhole(data);
  }

  lemma SkipTokenBound(data: seq<Byte>, depth: nat)
    requires Skip(data, depth).Ok? && Skip(data, depth).value <= |data|
    ensures Token(data).Ok? && Token(data).value.1 <= |data|
    ensures Token(data).value.0.End? ==> depth > 0
  {
  }

  /** A successful skip inside a group reads fields up to that group's end tag. */
  lemma {:induction false} SkipParsesGroup(data: seq<Byte>, depth: nat) returns (fs: seq<Field>, close: seq<Byte>, n: nat)
    requires depth > 0 && Skip(data, depth).Ok? && Skip(data, depth).value <= |data|
    ensures forall g :: g in fs ==> WellFormed(g)
    ensures IsTag(close, 4)
    ensures n <= |data| && data[..n] == SerializeAll(fs) + close
    ensures Skip(data, depth) == if depth == 1 then Ok(n) else Shift(n, Skip(data[n..], depth - 1))
    decreases |data|
  {
    hide Token, IsTag, Skip, WellFormed, Serialize;
    SkipTokenBound(data, depth);
    var (kind, k) := Token(data).value;
    SkipAfterToken(data, kind, k, depth);
    match kind {
      case End =>
        TagOfToken(data);
        fs, close, n := [], data[..k], k;
        assert data[..n] == SerializeAll([]) + close;
      case Plain =>
        var f := LeafOfToken(data);
        var fs', m;
        fs', close, m := SkipParsesGroup(data[k..], depth);
        fs, n := [f] + fs', k + m;
        Prepend(data, k, m, f, fs', close);
      case Start =>
        TagOfToken(data);
        var inner, end, m := SkipParsesGroup(data[k..], depth + 1);
        var f := GroupOf(data, k, inner, end, m);
        var fs', j;
        fs', close, j := SkipParsesGroup(data[k + m..], depth);
        fs, n := [f] + fs', k + m + j;
        Prepend(data, k + m, j, f, fs', close);
    }
  }

  lemma GroupOf(data: seq<Byte>, k: nat, inner: seq<Field>, close: seq<Byte>, m: nat) returns (f: Field)
    requires k + m <= |data| && IsTag(data[..k], 3) && IsTag(close, 4)
    requires forall g :: g in inner ==> WellFormed(g)
    requires data[k..][..m] == SerializeAll(inner) + close
    ensures WellFormed(f) && Serialize(f) == data[..k + m] && data[k..][m..] == data[k + m..]
  {
    f := Group(data[..k], inner, close);
    assert data[..k + m] == data[..k] + data[k..][..m];
  }

  lemma Prepend(data: seq<Byte>, k: nat, m: nat, f: Field, fs: seq<Field>, close: seq<Byte>)
    requires k + m <= |data| && Serialize(f) == data[..k] && data[k..][..m] == SerializeAll(fs) + close
    ensures data[..k + m] == SerializeAll([f] + fs) + close
    ensures data[k..][m..] == data[k + m..]
  {
    assert SerializeAll([f] + fs) == Serialize(f) + SerializeAll(fs) by { assert ([f] + fs)[1..] == fs; }
    hide Serialize, SerializeAll;
    assert data[..k + m] == data[..k] + data[k..][..m];
  }

  /** skipCommon takes the first `n` bytes exactly when they are one well-formed field. */
  lemma SkipIff(data: seq<Byte>, n: nat)
    requires n <= |data|
    ensures Skip(data, 0) == Ok(n) <==> exists f :: WellFormed(f) && Serialize(f) == data[..n]
  {
    hide Skip, WellFormed, Serialize;
    if Skip(data, 0) == Ok(n) {
      var f := SkipParses(data);
    }
    forall f | WellFormed(f) && Serialize(f) == data[..n]
      ensures Skip(data, 0) == Ok(n)
    {
      SkipAcceptsField(f, data[n..], 0);
      assert data == Serialize(f) + data[n..];
    }
  }

  lemma SkipParses(data: seq<Byte>) returns (f: Field)
    requires Skip(data, 0).Ok? && Skip(data, 0).value <= |data|
    ensures WellFormed(f) && Serialize(f) == data[..Skip(data, 0).value]
  {
    hide Token, IsTag, Skip, WellFormed, Serialize;
    SkipTokenBound(data, 0);
    var (kind, k) := Token(data).value;
    SkipAfterToken(data, kind, k, 0);
    if kind.Plain? {
      f := LeafOfToken(data);
    } else {
      TagOfToken(data);
      var inner, end, m := SkipParsesGroup(data[k..], 1);
      f := GroupOf(data, k, inner, end, m);
    }
  }

  /** A well-formed field with an unassigned number is skipped whole. */
  lemma UnassignedIsSkipped(schema: Schema, f: Field)
    requires WellFormed(f)
    requires var num := Int32(Read(f.tag).value.0 / 8); num > 0 && num !in schema
    ensures Serialize(f) != [] && NextField(schema, Serialize(f)) == Ok((Skipped, |Serialize(f)|))
  {
    hide Skip;
    SkipAcceptsField(f, [], 0);
    var bytes := Serialize(f);
    assert bytes + [] == bytes;
    ReadPrefix(f.tag, bytes[|f.tag|..]);
    assert bytes == f.tag + bytes[|f.tag|..];
  }

  /**
    * Unknown-field transparency: such a field between two fields of any decodable prefix changes
    * neither the decoded message nor the error.
    */
  lemma UnknownFieldIsTransparent<M>(
    schema: Schema, step: (M, Event) -> Result<M, Error>,
    pre: seq<Byte>, f: Field, post: seq<Byte>, m: M)
    requires Run(schema, step, pre, m).Ok?
    requires WellFormed(f)
    requires var num := Int32(Read(f.tag).value.0 / 8); num > 0 && num !in schema
    ensures Run(schema, step, pre + Serialize(f) + post, m) == Run(schema, step, pre + post, m)
  {
    UnassignedIsSkipped(schema, f);
    SkippedFieldIsTransparent(schema, step, pre, Serialize(f), post, m);
  }
}
