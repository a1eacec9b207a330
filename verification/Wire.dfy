/**
  * The field loop shared by every generated Unmarshal in common/common.pb.go, and skipCommon.
  *
  * A message type is a schema (field number to wire type) and a step that stores one field.
  */
module Wire {
  import opened Outcome
  import opened Varint

  const TWO31 := 0x8000_0000
  const TWO32 := 0x1_0000_0000

  const VARINT := 0
  const LENGTH_DELIMITED := 2

  /** The assigned field numbers of a message with the wire type each must have. */
  type Schema = s: map<int, int> | forall n :: n in s ==> s[n] == VARINT || s[n] == LENGTH_DELIMITED
    witness map[]

  /** int32(x) of an unsigned value. */
  function Int32(x: nat): (r: int)
    ensures -TWO31 <= r < TWO31
  {
    var low := x % TWO32;
    if low < TWO31 then low else low - TWO32
  }

  // ---------- skipping ----------

  datatype Kind = Plain | Start | End

  /** One tag and what follows it inside skipCommon; the size may run past the input. */
  function Token(data: seq<Byte>): (r: Result<(Kind, nat), Error>)
    ensures r.Ok? ==> r.value.1 >= 1
  {
    var (wire, n) :- Read(data);
    match wire % 8
    case 0 => var (_, k) :- Read(data[n..]); Ok((Plain, n + k))
    case 1 => Ok((Plain, n + 8))
    case 2 =>
      var (len, k) :- Read(data[n..]);
      if len >= TWO63 then Err(InvalidLength) else Ok((Plain, n + k + len))
    case 3 => Ok((Start, n))
    case 4 => Ok((End, n))
    case 5 => Ok((Plain, n + 4))
    case _ => Err(IllegalWireType)
  }

  function Deeper(depth: nat, kind: Kind): nat
    requires kind.End? ==> depth > 0
  {
    match kind
    case Plain => depth
    case Start => depth + 1
    case End => depth - 1
  }

  /** skipCommon from inside `depth` open groups: the number of bytes up to the end of the outermost one. */
  function Skip(data: seq<Byte>, depth: nat): (r: Result<nat, Error>)
    ensures r.Ok? ==> r.value >= 1
    decreases |data|
  {
    if data == [] then Err(UnexpectedEof)
    else
      var (kind, n) :- Token(data);
      if kind.End? && depth == 0 then Err(UnexpectedEndOfGroup)
      else if Deeper(depth, kind) == 0 then Ok(n)
      else if n > |data| then Err(UnexpectedEof)
      else
        var m :- Skip(data[n..], Deeper(depth, kind));
        Ok(n + m)
  }

  // ---------- one field ----------

  datatype Event = Bytes(num: int, body: seq<Byte>) | Number(num: int, value: Uint64) | Skipped

  /** One turn of the field loop: the tag checks, then a known field or a skipped one. */
  function NextField(schema: Schema, data: seq<Byte>): (r: Result<(Event, nat), Error>)
    ensures r.Ok? ==> 1 <= r.value.1 <= |data|
  {
    var (wire, n) :- Read(data);
    var num, wireType := Int32(wire / 8), wire % 8;
    if wireType == 4 then Err(EndGroupTag)
    else if num <= 0 then Err(IllegalTag)
    else if num in schema then
      if wireType != schema[num] then Err(WrongWireType)
      else if wireType == VARINT then
        var (v, k) :- Read(data[n..]);
        Ok((Number(num, v), n + k))
      else
        var (len, k) :- Read(data[n..]);
        if len >= TWO63 then Err(InvalidLength)
        else if n + k + len > |data| then Err(UnexpectedEof)
        else Ok((Bytes(num, data[n + k..n + k + len]), n + k + len))
    else
      var size :- Skip(data, 0);
      if size > |data| then Err(UnexpectedEof) else Ok((Skipped, size))
  }

  /** Unmarshal: the field loop over `data`, merging into `m`. */
  function Run<M>(schema: Schema, step: (M, Event) -> Result<M, Error>, data: seq<Byte>, m: M): (r: Result<M, Error>)
    decreases |data|
  {
    if data == [] then Ok(m)
    else
      var (event, n) :- NextField(schema, data);
      var next :- if event.Skipped? then Ok(m) else step(m, event);
      Run(schema, step, data[n..], next)
  }

  // ---------- bytes behind a complete field never matter ----------

  lemma TokenPrefix(data: seq<Byte>, rest: seq<Byte>)
    requires Token(data).Ok? && Token(data).value.1 <= |data|
    ensures Token(data + rest) == Token(data)
  {
    var (wire, n) := Read(data).value;
    ReadPrefix(data, rest);
    DropBoth(data, rest, n);
    if wire % 8 == 0 || wire % 8 == 2 {
      ReadPrefix(data[n..], rest);
    }
  }

  lemma {:induction false} SkipPrefix(data: seq<Byte>, rest: seq<Byte>, depth: nat)
    requires Skip(data, depth).Ok? && Skip(data, depth).value <= |data|
    ensures Skip(data + rest, depth) == Skip(data, depth)
    decreases |data|
  {
    hide Token;
    var (kind, n) := Token(data).value;
    TokenPrefix(data, rest);
    if Deeper(depth, kind) != 0 {
      assert (data + rest)[n..] == data[n..] + rest;
      SkipPrefix(data[n..], rest, Deeper(depth, kind));
    }
  }

  lemma NextFieldPrefix(schema: Schema, data: seq<Byte>, rest: seq<Byte>)
    requires NextField(schema, data).Ok?
    ensures NextField(schema, data + rest) == NextField(schema, data)
  {
    hide Read, Skip;
    var (wire, n) := Read(data).value;
    ReadPrefix(data, rest);
    if Int32(wire / 8) in schema {
      DropBoth(data, rest, n);
      ReadPrefix(data[n..], rest);
      var (len, k) := Read(data[n..]).value;
      if n + k + len <= |data| {
        SliceFront(data, rest, n + k, n + k + len);
      }
    } else {
      SkipPrefix(data, rest, 0);
    }
  }

  lemma DropBoth(data: seq<Byte>, rest: seq<Byte>, n: nat)
    requires n <= |data|
    ensures (data + rest)[n..] == data[n..] + rest
  {
  }

  lemma SliceFront(data: seq<Byte>, rest: seq<Byte>, a: nat, b: nat)
    requires a <= b <= |data|
    ensures (data + rest)[a..b] == data[a..b]
  {
  }

  /** Decoding a concatenation is decoding the parts in turn. */
  lemma {:induction false} RunConcat<M>(
    schema: Schema, step: (M, Event) -> Result<M, Error>, pre: seq<Byte>, post: seq<Byte>, m: M)
    requires Run(schema, step, pre, m).Ok?
    ensures Run(schema, step, pre + post, m) == Run(schema, step, post, Run(schema, step, pre, m).value)
    decreases |pre|
  {
    if pre == [] {
      assert pre + post == post;
    } else {
      var (event, n) := NextField(schema, pre).value;
      var next := if event.Skipped? then m else step(m, event).value;
      NextFieldPrefix(schema, pre, post);
      assert (pre + post)[n..] == pre[n..] + post;
      RunConcat(schema, step, pre[n..], post, next);
    }
  }

  /** A field the decoder skips, put at any field boundary, leaves the outcome as it was. */
  lemma SkippedFieldIsTransparent<M>(
    schema: Schema, step: (M, Event) -> Result<M, Error>,
    pre: seq<Byte>, field: seq<Byte>, post: seq<Byte>, m: M)
    requires Run(schema, step, pre, m).Ok?
    requires field != [] && NextField(schema, field) == Ok((Skipped, |field|))
    ensures Run(schema, step, pre + field + post, m) == Run(schema, step, pre + post, m)
  {
    var mid := Run(schema, step, pre, m).value;
    RunConcat(schema, step, pre, post, m);
    RunConcat(schema, step, pre, field + post, m);
    NextFieldPrefix(schema, field, post);
    assert (field + post)[|field|..] == post;
    assert pre + field + post == pre + (field + post);
  }

  // ---------- the loops ----------

  /** One turn of skipCommon's loop, reading at `start`. */
  method ReadToken(data: seq<Byte>, start: nat) returns (r: Result<(Kind, nat), Error>)
    requires start <= |data|
    ensures r == Token(data[start..])
  {
    var tag := ReadVarint(data, start);
    if tag.Err? { return Err(tag.error); }
    var n := tag.value.1;
    assert data[start..][n..] == data[start + n..];
    match tag.value.0 % 8
    case 0 =>
      var body := ReadVarint(data, start + n);
      if body.Err? { return Err(body.error); }
      return Ok((Plain, n + body.value.1));
    case 1 =>
      return Ok((Plain, n + 8));
    case 2 =>
      var body := ReadVarint(data, start + n);
      if body.Err? { return Err(body.error); }
      if body.value.0 >= TWO63 { return Err(InvalidLength); }
      return Ok((Plain, n + body.value.1 + body.value.0));
    case 3 =>
      return Ok((Start, n));
    case 4 =>
      return Ok((End, n));
    case 5 =>
      return Ok((Plain, n + 4));
    case _ =>
      return Err(IllegalWireType);
  }

  /** skipCommon on data[start..]. */
  method SkipField(data: seq<Byte>, start: nat) returns (r: Result<nat, Error>)
    requires start <= |data|
    ensures r == Skip(data[start..], 0)
  {
    hide Token;
    var index := start;
    var depth: nat := 0;
    while index < |data|
      invariant start <= index
      invariant index <= |data| ==> SkipResumes(data[start..], data[index..], index - start, depth)
      invariant index > |data| ==> Skip(data[start..], 0) == Err(UnexpectedEof)
      decreases |data| - index
    {
      var token := ReadToken(data, index);
      if token.Err? { return Err(token.error); }
      var (kind, n) := token.value;
      if kind.End? && depth == 0 { return Err(UnexpectedEndOfGroup); }
      depth := Deeper(depth, kind);
      if index + n <= |data| { assert data[index..][n..] == data[index + n..]; }
      index := index + n;
      if depth == 0 { return Ok(index - start); }
    }
    return Err(UnexpectedEof);
  }

  ghost predicate SkipResumes(all: seq<Byte>, left: seq<Byte>, done: nat, depth: nat) {
    match Skip(left, depth)
    case Err(e) => Skip(all, 0) == Err(e)
    case Ok(n) => Skip(all, 0) == Ok(done + n)
  }

  /** One turn of the generated Unmarshal loop, reading at `start`. */
  method ReadField(schema: Schema, data: seq<Byte>, start: nat) returns (r: Result<(Event, nat), Error>)
    requires start < |data|
    ensures r == NextField(schema, data[start..])
  {
    hide Read, Skip;
    var tag := ReadVarint(data, start);
    if tag.Err? { return Err(tag.error); }
    var n := tag.value.1;
    var num, wireType := Int32(tag.value.0 / 8), tag.value.0 % 8;
    if wireType == 4 { return Err(EndGroupTag); }
    if num <= 0 { return Err(IllegalTag); }
    if num !in schema {
      var size := SkipField(data, start);
      if size.Err? { return Err(size.error); }
      if start + size.value > |data| { return Err(UnexpectedEof); }
      return Ok((Skipped, size.value));
    }
    if wireType != schema[num] { return Err(WrongWireType); }
    DropDrop(data, start, n);
    var field := ReadVarint(data, start + n);
    if field.Err? { return Err(field.error); }
    var k := n + field.value.1;
    if wireType == VARINT { return Ok((Number(num, field.value.0), k)); }
    if field.value.0 >= TWO63 { return Err(InvalidLength); }
    var postIndex := start + k + field.value.0;
    if postIndex > |data| { return Err(UnexpectedEof); }
    DropSlice(data, start, k, postIndex - start);
    return Ok((Bytes(num, data[start + k..postIndex]), postIndex - start));
  }

  lemma DropDrop(data: seq<Byte>, start: nat, n: nat)
    requires start + n <= |data|
    ensures data[start..][n..] == data[start + n..]
  {
  }

  lemma DropSlice(data: seq<Byte>, start: nat, a: nat, b: nat)
    requires a <= b && start + b <= |data|
    ensures data[start..][a..b] == data[start + a..start + b]
  {
  }

  /** The generated Unmarshal loop, for any schema. */
  method Unmarshal<M>(schema: Schema, step: (M, Event) -> Result<M, Error>, data: seq<Byte>, initial: M)
    returns (r: Result<M, Error>)
    ensures r == Run(schema, step, data, initial)
  {
    hide NextField;
    var index := 0;
    var m := initial;
    while index < |data|
      invariant 0 <= index <= |data|
      invariant Run(schema, step, data, initial) == Run(schema, step, data[index..], m)
    {
      var field := ReadField(schema, data, index);
      if field.Err? { return Err(field.error); }
      var (event, n) := field.value;
      DropDrop(data, index, n);
      if !event.Skipped? {
        var stored := step(m, event);
        if stored.Err? { return Err(stored.error); }
        m := stored.value;
      }
      index := index + n;
    }
    return Ok(m);
  }
}
