/** The tag-length-value fields of the credential helper. */
module Tlv {
  import opened Common
  import opened Bytes
  import opened Sequences

  datatype Field = Field(id: byte, bytes: seq<byte>)

  /** A longer field traps the helper: its length does not fit two bytes. */
  predicate Fits(fields: seq<Field>) {
    forall i :: 0 <= i < |fields| ==> |fields[i].bytes| < 0x1_0000
  }

  function EncodeField(f: Field): (s: seq<byte>)
    requires |f.bytes| < 0x1_0000
    ensures |s| == 3 + |f.bytes|
  {
    Widths();
    [f.id] + BigEndian(|f.bytes|, 2) + f.bytes
  }

  function Encode(fields: seq<Field>): seq<byte>
    requires Fits(fields)
  {
    if fields == [] then [] else EncodeField(fields[0]) + Encode(fields[1..])
  }

  /** The field ids rise strictly, the first above `previous`. */
  ghost predicate RisingFrom(previous: byte, fields: seq<Field>) {
    && (forall i :: 0 <= i < |fields| ==> fields[i].id > previous)
    && (forall i, j :: 0 <= i < j < |fields| ==> fields[i].id < fields[j].id)
  }

  function Length(high: int, low: int): int { 256 * high + low }

  function ParseFrom(data: seq<byte>, previous: byte): Option<seq<Field>>
    decreases |data|
  {
    if data == [] then Some([])
    else if |data| < 3 then None
    else
      var id, length := data[0], Length(data[1], data[2]);
      if id <= previous || |data| - 3 < length then None
      else match ParseFrom(data[3 + length..], id)
        case None => None
        case Some(rest) => Some([Field(id, data[3..3 + length])] + rest)
  }

  /** `parseTLV`: the data must not be longer than `max`. */
  function Parse(data: seq<byte>, max: nat): Option<seq<Field>> {
    if |data| > max then None else ParseFrom(data, 0)
  }

  lemma {:induction false} ParseEncode(fields: seq<Field>, previous: byte)
    requires Fits(fields) && RisingFrom(previous, fields)
    ensures ParseFrom(Encode(fields), previous) == Some(fields)
  {
    if fields != [] {
      var f := fields[0];
      var data := Encode(fields);
      Widths();
      var n := |f.bytes|;
      assert BigEndian(n, 2) == [n / 256, n % 256] by { TwoBytes(n / 256, n % 256); }
      assert data == [f.id, n / 256, n % 256] + f.bytes + Encode(fields[1..]);
      assert data[3..3 + n] == f.bytes && data[3 + n..] == Encode(fields[1..]);
      ParseEncode(fields[1..], f.id);
      assert fields == [f] + fields[1..];
    }
  }

  lemma RisingCons(previous: byte, f: Field, rest: seq<Field>)
    requires f.id > previous && RisingFrom(f.id, rest)
    ensures RisingFrom(previous, [f] + rest)
  {
    var fields := [f] + rest;
    forall i, j | 0 <= i < j < |fields| ensures fields[i].id < fields[j].id {
      assert fields[j] == rest[j - 1];
      if i > 0 { assert fields[i] == rest[i - 1]; }
    }
  }

  /** A field as it stands in the data. */
  lemma FieldSpelled(data: seq<byte>, n: nat)
    requires |data| >= 3 && n == Length(data[1], data[2]) && |data| - 3 >= n
    ensures EncodeField(Field(data[0], data[3..3 + n])) == data[..3 + n]
  {
    TwoBytes(data[1], data[2]);
  }

  lemma {:induction false} EncodeParse(data: seq<byte>, previous: byte)
    requires ParseFrom(data, previous).Some?
    ensures var fields := ParseFrom(data, previous).value;
            Fits(fields) && RisingFrom(previous, fields) && Encode(fields) == data
    decreases |data|
  {
    if data != [] {
      var id, n := data[0], Length(data[1], data[2]);
      var f := Field(id, data[3..3 + n]);
      EncodeParse(data[3 + n..], id);
      var rest := ParseFrom(data[3 + n..], id).value;
      FieldSpelled(data, n);
      RisingCons(previous, f, rest);
      ConsTail(f, rest);
      TakeDrop(data, 3 + n);
    }
  }

  /** Parsing and encoding are inverse bijections between the accepted byte
      strings of at most `max` bytes and the field lists with rising positive
      ids whose encoding is that short. */
  lemma Bijection(data: seq<byte>, fields: seq<Field>, max: nat)
    ensures Parse(data, max) == Some(fields) <==>
              Fits(fields) && RisingFrom(0, fields) && |data| <= max && Encode(fields) == data
  {
    if Parse(data, max) == Some(fields) { EncodeParse(data, 0); }
    if Fits(fields) && RisingFrom(0, fields) { ParseEncode(fields, 0); }
  }

  /** The field at a position of the data, and the position behind it. */
  function NextField(data: seq<byte>, offset: nat, previous: byte): (r: Option<(Field, nat)>)
    ensures r.Some? ==> offset < r.value.1 <= |data| && r.value.0.id > previous
  {
    if offset + 3 > |data| then None
    else
      var next := offset + 3 + Length(data[offset + 1], data[offset + 2]);
      if data[offset] <= previous || next > |data| then None else Some((Field(data[offset], data[offset + 3..next]), next))
  }

  /** One turn of the parser loop. */
  lemma ParseStep(data: seq<byte>, offset: nat, previous: byte)
    requires offset < |data|
    ensures ParseFrom(data[offset..], previous) ==
              match NextField(data, offset, previous)
              case None => None
              case Some((f, next)) => Prepend([f], ParseFrom(data[next..], f.id))
  {
    var tail := data[offset..];
    if |tail| >= 3 && |tail| - 3 >= Length(tail[1], tail[2]) {
      var n := Length(tail[1], tail[2]);
      assert tail[3..3 + n] == data[offset + 3..offset + 3 + n];
      assert tail[3 + n..] == data[offset + 3 + n..];
    }
  }

  method ReadField(data: seq<byte>, offset0: nat, previous: byte) returns (r: Option<Field>, offset: nat)
    requires offset0 <= |data|
    ensures match NextField(data, offset0, previous)
            case None => r.None?
            case Some((f, next)) => r == Some(f) && offset == next
  {
    offset := offset0;
    ghost var expected := NextField(data, offset0, previous);
    if |data| - offset < 3 { assert expected.None?; return None, offset; }
    var id, length := data[offset], Length(data[offset + 1], data[offset + 2]);
    offset := offset + 3;
    if id <= previous || |data| - offset < length { assert expected.None?; return None, offset; }
    r := Some(Field(id, data[offset..offset + length]));
    offset := offset + length;
    assert expected == Some((r.value, offset));
  }

  /** The parser loop of the helper. */
  method ParseTLV(data: seq<byte>, max: nat) returns (r: Option<seq<Field>>)
    ensures r == Parse(data, max)
  {
    if |data| > max { return None; }
    var fields: seq<Field> := [];
    var offset := 0;
    var previous: byte := 0;
    ghost var whole := ParseFrom(data, 0);
    assert data[0..] == data;
    while offset < |data|
      invariant 0 <= offset <= |data|
      invariant whole == Prepend(fields, ParseFrom(data[offset..], previous))
    {
      ParseStep(data, offset, previous);
      var field, next := ReadField(data, offset, previous);
      if field.None? { return None; }
      PrependOne(fields, field.value, ParseFrom(data[next..], field.value.id));
      fields, previous, offset := fields + [field.value], field.value.id, next;
    }
    return Some(fields);
  }

  function Prepend(fields: seq<Field>, rest: Option<seq<Field>>): (r: Option<seq<Field>>)
    ensures fields == [] ==> r == rest
    ensures rest == Some([]) ==> r == Some(fields)
  {
    match rest
    case None => None
    case Some(more) =>
      assert fields == [] ==> fields + more == more;
      assert more == [] ==> fields + more == fields;
      Some(fields + more)
  }

  lemma PrependOne(fields: seq<Field>, f: Field, rest: Option<seq<Field>>)
    ensures Prepend(fields + [f], rest) == Prepend(fields, Prepend([f], rest))
  {
    if rest.Some? { assert fields + [f] + rest.value == fields + ([f] + rest.value); }
  }

  /** The encoder loop of the helper. */
  method EncodeTLV(fields: seq<Field>) returns (output: seq<byte>)
    requires Fits(fields)
    ensures output == Encode(fields)
  {
    output := [];
    for i := 0 to |fields|
      invariant Encode(fields) == output + Encode(fields[i..])
    {
      output := output + EncodeField(fields[i]);
      assert fields[i..][0] == fields[i] && fields[i..][1..] == fields[i + 1..];
    }
  }

  /** The field with this id. */
  function Find(fields: seq<Field>, id: byte): Option<seq<byte>> {
    if fields == [] then None
    else if fields[0].id == id then Some(fields[0].bytes)
    else Find(fields[1..], id)
  }

  lemma {:induction false} FindAppend(a: seq<Field>, b: seq<Field>, id: byte)
    ensures Find(a + b, id) == if Find(a, id).Some? then Find(a, id) else Find(b, id)
  {
    if a == [] {
      assert a + b == b;
    } else {
      assert (a + b)[1..] == a[1..] + b;
      FindAppend(a[1..], b, id);
    }
  }

  lemma {:induction false} FindNone(fields: seq<Field>, id: byte)
    requires forall i :: 0 <= i < |fields| ==> fields[i].id != id
    ensures Find(fields, id) == None
  {
    if fields != [] { FindNone(fields[1..], id); }
  }
}
