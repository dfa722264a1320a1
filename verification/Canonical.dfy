/**
 The canonical TLV encoding that every object identity is computed from: the writer, the strict
 cursor that the payload decoders read with, and a recursive decoder for whole record trees.
 */
module Canonical {
  import opened Bytes

  // ----- wire types -----

  const BOOL: Byte := 0x01
  const U16: Byte := 0x02
  const U32: Byte := 0x03
  const U64: Byte := 0x04
  const ENUM_U16: Byte := 0x05
  const STRING: Byte := 0x10
  const BYTES: Byte := 0x11
  const OBJECT_ID: Byte := 0x12
  const REPO_PATH: Byte := 0x13
  const RECORD: Byte := 0x20
  const RECORD_LIST_ITEM: Byte := 0x21

  // ----- raw fields: one tag, one wire type, one length-prefixed value -----

  datatype RawField = RawField(tag: nat, wire: Byte, value: seq<Byte>)

  /** What the writer appends for one field: tag, wire type, `len as u64`, value. */
  function EncodeRaw(f: RawField): (bs: seq<Byte>)
    ensures |bs| == 11 + |f.value|
  {
    ToBE(f.tag, 2) + [f.wire] + ToBE(|f.value|, 8) + f.value
  }

  function EncodeRaws(fs: seq<RawField>): seq<Byte> {
    if fs == [] then [] else EncodeRaw(fs[0]) + EncodeRaws(fs[1..])
  }

  predicate Fits(f: RawField) {
    f.tag < Pow256(2) && |f.value| < Pow256(8)
  }

  /** Whether a writer whose last tag was `last` (0 for none) may emit `tag`. */
  predicate TagAllowed(tag: nat, last: nat) {
    tag != 0 && tag >= last
  }

  predicate Ordered(fs: seq<RawField>, last: nat) {
    fs == [] || (TagAllowed(fs[0].tag, last) && Fits(fs[0]) && Ordered(fs[1..], fs[0].tag))
  }

  /** The first field of `bs`, when the header is complete, the tag is in order and the value is all there. */
  function ParseHead(bs: seq<Byte>, last: nat): (r: Option<RawField>)
    ensures r.Some? ==> 11 + |r.value.value| <= |bs|
  {
    if |bs| < 11 then None
    else
      var tag := FromBE(bs[..2]);
      var len := FromBE(bs[3..11]);
      if !TagAllowed(tag, last) || 11 + len > |bs| then None
      else Some(RawField(tag, bs[2], bs[11..11 + len]))
  }

  function ParseRaws(bs: seq<Byte>, last: nat): (r: Option<seq<RawField>>)
    decreases |bs|
  {
    if bs == [] then Some([])
    else match ParseHead(bs, last)
      case None => None
      case Some(f) =>
        match ParseRaws(bs[11 + |f.value|..], f.tag)
        case None => None
        case Some(rest) => Some([f] + rest)
  }

  /** Reading back the first field of an encoding gives that field, whatever follows it. */
  lemma HeadOfEncode(f: RawField, rest: seq<Byte>, last: nat)
    requires Fits(f) && TagAllowed(f.tag, last)
    ensures ParseHead(EncodeRaw(f) + rest, last) == Some(f)
    ensures (EncodeRaw(f) + rest)[11 + |f.value|..] == rest
  {
    var bs := EncodeRaw(f) + rest;
    assert bs[..2] == ToBE(f.tag, 2);
    assert bs[2] == f.wire;
    assert bs[3..11] == ToBE(|f.value|, 8);
    assert bs[11..11 + |f.value|] == f.value;
    FromToBE(f.tag, 2);
    FromToBE(|f.value|, 8);
  }

  /** A field that was read is the field whose encoding starts the input. */
  lemma EncodeOfHead(bs: seq<Byte>, last: nat)
    requires ParseHead(bs, last).Some?
    ensures var f := ParseHead(bs, last).value;
      Fits(f) && TagAllowed(f.tag, last) && bs == EncodeRaw(f) + bs[11 + |f.value|..]
  {
    var f := ParseHead(bs, last).value;
    ToFromBE(bs[..2]);
    ToFromBE(bs[3..11]);
    assert bs == bs[..2] + [bs[2]] + bs[3..11] + bs[11..11 + |f.value|] + bs[11 + |f.value|..];
  }

  lemma {:induction false} ParseOfEncode(fs: seq<RawField>, last: nat)
    requires Ordered(fs, last)
    ensures ParseRaws(EncodeRaws(fs), last) == Some(fs)
  {
    if fs != [] {
      HeadOfEncode(fs[0], EncodeRaws(fs[1..]), last);
      ParseOfEncode(fs[1..], fs[0].tag);
      assert fs == [fs[0]] + fs[1..];
    }
  }

  lemma {:induction false} EncodeOfParse(bs: seq<Byte>, last: nat)
    requires ParseRaws(bs, last).Some?
    ensures Ordered(ParseRaws(bs, last).value, last)
    ensures EncodeRaws(ParseRaws(bs, last).value) == bs
    decreases |bs|
  {
    if bs != [] {
      EncodeOfHead(bs, last);
      EncodeOfParse(bs[11 + |ParseHead(bs, last).value.value|..], ParseHead(bs, last).value.tag);
    }
  }

  // ----- record trees: what a payload definition hands the writer, field by field -----

  datatype Value =
    | Bool(flag: bool)
    | U16Value(n: nat)
    | U32Value(n: nat)
    | U64Value(n: nat)
    | EnumU16(n: nat)
    | Text(utf8: seq<Byte>)
    | Blob(bytes: seq<Byte>)
    | Id(id: seq<Byte>)
    | RepoPath(utf8: seq<Byte>)
    | Record(fields: seq<Field>)
    | ListItem(fields: seq<Field>)

  datatype Field = Field(tag: nat, value: Value)

  function Wire(v: Value): Byte {
    match v
    case Bool(_) => BOOL
    case U16Value(_) => U16
    case U32Value(_) => U32
    case U64Value(_) => U64
    case EnumU16(_) => ENUM_U16
    case Text(_) => STRING
    case Blob(_) => BYTES
    case Id(_) => OBJECT_ID
    case RepoPath(_) => REPO_PATH
    case Record(_) => RECORD
    case ListItem(_) => RECORD_LIST_ITEM
  }

  function Content(v: Value): seq<Byte>
    decreases v, 0
  {
    match v
    case Bool(flag) => [if flag then 1 else 0]
    case U16Value(n) => ToBE(n, 2)
    case U32Value(n) => ToBE(n, 4)
    case U64Value(n) => ToBE(n, 8)
    case EnumU16(n) => ToBE(n, 2)
    case Text(bs) => bs
    case Blob(bs) => bs
    case Id(bs) => bs
    case RepoPath(bs) => bs
    case Record(fields) => Encode(fields)
    case ListItem(fields) => Encode(fields)
  }

  function ToRaw(f: Field): RawField
    decreases f, 1
  {
    RawField(f.tag, Wire(f.value), Content(f.value))
  }

  /** The canonical bytes of a record. */
  function Encode(fields: seq<Field>): seq<Byte>
    decreases fields, 2
  {
    if fields == [] then [] else EncodeRaw(ToRaw(fields[0])) + Encode(fields[1..])
  }

  /** What the Rust types already guarantee of a value: integer widths, 32-byte ids, UTF-8 strings. */
  predicate WellTyped(v: Value)
    decreases v, 0
  {
    match v
    case Bool(_) => true
    case U16Value(n) => n < Pow256(2)
    case U32Value(n) => n < Pow256(4)
    case U64Value(n) => n < Pow256(8)
    case EnumU16(n) => n < Pow256(2)
    case Text(bs) => ValidUtf8(bs)
    case Blob(bs) => true
    case Id(bs) => |bs| == 32
    case RepoPath(bs) => ValidUtf8(bs)
    case Record(fields) => WellFormed(fields, 0)
    case ListItem(fields) => WellFormed(fields, 0)
  }

  predicate FieldWellTyped(f: Field)
    decreases f, 1
  {
    f.tag < Pow256(2) && WellTyped(f.value) && |Content(f.value)| < Pow256(8)
  }

  /** The records the writer accepts: well-typed values under nonzero, non-decreasing tags, at every depth. */
  predicate WellFormed(fields: seq<Field>, last: nat)
    decreases fields, 2
  {
    fields == [] ||
    (TagAllowed(fields[0].tag, last) && FieldWellTyped(fields[0]) && WellFormed(fields[1..], fields[0].tag))
  }

  function DecodeValue(wire: Byte, bs: seq<Byte>): (r: Option<Value>)
    decreases |bs|, 1
  {
    if wire == BOOL then
      if |bs| == 1 && bs[0] == 0 then Some(Bool(false))
      else if |bs| == 1 && bs[0] == 1 then Some(Bool(true)) else None
    else if wire == U16 then if |bs| == 2 then Some(U16Value(FromBE(bs))) else None
    else if wire == U32 then if |bs| == 4 then Some(U32Value(FromBE(bs))) else None
    else if wire == U64 then if |bs| == 8 then Some(U64Value(FromBE(bs))) else None
    else if wire == ENUM_U16 then if |bs| == 2 then Some(EnumU16(FromBE(bs))) else None
    else if wire == STRING then if ValidUtf8(bs) then Some(Text(bs)) else None
    else if wire == BYTES then Some(Blob(bs))
    else if wire == OBJECT_ID then if |bs| == 32 then Some(Id(bs)) else None
    else if wire == REPO_PATH then if ValidUtf8(bs) then Some(RepoPath(bs)) else None
    else if wire == RECORD then
      match Decode(bs, 0) case None => None case Some(fields) => Some(Record(fields))
    else if wire == RECORD_LIST_ITEM then
      match Decode(bs, 0) case None => None case Some(fields) => Some(ListItem(fields))
    else None
  }

  /** The recursive decoder; its measure is the number of bytes left. */
  function Decode(bs: seq<Byte>, last: nat): (r: Option<seq<Field>>)
    decreases |bs|, 0
  {
    if bs == [] then Some([])
    else match ParseHead(bs, last)
      case None => None
      case Some(raw) =>
        match DecodeValue(raw.wire, raw.value)
        case None => None
        case Some(v) =>
          match Decode(bs[11 + |raw.value|..], raw.tag)
          case None => None
          case Some(rest) => Some([Field(raw.tag, v)] + rest)
  }

  lemma {:induction false} DecodeOfScalar(v: Value)
    requires WellTyped(v) && !v.Record? && !v.ListItem?
    ensures DecodeValue(Wire(v), Content(v)) == Some(v)
  {
    match v {
      case U16Value(n) => FromToBE(n, 2);
      case U32Value(n) => FromToBE(n, 4);
      case U64Value(n) => FromToBE(n, 8);
      case EnumU16(n) => FromToBE(n, 2);
      case _ =>
    }
  }

  lemma {:induction false} DecodeOfField(f: Field)
    requires FieldWellTyped(f)
    ensures DecodeValue(Wire(f.value), Content(f.value)) == Some(f.value)
    decreases f, 0
  {
    if f.value.Record? || f.value.ListItem? {
      RoundTrip(f.value.fields, 0);
    } else {
      DecodeOfScalar(f.value);
    }
  }

  /** The decoder returns exactly the record tree the writer was given, at every nesting depth. */
  lemma {:induction false} RoundTrip(fields: seq<Field>, last: nat)
    requires WellFormed(fields, last)
    ensures Decode(Encode(fields), last) == Some(fields)
    decreases fields, 1
  {
    if fields != [] {
      var f := fields[0];
      HeadOfEncode(ToRaw(f), Encode(fields[1..]), last);
      DecodeOfField(f);
      RoundTrip(fields[1..], f.tag);
      assert fields == [f] + fields[1..];
    }
  }

  lemma {:induction false} ContentOfDecode(wire: Byte, bs: seq<Byte>)
    requires DecodeValue(wire, bs).Some?
    ensures var v := DecodeValue(wire, bs).value; WellTyped(v) && Wire(v) == wire && Content(v) == bs
    decreases |bs|, 1
  {
    if wire == U16 || wire == U32 || wire == U64 || wire == ENUM_U16 {
      ToFromBE(bs);
    } else if wire == RECORD || wire == RECORD_LIST_ITEM {
      Strict(bs, 0);
    }
  }

  /** The decoder accepts nothing but encodings: what it returns is well formed and re-encodes to the input. */
  lemma {:induction false} Strict(bs: seq<Byte>, last: nat)
    requires Decode(bs, last).Some?
    ensures WellFormed(Decode(bs, last).value, last)
    ensures Encode(Decode(bs, last).value) == bs
    decreases |bs|, 0
  {
    if bs != [] {
      EncodeOfHead(bs, last);
      var raw := ParseHead(bs, last).value;
      var rest := bs[11 + |raw.value|..];
      ContentOfDecode(raw.wire, raw.value);
      Strict(rest, raw.tag);
      var fields := Decode(bs, last).value;
      assert fields[1..] == Decode(rest, raw.tag).value;
    }
  }

  /** Two different well-formed records never share bytes. */
  lemma EncodeInjective(a: seq<Field>, b: seq<Field>)
    requires WellFormed(a, 0) && WellFormed(b, 0)
    ensures Encode(a) == Encode(b) <==> a == b
  {
    RoundTrip(a, 0);
    RoundTrip(b, 0);
  }

  lemma {:induction false} EncodeAppend(a: seq<Field>, b: seq<Field>)
    ensures Encode(a + b) == Encode(a) + Encode(b)
  {
    if a == [] {
      assert a + b == b;
    } else {
      assert (a + b)[1..] == a[1..] + b;
      EncodeAppend(a[1..], b);
    }
  }

  // ----- where everything is: a layout that decodes can still be the wrong one -----

  /** The bytes of one field by position: tag, wire type, length, value. */
  lemma FieldLayout(f: RawField, i: nat)
    requires Fits(f) && i < 11 + |f.value|
    ensures EncodeRaw(f)[i] ==
              if i == 0 then f.tag / 256
              else if i == 1 then f.tag % 256
              else if i == 2 then f.wire
              else if i < 11 then (|f.value| / Pow256(10 - i)) % 256
              else f.value[i - 11]
  {
    ShortBytes(f.tag);
    if 3 <= i < 11 {
      ToBEAt(|f.value|, 8, i - 3);
    }
  }

  /** The bytes of a record's field `k` start where those of the fields before it end. */
  lemma RecordLayout(fields: seq<Field>, k: nat)
    requires k < |fields|
    ensures var start, bytes := |Encode(fields[..k])|, EncodeRaw(ToRaw(fields[k]));
      start + |bytes| <= |Encode(fields)| && Encode(fields)[start..start + |bytes|] == bytes
  {
    assert fields == fields[..k] + fields[k..] && fields[k..] == [fields[k]] + fields[k + 1..];
    EncodeAppend(fields[..k], fields[k..]);
  }

  /** The code of every kind of value, as it stands in the third byte of a field. */
  lemma KindByte(f: Field)
    ensures EncodeRaw(ToRaw(f))[2] ==
              match f.value
              case Bool(_) => 1 case U16Value(_) => 2 case U32Value(_) => 3 case U64Value(_) => 4 case EnumU16(_) => 5
              case Text(_) => 16 case Blob(_) => 17 case Id(_) => 18 case RepoPath(_) => 19
              case Record(_) => 32 case ListItem(_) => 33
  {
  }

  /** Numbers are written with their full width, most significant byte first. */
  lemma NumberLayout(n: nat, i: nat)
    ensures |Content(U16Value(n))| == |Content(EnumU16(n))| == 2
    ensures |Content(U32Value(n))| == 4 && |Content(U64Value(n))| == 8
    ensures i < 2 ==> Content(U16Value(n))[i] == Content(EnumU16(n))[i] == (n / Pow256(1 - i)) % 256
    ensures i < 4 ==> Content(U32Value(n))[i] == (n / Pow256(3 - i)) % 256
    ensures i < 8 ==> Content(U64Value(n))[i] == (n / Pow256(7 - i)) % 256
  {
    if i < 2 { ToBEAt(n, 2, i); }
    if i < 4 { ToBEAt(n, 4, i); }
    if i < 8 { ToBEAt(n, 8, i); }
  }

  /** The repository's own sample of the codec, byte by byte. */
  lemma CodecSample()
    ensures Encode([Field(1, Bool(true)), Field(2, U16Value(0x0102)), Field(3, U32Value(7)),
                    Field(4, Text([0x68, 0x69])), Field(5, Blob([0xAB, 0xCD]))])
         == [0, 1, 0x01, 0, 0, 0, 0, 0, 0, 0, 1, 1]
            + [0, 2, 0x02, 0, 0, 0, 0, 0, 0, 0, 2, 1, 2]
            + [0, 3, 0x03, 0, 0, 0, 0, 0, 0, 0, 4, 0, 0, 0, 7]
            + [0, 4, 0x10, 0, 0, 0, 0, 0, 0, 0, 2, 0x68, 0x69]
            + [0, 5, 0x11, 0, 0, 0, 0, 0, 0, 0, 2, 0xAB, 0xCD]
  {
    hide ToBE, Encode, EncodeRaw, ToRaw;
    var a, b, c := Field(1, Bool(true)), Field(2, U16Value(0x0102)), Field(3, U32Value(7));
    var d, e := Field(4, Text([0x68, 0x69])), Field(5, Blob([0xAB, 0xCD]));
    SampleNumbers();
    SmallField(a, [1]);
    SmallField(b, [1, 2]);
    SmallField(c, [0, 0, 0, 7]);
    SmallField(d, [0x68, 0x69]);
    SmallField(e, [0xAB, 0xCD]);
    EncodeFive(a, b, c, d, e);
  }

  lemma SampleNumbers()
    ensures Content(U16Value(0x0102)) == [1, 2] && Content(U32Value(7)) == [0, 0, 0, 7]
  {
    hide ToBE;
    Widths();
    ShortBytes(0x0102);
    SmallBytes(7);
  }

  lemma EncodeFive(a: Field, b: Field, c: Field, d: Field, e: Field)
    ensures Encode([a, b, c, d, e])
         == EncodeRaw(ToRaw(a)) + EncodeRaw(ToRaw(b)) + EncodeRaw(ToRaw(c)) + EncodeRaw(ToRaw(d))
            + EncodeRaw(ToRaw(e))
  {
    hide Encode, EncodeRaw, ToRaw;
    EncodeOne(a);
    EncodeExtend([a], b);
    EncodeExtend([a, b], c);
    EncodeExtend([a, b, c], d);
    EncodeExtend([a, b, c, d], e);
    assert [a] + [b] == [a, b] && [a, b] + [c] == [a, b, c] && [a, b, c] + [d] == [a, b, c, d];
    assert [a, b, c, d] + [e] == [a, b, c, d, e];
  }

  lemma LowTag(f: Field, bytes: seq<Byte>)
    requires f.tag < 256 && bytes == Content(f.value)
    ensures EncodeRaw(ToRaw(f)) == [0, f.tag, Wire(f.value)] + ToBE(|bytes|, 8) + bytes
  {
    hide ToBE;
    SmallBytes(f.tag);
  }

  /** The bytes of a field with a low tag and a short value. */
  lemma SmallField(f: Field, bytes: seq<Byte>)
    requires f.tag < 256 && bytes == Content(f.value) && |bytes| < 256
    ensures EncodeRaw(ToRaw(f)) == [0, f.tag, Wire(f.value), 0, 0, 0, 0, 0, 0, 0, |bytes|] + bytes
  {
    hide ToBE;
    SmallBytes(f.tag);
    SmallBytes(|bytes|);
  }

  lemma EncodeExtend(fields: seq<Field>, f: Field)
    ensures Encode(fields + [f]) == Encode(fields) + EncodeRaw(ToRaw(f))
  {
    EncodeAppend(fields, [f]);
    EncodeOne(f);
  }

  // ----- the writer -----

  predicate ValueTagsOk(f: Field)
    decreases f, 1
  {
    (f.value.Record? || f.value.ListItem?) ==> TagsOk(f.value.fields, 0)
  }

  /** Whether every tag a record hands the writer is nonzero and in order, at every depth. */
  predicate TagsOk(fields: seq<Field>, last: nat)
    decreases fields, 2
  {
    fields == [] ||
    (TagAllowed(fields[0].tag, last) && ValueTagsOk(fields[0]) && TagsOk(fields[1..], fields[0].tag))
  }

  function LastTag(fields: seq<Field>, last: nat): nat {
    if fields == [] then last else fields[|fields| - 1].tag
  }

  lemma {:induction false} TagsOkSplit(a: seq<Field>, b: seq<Field>, last: nat)
    ensures TagsOk(a + b, last) <==> TagsOk(a, last) && TagsOk(b, LastTag(a, last))
  {
    if a == [] {
      assert a + b == b;
    } else {
      assert (a + b)[1..] == a[1..] + b;
      TagsOkSplit(a[1..], b, a[0].tag);
    }
  }

  /** Writing goes on after `i` fields exactly when the next one is allowed there. */
  lemma OneFieldMore(fields: seq<Field>, i: nat, last: nat)
    requires i < |fields| && TagsOk(fields[..i], last)
    ensures var good := TagAllowed(fields[i].tag, LastTag(fields[..i], last)) && ValueTagsOk(fields[i]);
      && (good ==> TagsOk(fields[..i + 1], last) && LastTag(fields[..i + 1], last) == fields[i].tag)
      && (!good ==> !TagsOk(fields, last))
    ensures Encode(fields[..i + 1]) == Encode(fields[..i]) + EncodeRaw(ToRaw(fields[i]))
  {
    var front, f := fields[..i], fields[i];
    assert fields[..i + 1] == front + [f] && fields == front + fields[i..];
    TagsOkSplit(front, fields[i..], last);
    TagsOkSplit(front, [f], last);
    assert [f][1..] == [] && fields[i..][0] == f;
    EncodeAppend(front, [f]);
    EncodeOne(f);
  }

  lemma NoField(last: nat)
    ensures TagsOk([], last) && LastTag([], last) == last && Encode([]) == []
  {
  }

  lemma EncodeOne(f: Field)
    ensures Encode([f]) == EncodeRaw(ToRaw(f))
  {
    assert [f][1..] == [];
  }

  class CanonicalWriter {
    var bytes: seq<Byte>
    var lastTag: Option<nat>

    constructor ()
      ensures bytes == [] && lastTag == None
    {
      bytes := [];
      lastTag := None;
    }

    function Last(): nat
      reads this
    {
      if lastTag.Some? then lastTag.value else 0
    }

    /** `field_raw`: refuse tag 0 and a tag below the last one, otherwise append header and value. */
    method FieldRaw(tag: nat, wire: Byte, value: seq<Byte>) returns (ok: bool)
      modifies this
      ensures ok <==> TagAllowed(tag, old(Last()))
      ensures ok ==> bytes == old(bytes) + EncodeRaw(RawField(tag, wire, value)) && lastTag == Some(tag)
      ensures !ok ==> bytes == old(bytes) && lastTag == old(lastTag)
    {
      if tag == 0 {
        return false;
      }
      if lastTag.Some? && tag < lastTag.value {
        return false;
      }
      lastTag := Some(tag);
      bytes := bytes + ToBE(tag, 2);
      bytes := bytes + [wire];
      bytes := bytes + ToBE(|value|, 8);
      bytes := bytes + value;
      ok := true;
    }

    /** One typed field. A record is first written by a writer of its own, which starts with no last tag. */
    method WriteField(f: Field) returns (ok: bool)
      modifies this
      ensures ok <==> TagAllowed(f.tag, old(Last())) && ValueTagsOk(f)
      ensures ok ==> bytes == old(bytes) + EncodeRaw(ToRaw(f)) && lastTag == Some(f.tag)
      ensures !ok ==> bytes == old(bytes) && lastTag == old(lastTag)
      decreases f, 0
    {
      match f.value {
        case Record(fields) => ok := WriteRecord(f.tag, RECORD, fields);
        case ListItem(fields) => ok := WriteRecord(f.tag, RECORD_LIST_ITEM, fields);
        case _ => ok := FieldRaw(f.tag, Wire(f.value), Content(f.value));
      }
    }

    method WriteRecord(tag: nat, wire: Byte, fields: seq<Field>) returns (ok: bool)
      modifies this
      ensures ok <==> TagAllowed(tag, old(Last())) && TagsOk(fields, 0)
      ensures ok ==> bytes == old(bytes) + EncodeRaw(RawField(tag, wire, Encode(fields))) && lastTag == Some(tag)
      ensures !ok ==> bytes == old(bytes) && lastTag == old(lastTag)
      decreases fields, 2
    {
      var nested := new CanonicalWriter();
      ok := nested.WriteFields(fields);
      if ok {
        ok := FieldRaw(tag, wire, nested.bytes);
      }
    }

    /** A payload's whole `encode_canonical`: its fields in order, stopping at the first refusal. */
    method WriteFields(fields: seq<Field>) returns (ok: bool)
      modifies this
      ensures ok <==> TagsOk(fields, old(Last()))
      ensures ok ==> bytes == old(bytes) + Encode(fields)
      ensures !ok ==> exists k :: 0 <= k < |fields| && bytes == old(bytes) + Encode(fields[..k])
      decreases fields, 1
    {
      hide TagsOk, LastTag, Encode, EncodeRaw;
      var i := 0;
      assert fields[..0] == [];
      NoField(Last());
      while i < |fields|
        invariant 0 <= i <= |fields|
        invariant TagsOk(fields[..i], old(Last()))
        invariant Last() == LastTag(fields[..i], old(Last()))
        invariant bytes == old(bytes) + Encode(fields[..i])
      {
        OneFieldMore(fields, i, old(Last()));
        var written := WriteField(fields[i]);
        if !written {
          return false;
        }
        i := i + 1;
      }
      assert fields[..i] == fields;
      ok := true;
    }
  }

  /** `to_canonical_bytes`: succeeds exactly on tags in order, and then its bytes decode to what was written. */
  method ToCanonicalBytes(fields: seq<Field>) returns (r: Option<seq<Byte>>)
    ensures r.Some? <==> TagsOk(fields, 0)
    ensures r.Some? ==> r.value == Encode(fields)
    ensures r.Some? && WellFormed(fields, 0) ==> Decode(r.value, 0) == Some(fields)
  {
    var writer := new CanonicalWriter();
    var ok := writer.WriteFields(fields);
    if ok {
      if WellFormed(fields, 0) {
        RoundTrip(fields, 0);
      }
      r := Some(writer.bytes);
    } else {
      r := None;
    }
  }

  // ----- the strict cursor the payload decoders read with -----

  datatype CursorStep = Done | Got(field: RawField) | Malformed

  class CanonicalCursor {
    const bytes: seq<Byte>
    var pos: nat
    var lastTag: Option<nat>

    constructor (bytes: seq<Byte>)
      ensures this.bytes == bytes && pos == 0 && lastTag == None
    {
      this.bytes := bytes;
      pos := 0;
      lastTag := None;
    }

    function Last(): nat
      reads this
    {
      if lastTag.Some? then lastTag.value else 0
    }

    /** `read_exact`: the next `len` bytes, or nothing when fewer are left. */
    method ReadExact(len: nat) returns (r: Option<seq<Byte>>)
      requires pos <= |bytes|
      modifies `pos
      ensures pos <= |bytes|
      ensures r.Some? <==> old(pos) + len <= |bytes|
      ensures r.Some? ==> pos == old(pos) + len && r.value == bytes[old(pos)..pos]
      ensures r.None? ==> pos == old(pos)
    {
      if pos + len > |bytes| {
        return None;
      }
      r := Some(bytes[pos..pos + len]);
      pos := pos + len;
    }

    /** `next_field`: one field further, or the end of the input, or a refusal -- exactly as `ParseHead` says. */
    method NextField() returns (step: CursorStep)
      requires pos <= |bytes|
      modifies this
      ensures pos <= |bytes|
      ensures step.Done? <==> old(pos) == |bytes|
      ensures step.Done? ==> pos == old(pos) && lastTag == old(lastTag)
      ensures step.Got? ==> ParseHead(bytes[old(pos)..], old(Last())) == Some(step.field)
      ensures step.Got? ==> lastTag == Some(step.field.tag) && pos == old(pos) + 11 + |step.field.value|
      ensures step.Malformed? ==> ParseHead(bytes[old(pos)..], old(Last())) == None
    {
      if pos == |bytes| {
        return Done;
      }
      ghost var rest := bytes[pos..];
      var tagBytes := ReadExact(2);
      if tagBytes.None? {
        return Malformed;
      }
      assert tagBytes.value == rest[..2];
      var tag := FromBE(tagBytes.value);
      if tag == 0 || (lastTag.Some? && tag < lastTag.value) {
        return Malformed;
      }
      lastTag := Some(tag);
      var wire := ReadExact(1);
      if wire.None? {
        return Malformed;
      }
      assert wire.value[0] == rest[2];
      var lenBytes := ReadExact(8);
      if lenBytes.None? {
        return Malformed;
      }
      assert lenBytes.value == rest[3..11];
      var value := ReadExact(FromBE(lenBytes.value));
      if value.None? {
        return Malformed;
      }
      assert value.value == rest[11..11 + |value.value|];
      step := Got(RawField(tag, wire.value[0], value.value));
    }
  }
}
