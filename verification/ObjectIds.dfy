/**
 Object types, object-id preimages, and the textual form of an id. The hash is a parameter: nothing
 here depends on which one it is.
 */
module ObjectIds {
  import opened Bytes

  // ----- object type codes -----

  datatype ObjectType =
    | Patch | Block | RefState | RefUpdate | Tag | Attestation | Blob
    | BlockSummaryCache | RecoveryNote | RecognitionClaim

  function Code(t: ObjectType): nat {
    match t
    case Patch => 0x01
    case Block => 0x02
    case RefState => 0x03
    case RefUpdate => 0x04
    case Tag => 0x05
    case Attestation => 0x06
    case Blob => 0x07
    case BlockSummaryCache => 0x08
    case RecoveryNote => 0x09
    case RecognitionClaim => 0x0B
  }

  /** The codes `from_code` refuses before it looks at the live ones. */
  const RETIRED_CODES: set<nat> := {0x0A}

  function FromCode(code: nat): (r: Option<ObjectType>)
    ensures forall t :: r == Some(t) <==> Code(t) == code
    ensures code in RETIRED_CODES ==> r == None
  {
    if code in RETIRED_CODES then None
    else if code == 0x01 then Some(Patch)
    else if code == 0x02 then Some(Block)
    else if code == 0x03 then Some(RefState)
    else if code == 0x04 then Some(RefUpdate)
    else if code == 0x05 then Some(Tag)
    else if code == 0x06 then Some(Attestation)
    else if code == 0x07 then Some(Blob)
    else if code == 0x08 then Some(BlockSummaryCache)
    else if code == 0x09 then Some(RecoveryNote)
    else if code == 0x0B then Some(RecognitionClaim)
    else None
  }

  /** The types in the order of their codes, from 1 up; the tenth code is retired. */
  const BY_CODE := [Patch, Block, RefState, RefUpdate, Tag, Attestation, Blob, BlockSummaryCache, RecoveryNote]

  lemma CodesExactly(i: nat)
    ensures i < 9 ==> Code(BY_CODE[i]) == i + 1
    ensures Code(RecognitionClaim) == 11
  {
  }

  // ----- identity preimages -----

  /** `b"PRIKK-OBJECT-ID-v1"` */
  const OBJECT_ID_DOMAIN: seq<Byte> :=
    [80, 82, 73, 75, 75, 45, 79, 66, 74, 69, 67, 84, 45, 73, 68, 45, 118, 49]

  /** `b"prikk.sig.v1"` */
  const SIGNATURE_DOMAIN: seq<Byte> := [112, 114, 105, 107, 107, 46, 115, 105, 103, 46, 118, 49]

  function Preimage(t: ObjectType, schema: nat, payload: seq<Byte>): seq<Byte> {
    OBJECT_ID_DOMAIN + (ToBE(Code(t), 2) + (ToBE(schema, 4) + (ToBE(|payload|, 8) + payload)))
  }

  type Hash = seq<Byte> -> seq<Byte>

  function ObjectId(sha256: Hash, t: ObjectType, schema: nat, payload: seq<Byte>): seq<Byte> {
    sha256(Preimage(t, schema, payload))
  }

  /** Type, schema version and payload can each be read off the preimage. */
  lemma PreimageInjective(t: ObjectType, schema: nat, payload: seq<Byte>,
                          t': ObjectType, schema': nat, payload': seq<Byte>)
    requires schema < Pow256(4) && schema' < Pow256(4)
    ensures Preimage(t, schema, payload) == Preimage(t', schema', payload')
       <==> t == t' && schema == schema' && payload == payload'
  {
    if Preimage(t, schema, payload) == Preimage(t', schema', payload') {
      var lens, lens' := ToBE(|payload|, 8) + payload, ToBE(|payload'|, 8) + payload';
      var schemas, schemas' := ToBE(schema, 4) + lens, ToBE(schema', 4) + lens';
      SplitEqual(OBJECT_ID_DOMAIN, ToBE(Code(t), 2) + schemas, OBJECT_ID_DOMAIN, ToBE(Code(t'), 2) + schemas');
      SplitEqual(ToBE(Code(t), 2), schemas, ToBE(Code(t'), 2), schemas');
      SplitEqual(ToBE(schema, 4), lens, ToBE(schema', 4), lens');
      SplitEqual(ToBE(|payload|, 8), payload, ToBE(|payload'|, 8), payload');
      SameCode(t, t');
      FromToBE(schema, 4);
      FromToBE(schema', 4);
    }
  }

  /** The bytes of the preimage by position: domain, type code, schema version, length, payload. */
  lemma PreimageLayout(t: ObjectType, schema: nat, payload: seq<Byte>, i: nat)
    requires schema < Pow256(4) && i < 32 + |payload|
    ensures |Preimage(t, schema, payload)| == 32 + |payload|
    ensures Preimage(t, schema, payload)[i] ==
              if i < 18 then "PRIKK-OBJECT-ID-v1"[i] as int
              else if i == 18 then 0
              else if i == 19 then Code(t)
              else if i < 24 then (schema / Pow256(23 - i)) % 256
              else if i < 32 then (|payload| / Pow256(31 - i)) % 256
              else payload[i - 32]
  {
    hide ToBE;
    SmallBytes(Code(t));
    if 20 <= i < 24 {
      ToBEAt(schema, 4, i - 20);
    } else if 24 <= i < 32 {
      ToBEAt(|payload|, 8, i - 24);
    }
  }

  /** Two different objects share an id only if the hash itself collides. */
  lemma SharedIdIsCollision(sha256: Hash, t: ObjectType, schema: nat, payload: seq<Byte>,
                            t': ObjectType, schema': nat, payload': seq<Byte>)
    requires schema < Pow256(4) && schema' < Pow256(4)
    requires ObjectId(sha256, t, schema, payload) == ObjectId(sha256, t', schema', payload')
    requires !(t == t' && schema == schema' && payload == payload')
    ensures exists x, y :: x != y && sha256(x) == sha256(y)
  {
    PreimageInjective(t, schema, payload, t', schema', payload');
    var x, y := Preimage(t, schema, payload), Preimage(t', schema', payload');
    assert x != y && sha256(x) == sha256(y);
  }

  /** What a signature signs: domain, algorithm, object type, object id, role, key id. */
  function SignedBytes(algorithm: nat, t: ObjectType, id: seq<Byte>, role: nat, keyId: seq<Byte>): seq<Byte> {
    SIGNATURE_DOMAIN + (ToBE(algorithm, 2) + (ToBE(Code(t), 2) + (id + (ToBE(role, 2) + (ToBE(|keyId|, 2) + keyId)))))
  }

  /** A signature is bound to one algorithm, one object of one type, one role and one key id. */
  lemma SignedBytesInjective(a: nat, t: ObjectType, id: seq<Byte>, role: nat, keyId: seq<Byte>,
                             a': nat, t': ObjectType, id': seq<Byte>, role': nat, keyId': seq<Byte>)
    requires a < Pow256(2) && a' < Pow256(2) && role < Pow256(2) && role' < Pow256(2)
    requires |id| == 32 && |id'| == 32
    requires SignedBytes(a, t, id, role, keyId) == SignedBytes(a', t', id', role', keyId')
    ensures a == a' && t == t' && id == id' && role == role' && keyId == keyId'
  {
    var w, w' := ToBE(|keyId|, 2) + keyId, ToBE(|keyId'|, 2) + keyId';
    var x, x' := ToBE(role, 2) + w, ToBE(role', 2) + w';
    var y, y' := id + x, id' + x';
    var z, z' := ToBE(Code(t), 2) + y, ToBE(Code(t'), 2) + y';
    SplitEqual(SIGNATURE_DOMAIN, ToBE(a, 2) + z, SIGNATURE_DOMAIN, ToBE(a', 2) + z');
    SplitEqual(ToBE(a, 2), z, ToBE(a', 2), z');
    SplitEqual(ToBE(Code(t), 2), y, ToBE(Code(t'), 2), y');
    SplitEqual(id, x, id', x');
    SplitEqual(ToBE(role, 2), w, ToBE(role', 2), w');
    SplitEqual(ToBE(|keyId|, 2), keyId, ToBE(|keyId'|, 2), keyId');
    SameShort(a, a');
    SameShort(role, role');
    SameCode(t, t');
  }

  /** The bytes that are signed, by position: domain, algorithm, object type, object id, role, key id. */
  lemma SignedLayout(algorithm: Byte, t: ObjectType, id: seq<Byte>, role: Byte, keyId: seq<Byte>, i: nat)
    requires |id| == 32 && |keyId| < Pow256(2) && i < 52 + |keyId|
    ensures |SignedBytes(algorithm, t, id, role, keyId)| == 52 + |keyId|
    ensures SignedBytes(algorithm, t, id, role, keyId)[i] ==
              if i < 12 then "prikk.sig.v1"[i] as int
              else if i < 14 then [0, algorithm][i - 12]
              else if i < 16 then [0, Code(t)][i - 14]
              else if i < 48 then id[i - 16]
              else if i < 50 then [0, role][i - 48]
              else if i < 52 then [|keyId| / 256, |keyId| % 256][i - 50]
              else keyId[i - 52]
  {
    hide ToBE;
    SmallBytes(algorithm);
    SmallBytes(Code(t));
    SmallBytes(role);
    ShortBytes(|keyId|);
  }

  lemma SameShort(n: nat, m: nat)
    requires n < Pow256(2) && m < Pow256(2) && ToBE(n, 2) == ToBE(m, 2)
    ensures n == m
  {
    FromToBE(n, 2);
    FromToBE(m, 2);
  }

  lemma SameCode(t: ObjectType, t': ObjectType)
    requires ToBE(Code(t), 2) == ToBE(Code(t'), 2)
    ensures t == t'
  {
    Widths();
    SameShort(Code(t), Code(t'));
    assert FromCode(Code(t)) == Some(t) && FromCode(Code(t')) == Some(t');
  }

  /** What is signed is never what is hashed into an id. */
  lemma DomainsSeparate(a: nat, t: ObjectType, id: seq<Byte>, role: nat, keyId: seq<Byte>,
                        t': ObjectType, schema: nat, payload: seq<Byte>)
    ensures SignedBytes(a, t, id, role, keyId) != Preimage(t', schema, payload)
  {
    assert SignedBytes(a, t, id, role, keyId)[0] == SIGNATURE_DOMAIN[0] == 112;
    assert Preimage(t', schema, payload)[0] == OBJECT_ID_DOMAIN[0] == 80;
  }

  // ----- hex -----

  /** `hex_char`, as an ASCII code. */
  function HexChar(n: Byte): (c: Byte)
    requires n < 16
  {
    if n < 10 then 48 + n else 97 + (n - 10)
  }

  lemma HexDigits(n: Byte)
    requires n < 16
    ensures HexChar(n) == "0123456789abcdef"[n] as int
  {
  }

  /** The value of one lowercase hex digit. */
  function HexValue(c: Byte): (r: Option<Byte>)
    ensures forall n: Byte :: r == Some(n) <==> n < 16 && HexChar(n) == c
  {
    if 48 <= c <= 57 then Some(c - 48)
    else if 97 <= c <= 102 then Some(c - 97 + 10)
    else None
  }

  function Hex(bs: seq<Byte>): (s: seq<Byte>)
    ensures |s| == 2 * |bs|
  {
    if bs == [] then [] else [HexChar(bs[0] / 16), HexChar(bs[0] % 16)] + Hex(bs[1..])
  }

  lemma {:induction false} HexAt(bs: seq<Byte>, i: nat)
    requires i < |bs|
    ensures Hex(bs)[2 * i] == HexChar(bs[i] / 16) && Hex(bs)[2 * i + 1] == HexChar(bs[i] % 16)
  {
    if i > 0 {
      HexAt(bs[1..], i - 1);
    }
  }

  lemma {:induction false} HexAppend(a: seq<Byte>, b: seq<Byte>)
    ensures Hex(a + b) == Hex(a) + Hex(b)
  {
    if a == [] {
      assert a + b == b;
    } else {
      assert (a + b)[1..] == a[1..] + b;
      HexAppend(a[1..], b);
    }
  }

  lemma HexExtend(bs: seq<Byte>, high: Byte, low: Byte)
    requires high < 16 && low < 16
    ensures Hex(bs + [high * 16 + low]) == Hex(bs) + [HexChar(high), HexChar(low)]
  {
    HexAppend(bs, [high * 16 + low]);
  }

  /** One more pair of digits read. */
  lemma PairRead(bs: seq<Byte>, text: seq<Byte>, i: nat, high: Byte, low: Byte)
    requires 2 * i + 1 < |text| && Hex(bs) == text[..2 * i]
    requires HexValue(text[2 * i]) == Some(high) && HexValue(text[2 * i + 1]) == Some(low)
    ensures high < 16 && low < 16 && Hex(bs + [high * 16 + low]) == text[..2 * (i + 1)]
  {
    HexExtend(bs, high, low);
    assert text[..2 * (i + 1)] == text[..2 * i] + [text[2 * i], text[2 * i + 1]];
  }

  /** A pair that is no pair of digits rules out every reading of the text. */
  lemma PairRefused(text: seq<Byte>, i: nat, bs: seq<Byte>)
    requires 2 * i + 1 < |text| && |text| == 2 * |bs|
    requires HexValue(text[2 * i]).None? || HexValue(text[2 * i + 1]).None?
    ensures Hex(bs) != text
  {
    HexAt(bs, i);
  }

  /** `to_hex`: two digits per byte, high nibble first. */
  method ToHex(bs: seq<Byte>) returns (s: seq<Byte>)
    ensures s == Hex(bs)
  {
    s := [];
    for i := 0 to |bs|
      invariant s == Hex(bs[..i])
    {
      HexAppend(bs[..i], [bs[i]]);
      assert bs[..i + 1] == bs[..i] + [bs[i]];
      s := s + [HexChar(bs[i] / 16)];
      s := s + [HexChar(bs[i] % 16)];
    }
    assert bs[..|bs|] == bs;
  }

  /** `ObjectId::from_str`: accepts a string exactly when it prints some 32-byte id, and returns that id. */
  method FromStr(s: seq<Byte>) returns (r: Option<seq<Byte>>)
    ensures r.Some? ==> |r.value| == 32 && Hex(r.value) == s
    ensures r.None? ==> forall id: seq<Byte> :: |id| == 32 ==> Hex(id) != s
  {
    if |s| != 64 {
      return None;
    }
    var out := new Byte[32](_ => 0);
    var i := 0;
    while i < 32
      invariant 0 <= i <= 32
      invariant Hex(out[..i]) == s[..2 * i]
    {
      var high := HexValue(s[2 * i]);
      var low := HexValue(s[2 * i + 1]);
      if high.None? || low.None? {
        forall id: seq<Byte> | |id| == 32 ensures Hex(id) != s {
          PairRefused(s, i, id);
        }
        return None;
      }
      PairRead(out[..i], s, i, high.value, low.value);
      out[i] := high.value * 16 + low.value;
      assert out[..i + 1] == out[..i] + [out[i]];
      i := i + 1;
    }
    assert s[..64] == s && out[..32] == out[..];
    r := Some(out[..]);
  }

  /** Printing never merges two byte strings, so parsing has one answer. */
  lemma {:induction false} HexInjective(a: seq<Byte>, b: seq<Byte>)
    requires Hex(a) == Hex(b)
    ensures a == b
  {
    assert |a| == |b|;
    forall i | 0 <= i < |a| ensures a[i] == b[i] {
      HexAt(a, i);
      HexAt(b, i);
      assert HexValue(HexChar(a[i] / 16)) == Some(b[i] / 16);
      assert HexValue(HexChar(a[i] % 16)) == Some(b[i] % 16);
    }
  }
}
