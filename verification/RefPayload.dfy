/**
 The `RefState` payload: its canonical fields, and the schema-aware decoder that every reader of a
 published ref goes through. The decoder accepts exactly the bytes the encoder can produce.
 */
module RefPayload {
  import opened Bytes
  import opened Canonical
  import opened Order

  /** The schema at which the `closed` field became legal. */
  const CLOSED_SCHEMA: nat := 2

  datatype RefKind = Branch | Tag

  function KindCode(kind: RefKind): nat {
    match kind case Branch => 1 case Tag => 2
  }

  function KindFromCode(code: nat): Option<RefKind> {
    if code == 1 then Some(Branch) else if code == 2 then Some(Tag) else None
  }

  datatype RefState = RefState(
    name: seq<Byte>,
    kind: RefKind,
    target: seq<Byte>,
    updateSeq: nat,
    previous: Option<seq<Byte>>,
    attestations: seq<seq<Byte>>,
    closed: bool)

  /** What the Rust types of the struct's fields guarantee. */
  predicate Typed(p: RefState) {
    && ValidUtf8(p.name) && |p.name| < Pow256(8)
    && |p.target| == 32
    && p.updateSeq < Pow256(8)
    && (p.previous.Some? ==> |p.previous.value| == 32)
    && forall i :: 0 <= i < |p.attestations| ==> |p.attestations[i]| == 32
  }

  function AttestationFields(ids: seq<seq<Byte>>): (fs: seq<Field>)
    ensures |fs| == |ids|
  {
    seq(|ids|, i requires 0 <= i < |ids| => Field(5, Id(ids[i])))
  }

  /** The fields `encode_canonical` writes, in order. An open state emits no tag 7 at all. */
  function Fields(p: RefState): seq<Field> {
    [Field(1, Text(p.name)), Field(2, Id(p.target)), Field(3, U64Value(p.updateSeq))]
    + (if p.previous.Some? then [Field(4, Id(p.previous.value))] else [])
    + AttestationFields(p.attestations)
    + [Field(6, EnumU16(KindCode(p.kind)))]
    + (if p.closed then [Field(7, Bool(true))] else [])
  }

  function EncodeRefState(p: RefState): Option<seq<Byte>> {
    if IsStrictlySorted(p.attestations) then Some(Encode(Fields(p))) else None
  }

  // ----- the bytes of a ref state, field by field -----

  /** An object id under a tag, as bytes. */
  function IdBytes(tag: Byte, id: seq<Byte>): seq<Byte> {
    [0, tag, 0x12, 0, 0, 0, 0, 0, 0, 0, 32] + id
  }

  function AttestationBytes(ids: seq<seq<Byte>>): seq<Byte> {
    if ids == [] then [] else AttestationBytes(ids[..|ids| - 1]) + IdBytes(5, ids[|ids| - 1])
  }

  function KindByte(kind: RefKind): Byte {
    if kind == Branch then 1 else 2
  }

  function FrontBytes(p: RefState): seq<Byte> {
    [0, 1, 0x10] + ToBE(|p.name|, 8) + p.name
    + IdBytes(2, p.target)
    + ([0, 3, 0x04, 0, 0, 0, 0, 0, 0, 0, 8] + ToBE(p.updateSeq, 8))
    + (if p.previous.Some? then IdBytes(4, p.previous.value) else [])
  }

  function BackBytes(p: RefState): seq<Byte> {
    [0, 6, 0x05, 0, 0, 0, 0, 0, 0, 0, 2, 0, KindByte(p.kind)]
    + (if p.closed then [0, 7, 0x01, 0, 0, 0, 0, 0, 0, 0, 1, 1] else [])
  }

  /** Every byte of a ref state's identity: name, target, sequence number, previous, attestations, kind, closed. */
  lemma RefStateLayout(p: RefState)
    requires Typed(p) && IsStrictlySorted(p.attestations)
    ensures EncodeRefState(p) == Some(FrontBytes(p) + AttestationBytes(p.attestations) + BackBytes(p))
  {
    hide Encode, FrontBytes, BackBytes, AttestationBytes;
    var front := [Field(1, Text(p.name)), Field(2, Id(p.target)), Field(3, U64Value(p.updateSeq))]
                 + (if p.previous.Some? then [Field(4, Id(p.previous.value))] else []);
    var back := [Field(6, EnumU16(KindCode(p.kind)))] + (if p.closed then [Field(7, Bool(true))] else []);
    var middle := AttestationFields(p.attestations);
    assert Fields(p) == front + middle + back;
    EncodeAppend(front + middle, back);
    EncodeAppend(front, middle);
    FrontLayout(p);
    AttestationLayout(p.attestations);
    BackLayout(p);
  }

  lemma IdLayout(tag: Byte, id: seq<Byte>)
    requires |id| == 32
    ensures EncodeRaw(ToRaw(Field(tag, Id(id)))) == IdBytes(tag, id)
  {
    SmallField(Field(tag, Id(id)), id);
  }

  lemma FrontLayout(p: RefState)
    requires Typed(p)
    ensures Encode([Field(1, Text(p.name)), Field(2, Id(p.target)), Field(3, U64Value(p.updateSeq))]
                   + (if p.previous.Some? then [Field(4, Id(p.previous.value))] else [])) == FrontBytes(p)
  {
    hide Encode, EncodeRaw, ToRaw, ToBE, IdBytes;
    var a, b, c := Field(1, Text(p.name)), Field(2, Id(p.target)), Field(3, U64Value(p.updateSeq));
    EncodeOne(a);
    EncodeExtend([a], b);
    EncodeExtend([a, b], c);
    assert [a] + [b] == [a, b] && [a, b] + [c] == [a, b, c];
    LowTag(a, p.name);
    IdLayout(2, p.target);
    SmallField(c, ToBE(p.updateSeq, 8));
    if p.previous.Some? {
      EncodeExtend([a, b, c], Field(4, Id(p.previous.value)));
      IdLayout(4, p.previous.value);
    } else {
      assert [a, b, c] + [] == [a, b, c];
    }
  }

  lemma {:induction false} AttestationLayout(ids: seq<seq<Byte>>)
    requires forall i :: 0 <= i < |ids| ==> |ids[i]| == 32
    ensures Encode(AttestationFields(ids)) == AttestationBytes(ids)
  {
    hide EncodeRaw, ToRaw, IdBytes;
    if ids != [] {
      var front, last := ids[..|ids| - 1], ids[|ids| - 1];
      AttestationLayout(front);
      assert AttestationFields(ids) == AttestationFields(front) + [Field(5, Id(last))];
      EncodeExtend(AttestationFields(front), Field(5, Id(last)));
      IdLayout(5, last);
    }
  }

  lemma BackLayout(p: RefState)
    ensures Encode([Field(6, EnumU16(KindCode(p.kind)))] + (if p.closed then [Field(7, Bool(true))] else []))
         == BackBytes(p)
  {
    hide Encode, EncodeRaw, ToRaw, ToBE;
    var kind, closed := Field(6, EnumU16(KindCode(p.kind))), Field(7, Bool(true));
    EncodeOne(kind);
    SmallBytes(KindCode(p.kind));
    SmallField(kind, [0, KindCode(p.kind)]);
    if p.closed {
      EncodeExtend([kind], closed);
      SmallField(closed, [1]);
    } else {
      assert [kind] + [] == [kind];
    }
  }

  // ----- the decoder's local variables, and one turn of its loop -----

  datatype Partial = Partial(
    name: Option<seq<Byte>>,
    target: Option<seq<Byte>>,
    updateSeq: Option<nat>,
    previous: Option<seq<Byte>>,
    attestations: seq<seq<Byte>>,
    kind: Option<RefKind>,
    closed: bool)

  const NOTHING := Partial(None, None, None, None, [], None, false)

  function Absorb(st: Partial, f: RawField, schema: nat): Option<Partial> {
    if f.tag == 1 then
      if st.name.None? && f.wire == STRING && ValidUtf8(f.value) then Some(st.(name := Some(f.value))) else None
    else if f.tag == 2 then
      if st.target.None? && f.wire == OBJECT_ID && |f.value| == 32 then Some(st.(target := Some(f.value))) else None
    else if f.tag == 3 then
      if st.updateSeq.None? && f.wire == U64 && |f.value| == 8
      then Some(st.(updateSeq := Some(FromBE(f.value)))) else None
    else if f.tag == 4 then
      if st.previous.None? && f.wire == OBJECT_ID && |f.value| == 32
      then Some(st.(previous := Some(f.value))) else None
    else if f.tag == 5 then
      if f.wire == OBJECT_ID && |f.value| == 32
      then Some(st.(attestations := st.attestations + [f.value])) else None
    else if f.tag == 6 then
      if st.kind.None? && f.wire == ENUM_U16 && |f.value| == 2 && KindFromCode(FromBE(f.value)).Some?
      then Some(st.(kind := KindFromCode(FromBE(f.value)))) else None
    else if f.tag == 7 then
      if !st.closed && schema >= CLOSED_SCHEMA && f.wire == BOOL && f.value == [1]
      then Some(st.(closed := true)) else None
    else None
  }

  function AbsorbAll(bs: seq<Byte>, last: nat, st: Partial, schema: nat): Option<Partial>
    decreases |bs|
  {
    if bs == [] then Some(st)
    else match ParseHead(bs, last)
      case None => None
      case Some(f) =>
        match Absorb(st, f, schema)
        case None => None
        case Some(st') => AbsorbAll(bs[11 + |f.value|..], f.tag, st', schema)
  }

  function Finish(st: Partial): Option<RefState> {
    if st.name.Some? && st.kind.Some? && st.target.Some? && st.updateSeq.Some? && IsStrictlySorted(st.attestations)
    then Some(RefState(st.name.value, st.kind.value, st.target.value, st.updateSeq.value,
                       st.previous, st.attestations, st.closed))
    else None
  }

  /** `RefStatePayload::decode_canonical`, as a value. */
  function DecodeRefState(bs: seq<Byte>, schema: nat): Option<RefState> {
    match AbsorbAll(bs, 0, NOTHING, schema)
    case None => None
    case Some(st) => Finish(st)
  }

  /** `RefStatePayload::decode_canonical`: the loop over the cursor. */
  method Decode(bs: seq<Byte>, schema: nat) returns (r: Option<RefState>)
    ensures r == DecodeRefState(bs, schema)
    ensures forall p: RefState :: r == Some(p) <==> Decodable(p, schema) && EncodeRefState(p) == Some(bs)
  {
    forall p: RefState ensures DecodeRefState(bs, schema) == Some(p) <==>
                               Decodable(p, schema) && EncodeRefState(p) == Some(bs)
    {
      DecodesExactlyEncodings(bs, schema, p);
    }
    var cursor := new CanonicalCursor(bs);
    var st := NOTHING;
    while true
      invariant cursor.bytes == bs && cursor.pos <= |bs|
      invariant AbsorbAll(bs[cursor.pos..], cursor.Last(), st, schema) == AbsorbAll(bs, 0, NOTHING, schema)
      decreases |bs| - cursor.pos
    {
      var step := cursor.NextField();
      match step {
        case Done =>
          assert bs[cursor.pos..] == [];
          return Finish(st);
        case Malformed =>
          return None;
        case Got(f) =>
          var absorbed := Absorb(st, f, schema);
          if absorbed.None? {
            return None;
          }
          assert bs[cursor.pos - 11 - |f.value|..][11 + |f.value|..] == bs[cursor.pos..];
          st := absorbed.value;
      }
    }
  }

  // ----- soundness: whatever is accepted is an encoding -----

  /** The fields a partly filled set of variables stands for. */
  function PartialFields(st: Partial): seq<Field> {
    PartialFront(st) + AttestationFields(st.attestations) + PartialBack(st)
  }

  function PartialFront(st: Partial): seq<Field> {
    (if st.name.Some? then [Field(1, Text(st.name.value))] else [])
    + (if st.target.Some? then [Field(2, Id(st.target.value))] else [])
    + (if st.updateSeq.Some? then [Field(3, U64Value(st.updateSeq.value))] else [])
    + (if st.previous.Some? then [Field(4, Id(st.previous.value))] else [])
  }

  function PartialBack(st: Partial): seq<Field> {
    (if st.kind.Some? then [Field(6, EnumU16(KindCode(st.kind.value)))] else [])
    + (if st.closed then [Field(7, Bool(true))] else [])
  }

  /** No variable that belongs to a tag above `last` is set yet. */
  predicate Below(st: Partial, last: nat) {
    && (last < 1 ==> st.name.None?)
    && (last < 2 ==> st.target.None?)
    && (last < 3 ==> st.updateSeq.None?)
    && (last < 4 ==> st.previous.None?)
    && (last < 5 ==> st.attestations == [])
    && (last < 6 ==> st.kind.None?)
    && (last < 7 ==> !st.closed)
  }

  predicate PartialTyped(st: Partial, schema: nat) {
    && (st.name.Some? ==> ValidUtf8(st.name.value) && |st.name.value| < Pow256(8))
    && (st.target.Some? ==> |st.target.value| == 32)
    && (st.updateSeq.Some? ==> st.updateSeq.value < Pow256(8))
    && (st.previous.Some? ==> |st.previous.value| == 32)
    && (forall i :: 0 <= i < |st.attestations| ==> |st.attestations[i]| == 32)
    && (st.closed ==> schema >= CLOSED_SCHEMA)
  }

  /** The typed field an accepted raw field was. */
  function TypedField(f: RawField): Field {
    if f.tag == 1 then Field(1, Text(f.value))
    else if f.tag == 2 || f.tag == 4 || f.tag == 5 then Field(f.tag, Id(f.value))
    else if f.tag == 3 then Field(3, U64Value(FromBE(f.value)))
    else if f.tag == 6 then Field(6, EnumU16(FromBE(f.value)))
    else Field(7, Bool(true))
  }

  lemma {:induction false} AbsorbedIsTyped(st: Partial, f: RawField, schema: nat)
    requires Absorb(st, f, schema).Some?
    ensures ToRaw(TypedField(f)) == f
  {
    hide ToBE, FromBE;
    if f.tag == 3 {
      NumberContent(f.value, 8);
    } else if f.tag == 6 {
      NumberContent(f.value, 2);
    }
  }

  lemma NumberContent(bs: seq<Byte>, width: nat)
    requires |bs| == width
    ensures ToBE(FromBE(bs), width) == bs
  {
    ToFromBE(bs);
  }

  lemma AbsorbKeeps(st: Partial, f: RawField, schema: nat, last: nat)
    requires Below(st, last) && PartialTyped(st, schema) && TagAllowed(f.tag, last) && Fits(f)
    requires Absorb(st, f, schema).Some?
    ensures var st' := Absorb(st, f, schema).value; Below(st', f.tag) && PartialTyped(st', schema)
  {
  }

  /** One accepted field extends the fields read so far by exactly itself. */
  lemma {:induction false} AbsorbAppends(st: Partial, f: RawField, schema: nat, last: nat)
    requires Below(st, last) && TagAllowed(f.tag, last)
    requires Absorb(st, f, schema).Some?
    ensures PartialFields(Absorb(st, f, schema).value) == PartialFields(st) + [TypedField(f)]
  {
    var st' := Absorb(st, f, schema).value;
    if f.tag < 5 {
      FrontAppends(st, f, schema, last);
      FrontOnly(st);
      FrontOnly(st');
    } else if f.tag == 5 {
      FrontMiddle(st);
      FrontMiddle(st');
      assert AttestationFields(st'.attestations) == AttestationFields(st.attestations) + [TypedField(f)];
      Associates(PartialFront(st), AttestationFields(st.attestations), [TypedField(f)]);
    } else {
      assert PartialBack(st') == PartialBack(st) + [TypedField(f)];
      Associates(PartialFront(st) + AttestationFields(st.attestations), PartialBack(st), [TypedField(f)]);
    }
  }

  lemma Associates(a: seq<Field>, b: seq<Field>, c: seq<Field>)
    ensures (a + b) + c == a + (b + c)
  {
  }

  lemma FrontMiddle(st: Partial)
    requires st.kind.None? && !st.closed
    ensures PartialFields(st) == PartialFront(st) + AttestationFields(st.attestations)
  {
  }

  lemma FrontOnly(st: Partial)
    requires st.attestations == [] && st.kind.None? && !st.closed
    ensures PartialFields(st) == PartialFront(st)
  {
  }

  lemma FrontAppends(st: Partial, f: RawField, schema: nat, last: nat)
    requires Below(st, last) && TagAllowed(f.tag, last) && f.tag < 5
    requires Absorb(st, f, schema).Some?
    ensures PartialFront(Absorb(st, f, schema).value) == PartialFront(st) + [TypedField(f)]
  {
  }

  lemma {:induction false} AbsorbAllSound(bs: seq<Byte>, last: nat, st: Partial, schema: nat)
    requires Below(st, last) && PartialTyped(st, schema)
    requires AbsorbAll(bs, last, st, schema).Some?
    ensures var st' := AbsorbAll(bs, last, st, schema).value;
      PartialTyped(st', schema) && Encode(PartialFields(st')) == Encode(PartialFields(st)) + bs
    decreases |bs|
  {
    hide Absorb, PartialFields, PartialTyped, Below, Encode, EncodeRaw, ParseHead;
    if bs != [] {
      EncodeOfHead(bs, last);
      var f := ParseHead(bs, last).value;
      AbsorbKeeps(st, f, schema, last);
      AbsorbExtends(st, f, schema, last);
      var rest := bs[11 + |f.value|..];
      AbsorbAllSound(rest, f.tag, Absorb(st, f, schema).value, schema);
      assert Encode(PartialFields(st)) + EncodeRaw(f) + rest == Encode(PartialFields(st)) + (EncodeRaw(f) + rest);
    } else {
      assert Encode(PartialFields(st)) + [] == Encode(PartialFields(st));
    }
  }

  lemma AbsorbExtends(st: Partial, f: RawField, schema: nat, last: nat)
    requires Below(st, last) && TagAllowed(f.tag, last) && Absorb(st, f, schema).Some?
    ensures Encode(PartialFields(Absorb(st, f, schema).value)) == Encode(PartialFields(st)) + EncodeRaw(f)
  {
    hide Absorb, PartialFields, Encode, TypedField, ToRaw;
    AbsorbedIsTyped(st, f, schema);
    AbsorbAppends(st, f, schema, last);
    EncodeAppend(PartialFields(st), [TypedField(f)]);
    EncodeOne(TypedField(f));
  }

  // ----- completeness: every encoding is accepted -----

  function AbsorbFields(fs: seq<Field>, st: Partial, schema: nat): Option<Partial> {
    if fs == [] then Some(st)
    else match Absorb(st, ToRaw(fs[0]), schema)
      case None => None
      case Some(st') => AbsorbFields(fs[1..], st', schema)
  }

  lemma {:induction false} AbsorbFieldsSplit(a: seq<Field>, b: seq<Field>, st: Partial, schema: nat)
    requires AbsorbFields(a, st, schema).Some?
    ensures AbsorbFields(a + b, st, schema) == AbsorbFields(b, AbsorbFields(a, st, schema).value, schema)
  {
    if a == [] {
      assert a + b == b;
    } else {
      assert (a + b)[1..] == a[1..] + b;
      AbsorbFieldsSplit(a[1..], b, Absorb(st, ToRaw(a[0]), schema).value, schema);
    }
  }

  /** Running the decoder over an encoding absorbs the encoded fields one by one. */
  lemma {:induction false} AbsorbAllOfEncode(fs: seq<Field>, last: nat, st: Partial, schema: nat)
    requires WellFormed(fs, last)
    ensures AbsorbAll(Encode(fs), last, st, schema) == AbsorbFields(fs, st, schema)
  {
    if fs != [] {
      HeadOfEncode(ToRaw(fs[0]), Encode(fs[1..]), last);
      var next := Absorb(st, ToRaw(fs[0]), schema);
      if next.Some? {
        AbsorbAllOfEncode(fs[1..], fs[0].tag, next.value, schema);
      }
    }
  }

  lemma {:induction false} AbsorbAttestations(ids: seq<seq<Byte>>, st: Partial, schema: nat)
    requires forall i :: 0 <= i < |ids| ==> |ids[i]| == 32
    ensures AbsorbFields(AttestationFields(ids), st, schema)
         == Some(st.(attestations := st.attestations + ids))
  {
    if ids == [] {
      assert st.attestations + ids == st.attestations;
    } else {
      var fs, st' := AttestationFields(ids), st.(attestations := st.attestations + [ids[0]]);
      assert fs[1..] == AttestationFields(ids[1..]);
      assert Absorb(st, ToRaw(fs[0]), schema) == Some(st');
      AbsorbAttestations(ids[1..], st', schema);
      assert st.attestations + [ids[0]] + ids[1..] == st.attestations + ids;
    }
  }

  lemma {:induction false} WellFormedSplit(a: seq<Field>, b: seq<Field>, last: nat)
    requires WellFormed(a, last) && WellFormed(b, LastTag(a, last))
    ensures WellFormed(a + b, last)
  {
    if a == [] {
      assert a + b == b;
    } else {
      assert (a + b)[1..] == a[1..] + b;
      WellFormedSplit(a[1..], b, a[0].tag);
    }
  }

  lemma {:induction false} AttestationsWellFormed(ids: seq<seq<Byte>>, last: nat)
    requires last <= 5 && forall i :: 0 <= i < |ids| ==> |ids[i]| == 32
    ensures WellFormed(AttestationFields(ids), last)
  {
    Widths();
    if ids != [] {
      assert AttestationFields(ids)[1..] == AttestationFields(ids[1..]);
      AttestationsWellFormed(ids[1..], 5);
    }
  }

  predicate Decodable(p: RefState, schema: nat) {
    Typed(p) && IsStrictlySorted(p.attestations) && (p.closed ==> schema >= CLOSED_SCHEMA)
  }

  function Front(p: RefState): seq<Field> {
    [Field(1, Text(p.name)), Field(2, Id(p.target)), Field(3, U64Value(p.updateSeq))]
  }

  function Previous(p: RefState): seq<Field> {
    if p.previous.Some? then [Field(4, Id(p.previous.value))] else []
  }

  function Back(p: RefState): seq<Field> {
    [Field(6, EnumU16(KindCode(p.kind)))] + (if p.closed then [Field(7, Bool(true))] else [])
  }

  lemma FieldsByParts(p: RefState)
    ensures Fields(p) == (Front(p) + Previous(p)) + (AttestationFields(p.attestations) + Back(p))
  {
  }

  /** Accepting one more field after a run of accepted fields. */
  lemma OneMore(fs: seq<Field>, f: Field, last: nat, st: Partial, schema: nat)
    requires WellFormed(fs, last) && TagAllowed(f.tag, LastTag(fs, last)) && FieldWellTyped(f)
    requires AbsorbFields(fs, st, schema).Some?
    ensures WellFormed(fs + [f], last) && LastTag(fs + [f], last) == f.tag
    ensures AbsorbFields(fs + [f], st, schema) == Absorb(AbsorbFields(fs, st, schema).value, ToRaw(f), schema)
  {
    assert [f][1..] == [] && WellFormed([], f.tag);
    assert WellFormed([f], LastTag(fs, last));
    WellFormedSplit(fs, [f], last);
    AbsorbFieldsSplit(fs, [f], st, schema);
    var mid := AbsorbFields(fs, st, schema).value;
    var next := Absorb(mid, ToRaw(f), schema);
    if next.Some? {
      assert AbsorbFields([f], mid, schema) == AbsorbFields([f][1..], next.value, schema);
    }
  }

  lemma NoneYet(st: Partial, schema: nat)
    ensures WellFormed([], 0) && LastTag([], 0) == 0 && AbsorbFields([], st, schema) == Some(st)
  {
  }

  lemma {:induction false} FrontAccepted(p: RefState, schema: nat)
    requires Typed(p)
    ensures WellFormed(Front(p) + Previous(p), 0) && 1 <= LastTag(Front(p) + Previous(p), 0) <= 4
    ensures AbsorbFields(Front(p) + Previous(p), NOTHING, schema)
         == Some(NOTHING.(name := Some(p.name), target := Some(p.target), updateSeq := Some(p.updateSeq),
                          previous := p.previous))
  {
    hide WellFormed, LastTag, AbsorbFields;
    Widths();
    FromToBE(p.updateSeq, 8);
    NoneYet(NOTHING, schema);
    var f1, f2, f3 := Field(1, Text(p.name)), Field(2, Id(p.target)), Field(3, U64Value(p.updateSeq));
    OneMore([], f1, 0, NOTHING, schema);
    assert [] + [f1] == [f1];
    OneMore([f1], f2, 0, NOTHING, schema);
    assert [f1] + [f2] == [f1, f2];
    OneMore([f1, f2], f3, 0, NOTHING, schema);
    assert [f1, f2] + [f3] == Front(p);
    if p.previous.Some? {
      OneMore(Front(p), Field(4, Id(p.previous.value)), 0, NOTHING, schema);
    } else {
      assert Front(p) + Previous(p) == Front(p);
    }
  }

  lemma BackAccepted(p: RefState, st: Partial, schema: nat, last: nat)
    requires (p.closed ==> schema >= CLOSED_SCHEMA) && last <= 5 && st.kind.None? && !st.closed
    ensures WellFormed(Back(p), last)
    ensures AbsorbFields(Back(p), st, schema) == Some(st.(kind := Some(p.kind), closed := p.closed))
  {
    var f6, f7 := Field(6, EnumU16(KindCode(p.kind))), Field(7, Bool(true));
    var s6 := st.(kind := Some(p.kind));
    KindAccepted(p.kind, st, schema);
    assert FieldWellTyped(f6) by { Widths(); }
    OneMore([], f6, last, st, schema);
    assert [] + [f6] == [f6];
    if p.closed {
      assert FieldWellTyped(f7) by { Widths(); }
      assert Absorb(s6, ToRaw(f7), schema) == Some(s6.(closed := true));
      OneMore([f6], f7, last, st, schema);
    } else {
      assert Back(p) == [f6];
    }
  }

  lemma KindAccepted(kind: RefKind, st: Partial, schema: nat)
    requires st.kind.None?
    ensures Absorb(st, ToRaw(Field(6, EnumU16(KindCode(kind)))), schema) == Some(st.(kind := Some(kind)))
  {
    Widths();
    FromToBE(KindCode(kind), 2);
  }

  /** The decoder's variables when every field of `p` has been read. */
  function Full(p: RefState): Partial {
    Partial(Some(p.name), Some(p.target), Some(p.updateSeq), p.previous, p.attestations, Some(p.kind), p.closed)
  }

  lemma FieldsAccepted(p: RefState, schema: nat)
    requires Typed(p) && (p.closed ==> schema >= CLOSED_SCHEMA)
    ensures AbsorbAll(Encode(Fields(p)), 0, NOTHING, schema) == Some(Full(p))
  {
    var a, b, c := Front(p) + Previous(p), AttestationFields(p.attestations), Back(p);
    FieldsByParts(p);
    FrontAccepted(p, schema);
    var st := AbsorbFields(a, NOTHING, schema).value;
    AbsorbAttestations(p.attestations, st, schema);
    var st' := st.(attestations := p.attestations);
    assert st.attestations + p.attestations == p.attestations;
    var last := LastTag(a, 0);
    AttestationsWellFormed(p.attestations, last);
    BackAccepted(p, st', schema, LastTag(b, last));
    AbsorbFieldsSplit(b, c, st, schema);
    AbsorbFieldsSplit(a, b + c, NOTHING, schema);
    WellFormedSplit(b, c, last);
    WellFormedSplit(a, b + c, 0);
    AbsorbAllOfEncode(Fields(p), 0, NOTHING, schema);
  }

  lemma FieldsOfFinish(st: Partial, p: RefState)
    requires Finish(st) == Some(p)
    ensures PartialFields(st) == Fields(p) && IsStrictlySorted(p.attestations)
  {
  }

  /** The decoder accepts exactly the encodings, and gives each one back. */
  lemma DecodesExactlyEncodings(bs: seq<Byte>, schema: nat, p: RefState)
    ensures DecodeRefState(bs, schema) == Some(p) <==> Decodable(p, schema) && EncodeRefState(p) == Some(bs)
  {
    if DecodeRefState(bs, schema) == Some(p) {
      AcceptedIsEncoding(bs, schema, p);
    }
    if Decodable(p, schema) && EncodeRefState(p) == Some(bs) {
      FieldsAccepted(p, schema);
    }
  }

  lemma AcceptedIsEncoding(bs: seq<Byte>, schema: nat, p: RefState)
    requires DecodeRefState(bs, schema) == Some(p)
    ensures Decodable(p, schema) && EncodeRefState(p) == Some(bs)
  {
    AbsorbAllSound(bs, 0, NOTHING, schema);
    FieldsOfFinish(AbsorbAll(bs, 0, NOTHING, schema).value, p);
    assert Encode(PartialFields(NOTHING)) + bs == bs;
  }
}
