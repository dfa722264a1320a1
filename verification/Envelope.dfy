/**
 The object envelope: unsigned canonical payload bytes plus signatures kept in strict canonical order.
 */
module Envelope {
  import opened Bytes
  import opened Order
  import opened Canonical
  import opened Signatures
  import ObjectIds

  datatype Issues = Issues(malformedShape: bool, duplicate: bool, noncanonicalOrder: bool)

  datatype Verdict = Accepted | UnsupportedFormatVersion | InvalidSignature

  predicate AllValid(s: seq<Signature>) {
    forall i :: 0 <= i < |s| ==> ValidStructure(s[i])
  }

  predicate AllShaped(s: seq<Signature>) {
    forall i :: 0 <= i < |s| ==> ValidShape(s[i])
  }

  /** What an envelope must satisfy to be written, or read in the current format. */
  ghost predicate StrictEnvelope(schemaVersion: nat, s: seq<Signature>) {
    schemaVersion != 0 && AllValid(s) && AllShaped(s) && StrictlyAscending(s)
  }

  class ObjectEnvelope {
    const objectType: ObjectIds.ObjectType
    const schemaVersion: nat
    const canonicalPayload: seq<Byte>
    var signatures: seq<Signature>

    /** `unsigned` */
    constructor (objectType: ObjectIds.ObjectType, schemaVersion: nat, canonicalPayload: seq<Byte>)
      ensures this.objectType == objectType && this.schemaVersion == schemaVersion
      ensures this.canonicalPayload == canonicalPayload && signatures == []
    {
      this.objectType := objectType;
      this.schemaVersion := schemaVersion;
      this.canonicalPayload := canonicalPayload;
      signatures := [];
    }

    /** The id reads no signature, so signing cannot change it. */
    function ObjectId(sha256: ObjectIds.Hash): seq<Byte> {
      ObjectIds.ObjectId(sha256, objectType, schemaVersion, canonicalPayload)
    }

    method Validate() returns (v: Verdict)
      ensures v == Accepted <==> schemaVersion != 0 && AllValid(signatures)
      ensures schemaVersion == 0 <==> v == UnsupportedFormatVersion
    {
      if schemaVersion == 0 {
        return UnsupportedFormatVersion;
      }
      for i := 0 to |signatures|
        invariant forall k :: 0 <= k < i ==> ValidStructure(signatures[k])
      {
        if !ValidStructure(signatures[i]) {
          return InvalidSignature;
        }
      }
      v := Accepted;
    }

    /** `signature_issues`: each flag means what it says about the stored list, over all pairs. */
    method SignatureIssues() returns (r: Option<Issues>)
      ensures r.Some? <==> schemaVersion != 0 && AllValid(signatures)
      ensures r.Some? ==> (r.value.malformedShape <==> !AllShaped(signatures))
      ensures r.Some? ==> (r.value.duplicate <==> TwoAlike(signatures))
      ensures r.Some? ==> (r.value.noncanonicalOrder <==> AdjacentDescending(signatures))
    {
      hide Cmp;
      var v := Validate();
      if v != Accepted {
        return None;
      }
      var malformedShape := exists i :: 0 <= i < |signatures| && !ValidShape(signatures[i]);
      var byTuple := SortByTuple(signatures);
      SortedAdjacentDuplicates(signatures, byTuple);
      var duplicate := AdjacentEqual(byTuple);
      var noncanonicalOrder := false;
      for i := 0 to |signatures| - if signatures == [] then 0 else 1
        invariant noncanonicalOrder <==>
                  exists k :: 0 <= k < i && Cmp(signatures[k], signatures[k + 1]) == Greater
      {
        if Cmp(signatures[i], signatures[i + 1]) == Greater {
          noncanonicalOrder := true;
        }
      }
      r := Some(Issues(malformedShape, duplicate, noncanonicalOrder));
    }

    /** `validate_strict` accepts exactly the strict envelopes. */
    method ValidateStrict() returns (v: Verdict)
      ensures v == Accepted <==> StrictEnvelope(schemaVersion, signatures)
    {
      AscendingByAdjacent(signatures);
      var issues := SignatureIssues();
      if issues.None? {
        return if schemaVersion == 0 then UnsupportedFormatVersion else InvalidSignature;
      }
      if issues.value.malformedShape || issues.value.duplicate || issues.value.noncanonicalOrder {
        return InvalidSignature;
      }
      v := Accepted;
    }

    /** `add_signature`: the sorted insertion, or a refusal that changes nothing. */
    method AddSignature(x: Signature) returns (ok: bool)
      modifies this
      ensures Add(schemaVersion, old(signatures), x).Some? <==> ok
      ensures ok ==> Some(signatures) == Add(schemaVersion, old(signatures), x)
      ensures ok ==> StrictEnvelope(schemaVersion, signatures)
      ensures !ok ==> signatures == old(signatures)
    {
      var v := ValidateStrict();
      if v != Accepted {
        return false;
      }
      if !ValidStructure(x) || !ValidShape(x) {
        return false;
      }
      var found := BinarySearch(signatures, x);
      match found {
        case Found(index) =>
          ok := false;
        case InsertAt(index) =>
          assert Add(schemaVersion, signatures, x) == Some(Insert(signatures, x));
          AddedIsStrict(schemaVersion, signatures, x);
          InsertionPoint(signatures, x, index);
          signatures := signatures[..index] + [x] + signatures[index..];
          ok := true;
      }
    }
  }

  // ----- the effect of a run of additions -----

  /** The list after adding `x`, or nothing when the addition is refused. */
  ghost function Add(schemaVersion: nat, s: seq<Signature>, x: Signature): Option<seq<Signature>> {
    if StrictEnvelope(schemaVersion, s) && ValidStructure(x) && ValidShape(x)
       && (forall i :: 0 <= i < |s| ==> Cmp(s[i], x) != Equal)
    then Some(Insert(s, x)) else None
  }

  ghost function AddAll(schemaVersion: nat, s: seq<Signature>, xs: seq<Signature>): Option<seq<Signature>>
    decreases |xs|
  {
    if xs == [] then Some(s)
    else match Add(schemaVersion, s, xs[0])
      case None => None
      case Some(s') => AddAll(schemaVersion, s', xs[1..])
  }

  /** Where a signature that is not in a strictly ascending list belongs. */
  lemma SplitPoint(s: seq<Signature>, x: Signature) returns (k: nat)
    requires StrictlyAscending(s) && forall i :: 0 <= i < |s| ==> Cmp(s[i], x) != Equal
    ensures k <= |s|
    ensures forall i :: 0 <= i < k ==> Cmp(s[i], x) == Less
    ensures forall i :: k <= i < |s| ==> Cmp(s[i], x) == Greater
  {
    k := 0;
    while k < |s| && Cmp(s[k], x) == Less
      invariant k <= |s|
      invariant forall i :: 0 <= i < k ==> Cmp(s[i], x) == Less
    {
      k := k + 1;
    }
    forall i | k <= i < |s| ensures Cmp(s[i], x) == Greater {
      if k < i { GreaterUpwards(s[k], s[i], x); }
    }
  }

  lemma AddedIsStrict(schemaVersion: nat, s: seq<Signature>, x: Signature)
    requires Add(schemaVersion, s, x).Some?
    ensures StrictEnvelope(schemaVersion, Insert(s, x))
  {
    var k := SplitPoint(s, x);
    InsertionPoint(s, x, k);
    InsertedValid(s, x);
  }

  lemma InsertedValid(s: seq<Signature>, x: Signature)
    requires AllValid(s) && AllShaped(s) && ValidStructure(x) && ValidShape(x)
    ensures AllValid(Insert(s, x)) && AllShaped(Insert(s, x))
  {
    var r := Insert(s, x);
    forall i | 0 <= i < |r| ensures ValidStructure(r[i]) && ValidShape(r[i]) {
      assert r[i] in multiset(r);
      assert r[i] == x || r[i] in multiset(s);
    }
  }

  /** A run of additions succeeds exactly when everything is well shaped and no tuple occurs twice. */
  lemma {:induction false} AddAllExactly(schemaVersion: nat, s: seq<Signature>, xs: seq<Signature>)
    requires StrictEnvelope(schemaVersion, s)
    ensures AddAll(schemaVersion, s, xs).Some? <==> AllValid(xs) && AllShaped(xs) && !TwoAlike(s + xs)
    ensures AddAll(schemaVersion, s, xs).Some? ==>
              var r := AddAll(schemaVersion, s, xs).value;
              StrictEnvelope(schemaVersion, r) && multiset(r) == multiset(s) + multiset(xs)
    decreases |xs|
  {
    if xs == [] {
      assert s + xs == s;
    } else {
      var x, rest := xs[0], xs[1..];
      assert xs == [x] + rest;
      var added := Add(schemaVersion, s, x);
      if added.None? {
        if ValidStructure(x) && ValidShape(x) {
          var i :| 0 <= i < |s| && Cmp(s[i], x) == Equal;
          assert (s + xs)[i] == s[i] && (s + xs)[|s|] == x;
        }
      } else {
        AddedIsStrict(schemaVersion, s, x);
        AddAllExactly(schemaVersion, added.value, rest);
        assert multiset(added.value + rest) == multiset(s + xs);
        SameContentsSameAlike(added.value + rest, s + xs);
        assert AllValid(xs) <==> AllValid(rest) by { HeadAndRest(xs); }
        assert AllShaped(xs) <==> AllShaped(rest) by { HeadAndRest(xs); }
      }
    }
  }

  lemma HeadAndRest(xs: seq<Signature>)
    requires xs != []
    ensures AllValid(xs) <==> ValidStructure(xs[0]) && AllValid(xs[1..])
    ensures AllShaped(xs) <==> ValidShape(xs[0]) && AllShaped(xs[1..])
  {
    assert forall i :: 1 <= i < |xs| ==> xs[i] == xs[1..][i - 1];
    assert forall i :: 0 <= i < |xs[1..]| ==> xs[1..][i] == xs[i + 1];
  }

  lemma SameContentsSameAlike(s: seq<Signature>, t: seq<Signature>)
    requires multiset(s) == multiset(t)
    ensures TwoAlike(s) <==> TwoAlike(t)
  {
    if TwoAlike(s) { AlikeInContents(s); AlikeByContents(t); }
    if TwoAlike(t) { AlikeInContents(t); AlikeByContents(s); }
  }

  /** Arrival order does not matter: any two orders of the same signatures end the same way. */
  lemma AddAllConfluent(schemaVersion: nat, xs: seq<Signature>, ys: seq<Signature>)
    requires schemaVersion != 0 && multiset(xs) == multiset(ys)
    ensures AddAll(schemaVersion, [], xs) == AddAll(schemaVersion, [], ys)
  {
    AddAllExactly(schemaVersion, [], xs);
    AddAllExactly(schemaVersion, [], ys);
    assert [] + xs == xs && [] + ys == ys;
    SameContentsSameAlike(xs, ys);
    SameContentsSameShape(xs, ys);
    SameContentsSameShape(ys, xs);
    var a, b := AddAll(schemaVersion, [], xs), AddAll(schemaVersion, [], ys);
    if a.Some? && b.Some? {
      AscendingUnique(a.value, b.value);
    }
  }

  lemma SameContentsSameShape(xs: seq<Signature>, ys: seq<Signature>)
    requires multiset(xs) == multiset(ys)
    ensures AllValid(xs) ==> AllValid(ys)
    ensures AllShaped(xs) ==> AllShaped(ys)
  {
    forall i | 0 <= i < |ys|
      ensures AllValid(xs) ==> ValidStructure(ys[i])
      ensures AllShaped(xs) ==> ValidShape(ys[i])
    {
      assert ys[i] in multiset(xs);
      var j :| 0 <= j < |xs| && xs[j] == ys[i];
    }
  }

  /**
   Two signatures that differ only in their timestamp are duplicates, so a caller that carries on
   after a refusal keeps whichever arrived first: exactly then does arrival order show.
   */
  lemma FirstTimestampWins(schemaVersion: nat, a: Signature, b: Signature)
    requires schemaVersion != 0 && ValidStructure(a) && ValidShape(a) && ValidStructure(b) && ValidShape(b)
    ensures Add(schemaVersion, [], a) == Some([a])
    ensures SameTuple(a, b) <==> Add(schemaVersion, [a], b) == None
  {
    CmpLaws(a, b);
    assert [a][0] == a;
  }

  // ----- canonical bytes of a whole envelope -----

  function SignatureFields(s: Signature): seq<Field> {
    [Field(1, U32Value(AlgorithmCode(s.algorithm))), Field(2, Text(s.keyId)), Field(3, Blob(s.signatureBytes)),
     Field(4, U64Value(s.createdAt)), Field(5, U32Value(RoleCode(s.role)))]
  }

  function EnvelopeFields(t: ObjectIds.ObjectType, schemaVersion: nat, payload: seq<Byte>,
                          s: seq<Signature>): seq<Field> {
    [Field(1, U32Value(ObjectIds.Code(t))), Field(2, U32Value(schemaVersion)), Field(3, Blob(payload))]
    + SignatureRecords(s)
  }

  function SignatureRecords(s: seq<Signature>): (fs: seq<Field>)
    ensures |fs| == |s|
  {
    seq(|s|, i requires 0 <= i < |s| => Field(4, Record(SignatureFields(s[i]))))
  }

  /** The bytes of one signature record. */
  function SignatureBytes(s: Signature): seq<Byte> {
    [0, 1, 0x03, 0, 0, 0, 0, 0, 0, 0, 4, 0, 0, 0, 1]
    + ([0, 2, 0x10] + ToBE(|s.keyId|, 8) + s.keyId)
    + ([0, 3, 0x11] + ToBE(|s.signatureBytes|, 8) + s.signatureBytes)
    + ([0, 4, 0x04, 0, 0, 0, 0, 0, 0, 0, 8] + ToBE(s.createdAt, 8))
    + [0, 5, 0x03, 0, 0, 0, 0, 0, 0, 0, 4, 0, 0, 0,
       match s.role case Author => 1 case Maintainer => 2 case Ci => 3 case Audit => 4]
  }

  function SignatureListBytes(s: seq<Signature>): seq<Byte> {
    if s == [] then []
    else
      var last := SignatureBytes(s[|s| - 1]);
      SignatureListBytes(s[..|s| - 1]) + ([0, 4, 0x20] + ToBE(|last|, 8) + last)
  }

  function HeadBytes(t: ObjectIds.ObjectType, schemaVersion: nat, payload: seq<Byte>): seq<Byte> {
    [0, 1, 0x03, 0, 0, 0, 0, 0, 0, 0, 4, 0, 0, 0, ObjectIds.Code(t)]
    + ([0, 2, 0x03, 0, 0, 0, 0, 0, 0, 0, 4] + ToBE(schemaVersion, 4))
    + ([0, 3, 0x11] + ToBE(|payload|, 8) + payload)
  }

  /** Every byte of an envelope: type, schema version, payload, then one record for each signature. */
  lemma EnvelopeLayout(t: ObjectIds.ObjectType, schemaVersion: nat, payload: seq<Byte>, s: seq<Signature>)
    ensures Encode(EnvelopeFields(t, schemaVersion, payload, s))
         == HeadBytes(t, schemaVersion, payload) + SignatureListBytes(s)
  {
    hide Encode, HeadBytes, SignatureListBytes;
    EncodeAppend([Field(1, U32Value(ObjectIds.Code(t))), Field(2, U32Value(schemaVersion)), Field(3, Blob(payload))],
                 SignatureRecords(s));
    HeadLayout(t, schemaVersion, payload);
    SignatureListLayout(s);
  }

  lemma HeadLayout(t: ObjectIds.ObjectType, schemaVersion: nat, payload: seq<Byte>)
    ensures Encode([Field(1, U32Value(ObjectIds.Code(t))), Field(2, U32Value(schemaVersion)), Field(3, Blob(payload))])
         == HeadBytes(t, schemaVersion, payload)
  {
    hide Encode, EncodeRaw, ToRaw, ToBE;
    var code := ObjectIds.Code(t);
    var a, b, c := Field(1, U32Value(code)), Field(2, U32Value(schemaVersion)), Field(3, Blob(payload));
    EncodeOne(a);
    EncodeExtend([a], b);
    EncodeExtend([a, b], c);
    assert [a] + [b] == [a, b] && [a, b] + [c] == [a, b, c];
    SmallBytes(code);
    SmallField(a, [0, 0, 0, code]);
    SmallField(b, ToBE(schemaVersion, 4));
    LowTag(c, payload);
  }

  lemma SignatureLayout(s: Signature)
    ensures Encode(SignatureFields(s)) == SignatureBytes(s)
  {
    hide Encode, EncodeRaw, ToRaw, ToBE;
    var f := SignatureFields(s);
    assert f == [f[0], f[1], f[2], f[3], f[4]];
    EncodeFive(f[0], f[1], f[2], f[3], f[4]);
    SmallBytes(AlgorithmCode(s.algorithm));
    SmallField(f[0], [0, 0, 0, 1]);
    LowTag(f[1], s.keyId);
    LowTag(f[2], s.signatureBytes);
    SmallField(f[3], ToBE(s.createdAt, 8));
    SmallBytes(RoleCode(s.role));
    SmallField(f[4], [0, 0, 0, RoleCode(s.role)]);
  }

  lemma {:induction false} SignatureListLayout(s: seq<Signature>)
    ensures Encode(SignatureRecords(s)) == SignatureListBytes(s)
  {
    hide SignatureBytes, SignatureFields, EncodeRaw, ToRaw;
    if s != [] {
      var front, last := s[..|s| - 1], s[|s| - 1];
      SignatureListLayout(front);
      assert SignatureRecords(s) == SignatureRecords(front) + [Field(4, Record(SignatureFields(last)))];
      EncodeExtend(SignatureRecords(front), Field(4, Record(SignatureFields(last))));
      SignatureLayout(last);
      LowTag(Field(4, Record(SignatureFields(last))), SignatureBytes(last));
    }
  }

  lemma SignatureFieldsInjective(a: Signature, b: Signature)
    requires SignatureFields(a) == SignatureFields(b)
    ensures a == b
  {
    assert forall i :: 0 <= i < 5 ==> SignatureFields(a)[i] == SignatureFields(b)[i];
    assert SignatureFields(a)[1].value == Text(a.keyId) && SignatureFields(a)[2].value == Blob(a.signatureBytes);
    assert SignatureFields(a)[3].value == U64Value(a.createdAt);
    assert SignatureFields(a)[4].value == U32Value(RoleCode(a.role));
    assert SignatureFields(b)[1].value == Text(b.keyId) && SignatureFields(b)[2].value == Blob(b.signatureBytes);
    assert SignatureFields(b)[3].value == U64Value(b.createdAt);
    assert SignatureFields(b)[4].value == U32Value(RoleCode(b.role));
  }

  /** Envelope bytes determine type, schema version, payload and every signature, timestamps included. */
  lemma EnvelopeBytesInjective(t: ObjectIds.ObjectType, v: nat, p: seq<Byte>, s: seq<Signature>,
                               t': ObjectIds.ObjectType, v': nat, p': seq<Byte>, s': seq<Signature>)
    requires WellFormed(EnvelopeFields(t, v, p, s), 0) && WellFormed(EnvelopeFields(t', v', p', s'), 0)
    requires Encode(EnvelopeFields(t, v, p, s)) == Encode(EnvelopeFields(t', v', p', s'))
    ensures t == t' && v == v' && p == p' && s == s'
  {
    EncodeInjective(EnvelopeFields(t, v, p, s), EnvelopeFields(t', v', p', s'));
    var a, b := EnvelopeFields(t, v, p, s), EnvelopeFields(t', v', p', s');
    assert a[0] == b[0] && a[1] == b[1] && a[2] == b[2];
    assert ObjectIds.FromCode(ObjectIds.Code(t)) == Some(t);
    assert ObjectIds.FromCode(ObjectIds.Code(t')) == Some(t');
    assert |s| == |s'|;
    forall i | 0 <= i < |s| ensures s[i] == s'[i] {
      assert a[3 + i] == Field(4, Record(SignatureFields(s[i])));
      assert b[3 + i] == Field(4, Record(SignatureFields(s'[i])));
      SignatureFieldsInjective(s[i], s'[i]);
    }
  }
}
