/**
 Signatures and the canonical order an envelope keeps them in. The order compares the tuple
 (key id, role, algorithm, signature bytes); the advisory timestamp is not part of it.
 */
module Signatures {
  import opened Bytes
  import opened Order

  const KEY_ID_MAX_LEN: nat := 128
  const ED25519_SIGNATURE_LEN: nat := 64

  datatype SignatureAlgorithm = Ed25519

  datatype SignerRole = Author | Maintainer | Ci | Audit

  function AlgorithmCode(a: SignatureAlgorithm): nat {
    match a case Ed25519 => 1
  }

  function RoleCode(r: SignerRole): nat {
    match r case Author => 1 case Maintainer => 2 case Ci => 3 case Audit => 4
  }

  datatype Signature = Signature(
    algorithm: SignatureAlgorithm,
    keyId: seq<Byte>,
    signatureBytes: seq<Byte>,
    createdAt: nat,
    role: SignerRole)

  predicate KeyIdByte(b: Byte) {
    48 <= b <= 57 || 65 <= b <= 90 || 97 <= b <= 122 || b == 45 || b == 95
  }

  predicate ValidKeyId(keyId: seq<Byte>) {
    keyId != [] && |keyId| <= KEY_ID_MAX_LEN && forall i :: 0 <= i < |keyId| ==> KeyIdByte(keyId[i])
  }

  lemma KeyIdAlphabet(c: char)
    requires c as int < 256
    ensures KeyIdByte(c as int) <==>
              '0' <= c <= '9' || 'A' <= c <= 'Z' || 'a' <= c <= 'z' || c == '-' || c == '_'
  {
  }

  predicate ValidStructure(s: Signature) {
    ValidKeyId(s.keyId) && s.signatureBytes != []
  }

  predicate ValidShape(s: Signature) {
    |s.signatureBytes| == ED25519_SIGNATURE_LEN
  }

  /** `canonical_cmp` */
  function Cmp(a: Signature, b: Signature): Ordering {
    Then(BytesCmp(a.keyId, b.keyId),
         Then(NatCmp(RoleCode(a.role), RoleCode(b.role)),
              Then(NatCmp(AlgorithmCode(a.algorithm), AlgorithmCode(b.algorithm)),
                   BytesCmp(a.signatureBytes, b.signatureBytes))))
  }

  /** The tuple that decides whether two signatures are duplicates of each other. */
  predicate SameTuple(a: Signature, b: Signature) {
    a.keyId == b.keyId && a.role == b.role && a.algorithm == b.algorithm && a.signatureBytes == b.signatureBytes
  }

  lemma CmpLaws(a: Signature, b: Signature)
    ensures Cmp(a, b) == Equal <==> SameTuple(a, b)
    ensures Cmp(b, a) == Reverse(Cmp(a, b))
  {
    BytesCmpLaws(a.keyId, b.keyId);
    BytesCmpLaws(a.signatureBytes, b.signatureBytes);
  }

  /** The key id decides, then the role, then the signature itself. */
  lemma CmpExactly(a: Signature, b: Signature)
    ensures Cmp(a, b) == Less <==>
              || Before(a.keyId, b.keyId)
              || (a.keyId == b.keyId && RoleCode(a.role) < RoleCode(b.role))
              || (a.keyId == b.keyId && a.role == b.role && Before(a.signatureBytes, b.signatureBytes))
  {
    BytesCmpLaws(a.keyId, b.keyId);
    BytesCmpExactly(a.keyId, b.keyId);
    BytesCmpExactly(a.signatureBytes, b.signatureBytes);
  }

  lemma CmpTransitive(a: Signature, b: Signature, c: Signature)
    requires Cmp(a, b) != Greater && Cmp(b, c) != Greater
    ensures Cmp(a, c) != Greater
    ensures Cmp(a, b) == Less || Cmp(b, c) == Less ==> Cmp(a, c) == Less
  {
    CmpLaws(a, b);
    CmpLaws(b, c);
    BytesCmpLaws(a.keyId, b.keyId);
    BytesCmpLaws(b.keyId, c.keyId);
    BytesCmpTransitive(a.keyId, b.keyId, c.keyId);
    if a.keyId == b.keyId == c.keyId && a.role == b.role == c.role {
      BytesCmpTransitive(a.signatureBytes, b.signatureBytes, c.signatureBytes);
    }
  }

  // ----- sorted lists of signatures -----

  /** Ascending over all pairs: no duplicates, and only one order is possible. */
  ghost predicate StrictlyAscending(s: seq<Signature>) {
    forall i, j :: 0 <= i < j < |s| ==> Cmp(s[i], s[j]) == Less
  }

  ghost predicate Sorted(s: seq<Signature>) {
    forall i, j :: 0 <= i < j < |s| ==> Cmp(s[i], s[j]) != Greater
  }

  ghost predicate TwoAlike(s: seq<Signature>) {
    exists i, j :: 0 <= i < j < |s| && Cmp(s[i], s[j]) == Equal
  }

  predicate AdjacentEqual(s: seq<Signature>) {
    exists i :: 0 <= i < |s| - 1 && Cmp(s[i], s[i + 1]) == Equal
  }

  predicate AdjacentDescending(s: seq<Signature>) {
    exists i :: 0 <= i < |s| - 1 && Cmp(s[i], s[i + 1]) == Greater
  }

  /** Two alike positions, as a fact about contents only. */
  ghost predicate AlikeIn(m: multiset<Signature>) {
    exists x, y :: x in m && y in m && Cmp(x, y) == Equal && (x == y ==> m[x] >= 2)
  }

  lemma {:induction false} TwicePresent(s: seq<Signature>, x: Signature)
    requires multiset(s)[x] >= 2
    ensures exists i, j :: 0 <= i < j < |s| && s[i] == x && s[j] == x
  {
    assert s == [s[0]] + s[1..];
    if s[0] == x {
      assert x in multiset(s[1..]);
      var j :| 0 <= j < |s[1..]| && s[1..][j] == x;
      assert s[0] == x && s[j + 1] == x;
    } else {
      TwicePresent(s[1..], x);
      var i, j :| 0 <= i < j < |s[1..]| && s[1..][i] == x && s[1..][j] == x;
      assert s[i + 1] == x && s[j + 1] == x;
    }
  }

  lemma TwoPositionsCount(s: seq<Signature>, i: nat, j: nat)
    requires i < j < |s| && s[i] == s[j]
    ensures multiset(s)[s[i]] >= 2
  {
    assert s == s[..j] + s[j..];
    assert s[i] == s[..j][i] && s[i] in multiset(s[..j]);
    assert s[j] == s[j..][0] && s[j] in multiset(s[j..]);
  }

  lemma AlikeInContents(s: seq<Signature>)
    requires TwoAlike(s)
    ensures AlikeIn(multiset(s))
  {
    var i, j :| 0 <= i < j < |s| && Cmp(s[i], s[j]) == Equal;
    if s[i] == s[j] {
      TwoPositionsCount(s, i, j);
    }
    assert s[i] in multiset(s) && s[j] in multiset(s);
  }

  lemma AlikeByContents(s: seq<Signature>)
    requires AlikeIn(multiset(s))
    ensures TwoAlike(s)
  {
    var x, y :| x in multiset(s) && y in multiset(s) && Cmp(x, y) == Equal && (x == y ==> multiset(s)[x] >= 2);
    CmpLaws(x, y);
    if x == y {
      TwicePresent(s, x);
    } else {
      var i, j :| 0 <= i < |s| && 0 <= j < |s| && s[i] == x && s[j] == y;
      if j < i {
        assert Cmp(s[j], s[i]) == Equal;
      }
    }
  }

  /**
   The duplicate test of `signature_issues`: after sorting, some adjacent pair is equal exactly when
   two positions of the original list compare equal -- whichever sorted order was produced.
   */
  lemma SortedAdjacentDuplicates(s: seq<Signature>, t: seq<Signature>)
    requires Sorted(t) && multiset(t) == multiset(s)
    ensures AdjacentEqual(t) <==> TwoAlike(s)
  {
    if AdjacentEqual(t) {
      AlikeInContents(t);
      AlikeByContents(s);
    }
    if TwoAlike(s) {
      AlikeInContents(s);
      AlikeByContents(t);
      var i, j :| 0 <= i < j < |t| && Cmp(t[i], t[j]) == Equal;
      CmpLaws(t[i], t[i + 1]);
      if i + 1 < j {
        CmpTransitive(t[i], t[i + 1], t[j]);
      }
      assert Cmp(t[i], t[i + 1]) == Equal;
    }
  }

  /** No adjacent descent and no duplicate anywhere leaves exactly the strictly ascending lists. */
  lemma AscendingByAdjacent(s: seq<Signature>)
    ensures StrictlyAscending(s) <==> !TwoAlike(s) && !AdjacentDescending(s)
  {
    if !TwoAlike(s) && !AdjacentDescending(s) {
      forall i, j | 0 <= i < j < |s| ensures Cmp(s[i], s[j]) == Less {
        AscendingReaches(s, i, j);
      }
    }
  }

  lemma {:induction false} AscendingReaches(s: seq<Signature>, i: nat, j: nat)
    requires i < j < |s| && !TwoAlike(s) && !AdjacentDescending(s)
    ensures Cmp(s[i], s[j]) == Less
    decreases j
  {
    assert Cmp(s[j - 1], s[j - 1 + 1]) == Less;
    if i + 1 < j {
      AscendingReaches(s, i, j - 1);
      CmpTransitive(s[i], s[j - 1], s[j]);
    }
  }

  /** Strictly ascending lists with the same contents are the same list. */
  lemma {:induction false} AscendingUnique(s: seq<Signature>, t: seq<Signature>)
    requires StrictlyAscending(s) && StrictlyAscending(t) && multiset(s) == multiset(t)
    ensures s == t
  {
    if s != [] {
      assert s[0] in multiset(s) && s[0] in multiset(t);
      SameHead(s, t);
      assert s == [s[0]] + s[1..] && t == [t[0]] + t[1..];
      assert multiset(s[1..]) == multiset(s) - multiset{s[0]};
      assert multiset(t[1..]) == multiset(t) - multiset{t[0]};
      AscendingUnique(s[1..], t[1..]);
    }
  }

  lemma SameHead(s: seq<Signature>, t: seq<Signature>)
    requires StrictlyAscending(s) && StrictlyAscending(t) && multiset(s) == multiset(t)
    requires s != [] && t != []
    ensures s[0] == t[0]
  {
    assert s[0] in multiset(t) && t[0] in multiset(s);
    var j :| 0 <= j < |t| && t[j] == s[0];
    var i :| 0 <= i < |s| && s[i] == t[0];
    CmpLaws(s[0], t[0]);
  }

  // ----- sorting and insertion -----

  function Insert(s: seq<Signature>, x: Signature): (r: seq<Signature>)
    ensures multiset(r) == multiset(s) + multiset{x}
  {
    if s == [] then [x]
    else if Cmp(s[0], x) == Less then
      assert s == [s[0]] + s[1..];
      [s[0]] + Insert(s[1..], x)
    else [x] + s
  }

  lemma {:induction false} InsertKeepsSorted(s: seq<Signature>, x: Signature)
    requires Sorted(s)
    ensures Sorted(Insert(s, x))
  {
    if s != [] {
      var r := Insert(s, x);
      if Cmp(s[0], x) == Less {
        InsertKeepsSorted(s[1..], x);
        forall j | 0 < j < |r| ensures Cmp(r[0], r[j]) != Greater {
          assert r[j] in multiset(Insert(s[1..], x));
          assert r[j] == x || r[j] in multiset(s[1..]);
        }
      } else {
        CmpLaws(s[0], x);
        forall j | 0 < j < |r| ensures Cmp(r[0], r[j]) != Greater {
          if j > 1 { CmpTransitive(x, s[0], s[j - 1]); }
        }
      }
    }
  }

  /** A sorted copy: what `sort_unstable_by` leaves, up to the order of equal tuples. */
  function SortByTuple(s: seq<Signature>): (r: seq<Signature>)
    ensures multiset(r) == multiset(s)
    ensures Sorted(r)
  {
    if s == [] then []
    else
      var rest := SortByTuple(s[1..]);
      assert s == [s[0]] + s[1..];
      InsertKeepsSorted(rest, s[0]);
      Insert(rest, s[0])
  }

  datatype SearchResult = Found(index: nat) | InsertAt(index: nat)

  /** `binary_search_by` with the canonical order, over a strictly ascending list. */
  method BinarySearch(s: seq<Signature>, x: Signature) returns (r: SearchResult)
    requires StrictlyAscending(s)
    ensures r.Found? ==> r.index < |s| && Cmp(s[r.index], x) == Equal
    ensures r.InsertAt? ==> r.index <= |s|
    ensures r.InsertAt? ==> forall i :: 0 <= i < r.index ==> Cmp(s[i], x) == Less
    ensures r.InsertAt? ==> forall i :: r.index <= i < |s| ==> Cmp(s[i], x) == Greater
  {
    var low, high := 0, |s|;
    while low < high
      invariant 0 <= low <= high <= |s|
      invariant forall i :: 0 <= i < low ==> Cmp(s[i], x) == Less
      invariant forall i :: high <= i < |s| ==> Cmp(s[i], x) == Greater
    {
      var mid := low + (high - low) / 2;
      match Cmp(s[mid], x) {
        case Equal =>
          return Found(mid);
        case Less =>
          forall i | low <= i <= mid ensures Cmp(s[i], x) == Less {
            if i < mid { CmpTransitive(s[i], s[mid], x); }
          }
          low := mid + 1;
        case Greater =>
          forall i | mid <= i < high ensures Cmp(s[i], x) == Greater {
            if mid < i { GreaterUpwards(s[mid], s[i], x); }
          }
          high := mid;
      }
    }
    r := InsertAt(low);
  }

  lemma GreaterUpwards(a: Signature, b: Signature, x: Signature)
    requires Cmp(a, b) == Less && Cmp(a, x) == Greater
    ensures Cmp(b, x) == Greater
  {
    CmpLaws(a, x);
    CmpLaws(b, x);
    CmpTransitive(x, a, b);
  }

  /** Inserting where the search says keeps the list strictly ascending, and is the sorted insertion. */
  lemma InsertionPoint(s: seq<Signature>, x: Signature, k: nat)
    requires StrictlyAscending(s) && k <= |s|
    requires forall i :: 0 <= i < k ==> Cmp(s[i], x) == Less
    requires forall i :: k <= i < |s| ==> Cmp(s[i], x) == Greater
    ensures Insert(s, x) == s[..k] + [x] + s[k..]
    ensures StrictlyAscending(Insert(s, x))
  {
    var r := s[..k] + [x] + s[k..];
    forall i, j | 0 <= i < j < |r| ensures Cmp(r[i], r[j]) == Less {
      if i == k { CmpLaws(s[j - 1], x); }
    }
    assert s == s[..k] + s[k..];
    assert multiset(r) == multiset(s) + multiset{x};
    SortedLikeAscending(Insert(s, x), r) by { InsertKeepsSorted(s, x); }
  }

  lemma SortedLikeAscending(s: seq<Signature>, t: seq<Signature>)
    requires Sorted(s) && StrictlyAscending(t) && multiset(s) == multiset(t)
    ensures s == t
  {
    if TwoAlike(s) {
      AlikeInContents(s);
      AlikeByContents(t);
    }
    AscendingUnique(s, t);
  }
}
