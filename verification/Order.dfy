/**
 The orders that canonical data is kept in: byte-wise lexicographic comparison, and what it means for
 a list to be strictly sorted.
 */
module Order {
  import opened Bytes

  datatype Ordering = Less | Equal | Greater

  function Reverse(o: Ordering): Ordering {
    match o case Less => Greater case Equal => Equal case Greater => Less
  }

  /** `cmp(..).then_with(..)` */
  function Then(first: Ordering, second: Ordering): Ordering {
    if first == Equal then second else first
  }

  function NatCmp(a: nat, b: nat): Ordering {
    if a < b then Less else if a == b then Equal else Greater
  }

  /** `<[u8] as Ord>::cmp` */
  function BytesCmp(a: seq<Byte>, b: seq<Byte>): Ordering {
    if a == [] && b == [] then Equal
    else if a == [] then Less
    else if b == [] then Greater
    else Then(NatCmp(a[0], b[0]), BytesCmp(a[1..], b[1..]))
  }

  lemma {:induction false} BytesCmpLaws(a: seq<Byte>, b: seq<Byte>)
    ensures BytesCmp(a, b) == Equal <==> a == b
    ensures BytesCmp(b, a) == Reverse(BytesCmp(a, b))
  {
    if a != [] && b != [] {
      BytesCmpLaws(a[1..], b[1..]);
      assert a == [a[0]] + a[1..] && b == [b[0]] + b[1..];
    }
  }

  lemma {:induction false} BytesCmpTransitive(a: seq<Byte>, b: seq<Byte>, c: seq<Byte>)
    requires BytesCmp(a, b) != Greater && BytesCmp(b, c) != Greater
    ensures BytesCmp(a, c) != Greater
    ensures BytesCmp(a, b) == Less || BytesCmp(b, c) == Less ==> BytesCmp(a, c) == Less
  {
    if a != [] && b != [] && c != [] && a[0] == b[0] == c[0] {
      BytesCmpTransitive(a[1..], b[1..], c[1..]);
    }
  }

  /** Lexicographic order, without recursion: a proper prefix, or smaller where the two first differ. */
  predicate Before(a: seq<Byte>, b: seq<Byte>) {
    a < b || exists k :: 0 <= k < |a| && SmallerAt(a, b, k)
  }

  predicate SmallerAt(a: seq<Byte>, b: seq<Byte>, k: nat)
    requires k < |a|
  {
    k < |b| && a[..k] == b[..k] && a[k] < b[k]
  }

  lemma {:induction false} BytesCmpExactly(a: seq<Byte>, b: seq<Byte>)
    ensures BytesCmp(a, b) == Less <==> Before(a, b)
  {
    if a != [] && b != [] {
      BytesCmpExactly(a[1..], b[1..]);
      if a[0] == b[0] {
        BeforeRest(a, b);
      } else if a[0] < b[0] {
        assert SmallerAt(a, b, 0);
      }
    }
  }

  lemma BeforeRest(a: seq<Byte>, b: seq<Byte>)
    requires a != [] && b != [] && a[0] == b[0]
    ensures Before(a, b) <==> Before(a[1..], b[1..])
  {
    hide SmallerAt;
    PrefixRest(a, b);
    if k :| 0 <= k < |a| && SmallerAt(a, b, k) {
      SmallerHere(a, b, k);
      SmallerRest(a, b, k - 1);
    }
    if k :| 0 <= k < |a[1..]| && SmallerAt(a[1..], b[1..], k) {
      SmallerRest(a, b, k);
    }
  }

  lemma SmallerHere(a: seq<Byte>, b: seq<Byte>, k: nat)
    requires k < |a|
    ensures SmallerAt(a, b, k) ==> k < |b| && a[k] < b[k]
  {
  }

  lemma PrefixRest(a: seq<Byte>, b: seq<Byte>)
    requires a != [] && b != [] && a[0] == b[0]
    ensures a < b <==> a[1..] < b[1..]
  {
    assert a == [a[0]] + a[1..] && b == [b[0]] + b[1..];
  }

  lemma SmallerRest(a: seq<Byte>, b: seq<Byte>, k: nat)
    requires a != [] && b != [] && a[0] == b[0] && k + 1 < |a|
    ensures SmallerAt(a, b, k + 1) <==> SmallerAt(a[1..], b[1..], k)
  {
    if k + 1 < |b| {
      assert a[..k + 1] == [a[0]] + a[1..][..k] && b[..k + 1] == [b[0]] + b[1..][..k];
      assert a[1..][..k] == a[..k + 1][1..] && b[1..][..k] == b[..k + 1][1..];
    }
  }

  /** `is_strictly_sorted`: every adjacent pair ascends. */
  predicate IsStrictlySorted(ids: seq<seq<Byte>>) {
    forall i :: 0 <= i < |ids| - 1 ==> BytesCmp(ids[i], ids[i + 1]) == Less
  }

  /** The adjacent test means what its name says: all pairs ascend, so nothing occurs twice. */
  lemma {:induction false} StrictlySortedAllPairs(ids: seq<seq<Byte>>, i: nat, j: nat)
    requires IsStrictlySorted(ids) && i < j < |ids|
    ensures BytesCmp(ids[i], ids[j]) == Less && ids[i] != ids[j]
    decreases j
  {
    BytesCmpLaws(ids[i], ids[j]);
    if j > i + 1 {
      StrictlySortedAllPairs(ids, i, j - 1);
      BytesCmpTransitive(ids[i], ids[j - 1], ids[j - 1 + 1]);
    }
  }
}
