/**
 Byte strings, fixed-width big-endian integers and UTF-8 well-formedness: the vocabulary that every
 identity-bearing format in the repository is written in.
 */
module Bytes {

  type Byte = x: int | 0 <= x < 256

  const U64_MAX := 0xffff_ffff_ffff_ffff

  datatype Option<+T> = None | Some(value: T)

  function Pow256(k: nat): (p: nat)
    ensures p >= 1
  {
    if k == 0 then 1 else 256 * Pow256(k - 1)
  }

  /** The low `k` bytes of `n`, most significant first (`to_be_bytes`, and the truncation of an `as` cast). */
  function ToBE(n: nat, k: nat): (s: seq<Byte>)
    ensures |s| == k
  {
    if k == 0 then [] else ToBE(n / 256, k - 1) + [n % 256]
  }

  function FromBE(s: seq<Byte>): (n: nat)
    ensures n < Pow256(|s|)
  {
    if s == [] then 0 else 256 * FromBE(s[..|s| - 1]) + s[|s| - 1]
  }

  lemma {:induction false} FromToBE(n: nat, k: nat)
    requires n < Pow256(k)
    ensures FromBE(ToBE(n, k)) == n
  {
    if k > 0 {
      FromToBE(n / 256, k - 1);
      assert ToBE(n, k)[..k - 1] == ToBE(n / 256, k - 1);
    }
  }

  lemma {:induction false} ToFromBE(s: seq<Byte>)
    ensures ToBE(FromBE(s), |s|) == s
  {
    if s != [] {
      var front, last := s[..|s| - 1], s[|s| - 1];
      ToFromBE(front);
      LastDigit(FromBE(front), last);
      assert s == front + [last];
    }
  }

  lemma LastDigit(n: nat, b: Byte)
    ensures (256 * n + b) / 256 == n && (256 * n + b) % 256 == b
  {
  }

  /** Every byte by its place: the first is the most significant. */
  lemma {:induction false} ToBEAt(n: nat, k: nat, i: nat)
    requires i < k
    ensures ToBE(n, k)[i] == (n / Pow256(k - 1 - i)) % 256
  {
    if i < k - 1 {
      ToBEAt(n / 256, k - 1, i);
      var p := Pow256(k - 2 - i);
      DivideTwice(n, p);
      assert Pow256(k - 1 - i) == 256 * p;
    } else {
      assert Pow256(0) == 1 && n / 1 == n;
    }
  }

  lemma DivideTwice(n: nat, p: nat)
    requires p >= 1
    ensures n / 256 / p == n / (256 * p)
  {
    var q, r := n / (256 * p), n % (256 * p);
    assert n == 256 * p * q + r;
    var s, t := r / 256, r % 256;
    assert n == 256 * (p * q + s) + t by {
      assert 256 * p * q == 256 * (p * q);
    }
    assert n / 256 == p * q + s;
    assert s < p;
    QuotientOf(p * q + s, p, q, s);
  }

  lemma QuotientOf(m: nat, p: nat, q: nat, s: nat)
    requires m == p * q + s && s < p
    ensures m / p == q
  {
    assert m == p * (m / p) + m % p;
    if m / p > q {
      TimesMore(p, q, m / p);
    } else if m / p < q {
      TimesMore(p, m / p, q);
    }
  }

  lemma {:induction false} TimesMore(p: nat, a: nat, b: nat)
    requires a < b
    ensures p * a + p <= p * b
  {
    assert p * b == p * (b - 1) + p;
    if a < b - 1 {
      TimesMore(p, a, b - 1);
    }
  }

  /** The bytes of a short number, written out. */
  lemma ShortBytes(n: nat)
    requires n < Pow256(2)
    ensures ToBE(n, 2) == [n / 256, n % 256]
  {
    ToBEAt(n, 2, 0);
    ToBEAt(n, 2, 1);
  }

  /** The bytes of a number below 256, written out. */
  lemma {:induction false} SmallBytes(n: Byte)
    ensures ToBE(n, 2) == [0, n]
    ensures ToBE(n, 4) == [0, 0, 0, n]
    ensures ToBE(n, 8) == [0, 0, 0, 0, 0, 0, 0, n]
  {
    Zeros();
    assert n / 256 == 0 && n % 256 == n;
  }

  lemma Zeros()
    ensures ToBE(0, 1) == [0] && ToBE(0, 3) == [0, 0, 0] && ToBE(0, 7) == [0, 0, 0, 0, 0, 0, 0]
  {
    assert ToBE(0, 2) == [0, 0];
    assert ToBE(0, 4) == [0, 0, 0, 0];
    assert ToBE(0, 5) == [0, 0, 0, 0, 0];
    assert ToBE(0, 6) == [0, 0, 0, 0, 0, 0];
  }

  lemma Widths()
    ensures Pow256(2) == 0x1_0000
    ensures Pow256(4) == 0x1_0000_0000
    ensures Pow256(8) == 0x1_0000_0000_0000_0000
  {
    assert Pow256(1) == 256;
    assert Pow256(2) == 0x1_0000;
    assert Pow256(3) == 0x100_0000;
    assert Pow256(4) == 0x1_0000_0000;
    assert Pow256(5) == 0x100_0000_0000;
    assert Pow256(6) == 0x1_0000_0000_0000;
    assert Pow256(7) == 0x100_0000_0000_0000;
  }

  /** Equality of concatenations whose first parts have the same length. */
  lemma SplitEqual<T>(a: seq<T>, b: seq<T>, c: seq<T>, d: seq<T>)
    requires |a| == |c|
    requires a + b == c + d
    ensures a == c && b == d
  {
    assert a == (a + b)[..|a|] && c == (c + d)[..|c|];
    assert b == (a + b)[|a|..] && d == (c + d)[|c|..];
  }

  predicate Continuation(b: Byte) {
    0x80 <= b <= 0xBF
  }

  /** How many bytes the well-formed UTF-8 sequence at the start of `s` takes; 0 when there is none. */
  function Utf8Head(s: seq<Byte>): (n: nat)
    ensures n <= |s|
  {
    if |s| >= 1 && s[0] <= 0x7F then 1
    else if |s| >= 2 && 0xC2 <= s[0] <= 0xDF && Continuation(s[1]) then 2
    else if |s| >= 3 && 0xE0 <= s[0] <= 0xEF && Continuation(s[1]) && Continuation(s[2])
            && (s[0] == 0xE0 ==> s[1] >= 0xA0) && (s[0] == 0xED ==> s[1] <= 0x9F) then 3
    else if |s| >= 4 && 0xF0 <= s[0] <= 0xF4 && Continuation(s[1]) && Continuation(s[2]) && Continuation(s[3])
            && (s[0] == 0xF0 ==> s[1] >= 0x90) && (s[0] == 0xF4 ==> s[1] <= 0x8F) then 4
    else 0
  }

  /** Whether `s` is well-formed UTF-8 (Unicode standard, table 3-7): what `String::from_utf8` accepts. */
  predicate ValidUtf8(s: seq<Byte>)
    decreases |s|
  {
    s == [] || (Utf8Head(s) > 0 && ValidUtf8(s[Utf8Head(s)..]))
  }
}
