/**
 Key files on disk: the key-id file written before the seed, reading both back, and what survives a
 crash of the process, a retry, or a power loss.

 Paths are plain strings; `pk` stands for the derivation of an Ed25519 public key from a seed.
 */
module KeyMaterial {
  import opened Bytes
  import Text
  import opened FileSystem
  import opened ObjectIds

  type Seed = seq<Byte>
  type Derive = Seed -> seq<Byte>

  datatype Role = Author | Maintainer

  /** The role words `author` and `maintainer`, in ASCII. */
  function LegacyId(role: Role): seq<Byte> {
    match role
    case Author => [97, 117, 116, 104, 111, 114]
    case Maintainer => [109, 97, 105, 110, 116, 97, 105, 110, 101, 114]
  }

  const NEWLINE: seq<Byte> := [10]
  const ID_PREFIX: seq<Byte> := [101, 100, 50, 53, 53, 49, 57, 45]

  /** `derived_key_id`: `ed25519-` and the first 16 hex digits of the public key. */
  function DerivedId(pk: Derive, seed: Seed): (id: seq<Byte>)
    ensures 8 <= |id| <= 24
  {
    var hex := Hex(pk(seed));
    ID_PREFIX + (if |hex| >= 16 then hex[..16] else hex)
  }

  function IdFile(pk: Derive, seed: Seed): seq<Byte> {
    DerivedId(pk, seed) + NEWLINE
  }

  function SeedFile(seed: Seed): seq<Byte> {
    Hex(seed) + NEWLINE
  }

  /** `key_id_path`; `keyDir` is the default key directory, when there is one. */
  function KeyIdPath(keyDir: Option<Name>, p: Name): Name {
    if keyDir.Some? && p == keyDir.value + "/author.seed" then keyDir.value + "/author.key-id"
    else if keyDir.Some? && p == keyDir.value + "/maintainer.seed" then keyDir.value + "/maintainer.key-id"
    else p + ".key-id"
  }

  lemma LastChars(a: string, b: string)
    requires |b| > 0
    ensures |a + b| == |a| + |b| && (a + b)[|a| + |b| - 1] == b[|b| - 1]
  {
  }

  /** A seed is never its own key-id file. */
  lemma KeyIdPathDiffers(keyDir: Option<Name>, p: Name)
    ensures KeyIdPath(keyDir, p) != p
  {
    LastChars(p, ".key-id");
    if keyDir.Some? {
      LastChars(keyDir.value, "/author.seed");
      LastChars(keyDir.value, "/author.key-id");
      LastChars(keyDir.value, "/maintainer.seed");
      LastChars(keyDir.value, "/maintainer.key-id");
    }
  }

  function RoleFile(keyDir: Name, role: Role, suffix: string): Name {
    keyDir + (if role.Author? then "/author" else "/maintainer") + suffix
  }

  lemma SameStem(a: string, b: string, suffix: string)
    requires a + suffix == b + suffix
    ensures a == b
  {
    assert |a| == |b|;
    SplitEqual(a, suffix, b, suffix);
  }

  /** Two seeds share a key-id file exactly when one is a role's own seed and the other is named like the role. */
  lemma KeyIdPathsCollide(keyDir: Option<Name>, p: Name, q: Name)
    requires p != q
    ensures KeyIdPath(keyDir, p) == KeyIdPath(keyDir, q) <==>
              keyDir.Some? && exists role ::
                {p, q} == {RoleFile(keyDir.value, role, ".seed"), RoleFile(keyDir.value, role, "")}
  {
    if keyDir.None? {
      if KeyIdPath(keyDir, p) == KeyIdPath(keyDir, q) { SameStem(p, q, ".key-id"); }
    } else {
      RolePaths(keyDir.value, Author);
      RolePaths(keyDir.value, Maintainer);
      if KeyIdPath(keyDir, p) == KeyIdPath(keyDir, q) {
        Collision(keyDir.value, p, q);
      }
    }
  }

  /** A role's paths, spelled two ways, and never those of the other role. */
  lemma RolePaths(keyDir: Name, role: Role)
    ensures KeyIdPath(Some(keyDir), RoleFile(keyDir, role, ".seed")) == RoleFile(keyDir, role, ".key-id")
    ensures KeyIdPath(Some(keyDir), RoleFile(keyDir, role, "")) == RoleFile(keyDir, role, ".key-id")
  {
    var other := if role.Author? then Maintainer else Author;
    assert RoleFile(keyDir, Author, ".seed") == keyDir + "/author.seed";
    assert RoleFile(keyDir, Maintainer, ".seed") == keyDir + "/maintainer.seed";
    assert RoleFile(keyDir, Author, ".key-id") == keyDir + "/author.key-id";
    assert RoleFile(keyDir, Maintainer, ".key-id") == keyDir + "/maintainer.key-id";
    assert RoleFile(keyDir, role, "") + ".key-id" == RoleFile(keyDir, role, ".key-id");
    assert |RoleFile(keyDir, Author, "")| == |keyDir| + 7 && |RoleFile(keyDir, Maintainer, "")| == |keyDir| + 11;
    assert |RoleFile(keyDir, Author, ".seed")| == |keyDir| + 12;
    assert |RoleFile(keyDir, Maintainer, ".seed")| == |keyDir| + 16;
  }

  lemma Collision(keyDir: Name, p: Name, q: Name)
    requires p != q && KeyIdPath(Some(keyDir), p) == KeyIdPath(Some(keyDir), q)
    ensures exists role :: {p, q} == {RoleFile(keyDir, role, ".seed"), RoleFile(keyDir, role, "")}
  {
    var a, m := keyDir + "/author.seed", keyDir + "/maintainer.seed";
    assert a == RoleFile(keyDir, Author, ".seed") && m == RoleFile(keyDir, Maintainer, ".seed");
    RolePaths(keyDir, Author);
    RolePaths(keyDir, Maintainer);
    assert |RoleFile(keyDir, Author, ".key-id")| == |keyDir| + 14;
    assert |RoleFile(keyDir, Maintainer, ".key-id")| == |keyDir| + 18;
    var role := if p == a || q == a then Author else Maintainer;
    if p != a && p != m && q != a && q != m {
      SameStem(p, q, ".key-id");
    } else if p == a || p == m {
      assert RoleFile(keyDir, role, "") + ".key-id" == RoleFile(keyDir, role, ".key-id");
      SameStem(q, RoleFile(keyDir, role, ""), ".key-id");
    } else {
      assert RoleFile(keyDir, role, "") + ".key-id" == RoleFile(keyDir, role, ".key-id");
      SameStem(p, RoleFile(keyDir, role, ""), ".key-id");
    }
    assert {p, q} == {RoleFile(keyDir, role, ".seed"), RoleFile(keyDir, role, "")};
  }

  // ----- reading -----

  predicate IsBlank(c: Byte) {
    c == 32 || 9 <= c <= 13
  }

  function Trim(s: seq<Byte>): seq<Byte> {
    Text.Trim(s, IsBlank)
  }

  /** `hex_nibble`: either case. */
  function HexNibble(c: Byte): Option<Byte> {
    if 48 <= c <= 57 then Some(c - 48)
    else if 97 <= c <= 102 then Some(c - 97 + 10)
    else if 65 <= c <= 70 then Some(c - 65 + 10)
    else None
  }

  function Lower(s: seq<Byte>): (t: seq<Byte>)
    ensures |t| == |s|
  {
    seq(|s|, i requires 0 <= i < |s| => if 65 <= s[i] <= 90 then s[i] + 32 else s[i])
  }

  /** What a seed file holds: the seed whose hex form, in either case, is all there is beside blanks. */
  ghost predicate Decodes(s: seq<Byte>, seed: Seed) {
    |seed| == 32 && Lower(Trim(s)) == Hex(seed)
  }

  /** `decode_seed_hex` */
  method DecodeSeed(s: seq<Byte>) returns (r: Option<Seed>)
    ensures r.Some? ==> Decodes(s, r.value)
    ensures r.None? ==> forall seed :: !Decodes(s, seed)
  {
    var hex := Trim(s);
    if |hex| != 64 {
      return None;
    }
    forall i | 0 <= i < 64 ensures HexNibble(hex[i]) == HexValue(Lower(hex)[i]) {
      NibbleLower(hex[i]);
    }
    r := DecodePairs(hex, Lower(hex));
  }

  lemma NibbleLower(c: Byte)
    ensures HexNibble(c) == HexValue(if 65 <= c <= 90 then c + 32 else c)
  {
  }

  method DecodePairs(hex: seq<Byte>, ghost lower: seq<Byte>) returns (r: Option<Seed>)
    requires |hex| == |lower| == 64 && forall i :: 0 <= i < 64 ==> HexNibble(hex[i]) == HexValue(lower[i])
    ensures r.Some? ==> |r.value| == 32 && Hex(r.value) == lower
    ensures r.None? ==> forall seed: Seed :: |seed| == 32 ==> Hex(seed) != lower
  {
    var out := new Byte[32](_ => 0);
    var i := 0;
    while i < 32
      invariant 0 <= i <= 32
      invariant Hex(out[..i]) == lower[..2 * i]
    {
      var high, low := HexNibble(hex[2 * i]), HexNibble(hex[2 * i + 1]);
      assert high == HexValue(lower[2 * i]);
      assert low == HexValue(lower[2 * i + 1]);
      if high.None? || low.None? {
        forall seed: Seed | |seed| == 32 ensures Hex(seed) != lower {
          PairRefused(lower, i, seed);
        }
        return None;
      }
      PairRead(out[..i], lower, i, high.value, low.value);
      out[i] := high.value * 16 + low.value;
      assert out[..i + 1] == out[..i] + [out[i]];
      i := i + 1;
    }
    assert lower[..64] == lower && out[..32] == out[..];
    r := Some(out[..]);
  }

  // ----- writing -----

  ghost predicate Keeps(d0: Disk, d: Disk) {
    && WellFormed(d0) && WellFormed(d)
    && (forall i :: i in d0.data ==> i in d.data && d.data[i] == d0.data[i])
    && (forall n :: n in Current(d0) ==> n in Current(d) && Current(d)[n] == Current(d0)[n])
  }

  /** Nothing that existed was overwritten, and the one new file holds a prefix of what it is to hold. */
  ghost predicate Filling(d0: Disk, d: Disk, n: Name, full: seq<Byte>) {
    && Keeps(d0, d) && n !in Current(d0) && n in Current(d)
    && Current(d).Keys == Current(d0).Keys + {n}
    && Current(d)[n] !in d0.data && View(d, n).value <= full
  }

  lemma CreatedFilling(d: Disk, n: Name, i: Inode, full: seq<Byte>)
    requires WellFormed(d) && i !in d.data && n !in Current(d)
    ensures Filling(d, Created(d, n, i), n, full) && View(Created(d, n, i), n) == Some([])
  {
  }

  lemma WrittenFilling(d0: Disk, d: Disk, n: Name, full: seq<Byte>, bytes: seq<Byte>)
    requires Filling(d0, d, n, full) && View(d, n).value + bytes <= full
    ensures Filling(d0, Written(d, Current(d)[n], bytes), n, full)
    ensures View(Written(d, Current(d)[n], bytes), n) == Some(View(d, n).value + bytes)
  {
  }

  /** One `write_all` into the new file; part of it may land when it fails. */
  method AppendTo(vol: Volume, n: Name, i: Inode, bytes: seq<Byte>, ghost d0: Disk, ghost full: seq<Byte>)
    returns (ok: bool)
    requires vol.Valid() && Filling(d0, vol.disk, n, full) && Current(vol.disk)[n] == i
    requires View(vol.disk, n).value + bytes <= full
    modifies vol
    ensures vol.Valid() && vol.history == old(vol.history) + [vol.disk] && Filling(d0, vol.disk, n, full)
    ensures Current(vol.disk)[n] == i
    ensures ok ==> View(vol.disk, n) == Some(View(old(vol.disk), n).value + bytes)
    ensures old(vol.Smooth()) ==> ok && vol.Smooth()
  {
    ghost var before := vol.disk;
    ok := vol.Write(i, bytes);
    ghost var k :| 0 <= k <= |bytes| && vol.disk == Written(before, i, bytes[..k]);
    WrittenFilling(d0, before, n, full, bytes[..k]);
    if ok {
      WrittenFilling(d0, before, n, full, bytes);
    }
  }

  /** Create a file, write a text and a newline: `write_key_id_file` and the seed write have this one shape. */
  method WriteNewFile(vol: Volume, n: Name, text: seq<Byte>) returns (ok: bool)
    requires vol.Valid()
    modifies vol
    ensures vol.Valid() && old(vol.history) <= vol.history
    ensures forall d :: d in vol.history ==> d in old(vol.history) || Filling(old(vol.disk), d, n, text + NEWLINE)
    ensures ok ==> n !in Current(old(vol.disk)) && Filling(old(vol.disk), vol.disk, n, text + NEWLINE)
    ensures ok ==> View(vol.disk, n) == Some(text + NEWLINE)
    ensures old(vol.Smooth()) ==> vol.Smooth() && (ok <==> n !in Current(old(vol.disk)))
  {
    ghost var d0, full := vol.disk, text + NEWLINE;
    var i;
    ok, i := vol.CreateNew(n);
    if !ok { return; }
    CreatedFilling(d0, n, i, full);
    assert [] + text == text;
    ok := AppendTo(vol, n, i, text, d0, full);
    if !ok { return; }
    ok := AppendTo(vol, n, i, NEWLINE, d0, full);
  }

  // ----- creating a key -----

  /** Where `made` names the seeds created so far: each has its whole key-id file, and at least part of its own. */
  ghost predicate KeyInv(pk: Derive, keyDir: Option<Name>, d: Disk, made: map<Name, Seed>) {
    && WellFormed(d)
    && forall p :: p in made ==>
         && |made[p]| == 32
         && View(d, KeyIdPath(keyDir, p)) == Some(IdFile(pk, made[p]))
         && View(d, p).Some? && View(d, p).value <= SeedFile(made[p])
  }

  /** Every file that is new since `start` is a seed in `made` or too short to be one. */
  ghost predicate NoOtherSeeds(start: Disk, d: Disk, made: map<Name, Seed>) {
    && WellFormed(start) && WellFormed(d)
    && forall n :: n in Current(d) && n !in Current(start) ==> n in made || |View(d, n).value| <= 25
  }

  /** The states of one `write_new_key`, after any number of its effects. */
  ghost predicate KeyState(pk: Derive, keyDir: Option<Name>, d0: Disk, d: Disk, p: Name, seed: Seed) {
    var id := KeyIdPath(keyDir, p);
    && Keeps(d0, d)
    && Current(d).Keys <= Current(d0).Keys + {id, p}
    && (id in Current(d) && id !in Current(d0) ==> View(d, id).value <= IdFile(pk, seed))
    && (p in Current(d) && p !in Current(d0) ==>
          View(d, id) == Some(IdFile(pk, seed)) && View(d, p).value <= SeedFile(seed))
  }

  function MadeIn(d0: Disk, d: Disk, p: Name, seed: Seed, made: map<Name, Seed>): map<Name, Seed>
    requires |d0.dirs| >= 1 && |d.dirs| >= 1
  {
    if p in Current(d) && p !in Current(d0) then made[p := seed] else made
  }

  lemma KeyStateKeepsInv(pk: Derive, keyDir: Option<Name>, d0: Disk, d: Disk, p: Name, seed: Seed,
                         made: map<Name, Seed>)
    requires |seed| == 32 && KeyState(pk, keyDir, d0, d, p, seed) && KeyInv(pk, keyDir, d0, made)
    ensures KeyInv(pk, keyDir, d, MadeIn(d0, d, p, seed, made))
  {
    var after := MadeIn(d0, d, p, seed, made);
    forall q | q in after
      ensures |after[q]| == 32 && View(d, KeyIdPath(keyDir, q)) == Some(IdFile(pk, after[q]))
      ensures View(d, q).Some? && View(d, q).value <= SeedFile(after[q])
    {
      if q in made {
        assert View(d0, q).Some? && View(d0, KeyIdPath(keyDir, q)).Some?;
        KeepsView(d0, d, q);
        KeepsView(d0, d, KeyIdPath(keyDir, q));
      }
    }
  }

  lemma KeepsView(d0: Disk, d: Disk, n: Name)
    requires Keeps(d0, d) && n in Current(d0)
    ensures View(d, n) == View(d0, n)
  {
  }

  lemma KeyStateNoOtherSeeds(pk: Derive, keyDir: Option<Name>, start: Disk, d0: Disk, d: Disk, p: Name, seed: Seed,
                             made: map<Name, Seed>)
    requires KeyState(pk, keyDir, d0, d, p, seed) && NoOtherSeeds(start, d0, made) && Keeps(start, d0)
    ensures NoOtherSeeds(start, d, MadeIn(d0, d, p, seed, made)) && Keeps(start, d)
  {
    var after := MadeIn(d0, d, p, seed, made);
    forall n | n in Current(d) && n !in Current(start) ensures n in after || |View(d, n).value| <= 25 {
      if n in Current(d0) {
        KeepsView(d0, d, n);
      }
    }
  }

  lemma FirstFilling(pk: Derive, keyDir: Option<Name>, d0: Disk, p: Name, seed: Seed, d: Disk)
    requires Filling(d0, d, KeyIdPath(keyDir, p), IdFile(pk, seed)) && p !in Current(d0)
    ensures KeyState(pk, keyDir, d0, d, p, seed)
  {
    KeyIdPathDiffers(keyDir, p);
  }

  lemma SecondFilling(pk: Derive, keyDir: Option<Name>, d0: Disk, p: Name, seed: Seed, d1: Disk, d: Disk)
    requires Filling(d0, d1, KeyIdPath(keyDir, p), IdFile(pk, seed)) && p !in Current(d0)
    requires View(d1, KeyIdPath(keyDir, p)) == Some(IdFile(pk, seed))
    requires Filling(d1, d, p, SeedFile(seed))
    ensures KeyState(pk, keyDir, d0, d, p, seed)
  {
    KeyIdPathDiffers(keyDir, p);
    KeepsView(d1, d, KeyIdPath(keyDir, p));
  }

  /** `write_new_key`: refusals first, then the key-id file, then the seed. */
  method WriteNewKey(vol: Volume, pk: Derive, keyDir: Option<Name>, p: Name, seed: Seed) returns (ok: bool)
    requires vol.Valid() && vol.history == [vol.disk]
    modifies vol
    ensures vol.Valid() && vol.history != []
    ensures forall d :: d in vol.history ==> KeyState(pk, keyDir, old(vol.disk), d, p, seed)
    ensures ok ==> View(vol.disk, p) == Some(SeedFile(seed)) && p !in Current(old(vol.disk))
    ensures p in Current(old(vol.disk)) || KeyIdPath(keyDir, p) in Current(old(vol.disk)) ==>
              !ok && vol.history == [old(vol.disk)]
    ensures old(vol.Smooth()) ==>
              (ok <==> p !in Current(old(vol.disk)) && KeyIdPath(keyDir, p) !in Current(old(vol.disk)))
  {
    var id := KeyIdPath(keyDir, p);
    ghost var d0 := vol.disk;
    if p in Current(vol.disk) || id in Current(vol.disk) {
      return false;
    }
    ok := WriteNewFile(vol, id, DerivedId(pk, seed));
    ghost var d1 := vol.disk;
    forall d | d in vol.history ensures KeyState(pk, keyDir, d0, d, p, seed) {
      if d != d0 { FirstFilling(pk, keyDir, d0, p, seed, d); }
    }
    if !ok { return; }
    ghost var before := vol.history;
    KeyIdPathDiffers(keyDir, p);
    ok := WriteNewFile(vol, p, Hex(seed));
    forall d | d in vol.history ensures KeyState(pk, keyDir, d0, d, p, seed) {
      if d !in before { SecondFilling(pk, keyDir, d0, p, seed, d1, d); }
    }
  }

  // ----- runs -----

  /** One attempt: the operations' fates, and the state at which the process dies, if it does. */
  datatype Attempt = Attempt(path: Name, seed: Seed, fates: seq<bool>, dies: Option<nat>)

  /** Nothing stops the attempt. */
  predicate Undisturbed(a: Attempt) {
    a.dies.None? && forall i :: 0 <= i < |a.fates| ==> a.fates[i]
  }

  /** An undisturbed attempt made its key, or found one of its two names taken. */
  ghost predicate Taken(keyDir: Option<Name>, d: Disk, p: Name)
    requires WellFormed(d)
  {
    p in Current(d) || KeyIdPath(keyDir, p) in Current(d)
  }

  /** Any run of key creations, each stopped anywhere, on a disk that holds anything. */
  method RunAttempts(pk: Derive, keyDir: Option<Name>, start: Disk, attempts: seq<Attempt>)
    returns (d: Disk, made: map<Name, Seed>)
    requires WellFormed(start) && forall i :: 0 <= i < |attempts| ==> |attempts[i].seed| == 32
    ensures KeyInv(pk, keyDir, d, made) && NoOtherSeeds(start, d, made) && Keeps(start, d)
    ensures forall i :: 0 <= i < |attempts| && Undisturbed(attempts[i]) ==> Taken(keyDir, d, attempts[i].path)
  {
    d, made := start, map[];
    for i := 0 to |attempts|
      invariant KeyInv(pk, keyDir, d, made) && NoOtherSeeds(start, d, made) && Keeps(start, d)
      invariant forall j :: 0 <= j < i && Undisturbed(attempts[j]) ==> Taken(keyDir, d, attempts[j].path)
    {
      hide KeyInv, NoOtherSeeds, Keeps, KeyIdPath;
      var next, more := RunOne(pk, keyDir, start, d, made, attempts[i]);
      forall j | 0 <= j < i && Undisturbed(attempts[j]) ensures Taken(keyDir, next, attempts[j].path) {
        StaysTaken(keyDir, d, next, attempts[j].path);
      }
      d, made := next, more;
    }
  }

  method RunOne(pk: Derive, keyDir: Option<Name>, ghost start: Disk, d: Disk, made: map<Name, Seed>, a: Attempt)
    returns (next: Disk, more: map<Name, Seed>)
    requires KeyInv(pk, keyDir, d, made) && NoOtherSeeds(start, d, made) && Keeps(start, d) && |a.seed| == 32
    ensures KeyInv(pk, keyDir, next, more) && NoOtherSeeds(start, next, more) && Keeps(start, next)
    ensures forall n :: n in Current(d) ==> n in Current(next)
    ensures Undisturbed(a) ==> Taken(keyDir, next, a.path)
  {
    var vol := new Volume(d, a.fates);
    var ok := WriteNewKey(vol, pk, keyDir, a.path, a.seed);
    var end := if a.dies.Some? && a.dies.value < |vol.history| then a.dies.value else |vol.history| - 1;
    next := vol.history[end];
    hide KeyInv, NoOtherSeeds, KeyIdPath;
    assert KeyState(pk, keyDir, d, next, a.path, a.seed);
    KeyStateKeepsInv(pk, keyDir, d, next, a.path, a.seed, made);
    KeyStateNoOtherSeeds(pk, keyDir, start, d, next, a.path, a.seed, made);
    more := MadeIn(d, next, a.path, a.seed, made);
  }

  lemma StaysTaken(keyDir: Option<Name>, d: Disk, next: Disk, p: Name)
    requires WellFormed(d) && WellFormed(next) && Taken(keyDir, d, p)
    requires forall n :: n in Current(d) ==> n in Current(next)
    ensures Taken(keyDir, next, p)
  {
  }

  // ----- reading a key back -----

  lemma HexDigits(bs: seq<Byte>, i: nat)
    requires i < |Hex(bs)|
    ensures !IsBlank(Hex(bs)[i]) && Hex(bs)[i] < 128 && !(65 <= Hex(bs)[i] <= 90)
  {
    HexAt(bs, i / 2);
  }

  lemma {:induction false} TrimShorter(s: seq<Byte>)
    ensures |Text.TrimStart(s, IsBlank)| <= |s| && |Text.TrimEnd(s, IsBlank)| <= |s|
    decreases |s|
  {
    if s != [] {
      TrimShorter(s[1..]);
      TrimShorter(s[..|s| - 1]);
    }
  }

  /** Part of a seed file reads as a seed exactly once all its digits are there, and then as the right one. */
  lemma PrefixDecodes(c: seq<Byte>, seed: Seed, s: Seed)
    requires |seed| == 32 && c <= SeedFile(seed)
    ensures Decodes(c, s) <==> |c| >= 64 && s == seed
  {
    var hex := Hex(seed);
    forall i | 0 <= i < 64 ensures !IsBlank(hex[i]) && !(65 <= hex[i] <= 90) {
      HexDigits(seed, i);
    }
    var digits := if |c| >= 64 then hex else c;
    assert forall i :: 0 <= i < |c| && i < 64 ==> c[i] == hex[i];
    assert Trim(c) == digits by {
      assert Text.TrimStart(c, IsBlank) == c;
      if |c| == 65 {
        assert c[..64] == hex && IsBlank(c[64]);
        assert Text.TrimEnd(hex, IsBlank) == hex;
      } else if |c| == 64 {
        assert c == hex;
      }
    }
    assert Lower(digits) == digits;
    if Decodes(c, s) {
      HexInjective(s, seed);
    }
  }

  lemma ShortDecodesNothing(c: seq<Byte>, s: Seed)
    requires |c| < 64
    ensures !Decodes(c, s)
  {
    TrimShorter(c);
    TrimShorter(Text.TrimStart(c, IsBlank));
  }

  ghost function SeedIn(s: seq<Byte>): (r: Option<Seed>)
    ensures r.Some? ==> Decodes(s, r.value)
    ensures r.None? ==> forall seed :: !Decodes(s, seed)
  {
    if seed :| Decodes(s, seed) then Some(seed) else None
  }

  datatype KeyIdSource = Environment | KeyFile | LegacyDefault
  datatype KeyStatus = KeyStatus(keyId: seq<Byte>, source: KeyIdSource, seed: Option<Seed>)

  function StripNewline(s: seq<Byte>): seq<Byte> {
    if s != [] && s[|s| - 1] == 10 then s[..|s| - 1] else s
  }

  /** `status_at` with `resolve_key_id`; `variable` is the role's key-id variable. None is the refusal to read. */
  ghost function StatusAt(pk: Derive, keyDir: Option<Name>, d: Disk, role: Role, p: Name, variable: Option<seq<Byte>>)
    : Option<KeyStatus>
    requires WellFormed(d)
  {
    var seed := if View(d, p).Some? then SeedIn(View(d, p).value) else None;
    var file := View(d, KeyIdPath(keyDir, p));
    if variable.Some? then
      if Trim(variable.value) == [] then None else Some(KeyStatus(variable.value, Environment, seed))
    else if file.None? then Some(KeyStatus(LegacyId(role), LegacyDefault, seed))
    else if !ValidUtf8(file.value) then None
    else
      var id := StripNewline(file.value);
      Some(KeyStatus(id, KeyFile, if seed.Some? && DerivedId(pk, seed.value) != id then None else seed))
  }

  /** `signing_key` */
  ghost function SigningKey(pk: Derive, keyDir: Option<Name>, d: Disk, role: Role, p: Name, variable: Option<seq<Byte>>)
    : Option<(seq<Byte>, Seed)>
    requires WellFormed(d)
  {
    var status := StatusAt(pk, keyDir, d, role, p, variable);
    if status.Some? && status.value.seed.Some? then Some((status.value.keyId, status.value.seed.value)) else None
  }

  /** The file holds the id, with or without a line break after it. */
  predicate Holds(file: seq<Byte>, id: seq<Byte>) {
    file == id + NEWLINE || (file == id && (id == [] || id[|id| - 1] != 10))
  }

  /**
   Which key signs, on any disk: the seed must be readable; its id is the variable's unless that is blank,
   else the key-id file's if that is the one derived from the seed, else, without a file, the role word.
   */
  lemma SignsExactly(pk: Derive, keyDir: Option<Name>, d: Disk, role: Role, p: Name, variable: Option<seq<Byte>>,
                     id: seq<Byte>, seed: Seed)
    requires WellFormed(d)
    ensures SigningKey(pk, keyDir, d, role, p, variable) == Some((id, seed)) <==>
              && View(d, p).Some? && Decodes(View(d, p).value, seed)
              && match variable
                 case Some(v) => id == v && exists i :: 0 <= i < |v| && !IsBlank(v[i])
                 case None =>
                   match View(d, KeyIdPath(keyDir, p))
                   case None => id == LegacyId(role)
                   case Some(file) => ValidUtf8(file) && Holds(file, id) && id == DerivedId(pk, seed)
  {
    hide Holds, StripNewline, Decodes, SeedIn, Trim, DerivedId, ValidUtf8, KeyIdPath;
    var file := View(d, KeyIdPath(keyDir, p));
    if file.Some? {
      HoldsExactly(file.value, id);
    }
    if View(d, p).Some? {
      OneSeed(View(d, p).value, seed);
    }
    if variable.Some? {
      BlankExactly(variable.value);
    }
  }

  lemma HoldsExactly(file: seq<Byte>, id: seq<Byte>)
    ensures Holds(file, id) <==> StripNewline(file) == id
  {
    if file != [] && file[|file| - 1] == 10 {
      assert file == file[..|file| - 1] + NEWLINE;
    }
  }

  /** A text reads as one seed at most. */
  lemma OneSeed(s: seq<Byte>, seed: Seed)
    ensures Decodes(s, seed) <==> SeedIn(s) == Some(seed)
  {
    if Decodes(s, seed) {
      HexInjective(SeedIn(s).value, seed);
    }
  }

  lemma BlankExactly(s: seq<Byte>)
    ensures Trim(s) == [] <==> forall i :: 0 <= i < |s| ==> IsBlank(s[i])
  {
    var _, _ := Text.TrimExactly(s, IsBlank);
  }

  lemma LegacyIdText(i: nat)
    ensures |LegacyId(Author)| == 6 && |LegacyId(Maintainer)| == 10
    ensures i < 6 ==> LegacyId(Author)[i] == "author"[i] as int
    ensures i < 10 ==> LegacyId(Maintainer)[i] == "maintainer"[i] as int
  {
  }

  /** The derived id is `ed25519-` and the first 16 hex digits of the public key. */
  lemma DerivedIdText(pk: Derive, seed: Seed, i: nat)
    requires |pk(seed)| >= 8 && i < 8
    ensures var id := DerivedId(pk, seed);
      && |id| == 24 && id[i] == "ed25519-"[i] as int
      && id[8 + 2 * i] == "0123456789abcdef"[pk(seed)[i] / 16] as int
      && id[8 + 2 * i + 1] == "0123456789abcdef"[pk(seed)[i] % 16] as int
  {
    HexAt(pk(seed), i);
    ObjectIds.HexDigits(pk(seed)[i] / 16);
    ObjectIds.HexDigits(pk(seed)[i] % 16);
  }

  lemma {:induction false} AsciiIsUtf8(s: seq<Byte>)
    requires forall i :: 0 <= i < |s| ==> s[i] < 128
    ensures ValidUtf8(s)
    decreases |s|
  {
    if s != [] {
      AsciiIsUtf8(s[1..]);
      assert Utf8Head(s) == 1;
    }
  }

  lemma IdFileReads(pk: Derive, seed: Seed)
    ensures ValidUtf8(IdFile(pk, seed)) && StripNewline(IdFile(pk, seed)) == DerivedId(pk, seed)
  {
    var hex := Hex(pk(seed));
    forall i | 0 <= i < |hex| ensures hex[i] < 128 {
      HexDigits(pk(seed), i);
    }
    AsciiIsUtf8(IdFile(pk, seed));
  }

  lemma NotLegacy(pk: Derive, seed: Seed, role: Role)
    ensures DerivedId(pk, seed) != LegacyId(role)
  {
    assert DerivedId(pk, seed)[0] == 101;
  }

  /**
   After any run: whatever new file reads as a seed, whole or cut short of its newline, has its own key-id
   file, is usable with no mismatch, signs under the id derived from it, and never under the legacy id.
   */
  lemma EverySeedNamesItself(pk: Derive, keyDir: Option<Name>, start: Disk, d: Disk, made: map<Name, Seed>, role: Role,
                             p: Name, seed: Seed)
    requires KeyInv(pk, keyDir, d, made) && NoOtherSeeds(start, d, made)
    requires p in Current(d) && p !in Current(start) && Decodes(View(d, p).value, seed)
    ensures p in made && made[p] == seed
    ensures StatusAt(pk, keyDir, d, role, p, None) == Some(KeyStatus(DerivedId(pk, seed), KeyFile, Some(seed)))
    ensures SigningKey(pk, keyDir, d, role, p, None) == Some((DerivedId(pk, seed), seed))
    ensures DerivedId(pk, seed) != LegacyId(role)
  {
    NewSeedIsMade(pk, keyDir, start, d, made, p, seed);
    MadeReads(pk, keyDir, d, made, role, p);
    NotLegacy(pk, seed, role);
  }

  lemma NewSeedIsMade(pk: Derive, keyDir: Option<Name>, start: Disk, d: Disk, made: map<Name, Seed>, p: Name,
                      seed: Seed)
    requires KeyInv(pk, keyDir, d, made) && NoOtherSeeds(start, d, made)
    requires p in Current(d) && p !in Current(start) && Decodes(View(d, p).value, seed)
    ensures p in made && made[p] == seed && |View(d, p).value| >= 64
  {
    var contents := View(d, p).value;
    if p !in made {
      ShortDecodesNothing(contents, seed);
    }
    PrefixDecodes(contents, made[p], seed);
  }

  lemma MadeReads(pk: Derive, keyDir: Option<Name>, d: Disk, made: map<Name, Seed>, role: Role, p: Name)
    requires KeyInv(pk, keyDir, d, made) && p in made && |View(d, p).value| >= 64
    ensures StatusAt(pk, keyDir, d, role, p, None) == Some(KeyStatus(DerivedId(pk, made[p]), KeyFile, Some(made[p])))
    ensures SigningKey(pk, keyDir, d, role, p, None) == Some((DerivedId(pk, made[p]), made[p]))
  {
    var contents := View(d, p).value;
    PrefixDecodes(contents, made[p], made[p]);
    PrefixDecodes(contents, made[p], SeedIn(contents).value);
    IdFileReads(pk, made[p]);
  }

  /** A seed cut short of its digits is refused, never misread. */
  lemma CutSeedIsUnusable(pk: Derive, keyDir: Option<Name>, d: Disk, made: map<Name, Seed>, role: Role, p: Name)
    requires KeyInv(pk, keyDir, d, made) && p in made
    ensures SigningKey(pk, keyDir, d, role, p, None).Some? <==> |View(d, p).value| >= 64
  {
    var s := SeedIn(View(d, p).value);
    if |View(d, p).value| >= 64 {
      MadeReads(pk, keyDir, d, made, role, p);
    } else if s.Some? {
      PrefixDecodes(View(d, p).value, made[p], s.value);
    }
  }

  // ----- power loss -----

  /** The key-id file survives any power loss, whole. */
  ghost predicate IdIsDurable(d: Disk, id: Name, contents: seq<Byte>) {
    forall k :: 0 <= k < |d.dirs| ==>
      id in d.dirs[k] && d.dirs[k][id] in d.synced && d.dirs[k][id] in d.data && d.data[d.dirs[k][id]] == contents
  }

  /**
   Neither file is ever synced. A power loss can keep a whole seed and lose or damage its key-id file,
   exactly when that file was not made durable by other means.
   */
  lemma PowerLossExactly(pk: Derive, keyDir: Option<Name>, d: Disk, made: map<Name, Seed>, p: Name)
    requires KeyInv(pk, keyDir, d, made) && p in made && View(d, p) == Some(SeedFile(made[p]))
    ensures (forall c :: LossOf(d, c) && View(c, p) == Some(SeedFile(made[p])) ==>
                           View(c, KeyIdPath(keyDir, p)) == Some(IdFile(pk, made[p])))
            <==> IdIsDurable(d, KeyIdPath(keyDir, p), IdFile(pk, made[p]))
  {
    if IdIsDurable(d, KeyIdPath(keyDir, p), IdFile(pk, made[p])) {
      forall c | LossOf(d, c) ensures View(c, KeyIdPath(keyDir, p)) == Some(IdFile(pk, made[p])) {
        DurableIdSurvives(d, c, KeyIdPath(keyDir, p), IdFile(pk, made[p]));
      }
    } else {
      var c := LostId(pk, keyDir, d, made, p);
    }
  }

  lemma DurableIdSurvives(d: Disk, c: Disk, id: Name, contents: seq<Byte>)
    requires WellFormed(d) && LossOf(d, c) && IdIsDurable(d, id, contents)
    ensures View(c, id) == Some(contents)
  {
    var k :| 0 <= k < |d.dirs| && Entry(c.dirs[0], id) == Entry(d.dirs[k], id);
  }

  lemma LostId(pk: Derive, keyDir: Option<Name>, d: Disk, made: map<Name, Seed>, p: Name) returns (c: Disk)
    requires KeyInv(pk, keyDir, d, made) && p in made && View(d, p) == Some(SeedFile(made[p]))
    requires !IdIsDurable(d, KeyIdPath(keyDir, p), IdFile(pk, made[p]))
    ensures LossOf(d, c) && View(c, p) == Some(SeedFile(made[p]))
    ensures View(c, KeyIdPath(keyDir, p)) != Some(IdFile(pk, made[p]))
  {
    var id := KeyIdPath(keyDir, p);
    KeyIdPathDiffers(keyDir, p);
    var k :| 0 <= k < |d.dirs|
             && !(id in d.dirs[k] && d.dirs[k][id] in d.synced && d.data[d.dirs[k][id]] == IdFile(pk, made[p]));
    c := LossWith(d, id, p, k);
  }

  /** A power loss that leaves the newest version of `p` and version `k` of `id`, emptied if it was not synced. */
  lemma LossWith(d: Disk, id: Name, p: Name, k: nat) returns (c: Disk)
    requires WellFormed(d) && k < |d.dirs| && id != p && p in Current(d)
    ensures LossOf(d, c) && View(c, p) == View(d, p)
    ensures id !in d.dirs[k] ==> View(c, id) == None
    ensures id in d.dirs[k] ==>
              var i := d.dirs[k][id];
              View(c, id) == Some(if i in d.synced || i == Current(d)[p] then d.data[i] else [])
  {
    var m := Current(d);
    if id !in d.dirs[k] {
      c := Disk([m - {id}], d.data, {});
    } else {
      var i := d.dirs[k][id];
      c := Disk([m[id := i]], if i in d.synced || i == m[p] then d.data else d.data[i := []], {});
    }
    forall n ensures exists j :: 0 <= j < |d.dirs| && Entry(c.dirs[0], n) == Entry(d.dirs[j], n) {
      if n == id {
        assert Entry(c.dirs[0], n) == Entry(d.dirs[k], n);
      } else {
        assert Entry(c.dirs[0], n) == Entry(d.dirs[|d.dirs| - 1], n);
      }
    }
  }

  /** A key created on a freshly synced disk, then a power loss: the seed signs under the shared legacy id. */
  lemma LegacyIdAfterPowerLoss(pk: Derive, keyDir: Option<Name>, d: Disk, made: map<Name, Seed>, p: Name, role: Role)
    returns (c: Disk)
    requires KeyInv(pk, keyDir, d, made) && p in made && View(d, p) == Some(SeedFile(made[p]))
    requires KeyIdPath(keyDir, p) !in d.dirs[0]
    ensures LossOf(d, c)
    ensures SigningKey(pk, keyDir, c, role, p, None) == Some((LegacyId(role), made[p]))
  {
    var id := KeyIdPath(keyDir, p);
    KeyIdPathDiffers(keyDir, p);
    c := LossWith(d, id, p, 0);
    PrefixDecodes(SeedFile(made[p]), made[p], made[p]);
    PrefixDecodes(SeedFile(made[p]), made[p], SeedIn(SeedFile(made[p])).value);
  }
}
