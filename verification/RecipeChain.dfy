/** A recipe's chunks, chained to the revision the server names (extension/background/policy.js).
    SHA-256 (section 6.2 of FIPS 180-4), base64 and JSON are parameters: of the hash only the length
    of its digests is used, and what is proved names the strings a disagreement would make collide. */
module RecipeChain {
  import opened Options

  newtype Byte = x: int | 0 <= x < 256

  type Bytes = seq<Byte>

  const DIGEST := 32
  const TWO64 := 0x1_0000_0000_0000_0000

  /** "recipe-chunk-v2\0" in UTF-8. */
  const DOMAIN: Bytes := [114, 101, 99, 105, 112, 101, 45, 99, 104, 117, 110, 107, 45, 118, 50, 0]

  type Hash = Bytes -> Bytes

  ghost predicate IsDigest(hash: Hash) { forall x :: |hash(x)| == DIGEST }

  // ---- big-endian numbers and headers --------------------------------------------------

  function BigEndian(x: nat, width: nat): (b: Bytes)
    ensures |b| == width
  {
    if width == 0 then [] else BigEndian(x / 256, width - 1) + [(x % 256) as Byte]
  }

  /** setBigUint64 keeps the low 64 bits. */
  function U64(x: nat): (b: Bytes)
    ensures |b| == 8
  {
    BigEndian(x % TWO64, 8)
  }

  function Power(n: nat): nat { if n == 0 then 1 else 256 * Power(n - 1) }

  lemma {:induction false} BigEndianIsInjective(x: nat, y: nat, width: nat)
    requires x < Power(width) && y < Power(width) && BigEndian(x, width) == BigEndian(y, width)
    ensures x == y
  {
    if width > 0 {
      var a, b := BigEndian(x, width), BigEndian(y, width);
      assert a[..width - 1] == BigEndian(x / 256, width - 1) && b[..width - 1] == BigEndian(y / 256, width - 1);
      assert a[width - 1] == b[width - 1];
      BigEndianIsInjective(x / 256, y / 256, width - 1);
    }
  }

  lemma PowerOfEight()
    ensures Power(8) == TWO64
  {
    assert Power(1) == 256;
    assert Power(2) == 0x1_0000;
    assert Power(3) == 0x100_0000;
    assert Power(4) == 0x1_0000_0000;
    assert Power(5) == 0x100_0000_0000;
    assert Power(6) == 0x1_0000_0000_0000;
    assert Power(7) == 0x100_0000_0000_0000;
  }

  lemma U64IsInjective(x: nat, y: nat)
    requires x < TWO64 && y < TWO64 && U64(x) == U64(y)
    ensures x == y
  {
    PowerOfEight();
    hide BigEndian;
    BigEndianIsInjective(x, y, 8);
  }

  function Header(previous: Bytes, index: nat, length: nat, digest: Bytes): Bytes {
    DOMAIN + previous + U64(index) + U64(length) + digest
  }

  lemma HeadersDiffer(p: Bytes, i: nat, n: nat, d: Bytes, p': Bytes, i': nat, n': nat, d': Bytes)
    requires |p| == |p'| == DIGEST && |d| == |d'| == DIGEST
    requires i < TWO64 && i' < TWO64 && n < TWO64 && n' < TWO64
    requires Header(p, i, n, d) == Header(p', i', n', d')
    ensures p == p' && i == i' && n == n' && d == d'
  {
    hide U64;
    var h, h' := Header(p, i, n, d), Header(p', i', n', d');
    assert h[16..48] == p && h'[16..48] == p';
    assert h[48..56] == U64(i) && h'[48..56] == U64(i');
    assert h[56..64] == U64(n) && h'[56..64] == U64(n');
    assert h[64..96] == d && h'[64..96] == d';
    U64IsInjective(i, i');
    U64IsInjective(n, n');
  }

  // ---- the chain -----------------------------------------------------------------------

  const ZEROS: Bytes := seq(DIGEST, _ => 0 as Byte)

  function HeaderAt(hash: Hash, parts: seq<Bytes>, n: nat): Bytes
    requires 0 < n <= |parts|
    decreases n, 0
  {
    Header(Chain(hash, parts, n - 1), n - 1, |parts[n - 1]|, hash(parts[n - 1]))
  }

  /** The digest after the first n chunks. */
  function Chain(hash: Hash, parts: seq<Bytes>, n: nat): Bytes
    requires n <= |parts|
    decreases n, 1
  {
    if n == 0 then ZEROS else hash(HeaderAt(hash, parts, n))
  }

  /** The limits of JavaScript arrays: fewer than 2^32 elements, fewer than 2^53 bytes. */
  predicate InLimits(parts: seq<Bytes>) {
    |parts| < 0x1_0000_0000 && forall i :: 0 <= i < |parts| ==> |parts[i]| < 0x20_0000_0000_0000
  }

  /** What the chain over the first n chunks hashes: each chunk and each header. */
  ghost function Hashed(hash: Hash, parts: seq<Bytes>, n: nat): set<Bytes>
    requires n <= |parts|
  {
    if n == 0 then {} else Hashed(hash, parts, n - 1) + {parts[n - 1], HeaderAt(hash, parts, n)}
  }

  predicate Collide(hash: Hash, x: Bytes, y: Bytes) { x != y && hash(x) == hash(y) }

  lemma ChainLength(hash: Hash, parts: seq<Bytes>, n: nat)
    requires IsDigest(hash) && n <= |parts|
    ensures |Chain(hash, parts, n)| == DIGEST
  {
  }

  /** Chains of the same length and digest over different chunks hash two strings that collide. */
  lemma {:induction false} SameLengthBinds(hash: Hash, a: seq<Bytes>, b: seq<Bytes>, n: nat) returns (x: Bytes, y: Bytes)
    requires IsDigest(hash) && InLimits(a) && InLimits(b) && n <= |a| && n <= |b| && a[..n] != b[..n]
    ensures Chain(hash, a, n) == Chain(hash, b, n) ==>
              x in Hashed(hash, a, n) && y in Hashed(hash, b, n) && Collide(hash, x, y)
    decreases n
  {
    assert n > 0;
    x, y := HeaderAt(hash, a, n), HeaderAt(hash, b, n);
    if x == y {
      ChainLength(hash, a, n - 1);
      ChainLength(hash, b, n - 1);
      HeadersDiffer(Chain(hash, a, n - 1), n - 1, |a[n - 1]|, hash(a[n - 1]),
                    Chain(hash, b, n - 1), n - 1, |b[n - 1]|, hash(b[n - 1]));
      if a[n - 1] != b[n - 1] {
        x, y := a[n - 1], b[n - 1];
      } else {
        assert a[..n] == a[..n - 1] + [a[n - 1]] && b[..n] == b[..n - 1] + [b[n - 1]];
        x, y := SameLengthBinds(hash, a, b, n - 1);
      }
    }
  }

  /** Two different non-empty lists of chunks, in content, boundaries, order or count: if they have one
      digest, two of the strings their chains hash collide. */
  lemma ChainBinds(hash: Hash, a: seq<Bytes>, b: seq<Bytes>) returns (x: Bytes, y: Bytes)
    requires IsDigest(hash) && InLimits(a) && InLimits(b) && a != [] && b != [] && a != b
    ensures Chain(hash, a, |a|) == Chain(hash, b, |b|) ==>
              x in Hashed(hash, a, |a|) && y in Hashed(hash, b, |b|) && Collide(hash, x, y)
  {
    if |a| == |b| {
      assert a[..|a|] == a && b[..|a|] == b;
      x, y := SameLengthBinds(hash, a, b, |a|);
    } else {
      x, y := HeaderAt(hash, a, |a|), HeaderAt(hash, b, |b|);
      if x == y {
        ChainLength(hash, a, |a| - 1);
        ChainLength(hash, b, |b| - 1);
        HeadersDiffer(Chain(hash, a, |a| - 1), |a| - 1, |a[|a| - 1]|, hash(a[|a| - 1]),
                      Chain(hash, b, |b| - 1), |b| - 1, |b[|b| - 1]|, hash(b[|b| - 1]));
      }
    }
  }

  // ---- the revision as hex -------------------------------------------------------------

  const HEX := "0123456789abcdef"

  function Hex(b: Bytes): string {
    if b == [] then [] else [HEX[b[0] as int / 16], HEX[b[0] as int % 16]] + Hex(b[1..])
  }

  lemma DigitsDiffer(i: nat, j: nat)
    requires i < 16 && j < 16 && HEX[i] == HEX[j]
    ensures i == j
  {
  }

  lemma {:induction false} HexIsInjective(a: Bytes, b: Bytes)
    requires Hex(a) == Hex(b)
    ensures a == b
  {
    HexLength(a);
    HexLength(b);
    if a != [] {
      assert Hex(a)[0] == HEX[a[0] as int / 16] && Hex(a)[1] == HEX[a[0] as int % 16];
      assert Hex(b)[0] == HEX[b[0] as int / 16] && Hex(b)[1] == HEX[b[0] as int % 16];
      DigitsDiffer(a[0] as int / 16, b[0] as int / 16);
      DigitsDiffer(a[0] as int % 16, b[0] as int % 16);
      assert Hex(a)[2..] == Hex(a[1..]) && Hex(b)[2..] == Hex(b[1..]);
      HexIsInjective(a[1..], b[1..]);
    }
  }

  lemma {:induction false} HexLength(b: Bytes)
    ensures |Hex(b)| == 2 * |b|
  {
    if b != [] { HexLength(b[1..]); }
  }

  lemma {:induction false} HexCharacters(b: Bytes)
    ensures forall i :: 0 <= i < |Hex(b)| ==> Hex(b)[i] in HEX
  {
    if b != [] { HexCharacters(b[1..]); }
  }

  // ---- the methods ---------------------------------------------------------------------

  /** TypedArray.set(source, offset). */
  method SetAt(target: array<Byte>, source: Bytes, offset: nat)
    requires offset + |source| <= target.Length
    modifies target
    ensures target[..] == old(target[..])[..offset] + source + old(target[..])[offset + |source|..]
  {
    for i := 0 to |source|
      invariant target[..] == old(target[..])[..offset] + source[..i] + old(target[..])[offset + i..]
    {
      target[offset + i] := source[i];
    }
  }

  /** The 96 bytes that are hashed for one chunk. */
  method BuildHeader(previous: Bytes, index: nat, length: nat, digest: Bytes) returns (header: array<Byte>)
    requires |previous| == DIGEST && |digest| == DIGEST
    ensures fresh(header) && header[..] == Header(previous, index, length, digest)
  {
    hide U64;
    header := new Byte[|DOMAIN| + 32 + 8 + 8 + 32](_ => 0);
    SetAt(header, DOMAIN, 0);
    assert header[..16] == DOMAIN;
    SetAt(header, previous, |DOMAIN|);
    assert header[..48] == DOMAIN + previous;
    SetAt(header, U64(index), |DOMAIN| + 32);
    assert header[..56] == DOMAIN + previous + U64(index);
    SetAt(header, U64(length), |DOMAIN| + 40);
    assert header[..64] == DOMAIN + previous + U64(index) + U64(length);
    SetAt(header, digest, |DOMAIN| + 48);
    assert header[..96] == DOMAIN + previous + U64(index) + U64(length) + digest;
  }

  /** chunkChainDigest. */
  method ChunkChainDigest(hash: Hash, parts: seq<Bytes>) returns (revision: string)
    requires IsDigest(hash)
    ensures revision == Hex(Chain(hash, parts, |parts|))
  {
    hide Header;
    var previous := ZEROS;
    for index := 0 to |parts|
      invariant previous == Chain(hash, parts, index) && |previous| == DIGEST
    {
      var chunkDigest := hash(parts[index]);
      var header := BuildHeader(previous, index, |parts[index]|, chunkDigest);
      previous := hash(header[..]);
    }
    revision := Hex(previous);
  }

  function Concat(parts: seq<Bytes>): Bytes {
    if parts == [] then [] else Concat(parts[..|parts| - 1]) + parts[|parts| - 1]
  }

  function TotalLength(parts: seq<Bytes>): nat {
    if parts == [] then 0 else TotalLength(parts[..|parts| - 1]) + |parts[|parts| - 1]|
  }

  lemma {:induction false} ConcatLength(parts: seq<Bytes>, n: nat)
    requires n <= |parts|
    ensures |Concat(parts)| == TotalLength(parts)
    ensures TotalLength(parts[..n]) <= TotalLength(parts)
    decreases |parts|
  {
    if n < |parts| {
      ConcatLength(parts[..|parts| - 1], n);
      assert parts[..|parts| - 1][..n] == parts[..n];
    } else {
      assert parts[..n] == parts;
      if parts != [] { ConcatLength(parts[..|parts| - 1], 0); }
    }
  }

  /** The reassembly loop of validateRecipe. */
  method Reassemble(parts: seq<Bytes>) returns (bytes: array<Byte>)
    ensures fresh(bytes) && bytes[..] == Concat(parts)
  {
    ConcatLength(parts, 0);
    bytes := new Byte[TotalLength(parts)](_ => 0);
    var offset := 0;
    for i := 0 to |parts|
      invariant offset == TotalLength(parts[..i]) <= bytes.Length == TotalLength(parts)
      invariant bytes[..offset] == Concat(parts[..i])
    {
      assert parts[..i + 1][..i] == parts[..i];
      ConcatLength(parts, i + 1);
      SetAt(bytes, parts[i], offset);
      assert bytes[..offset + |parts[i]|] == Concat(parts[..i]) + parts[i];
      offset := offset + |parts[i]|;
    }
    assert parts[..|parts|] == parts;
    ConcatLength(parts, 0);
    assert bytes[..offset] == bytes[..];
  }
}
