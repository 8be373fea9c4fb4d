// The byte string hashed for one credit, and the chain of roots it extends.
module HashChain {
  import opened Ledger

  type byte = b: int | 0 <= b < 256
  type Bytes32 = s: seq<byte> | |s| == 32 witness Zeros(32)

  function Zeros(n: nat): (s: seq<byte>)
    ensures |s| == n
  {
    if n == 0 then [] else [0] + Zeros(n - 1)
  }

  const ZERO_ROOT: Bytes32 := Zeros(32)

  // The host's functions: the hash, the serialised form of an address, the bytes of an identifier.
  datatype Codec = Codec(sha256: seq<byte> -> Bytes32, xdr: Address -> seq<byte>, raw: Uid -> Bytes32)

  // What one credit folds into the root.
  datatype Link = Link(programme: Address, amount: int, attestation: Bytes32, at: int)

  predicate InRange(l: Link) {
    -I128_MAX - 1 <= l.amount <= I128_MAX && 0 <= l.at <= U64_MAX
  }

  // The base-256 digit of n at `place`; a negative n reads as two's complement.
  function Digit(n: int, place: nat): byte
    decreases place
  {
    if place == 0 then n % 256 else Digit(n / 256, place - 1)
  }

  function BigEndian(n: int, width: nat): seq<byte> {
    seq(width, i requires 0 <= i < width => Digit(n, width - 1 - i))
  }

  function Preimage(codec: Codec, root: Bytes32, l: Link): seq<byte> {
    root + codec.xdr(l.programme) + BigEndian(l.amount, 16) + l.attestation + BigEndian(l.at, 8)
  }

  function Fold(codec: Codec, root: Bytes32, l: Link): Bytes32 {
    codec.sha256(Preimage(codec, root, l))
  }

  function Chain(codec: Codec, links: seq<Link>): Bytes32 {
    if links == [] then ZERO_ROOT
    else Fold(codec, Chain(codec, links[..|links| - 1]), links[|links| - 1])
  }

  // ---- the preimage determines what was folded ----

  function Pow256(width: nat): nat {
    if width == 0 then 1 else 256 * Pow256(width - 1)
  }

  lemma {:induction false} DigitsInjective(a: int, b: int, width: nat)
    requires a - b < Pow256(width) && b - a < Pow256(width)
    requires forall k :: 0 <= k < width ==> Digit(a, k) == Digit(b, k)
    ensures a == b
    decreases width
  {
    if width > 0 {
      assert Digit(a, 0) == Digit(b, 0);
      forall k | 0 <= k < width - 1
        ensures Digit(a / 256, k) == Digit(b / 256, k)
      {
        assert Digit(a, k + 1) == Digit(b, k + 1);
      }
      DigitsInjective(a / 256, b / 256, width - 1);
    }
  }

  lemma {:induction false} BigEndianInjective(a: int, b: int, width: nat)
    requires a - b < Pow256(width) && b - a < Pow256(width)
    requires BigEndian(a, width) == BigEndian(b, width)
    ensures a == b
  {
    forall k | 0 <= k < width
      ensures Digit(a, k) == Digit(b, k)
    {
      assert BigEndian(a, width)[width - 1 - k] == BigEndian(b, width)[width - 1 - k];
    }
    DigitsInjective(a, b, width);
  }

  lemma WidthsCoverRanges()
    ensures Pow256(8) == U64_MAX + 1
    ensures Pow256(16) == 2 * (I128_MAX + 1)
  {
    assert Pow256(4) == 0x1_0000_0000;
    assert Pow256(8) == 0x100 * (0x100 * (0x100 * (0x100 * Pow256(4))));
    assert Pow256(12) == 0x100 * (0x100 * (0x100 * (0x100 * Pow256(8))));
    assert Pow256(16) == 0x100 * (0x100 * (0x100 * (0x100 * Pow256(12))));
  }

  ghost predicate XdrInjective(codec: Codec) {
    forall a, b :: codec.xdr(a) == codec.xdr(b) ==> a == b
  }

  lemma SplitConcat<T>(s: seq<T>, t: seq<T>, u: seq<T>, v: seq<T>)
    requires s + t == u + v
    requires |s| == |u| || |t| == |v|
    ensures s == u && t == v
  {
    assert |s + t| == |u + v|;
    assert (s + t)[..|s|] == s && (u + v)[..|s|] == u;
    assert (s + t)[|s|..] == t && (u + v)[|s|..] == v;
  }

  // Fixed-width fields on both sides of one variable-length address leave no ambiguity.
  lemma PreimageInjective(codec: Codec, r: Bytes32, l: Link, q: Bytes32, m: Link)
    requires XdrInjective(codec)
    requires InRange(l) && InRange(m)
    requires Preimage(codec, r, l) == Preimage(codec, q, m)
    ensures r == q && l == m
  {
    var x, y := codec.xdr(l.programme), codec.xdr(m.programme);
    var a, b := BigEndian(l.amount, 16), BigEndian(m.amount, 16);
    SplitConcat(r + x + a + l.attestation, BigEndian(l.at, 8), q + y + b + m.attestation, BigEndian(m.at, 8));
    SplitConcat(r + x + a, l.attestation, q + y + b, m.attestation);
    SplitConcat(r + x, a, q + y, b);
    SplitConcat(r, x, q, y);
    WidthsCoverRanges();
    BigEndianInjective(l.amount, m.amount, 16);
    BigEndianInjective(l.at, m.at, 8);
  }

  // ---- reading a preimage back ----

  // Bytes as one number, the most significant first.
  function Unsigned(bytes: seq<byte>): nat {
    if bytes == [] then 0 else 256 * Unsigned(bytes[..|bytes| - 1]) + bytes[|bytes| - 1]
  }

  // ... and in two's complement.
  function Signed(bytes: seq<byte>): int {
    var n := Unsigned(bytes);
    if 2 * n < Pow256(|bytes|) then n else n - Pow256(|bytes|)
  }

  lemma LastByte(n: int, width: nat)
    requires 0 < width
    ensures BigEndian(n, width) == BigEndian(n / 256, width - 1) + [n % 256]
  {
    forall i | 0 <= i < width - 1
      ensures BigEndian(n, width)[i] == BigEndian(n / 256, width - 1)[i]
    {
      assert Digit(n, width - 1 - i) == Digit(n / 256, width - 2 - i);
    }
    assert BigEndian(n, width)[width - 1] == Digit(n, 0) == n % 256;
  }

  lemma {:induction false} BigEndianReads(n: int, width: nat)
    requires 0 <= n + Pow256(width) < 2 * Pow256(width)
    ensures Unsigned(BigEndian(n, width)) == if n < 0 then n + Pow256(width) else n
    decreases width
  {
    if width > 0 {
      var bytes := BigEndian(n, width);
      LastByte(n, width);
      BigEndianReads(n / 256, width - 1);
      assert n == n / 256 * 256 + n % 256;
    }
  }

  lemma AmountReads(n: int)
    requires -I128_MAX - 1 <= n <= I128_MAX
    ensures Signed(BigEndian(n, 16)) == n
  {
    WidthsCoverRanges();
    BigEndianReads(n, 16);
    hide Unsigned, Pow256, BigEndian;
  }

  lemma TimeReads(n: int)
    requires 0 <= n <= U64_MAX
    ensures Unsigned(BigEndian(n, 8)) == n
  {
    WidthsCoverRanges();
    BigEndianReads(n, 8);
    hide Unsigned, Pow256, BigEndian;
  }

  // What is hashed, field by field: the root, the programme's address, the amount as sixteen bytes, the
  // proof, and the time as eight, numbers with their most significant byte first.
  lemma PreimageReads(codec: Codec, root: Bytes32, l: Link)
    requires InRange(l)
    ensures var p, n := Preimage(codec, root, l), |codec.xdr(l.programme)|;
            && |p| == n + 88
            && p[..32] == root
            && p[32..n + 32] == codec.xdr(l.programme)
            && Signed(p[n + 32..n + 48]) == l.amount
            && p[n + 48..n + 80] == l.attestation
            && Unsigned(p[n + 80..]) == l.at
  {
    var p, n := Preimage(codec, root, l), |codec.xdr(l.programme)|;
    var amount, at := BigEndian(l.amount, 16), BigEndian(l.at, 8);
    assert p[32..n + 32] == codec.xdr(l.programme);
    assert p[n + 32..n + 48] == amount;
    assert p[n + 48..n + 80] == l.attestation;
    assert p[n + 80..] == at;
    hide Unsigned, Signed, BigEndian;
    AmountReads(l.amount);
    TimeReads(l.at);
  }

  // ---- the chain determines the history ----

  // Every string hashed to chain these links is in `hashed`.
  predicate Covers(codec: Codec, hashed: set<seq<byte>>, links: seq<Link>) {
    links == [] ||
    (var n := |links| - 1;
     Covers(codec, hashed, links[..n]) && Preimage(codec, Chain(codec, links[..n]), links[n]) in hashed)
  }

  // No two of the given strings collide and none hashes to the zero root.
  ghost predicate CollisionFree(codec: Codec, hashed: set<seq<byte>>) {
    && (forall x, y :: x in hashed && y in hashed && codec.sha256(x) == codec.sha256(y) ==> x == y)
    && (forall x :: x in hashed ==> codec.sha256(x) != ZERO_ROOT)
  }

  lemma FoldInjective(codec: Codec, hashed: set<seq<byte>>, r: Bytes32, l: Link, q: Bytes32, m: Link)
    requires XdrInjective(codec) && CollisionFree(codec, hashed)
    requires InRange(l) && InRange(m)
    requires Preimage(codec, r, l) in hashed && Preimage(codec, q, m) in hashed
    requires Fold(codec, r, l) == Fold(codec, q, m)
    ensures r == q && l == m
  {
    PreimageInjective(codec, r, l, q, m);
  }

  ghost predicate AllInRange(links: seq<Link>) {
    forall i :: 0 <= i < |links| ==> InRange(links[i])
  }

  // Two histories with the same root are the same history.
  lemma {:induction false} ChainInjective(codec: Codec, hashed: set<seq<byte>>, a: seq<Link>, b: seq<Link>)
    requires XdrInjective(codec) && CollisionFree(codec, hashed)
    requires AllInRange(a) && AllInRange(b)
    requires Covers(codec, hashed, a) && Covers(codec, hashed, b)
    requires Chain(codec, a) == Chain(codec, b)
    ensures a == b
  {
    if a == [] && b == [] {
    } else if a == [] || b == [] {
    } else {
      var i, l, j, m := a[..|a| - 1], a[|a| - 1], b[..|b| - 1], b[|b| - 1];
      FoldInjective(codec, hashed, Chain(codec, i), l, Chain(codec, j), m);
      ChainInjective(codec, hashed, i, j);
      assert i + [l] == a && i + [l] == b;
    }
  }
}
