/**
  Bytes and the fixed-width integers the accounts drive writes: little-endian counters
  and nonces, big-endian balances, and the splice that one store write performs.
 */
module ByteCodec {
  import opened Options

  type Byte = b: nat | b < 256

  /** The bytes of a machine word: eight. */
  type WordSize = n: nat | 7 < n < 9 witness 8
  const EIGHT: WordSize

  /** The bytes of half a machine word: four. */
  type HalfSize = n: nat | 3 < n < 5 witness 4
  const FOUR: HalfSize

  /** The bytes of a full balance: thirty-two. */
  type BalanceSize = n: nat | 31 < n < 33 witness 32
  const THIRTY_TWO: BalanceSize

  lemma {:induction false} HalfBound()
    ensures Pow256(FOUR) == 0x1_0000_0000
  {
    assert Pow256(FOUR) == 256 * Pow256(3) && Pow256(3) == 256 * Pow256(2) && Pow256(2) == 256 * Pow256(1);
  }

  function Zeros(n: nat): (z: seq<Byte>)
    ensures |z| == n
  {
    seq(n, _ => 0)
  }

  predicate IsZero(b: seq<Byte>) {
    forall i :: 0 <= i < |b| ==> b[i] == 0
  }

  function Pow256(n: nat): (p: nat)
    ensures p > 0
  {
    if n == 0 then 1 else 256 * Pow256(n - 1)
  }

  /** The remainder of v by p, by taking p away. */
  function Wrap(v: nat, p: nat): (r: nat)
    requires p > 0
    ensures r < p && (v < p ==> r == v)
  {
    if v < p then v else Wrap(v - p, p)
  }

  // ------------------------------------------------------------ little endian

  function FromLE(b: seq<Byte>): (v: nat) {
    if b == [] then 0 else b[0] + 256 * FromLE(b[1..])
  }

  function LE(n: nat, v: nat): (b: seq<Byte>)
    ensures |b| == n
    decreases n
  {
    if n == 0 then [] else [v % 256] + LE(n - 1, v / 256)
  }

  lemma {:induction false} FromLEBound(b: seq<Byte>)
    ensures FromLE(b) < Pow256(|b|)
  {
    if b != [] { FromLEBound(b[1..]); }
  }

  /** A value past the width comes back as its remainder. */
  lemma {:induction false} LERoundTrip(n: nat, v: nat)
    ensures FromLE(LE(n, v)) == Wrap(v, Pow256(n))
    ensures v < Pow256(n) ==> FromLE(LE(n, v)) == v
    decreases n
  {
    if n > 0 {
      LERoundTrip(n - 1, v / 256);
      assert LE(n, v)[1..] == LE(n - 1, v / 256);
      WrapByDigits(v, Pow256(n - 1));
    } else {
      WrapByOne(v);
    }
  }

  lemma {:induction false} WrapByOne(v: nat)
    ensures Wrap(v, 1) == 0
  {
    if v > 0 { WrapByOne(v - 1); }
  }

  lemma {:induction false} WrapByDigits(v: nat, p: nat)
    requires p > 0
    ensures v % 256 + 256 * Wrap(v / 256, p) == Wrap(v, 256 * p)
    decreases v
  {
    if v >= 256 * p {
      WrapByDigits(v - 256 * p, p);
      assert (v - 256 * p) / 256 == v / 256 - p && (v - 256 * p) % 256 == v % 256;
    }
  }

  lemma {:induction false} FromLERoundTrip(b: seq<Byte>)
    ensures LE(|b|, FromLE(b)) == b
  {
    if b != [] {
      FromLERoundTrip(b[1..]);
      assert FromLE(b) / 256 == FromLE(b[1..]) && FromLE(b) % 256 == b[0];
    }
  }

  // --------------------------------------------------------------- big endian

  function FromBE(b: seq<Byte>): (v: nat) {
    if b == [] then 0 else 256 * FromBE(b[..|b| - 1]) + b[|b| - 1]
  }

  function BE(n: nat, v: nat): (b: seq<Byte>)
    ensures |b| == n
    decreases n
  {
    if n == 0 then [] else BE(n - 1, v / 256) + [v % 256]
  }

  lemma {:induction false} FromBEBound(b: seq<Byte>)
    ensures FromBE(b) < Pow256(|b|)
  {
    if b != [] { FromBEBound(b[..|b| - 1]); }
  }

  lemma {:induction false} BERoundTrip(n: nat, v: nat)
    requires v < Pow256(n)
    ensures FromBE(BE(n, v)) == v
    decreases n
  {
    if n > 0 {
      BERoundTrip(n - 1, v / 256);
      assert BE(n, v)[..n - 1] == BE(n - 1, v / 256);
    }
  }

  lemma {:induction false} ZeroIsZeros(b: seq<Byte>)
    ensures FromBE(b) == 0 <==> IsZero(b)
    ensures FromLE(Zeros(|b|)) == 0
  {
    if b != [] {
      ZeroIsZeros(b[..|b| - 1]);
      assert IsZero(b) ==> IsZero(b[..|b| - 1]);
      assert IsZero(b[..|b| - 1]) && b[|b| - 1] == 0 ==> IsZero(b);
      assert Zeros(|b|)[1..] == Zeros(|b| - 1);
    }
  }

  /** The guest reads a balance by shifting in one byte at a time. */
  method ReadBE(b: seq<Byte>) returns (v: nat)
    ensures v == FromBE(b)
  {
    v := 0;
    for i := 0 to |b|
      invariant v == FromBE(b[..i])
    {
      assert b[..i + 1][..i] == b[..i];
      v := 256 * v + b[i];
    }
    assert b[..|b|] == b;
  }

  /** The guest writes a balance from its last byte back, or refuses one that does not fit. */
  method PutBE(n: nat, v: int) returns (r: Option<seq<Byte>>)
    ensures r.Some? <==> 0 <= v < Pow256(n)
    ensures r.Some? ==> r.value == BE(n, v)
  {
    if v < 0 || v >= Pow256(n) {
      return None;
    }
    var buf: seq<Byte>, rest: int := [], v;
    for i := 0 to n
      invariant |buf| == i && rest >= 0
      invariant BE(n, v) == BE(n - i, rest) + buf
    {
      buf, rest := [rest % 256] + buf, rest / 256;
    }
    return Some(buf);
  }

  // -------------------------------------------------------------------- writes

  /** The image after writing b at off. */
  function Splice(mem: seq<Byte>, off: nat, b: seq<Byte>): (r: seq<Byte>)
    requires off + |b| <= |mem|
    ensures |r| == |mem|
    ensures forall k :: 0 <= k < |mem| ==> r[k] == if off <= k < off + |b| then b[k - off] else mem[k]
  {
    mem[..off] + b + mem[off + |b|..]
  }

  lemma {:induction false} SpliceReadsBack(mem: seq<Byte>, off: nat, b: seq<Byte>)
    requires off + |b| <= |mem|
    ensures Splice(mem, off, b)[off..off + |b|] == b
  {
  }

  lemma {:induction false} SpliceElsewhere(mem: seq<Byte>, off: nat, b: seq<Byte>, lo: nat, hi: nat)
    requires off + |b| <= |mem| && lo <= hi <= |mem|
    requires hi <= off || off + |b| <= lo
    ensures Splice(mem, off, b)[lo..hi] == mem[lo..hi]
  {
  }

  /** Writing back what was there undoes a write. */
  lemma {:induction false} SpliceUndone(mem: seq<Byte>, off: nat, b: seq<Byte>)
    requires off + |b| <= |mem|
    ensures Splice(Splice(mem, off, b), off, mem[off..off + |b|]) == mem
  {
  }
}
