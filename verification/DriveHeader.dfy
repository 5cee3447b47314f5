/**
  The header of an accounts drive: where each field of the geometry stands, what
  formatting writes there, and what opening reads back.
 */
module DriveHeader {
  import opened MachineWords
  import opened ByteCodec
  import opened Geometry

  const MAGIC: seq<Byte> := [0x63, 0x74, 0x73, 0x69, 0x61, 0x63, 0x63, 0x74]
  const VERSION := 1

  /** What the header carries of a configuration: the sparse fields only in the sparse profile. */
  function Written(c: Config): (w: Config) {
    if c.profile == SPARSE then c
    else c.(sparseOffset := 0, sparseCapacity := 0, sparseLoadLimit := 0, sparseSlotSize := 0)
  }

  lemma {:induction false} WrittenIsAccepted(c: Config)
    requires c.Words()
    ensures Written(c).Words() && (Accepts(c) <==> Accepts(Written(c))) && (NoWrap(c) <==> NoWrap(Written(c)))
  {
    assert Regions(Written(c)) == Regions(c) && FieldsFit(Written(c)) == FieldsFit(c);
  }

  // ------------------------------------------------------------------------- opening

  datatype Opened = NotFormatted | BadVersion | Opened(geometry: Config)

  function Word(h: seq<Byte>, off: nat, n: nat): (v: nat)
    requires off + n <= |h|
  {
    FromLE(h[off..off + n])
  }

  /** The geometry a header describes, on a drive of a given length. */
  function ReadHeader(h: seq<Byte>, length: nat): (r: Opened)
    requires HEADER_SIZE <= |h|
  {
    if h[0x00..0x08] != MAGIC then NotFormatted
    else if Word(h, 0x08, 4) != VERSION || Word(h, 0x0c, 4) != 0 then BadVersion
    else
      var slot := Word(h, 0x54, 4);
      Opened(Config(length, Word(h, 0x10, 8), Word(h, 0x20, 8), h[0x30..0x50], Word(h, 0x50, 4),
                    if slot == 0 then 64 else slot, Word(h, 0x18, 8), Word(h, 0x58, 8), Word(h, 0x60, 8),
                    Word(h, 0x70, 8), Word(h, 0x78, 8), Word(h, 0x80, 8), Word(h, 0x90, 4)))
  }

  // ---------------------------------------------------------------------- formatting

  /** Everything outside a range is as it was. */
  ghost predicate Only(before: seq<Byte>, after: seq<Byte>, from: nat, to: nat) {
    |after| == |before| && forall x :: 0 <= x < |before| && !(from <= x < to) ==> after[x] == before[x]
  }

  lemma {:induction false} OnlyTrans(a: seq<Byte>, b: seq<Byte>, c: seq<Byte>, from: nat, mid: nat, to: nat)
    requires from <= mid <= to && Only(a, b, from, mid) && Only(b, c, mid, to)
    ensures Only(a, c, from, to) && (mid <= |a| ==> c[from..mid] == b[from..mid])
  {
  }

  method PutBytes(h: array<Byte>, off: nat, b: seq<Byte>)
    requires off + |b| <= h.Length
    modifies h
    ensures h[off..off + |b|] == b && Only(old(h[..]), h[..], off, off + |b|)
  {
    for k := 0 to |b|
      invariant forall x :: 0 <= x < h.Length ==> h[x] == if off <= x < off + k then b[x - off] else old(h[x])
    {
      h[off + k] := b[k];
    }
  }

  method PutWord(h: array<Byte>, off: nat, v: nat)
    requires off + 8 <= h.Length && v < TWO_64
    modifies h
    ensures Word(h[..], off, 8) == v && Only(old(h[..]), h[..], off, off + 8)
  {
    assert Pow256(EIGHT) == TWO_64 by { assert Pow256(8) == TWO_64; }
    LERoundTrip(EIGHT, v);
    PutBytes(h, off, LE(EIGHT, v));
    assert h[..][off..off + 8] == LE(EIGHT, v);
  }

  method PutHalf(h: array<Byte>, off: nat, v: nat)
    requires off + 4 <= h.Length && v < 0x1_0000_0000
    modifies h
    ensures Word(h[..], off, 4) == v && Only(old(h[..]), h[..], off, off + 4)
  {
    HalfBound();
    LERoundTrip(FOUR, v);
    PutBytes(h, off, LE(FOUR, v));
    assert h[..][off..off + 4] == LE(FOUR, v);
  }

  /** Three consecutive words, as each table's fields are laid out. */
  method PutThree(h: array<Byte>, off: nat, a: nat, b: nat, c: nat)
    requires off + 24 <= h.Length && a < TWO_64 && b < TWO_64 && c < TWO_64
    modifies h
    ensures Word(h[..], off, 8) == a && Word(h[..], off + 8, 8) == b && Word(h[..], off + 16, 8) == c
    ensures Only(old(h[..]), h[..], off, off + 24)
  {
    PutWord(h, off, a);
    ghost var one := h[..];
    PutWord(h, off + 8, b);
    ghost var two := h[..];
    PutWord(h, off + 16, c);
    OnlyTrans(old(h[..]), one, two, off, off + 8, off + 16);
    OnlyTrans(old(h[..]), two, h[..], off, off + 16, off + 24);
    assert h[..][off + 8..off + 16] == two[off + 8..off + 16];
    assert h[..][off..off + 8] == two[off..off + 8];
  }

  // ------------------------------------------------------------------------ in parts

  /** The magic, the version and the accounts table's fields. */
  ghost predicate Identified(h: seq<Byte>, c: Config)
    requires HEADER_SIZE <= |h|
  {
    && h[0x00..0x08] == MAGIC && Word(h, 0x08, 4) == VERSION && Word(h, 0x0c, 4) == 0
    && Word(h, 0x10, 8) == c.capacity && Word(h, 0x18, 8) == c.tableOffset && Word(h, 0x20, 8) == c.loadLimit
  }

  /** The seed, the profile and the registry's fields. */
  ghost predicate Described(h: seq<Byte>, c: Config)
    requires HEADER_SIZE <= |h|
  {
    && h[0x30..0x50] == c.seed && Word(h, 0x50, 4) == c.profile && Word(h, 0x54, 4) == c.slotSize
    && Word(h, 0x58, 8) == c.registryOffset && Word(h, 0x60, 8) == c.registryCapacity
  }

  /** The sparse table's fields, zero where the profile has no such table. */
  ghost predicate Sparsely(h: seq<Byte>, c: Config)
    requires HEADER_SIZE <= |h|
  {
    && Word(h, 0x70, 8) == c.sparseOffset && Word(h, 0x78, 8) == c.sparseCapacity && Word(h, 0x80, 8) == c.sparseLoadLimit
    && Word(h, 0x90, 4) == c.sparseSlotSize
  }

  lemma {:induction false} PartsAgree(h: seq<Byte>, c: Config)
    requires HEADER_SIZE <= |h| && c.slotSize != 0
    requires Identified(h, c) && Described(h, c) && Sparsely(h, Written(c))
    ensures ReadHeader(h, c.driveLength) == Opened(Written(c))
  {
  }

  lemma {:induction false} SamePart(a: seq<Byte>, b: seq<Byte>, from: nat, to: nat, off: nat, n: nat)
    requires |a| == |b| && from <= off && off + n <= to <= |a| && a[from..to] == b[from..to]
    ensures Word(a, off, n) == Word(b, off, n)
  {
    forall x | off <= x < off + n ensures a[x] == b[x] {
      assert a[from..to][x - from] == b[from..to][x - from];
    }
    assert a[off..off + n] == b[off..off + n];
  }

  method PutIdentity(h: array<Byte>, c: Config)
    requires h.Length == HEADER_SIZE && c.Words() && h[..][0x0c..0x10] == Zeros(4)
    modifies h
    ensures Identified(h[..], c) && Only(old(h[..]), h[..], 0x00, 0x28)
  {
    PutBytes(h, 0x00, MAGIC);
    ghost var one := h[..];
    PutHalf(h, 0x08, VERSION);
    ghost var two := h[..];
    OnlyTrans(old(h[..]), one, two, 0x00, 0x08, 0x0c);
    assert two[0x0c..0x10] == Zeros(4);
    ZeroIsZeros(Zeros(4));
    PutThree(h, 0x10, c.capacity, c.tableOffset, c.loadLimit);
    assert h[..][0x00..0x10] == two[0x00..0x10];
    assert h[..][0x00..0x08] == two[0x00..0x08] == one[0x00..0x08];
    SamePart(h[..], two, 0x00, 0x10, 0x08, 4);
    SamePart(h[..], two, 0x00, 0x10, 0x0c, 4);
  }

  method PutDescription(h: array<Byte>, c: Config)
    requires h.Length == HEADER_SIZE && c.Words()
    modifies h
    ensures Described(h[..], c) && Only(old(h[..]), h[..], 0x30, 0x68)
  {
    PutBytes(h, 0x30, c.seed);
    ghost var one := h[..];
    PutHalf(h, 0x50, c.profile);
    ghost var two := h[..];
    PutHalf(h, 0x54, c.slotSize);
    ghost var three := h[..];
    PutWord(h, 0x58, c.registryOffset);
    ghost var four := h[..];
    PutWord(h, 0x60, c.registryCapacity);
    OnlyTrans(old(h[..]), one, two, 0x30, 0x50, 0x54);
    OnlyTrans(old(h[..]), two, three, 0x30, 0x54, 0x58);
    OnlyTrans(old(h[..]), three, four, 0x30, 0x58, 0x60);
    OnlyTrans(old(h[..]), four, h[..], 0x30, 0x60, 0x68);
    SamePart(h[..], four, 0x30, 0x60, 0x58, 8);
    assert h[..][0x30..0x58] == four[0x30..0x58] == three[0x30..0x58];
    SamePart(h[..], three, 0x30, 0x58, 0x54, 4);
    assert h[..][0x30..0x54] == three[0x30..0x54] == two[0x30..0x54];
    SamePart(h[..], two, 0x30, 0x54, 0x50, 4);
    assert h[..][0x30..0x50] == two[0x30..0x50] == one[0x30..0x50];
  }

  method PutSparse(h: array<Byte>, c: Config)
    requires h.Length == HEADER_SIZE && c.Words() && h[..][0x70..0x94] == Zeros(0x24)
    modifies h
    ensures Sparsely(h[..], Written(c)) && Only(old(h[..]), h[..], 0x70, 0x94) && h[..][0x88..0x90] == Zeros(8)
  {
    if c.profile != SPARSE {
      ZeroWords(h[..]);
      return;
    }
    PutThree(h, 0x70, c.sparseOffset, c.sparseCapacity, c.sparseLoadLimit);
    ghost var one := h[..];
    PutHalf(h, 0x90, c.sparseSlotSize);
    assert h[..][0x70..0x90] == one[0x70..0x90];
    SamePart(h[..], one, 0x70, 0x90, 0x70, 8);
    SamePart(h[..], one, 0x70, 0x90, 0x78, 8);
    SamePart(h[..], one, 0x70, 0x90, 0x80, 8);
    ZeroWords(old(h[..]));
    assert h[..][0x88..0x90] == one[0x88..0x90] == old(h[..])[0x88..0x90];
  }

  lemma {:induction false} ZeroWords(h: seq<Byte>)
    requires HEADER_SIZE <= |h| && h[0x70..0x94] == Zeros(0x24)
    ensures Word(h, 0x70, 8) == 0 == Word(h, 0x78, 8) && Word(h, 0x80, 8) == 0 == Word(h, 0x90, 4)
    ensures h[0x88..0x90] == Zeros(8)
  {
    var z := h[0x70..0x94];
    assert h[0x70..0x78] == z[..8] == Zeros(8) && h[0x78..0x80] == z[8..16] == Zeros(8);
    assert h[0x80..0x88] == z[16..24] == Zeros(8) && h[0x88..0x90] == z[24..32] == Zeros(8);
    assert h[0x90..0x94] == z[32..36] == Zeros(4);
    ZeroIsZeros(Zeros(8));
    ZeroIsZeros(Zeros(4));
  }

  /** The header of a configuration: it reads back as what was written, and its live counters are zero. */
  method HeaderFor(c: Config) returns (b: seq<Byte>)
    requires c.Words() && c.slotSize != 0
    ensures |b| == HEADER_SIZE && ReadHeader(b, c.driveLength) == Opened(Written(c))
    ensures b[0x28..0x30] == Zeros(8) && b[0x68..0x70] == Zeros(8) && b[0x88..0x90] == Zeros(8)
  {
    var h := new Byte[HEADER_SIZE](_ => 0);
    PutIdentity(h, c);
    ghost var one := h[..];
    PutDescription(h, c);
    ghost var two := h[..];
    assert two[0x70..0x94] == Zeros(0x24);
    PutSparse(h, c);
    b := h[..];
    KeptParts(one, two, b, c);
    assert b[0x28..0x30] == Zeros(8) && b[0x68..0x70] == Zeros(8);
    PartsAgree(b, c);
  }

  lemma {:induction false} KeptParts(one: seq<Byte>, two: seq<Byte>, b: seq<Byte>, c: Config)
    requires |one| == HEADER_SIZE && Only(one, two, 0x30, 0x68) && Only(two, b, 0x70, 0x94)
    requires Identified(one, c) && Described(two, c)
    ensures Identified(b, c) && Described(b, c)
  {
    assert b[0x00..0x28] == one[0x00..0x28] && b[0x30..0x68] == two[0x30..0x68];
    assert b[0x00..0x08] == one[0x00..0x08] && b[0x30..0x50] == two[0x30..0x50];
    SamePart(b, one, 0x00, 0x28, 0x08, 4);
    SamePart(b, one, 0x00, 0x28, 0x0c, 4);
    SamePart(b, one, 0x00, 0x28, 0x10, 8);
    SamePart(b, one, 0x00, 0x28, 0x18, 8);
    SamePart(b, one, 0x00, 0x28, 0x20, 8);
    SamePart(b, two, 0x30, 0x68, 0x50, 4);
    SamePart(b, two, 0x30, 0x68, 0x54, 4);
    SamePart(b, two, 0x30, 0x68, 0x58, 8);
    SamePart(b, two, 0x30, 0x68, 0x60, 8);
  }
}
