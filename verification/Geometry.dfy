/**
  The geometry of an accounts drive: what a configuration must satisfy to be formatted,
  checked as the host does with 64-bit machine words, and what the checks establish
  about the regions in plain arithmetic.
 */
module Geometry {
  import opened MachineWords
  import opened ByteCodec

  const HEADER_SIZE := 4096
  const MIN_REGISTRY_OFFSET := 0x100

  const SINGLE_ASSET := 0
  const WIDE := 1
  const SPARSE := 2

  datatype Config = Config(
    driveLength: nat, capacity: nat, loadLimit: nat, seed: seq<Byte>, profile: nat, slotSize: nat, tableOffset: nat,
    registryOffset: nat, registryCapacity: nat,
    sparseOffset: nat, sparseCapacity: nat, sparseLoadLimit: nat, sparseSlotSize: nat)
  {
    /** Every field is a machine word of its declared width. */
    ghost predicate Words() {
      && driveLength < TWO_64 && capacity < TWO_64 && loadLimit < TWO_64 && tableOffset < TWO_64
      && registryOffset < TWO_64 && registryCapacity < TWO_64
      && sparseOffset < TWO_64 && sparseCapacity < TWO_64 && sparseLoadLimit < TWO_64
      && |seed| == 32 && profile < 0x1_0000_0000 && slotSize < 0x1_0000_0000 && sparseSlotSize < 0x1_0000_0000
    }
  }

  /** The bits two numbers share. */
  function And(x: nat, y: nat): (r: nat)
    ensures r <= x
    decreases x
  {
    if x == 0 then 0 else 2 * And(x / 2, y / 2) + (if x % 2 == 1 && y % 2 == 1 then 1 else 0)
  }

  predicate PowerOfTwo(x: nat) {
    x == 1 || (x > 0 && x % 2 == 0 && PowerOfTwo(x / 2))
  }

  lemma {:induction false} AndSelf(x: nat)
    ensures And(x, x) == x
  {
    if x > 0 { AndSelf(x / 2); }
  }

  /** The bit trick both hosts use is exactly the power-of-two test. */
  lemma {:induction false} BitTrick(x: nat)
    requires x > 0
    ensures And(x, x - 1) == 0 <==> PowerOfTwo(x)
  {
    if x % 2 == 1 {
      assert (x - 1) / 2 == x / 2;
      AndSelf(x / 2);
    } else {
      assert (x - 1) / 2 == x / 2 - 1;
      BitTrick(x / 2);
    }
  }

  function Defaults(c: Config): (d: Config) {
    var d := c.(
      slotSize := if c.slotSize == 0 then 64 else c.slotSize,
      tableOffset := if c.tableOffset == 0 then HEADER_SIZE else c.tableOffset,
      loadLimit := if c.loadLimit == 0 && c.capacity > 0 then c.capacity - c.capacity / 8 else c.loadLimit);
    if c.profile != SPARSE then d
    else d.(
      sparseSlotSize := if c.sparseSlotSize == 0 then 64 else c.sparseSlotSize,
      sparseLoadLimit := if c.sparseLoadLimit == 0 && c.sparseCapacity > 0 then c.sparseCapacity - c.sparseCapacity / 8
                         else c.sparseLoadLimit)
  }

  // -------------------------------------------------------------------- the checks

  datatype Region = Region(off: nat, len: nat)

  /** What can be checked field by field. */
  predicate FieldsFit(c: Config) {
    && c.driveLength != 0 && And(c.driveLength, c.driveLength - 1) == 0
    && c.profile <= SPARSE
    && (if c.profile == WIDE then c.slotSize >= 128 && And(c.slotSize, c.slotSize - 1) == 0
        else if c.profile == SINGLE_ASSET then c.slotSize == 64 || c.slotSize == 32
        else c.slotSize == 64)
    && c.capacity >= 2 && 1 <= c.loadLimit < c.capacity
    && c.tableOffset >= HEADER_SIZE && c.tableOffset % c.slotSize == 0
    && (c.profile != SINGLE_ASSET ==> c.registryOffset != 0)
    && (c.registryOffset != 0 ==>
          && 1 <= c.registryCapacity <= 65536 && c.registryOffset % 32 == 0
          && (c.registryOffset < HEADER_SIZE ==>
                c.registryOffset >= MIN_REGISTRY_OFFSET && c.registryOffset + 32 * c.registryCapacity <= HEADER_SIZE))
    && (c.profile == SPARSE ==>
          && (c.sparseSlotSize == 64 || c.sparseSlotSize == 32)
          && c.sparseCapacity >= 2 && 1 <= c.sparseLoadLimit < c.sparseCapacity
          && c.sparseOffset >= HEADER_SIZE && c.sparseOffset % c.sparseSlotSize == 0)
  }

  /** The regions a drive is divided into; each length is the machine product the host computes. */
  function Regions(c: Config): (r: seq<Region>) {
    [Region(0, HEADER_SIZE), Region(c.tableOffset, Low64(c.capacity * c.slotSize))] +
    (if c.registryOffset >= HEADER_SIZE then [Region(c.registryOffset, Low64(32 * c.registryCapacity))] else []) +
    (if c.profile == SPARSE then [Region(c.sparseOffset, Low64(c.sparseCapacity * c.sparseSlotSize))] else [])
  }

  predicate Inside(r: Region, length: nat) {
    Add64(r.off, r.len) <= length && Add64(r.off, r.len) >= r.off
  }

  predicate Overlap(a: Region, b: Region) {
    a.off < Add64(b.off, b.len) && b.off < Add64(a.off, a.len)
  }

  predicate Accepts(c: Config) {
    && FieldsFit(c)
    && (forall i :: 0 <= i < |Regions(c)| ==> Inside(Regions(c)[i], c.driveLength))
    && (forall i, j :: 0 <= i < j < |Regions(c)| ==> !Overlap(Regions(c)[i], Regions(c)[j]))
  }

  method Validate(c: Config) returns (ok: bool)
    ensures ok <==> Accepts(c)
  {
    if !FieldsFit(c) {
      return false;
    }
    var regions := Regions(c);
    for i := 0 to |regions|
      invariant forall k :: 0 <= k < i ==> Inside(regions[k], c.driveLength)
    {
      if !Inside(regions[i], c.driveLength) {
        return false;
      }
    }
    for i := 0 to |regions|
      invariant forall k, l :: 0 <= k < l < |regions| && k < i ==> !Overlap(regions[k], regions[l])
    {
      for j := i + 1 to |regions|
        invariant forall l :: i < l < j ==> !Overlap(regions[i], regions[l])
      {
        if Overlap(regions[i], regions[j]) {
          return false;
        }
      }
    }
    return true;
  }

  // ------------------------------------------------------- what the checks establish

  /** No table is larger than a machine word can say. */
  predicate NoWrap(c: Config) {
    && c.capacity * c.slotSize < TWO_64
    && (c.profile == SPARSE ==> c.sparseCapacity * c.sparseSlotSize < TWO_64)
  }

  predicate Apart(a: Region, b: Region) {
    a.off + a.len <= b.off || b.off + b.len <= a.off
  }

  predicate Placed(r: Region, from: nat, to: nat) {
    from <= r.off && r.off + r.len <= to
  }

  function AccountsRegion(c: Config): (r: Region) {
    Region(c.tableOffset, c.capacity * c.slotSize)
  }

  function RegistryRegion(c: Config): (r: Region) {
    if c.registryOffset == 0 then Region(MIN_REGISTRY_OFFSET, 0) else Region(c.registryOffset, 32 * c.registryCapacity)
  }

  function SparseRegion(c: Config): (r: Region) {
    if c.profile == SPARSE then Region(c.sparseOffset, c.sparseCapacity * c.sparseSlotSize) else Region(HEADER_SIZE, 0)
  }

  /** Plain arithmetic: the header fields, registry and tables are disjoint and inside the drive. */
  ghost predicate Sound(c: Config) {
    && FieldsFit(c)
    && HEADER_SIZE <= c.driveLength
    && Placed(AccountsRegion(c), HEADER_SIZE, c.driveLength)
    && Placed(RegistryRegion(c), MIN_REGISTRY_OFFSET, c.driveLength)
    && Placed(SparseRegion(c), HEADER_SIZE, c.driveLength)
    && Apart(AccountsRegion(c), RegistryRegion(c))
    && Apart(AccountsRegion(c), SparseRegion(c))
    && Apart(RegistryRegion(c), SparseRegion(c))
  }

  lemma {:induction false} InsideIsPlain(r: Region, length: nat)
    requires r.off < TWO_64 && r.len < TWO_64 && length < TWO_64
    ensures Inside(r, length) <==> r.off + r.len <= length
  {
    if r.off + r.len >= TWO_64 {
      assert Low64(r.off + r.len) == Low64(r.off + r.len - TWO_64) == r.off + r.len - TWO_64;
    }
  }

  /**
    The checks establish the layout exactly for the configurations whose table sizes do
    not wrap a machine word.
   */
  lemma {:induction false} AcceptedIsSound(c: Config)
    requires c.Words() && Accepts(c)
    ensures Sound(c) <==> NoWrap(c)
  {
    var rs := Regions(c);
    forall i | 0 <= i < |rs| ensures rs[i].off + rs[i].len <= c.driveLength {
      InsideIsPlain(rs[i], c.driveLength);
    }
    assert !Overlap(rs[0], rs[1]);
    if NoWrap(c) {
      assert rs[1] == AccountsRegion(c);
      if c.registryOffset >= HEADER_SIZE {
        assert rs[2] == RegistryRegion(c);
        assert !Overlap(rs[1], rs[2]);
      }
      if c.profile == SPARSE {
        assert rs[|rs| - 1] == SparseRegion(c);
        assert !Overlap(rs[1], rs[|rs| - 1]);
        assert c.registryOffset >= HEADER_SIZE ==> !Overlap(rs[2], rs[3]);
      }
    }
  }

  /** A drive of two pages whose table would need more bytes than a machine word counts. */
  const WRAPPING := Config(8192, 0x400_0000_0000_0001, 1, Zeros(32), SINGLE_ASSET, 64, 4096, 0, 0, 0, 0, 0, 0)

  /** The exceptions are real: a configuration is accepted whose table is far larger than its drive. */
  lemma {:induction false} WrappingIsAccepted()
    ensures WRAPPING.Words() && Accepts(WRAPPING) && !Sound(WRAPPING)
  {
    var c := WRAPPING;
    BitTrick(8192);
    assert FieldsFit(c);
    assert Low64(c.capacity * c.slotSize) == Low64(64) == 64;
    assert Regions(c) == [Region(0, HEADER_SIZE), Region(4096, 64)];
    assert Inside(Region(0, HEADER_SIZE), 8192) && Inside(Region(4096, 64), 8192);
  }
}
