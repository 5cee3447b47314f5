/**
  Formatting a drive and opening it again: from a zeroed store to a valid, empty drive,
  and from a drive's bytes back to the geometry they were formatted with.
 */
module DriveFormat {
  import opened Options
  import opened ByteCodec
  import opened Geometry
  import opened DriveSpec
  import opened DriveHeader
  import opened DriveImage
  import opened DriveStore
  import opened AccountsDrive

  /** An image that is a header with zero counters, and zeros after it, is an empty drive. */
  lemma {:induction false} HeaderIsFresh(c: Config, h: seq<Byte>, mem: seq<Byte>)
    requires Formatted(c, mem) && |h| == HEADER_SIZE && mem == Splice(Zeros(c.driveLength), 0, h)
    requires h[0x28..0x30] == Zeros(8) && h[0x68..0x70] == Zeros(8) && h[0x88..0x90] == Zeros(8)
    ensures Shows(c, mem, EMPTY) && Fits(c, EMPTY)
  {
    AccountsHeld(c, mem);
    if c.profile == SPARSE { SparseHeld(c, mem); }
    forall k | 0 <= k < |mem| && Counted(c, k) ensures mem[k] == 0 {
      if k < HEADER_SIZE {
        assert 0x28 <= k < 0x30 || 0x68 <= k < 0x70 || 0x88 <= k < 0x90;
        assert mem[k] == h[k];
        assert 0x28 <= k < 0x30 ==> h[k] == h[0x28..0x30][k - 0x28];
        assert 0x68 <= k < 0x70 ==> h[k] == h[0x68..0x70][k - 0x68];
        assert 0x88 <= k < 0x90 ==> h[k] == h[0x88..0x90][k - 0x88];
      }
    }
    FreshIsEmpty(c, mem);
  }

  lemma {:induction false} SpliceFront(mem: seq<Byte>, h: seq<Byte>)
    requires |h| <= |mem|
    ensures Splice(mem, 0, h)[..|h|] == h
  {
  }

  /** Reads and checks the header, and reads the registry. */
  method Open(store: Store) returns (r: Opened, d: Option<Drive>)
    requires HEADER_SIZE <= store.data.Length
    ensures r == ReadHeader(store.Bytes()[..HEADER_SIZE], store.data.Length)
    ensures d.Some? <==> r.Opened? && Readable(r.geometry, store.Bytes())
    ensures d.Some? ==>
      && fresh(d.value) && d.value.store == store && d.value.cfg == r.geometry
      && RegistryShown(r.geometry, store.Bytes(), d.value.tokens) && ColumnsKnown(d.value.tokens, d.value.colOff)
  {
    var h := store.ReadAt(0, HEADER_SIZE);
    assert h == store.Bytes()[..HEADER_SIZE];
    r := ReadHeader(h, store.data.Length);
    if !r.Opened? {
      return r, None;
    }
    var drive := new Drive(store, r.geometry);
    var ok, read, cols := drive.ReadRegistry();
    if !ok {
      return r, None;
    }
    drive.tokens, drive.colOff := read, cols;
    return r, Some(drive);
  }

  /** What an image shows is found again when it is opened. */
  method Reopen(store: Store, c: Config, ghost v: View) returns (d: Option<Drive>)
    requires HEADER_SIZE <= store.data.Length && Shows(c, store.Bytes(), v) && Fits(c, v)
    requires ReadHeader(store.Bytes()[..HEADER_SIZE], store.data.Length) == Opened(c)
    ensures d.Some? && fresh(d.value) && d.value.Valid() && d.value.view == v && d.value.store == store && d.value.cfg == c
  {
    ShownIsReadable(c, store.Bytes(), v.tokens);
    var r;
    r, d := Open(store);
    RegistryUnique(c, store.Bytes(), d.value.tokens, v.tokens);
    d.value.view := v;
  }

  /** Writes the header onto a zeroed store. */
  method WriteHeader(store: Store, c: Config) returns (h: seq<Byte>)
    requires c.Words() && c.slotSize != 0 && HEADER_SIZE <= store.data.Length == c.driveLength
    requires store.Bytes() == Zeros(c.driveLength)
    modifies store.data, store.journal
    ensures |h| == HEADER_SIZE && store.Bytes() == Splice(Zeros(c.driveLength), 0, h)
    ensures ReadHeader(store.Bytes()[..HEADER_SIZE], c.driveLength) == Opened(Written(c))
    ensures h[0x28..0x30] == Zeros(8) && h[0x68..0x70] == Zeros(8) && h[0x88..0x90] == Zeros(8)
  {
    h := HeaderFor(c);
    store.WriteAt(0, h);
    SpliceFront(Zeros(c.driveLength), h);
  }

  /**
    Formats a zeroed store: exactly the configurations the checks accept are formatted,
    and where no table size wraps a machine word the drive is valid and empty, with the
    geometry asked for.
   */
  method Format(store: Store, c: Config) returns (ok: bool, d: Option<Drive>)
    requires c.Words() && c.driveLength == store.data.Length && store.Bytes() == Zeros(c.driveLength)
    modifies store.data, store.journal
    ensures ok <==> Accepts(Defaults(c))
    ensures !ok ==> d.None? && store.Bytes() == old(store.Bytes()) && store.Log() == old(store.Log())
    ensures ok && NoWrap(Defaults(c)) ==>
      && d.Some? && fresh(d.value) && d.value.Valid() && d.value.view == EMPTY
      && d.value.store == store && d.value.cfg == Written(Defaults(c))
  {
    var full := Defaults(c);
    ok := Validate(full);
    if !ok {
      return ok, None;
    }
    assert Inside(Regions(full)[0], full.driveLength);
    var h := WriteHeader(store, full);
    if NoWrap(full) {
      WrittenIsAccepted(full);
      AcceptedIsSound(Written(full));
      HeaderIsFresh(Written(full), h, store.Bytes());
      d := Reopen(store, Written(full), EMPTY);
    } else {
      var r;
      r, d := Open(store);
    }
  }
}
