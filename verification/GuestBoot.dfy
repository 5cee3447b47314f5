/**
  Starting the guest: a blank device is formatted with the devnet geometry and becomes
  the genesis ledger; any other is opened.
 */
module GuestBoot {
  import opened ByteCodec
  import opened Geometry
  import opened DriveHeader
  import opened DriveStore
  import opened DriveFormat
  import opened GuestLedger
  import opened GuestGenesis

  const DEVNET := Config(1048576, 4096, 0, Zeros(32), SPARSE, 0, 0, 0x100, 8, 266240, 4096, 0, 0)

  lemma {:induction false} Doubled(x: nat, y: nat)
    requires PowerOfTwo(x) && y == x + x
    ensures PowerOfTwo(y)
  {
    assert y / 2 == x && y % 2 == 0;
  }

  lemma {:induction false} Sixteenfold(x: nat)
    requires PowerOfTwo(x)
    ensures PowerOfTwo(16 * x)
  {
    Doubled(x, 2 * x);
    Doubled(2 * x, 4 * x);
    Doubled(4 * x, 8 * x);
    Doubled(8 * x, 16 * x);
  }

  lemma {:induction false} DevnetIsPower(n: nat)
    requires n == 1048576
    ensures And(n, n - 1) == 0
  {
    var a: nat, b: nat, c: nat, d: nat := n / 65536, n / 4096, n / 256, n / 16;
    Sixteenfold(1);
    Sixteenfold(a);
    Sixteenfold(b);
    Sixteenfold(c);
    Sixteenfold(d);
    BitTrick(n);
  }

  /** The devnet geometry passes the checks, and no size in it wraps. */
  lemma {:induction false} DevnetIsAccepted()
    ensures DEVNET.Words() && Accepts(Defaults(DEVNET)) && NoWrap(Defaults(DEVNET)) &&
      Written(Defaults(DEVNET)) == Defaults(DEVNET)
  {
    var c := Defaults(DEVNET);
    DevnetIsPower(c.driveLength);
    assert c.slotSize == 64 && c.tableOffset == 4096 && c.loadLimit == 3584;
    assert c.sparseSlotSize == 64 && c.sparseLoadLimit == 3584;
    assert FieldsFit(c);
    assert Regions(c) == [Region(0, 4096), Region(4096, 262144), Region(266240, 262144)];
  }

  /** A ledger on a blank device is the genesis ledger, with nothing left to undo. */
  method CreateBlank(store: Store) returns (ledger: Ledger)
    requires store.data.Length == DEVNET.driveLength && store.Bytes() == Zeros(DEVNET.driveLength)
    modifies store.data, store.journal
    ensures fresh(ledger) && fresh(ledger.drive) && ledger.drive.store == store && ledger.journal == store.journal
    ensures ledger.Valid() && ledger.Log() == []
    ensures ledger.Seen() == Genesis(Defaults(DEVNET)) && FieldsFit(Defaults(DEVNET))
  {
    DevnetIsAccepted();
    var ok, d := Format(store, DEVNET);
    ledger := new Ledger(d.value);
  }
}
