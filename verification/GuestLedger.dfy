/**
  The journaled ledger: the accounts drive plus the RAM state that rides with it.  Every
  method answers and changes what the ledger over values says, and notes in the journal
  what undoes it.
 */
module GuestLedger {
  import opened Options
  import opened DriveSpec
  import opened DriveTable
  import opened DriveImage
  import opened DriveStore
  import opened AccountsDrive
  import opened UndoLog
  import opened LedgerSpec

  /** The call ended as the effect says: in the new world, or in a throw that changed nothing. */
  ghost predicate Follows(e: Effect, thrown: Option<Fault>, before: World, after: World) {
    if thrown.None? then e == Did(after) else e == Thrown(thrown.value) && after == before
  }

  class Ledger {
    const journal: Journal
    const drive: AccountsDrive.Drive
    var totals: map<nat, int>
    var metadata: map<nat, Metadata>
    var portals: map<Address, nat>
    var facades: map<Address, nat>
    var fee: nat
    var crossDomain: Option<CrossDomain>
    var msgNonce: nat
    var messages: map<Digest, Status>

    /** A ledger over a drive just opened or formatted: formatting is not an undoable effect. */
    constructor (drive: AccountsDrive.Drive)
      requires drive.Valid()
      modifies drive.store.journal
      ensures Valid() && this.drive == drive && journal == drive.store.journal && journal.entries == []
      ensures Seen() == LedgerSpec.World.World(drive.cfg, drive.view, map[], map[], map[], 0, None, 0, map[])
    {
      this.drive, journal := drive, drive.store.journal;
      totals, metadata, portals, facades := map[], map[], map[], map[];
      fee, crossDomain, msgNonce, messages := 0, None, 0, map[];
      new;
      journal.Commit();
      RebuildFacades();
    }

    ghost function RamState(): (r: Ram)
      reads this
    {
      Ram(totals, metadata, portals, facades, fee, crossDomain, msgNonce, messages)
    }

    ghost predicate Valid()
      reads this, drive, drive.store.data
    {
      drive.Valid() && drive.store.journal == journal && facades == FacadesOf(drive.tokens)
    }

    ghost function Seen(): (w: World)
      reads this, drive
    {
      WorldOf(drive.cfg, drive.view, RamState())
    }

    ghost function Now(): (s: State)
      reads this, drive, drive.store.data
    {
      State(drive.store.Bytes(), RamState())
    }

    ghost function Log(): (l: seq<Undo>)
      reads journal
    {
      journal.entries
    }

    // ------------------------------------------------------------------ accounts

    method AccountAt(a: Address) returns (r: Result<Account>)
      requires Valid()
      ensures r == ReadAccount(Seen(), a)
    {
      var got := drive.GetAccount(a);
      if got.Refused? {
        return Refused(got.why);
      }
      return DriveSpec.Ok(if got.value.Some? then got.value.value else Account(0, 0));
    }

    /** Writes an account through the drive. */
    method StoreAccount(a: Address, nonce: nat, balance: int) returns (thrown: Option<Fault>)
      requires Valid()
      modifies drive`view, drive.store.data, journal
      ensures Valid()
      ensures Follows(PutAccount(old(Seen()), a, nonce, balance), thrown, old(Seen()), Seen())
      ensures Undoes(old(Now()), old(Log()), Now(), Log())
    {
      var refused := drive.SetAccount(a, nonce, balance);
      LoggedUndoes(old(drive.store.Bytes()), old(Log()), drive.store.Bytes(), Log(), RamState());
      return if refused.Some? then Some(Fault.Drive(refused.value)) else None;
    }

    method CreditEther(a: Address, n: nat) returns (thrown: Option<Fault>)
      requires Valid()
      modifies drive`view, drive.store.data, journal
      ensures Valid()
      ensures Follows(LedgerSpec.CreditEther(old(Seen()), a, n), thrown, old(Seen()), Seen())
      ensures Undoes(old(Now()), old(Log()), Now(), Log())
    {
      UndoesNothing(Now(), Log());
      if n == 0 {
        return None;
      }
      var acc := AccountAt(a);
      CreditEtherIs(Seen(), a, n, acc);
      if acc.Refused? {
        return Some(Fault.Drive(acc.why));
      }
      var nonce, balance := acc.value.nonce, acc.value.balance + n;
      thrown := StoreAccount(a, nonce, balance);
    }

    /** What a debit would write, or why it cannot. */
    method CoverEther(a: Address, n: nat) returns (thrown: Option<Fault>, nonce: nat, balance: nat)
      requires Valid() && n > 0
      ensures LedgerSpec.DebitEther(Seen(), a, n) ==
        if thrown.Some? then Thrown(thrown.value) else PutAccount(Seen(), a, nonce, balance)
    {
      var acc := AccountAt(a);
      DebitEtherIs(Seen(), a, n, acc);
      var (refused, left) := Taking(acc, n, EtherBalance);
      return refused, left.nonce, left.balance;
    }

    method DebitEther(a: Address, n: nat) returns (thrown: Option<Fault>)
      requires Valid()
      modifies drive`view, drive.store.data, journal
      ensures Valid()
      ensures Follows(LedgerSpec.DebitEther(old(Seen()), a, n), thrown, old(Seen()), Seen())
      ensures Undoes(old(Now()), old(Log()), Now(), Log())
    {
      UndoesNothing(Now(), Log());
      if n == 0 {
        return None;
      }
      var nonce, balance;
      thrown, nonce, balance := CoverEther(a, n);
      if thrown.None? {
        thrown := StoreAccount(a, nonce, balance);
      }
    }

    /** What a charge would write, or why it cannot. */
    method CoverCharge(a: Address, charged: nat) returns (thrown: Option<Fault>, nonce: nat, balance: nat)
      requires Valid()
      ensures Charge(Seen(), a, charged) ==
        if thrown.Some? then Thrown(thrown.value) else PutAccount(Seen(), a, nonce, balance)
    {
      var acc := AccountAt(a);
      ChargeIs(Seen(), a, charged, acc);
      var (refused, left) := Taking(acc, charged, FeeBalance);
      var next := left.nonce + 1;
      return refused, next, left.balance;
    }

    /** The one place nonces move, together with the fee. */
    method BumpNonceAndCharge(a: Address, charged: nat) returns (thrown: Option<Fault>)
      requires Valid()
      modifies drive`view, drive.store.data, journal
      ensures Valid()
      ensures Follows(Charge(old(Seen()), a, charged), thrown, old(Seen()), Seen())
      ensures Undoes(old(Now()), old(Log()), Now(), Log())
    {
      UndoesNothing(Now(), Log());
      var nonce, balance;
      thrown, nonce, balance := CoverCharge(a, charged);
      if thrown.None? {
        thrown := StoreAccount(a, nonce, balance);
      }
    }

    // -------------------------------------------------------------------- tokens

    method RegisterToken(l1: Address, m: Option<Metadata>) returns (thrown: Option<Fault>, id: nat)
      requires Valid()
      modifies this`facades, this`metadata, drive`view, drive`tokens, drive`colOff, drive.store.data, journal
      ensures Valid() && id == |old(Seen()).view.tokens|
      ensures Follows(LedgerSpec.RegisterToken(old(Seen()), l1, m), thrown, old(Seen()), Seen())
      ensures Undoes(old(Now()), old(Log()), Now(), Log())
    {
      ghost var start, log := Now(), Log();
      var refused;
      refused, id := RegisterInDrive(l1);
      if refused.Some? {
        return Some(Fault.Drive(refused.value)), |drive.tokens|;
      }
      if m.Some? {
        ghost var mid, midLog := Now(), Log();
        SetMetadata(id, m.value);
        UndoesTrans(start, log, mid, midLog, Now(), Log());
      }
      return None, id;
    }

    /** Appends to the drive's registry and files the facade. */
    method RegisterInDrive(l1: Address) returns (refused: Option<Refusal>, id: nat)
      requires Valid()
      modifies this`facades, drive`view, drive`tokens, drive`colOff, drive.store.data, journal
      ensures Valid()
      ensures refused == RegisterRefusal(drive.cfg, old(drive.view), l1, TOKEN_WIDTH)
      ensures drive.view == DriveSpec.RegisterToken(drive.cfg, old(drive.view), l1, TOKEN_WIDTH)
      ensures refused.None? ==> id == |old(drive.view).tokens|
      ensures Undoes(old(Now()), old(Log()), Now(), Log())
    {
      refused, id := drive.RegisterToken(l1, TOKEN_WIDTH);
      LoggedUndoes(old(drive.store.Bytes()), old(Log()), drive.store.Bytes(), Log(), RamState());
      if refused.None? {
        ghost var mid, midLog := Now(), Log();
        FileFacade(l1, id, old(drive.tokens));
        UndoesTrans(old(Now()), old(Log()), mid, midLog, Now(), Log());
      }
    }

    method FileFacade(l1: Address, id: nat, ghost before: seq<Token>)
      requires drive.tokens == before + [Token(l1, TOKEN_WIDTH)] && id == |before| && facades == FacadesOf(before)
      modifies this`facades, journal
      ensures facades == FacadesOf(drive.tokens)
      ensures Undoes(old(Now()), old(Log()), Now(), Log())
    {
      assert drive.tokens[..|drive.tokens| - 1] == before;
      facades := facades[l2TokenAddress(l1) := id];
      journal.Note(Facade(l2TokenAddress(l1)));
      UndoesOne(old(Now()), Now(), old(Log()), Facade(l2TokenAddress(l1)));
    }

    method TokenByL2Address(a: Address) returns (r: Option<nat>)
      requires Valid()
      ensures r == TokenByL2(Seen(), a)
      ensures r.Some? ==> r.value < |drive.tokens|
    {
      if a !in facades {
        return None;
      }
      FacadesName(drive.tokens, a);
      return Some(facades[a]);
    }

    method TokenByL1Address(a: Address) returns (r: Option<nat>)
      requires Valid()
      ensures r == TokenByL1(Seen(), a)
    {
      r := drive.TokenByAddress(a);
    }

    /** Writes a holding through the drive and moves the circulating total. */
    method StoreToken(a: Address, id: nat, value: int, delta: int) returns (thrown: Option<Fault>)
      requires Valid()
      modifies this`totals, drive`view, drive.store.data, journal
      ensures Valid()
      ensures Follows(PutToken(old(Seen()), a, id, value, delta), thrown, old(Seen()), Seen())
      ensures Undoes(old(Now()), old(Log()), Now(), Log())
    {
      var refused := drive.SetTokenBalance(a, id, value);
      LoggedUndoes(old(drive.store.Bytes()), old(Log()), drive.store.Bytes(), Log(), RamState());
      if refused.Some? {
        return Some(Fault.Drive(refused.value));
      }
      ghost var mid, midLog := Now(), Log();
      MoveTotal(id, delta);
      UndoesTrans(old(Now()), old(Log()), mid, midLog, Now(), Log());
      return None;
    }

    method MoveTotal(id: nat, delta: int)
      requires Valid()
      modifies this`totals, journal
      ensures Valid() && Seen() == AddTotal(old(Seen()), id, delta)
      ensures Undoes(old(Now()), old(Log()), Now(), Log())
    {
      var before := TotalOf(totals, id);
      TotalAdded(drive.cfg, drive.view, RamState(), id, delta);
      journal.Note(Total(id, before));
      totals := totals[id := before + delta];
      UndoesOne(old(Now()), Now(), old(Log()), Total(id, before));
    }

    /** What a credit would write, or why it cannot. */
    method CoverCredit(a: Address, id: nat, n: nat) returns (thrown: Option<Fault>, value: int)
      requires Valid() && n > 0
      ensures LedgerSpec.CreditToken(Seen(), a, id, n) ==
        if thrown.Some? then Thrown(thrown.value) else PutToken(Seen(), a, id, value, n)
    {
      var b := drive.GetTokenBalance(a, id);
      CreditTokenIs(Seen(), a, id, n);
      var (refused, sum) := AddingTokens(b, n);
      return refused, sum;
    }

    method CreditToken(a: Address, id: nat, n: nat) returns (thrown: Option<Fault>)
      requires Valid()
      modifies this`totals, drive`view, drive.store.data, journal
      ensures Valid()
      ensures Follows(LedgerSpec.CreditToken(old(Seen()), a, id, n), thrown, old(Seen()), Seen())
      ensures Undoes(old(Now()), old(Log()), Now(), Log())
    {
      ghost var w := Seen();
      UndoesNothing(Now(), Log());
      if n == 0 {
        return None;
      }
      var value;
      thrown, value := CoverCredit(a, id, n);
      if thrown.None? {
        thrown := StoreToken(a, id, value, n);
      }
    }

    /** What a debit would write, or why it cannot. */
    method CoverDebit(a: Address, id: nat, n: nat) returns (thrown: Option<Fault>, value: int, delta: int)
      requires Valid() && n > 0
      ensures LedgerSpec.DebitToken(Seen(), a, id, n) ==
        if thrown.Some? then Thrown(thrown.value) else PutToken(Seen(), a, id, value, delta)
    {
      var b := drive.GetTokenBalance(a, id);
      DebitTokenIs(Seen(), a, id, n);
      var (refused, left) := TakingTokens(b, n);
      return refused, left, 0 - n;
    }

    method DebitToken(a: Address, id: nat, n: nat) returns (thrown: Option<Fault>)
      requires Valid()
      modifies this`totals, drive`view, drive.store.data, journal
      ensures Valid()
      ensures Follows(LedgerSpec.DebitToken(old(Seen()), a, id, n), thrown, old(Seen()), Seen())
      ensures Undoes(old(Now()), old(Log()), Now(), Log())
    {
      UndoesNothing(Now(), Log());
      if n == 0 {
        return None;
      }
      var value, delta;
      thrown, value, delta := CoverDebit(a, id, n);
      if thrown.None? {
        thrown := StoreToken(a, id, value, delta);
      }
    }

    // -------------------------------------------------------------- configuration

    method SetMetadata(id: nat, m: Metadata)
      requires Valid()
      modifies this`metadata, journal
      ensures Valid() && Seen() == old(Seen()).(metadata := old(metadata)[id := m])
      ensures Undoes(old(Now()), old(Log()), Now(), Log())
    {
      var undo := Meta(id, if id in metadata then Some(metadata[id]) else None);
      journal.Note(undo);
      metadata := metadata[id := m];
      assert Replace(metadata, id, undo.metadata) == old(metadata);
      UndoesOne(old(Now()), Now(), old(Log()), undo);
    }

    method RegisterPortal(portal: Address, kind: nat)
      requires Valid()
      modifies this`portals, journal
      ensures Valid() && Seen() == old(Seen()).(portals := old(portals)[portal := kind])
      ensures Undoes(old(Now()), old(Log()), Now(), Log())
    {
      var undo := Portal(portal, if portal in portals then Some(portals[portal]) else None);
      journal.Note(undo);
      portals := portals[portal := kind];
      assert Replace(portals, portal, undo.kind) == old(portals);
      UndoesOne(old(Now()), Now(), old(Log()), undo);
    }

    method SetFee(n: nat)
      requires Valid()
      modifies this`fee, journal
      ensures Valid() && Seen() == old(Seen()).(fee := n)
      ensures Undoes(old(Now()), old(Log()), Now(), Log())
    {
      journal.Note(Fee(fee));
      fee := n;
      UndoesOne(old(Now()), Now(), old(Log()), Fee(old(fee)));
    }

    method RegisterCrossDomain(cd: CrossDomain)
      requires Valid()
      modifies this`crossDomain, journal
      ensures Valid() && Seen() == old(Seen()).(pair := Some(cd))
      ensures Undoes(old(Now()), old(Log()), Now(), Log())
    {
      journal.Note(Pair(crossDomain));
      crossDomain := Some(cd);
      UndoesOne(old(Now()), Now(), old(Log()), Pair(old(crossDomain)));
    }

    method HasPortal(kind: nat) returns (r: bool)
      ensures r <==> exists a :: a in portals && portals[a] == kind
    {
      var rest := portals.Keys;
      while rest != {}
        invariant rest <= portals.Keys && forall a :: a in portals && a !in rest ==> portals[a] != kind
        decreases |rest|
      {
        var a :| a in rest;
        if portals[a] == kind {
          return true;
        }
        rest := rest - {a};
      }
      return false;
    }

    // -------------------------------------------------------------- cross-domain

    method NextMessageNonce() returns (nonce: nat)
      requires Valid()
      modifies this`msgNonce, journal
      ensures Valid() && nonce == old(msgNonce) && Seen() == old(Seen()).(msgNonce := old(msgNonce) + 1)
      ensures Undoes(old(Now()), old(Log()), Now(), Log())
    {
      nonce := msgNonce;
      journal.Note(MessageNonce(nonce));
      msgNonce := nonce + 1;
      UndoesOne(old(Now()), Now(), old(Log()), MessageNonce(nonce));
    }

    method SetMessageStatus(h: Digest, status: Status)
      requires Valid()
      modifies this`messages, journal
      ensures Valid() && Seen() == old(Seen()).(messages := old(messages)[h := status])
      ensures Undoes(old(Now()), old(Log()), Now(), Log())
    {
      var undo := Message(h, if h in messages then Some(messages[h]) else None);
      journal.Note(undo);
      messages := messages[h := status];
      assert Replace(messages, h, undo.status) == old(messages);
      UndoesOne(old(Now()), Now(), old(Log()), undo);
    }

    // ------------------------------------------------------------------- rollback

    /** Runs one restore entry. */
    method RunUndo(u: Undo)
      modifies this, drive.store.data
      ensures Now() == Undone(old(Now()), u)
    {
      match u
      case Image(off, before) =>
        if off + |before| <= drive.store.data.Length {
          drive.store.Put(off, before);
        }
      case Total(id, total) => totals := totals[id := total];
      case Meta(id, m) => metadata := Replace(metadata, id, m);
      case Portal(p, kind) => portals := Replace(portals, p, kind);
      case Fee(n) => fee := n;
      case Pair(cd) => crossDomain := cd;
      case MessageNonce(n) => msgNonce := n;
      case Message(h, st) => messages := Replace(messages, h, st);
      case Facade(l2) => facades := Without(facades, l2);
    }

    /** Undoes entries back to a mark, newest first. */
    method RollbackTo(mark: nat)
      requires mark <= |Log()|
      modifies this, drive.store.data, journal
      ensures Log() == old(Log())[..mark]
      ensures Now() == Rewind(old(Now()), old(Log())[mark..])
    {
      while |journal.entries| > mark
        invariant mark <= |Log()| <= |old(Log())| && Log() == old(Log())[..|Log()|]
        invariant Rewind(Now(), Log()[mark..]) == Rewind(old(Now()), old(Log())[mark..])
      {
        ghost var now, log := Now(), Log();
        var u := journal.entries[|journal.entries| - 1];
        journal.entries := journal.entries[..|journal.entries| - 1];
        RunUndo(u);
        assert log[mark..][..|log| - 1 - mark] == Log()[mark..];
        assert Rewind(now, log[mark..]) == Rewind(Undone(now, u), Log()[mark..]);
      }
      assert Log()[mark..] == [];
    }

    /** Re-derives what shadows the drive bytes: the registry cache and the facades. */
    method AfterRollback(ghost v: View)
      requires Shows(drive.cfg, drive.store.Bytes(), v) && Fits(drive.cfg, v) && drive.store.journal == journal
      modifies this`facades, drive`tokens, drive`colOff, drive`view
      ensures Valid() && drive.view == v
    {
      var ok := drive.ReloadRegistry(v);
      RebuildFacades();
    }

    method RebuildFacades()
      modifies this`facades
      ensures facades == FacadesOf(drive.tokens)
    {
      facades := map[];
      for id := 0 to |drive.tokens|
        invariant facades == FacadesOf(drive.tokens[..id])
      {
        assert drive.tokens[..id + 1][..id] == drive.tokens[..id];
        facades := facades[l2TokenAddress(drive.tokens[id].address) := id];
      }
      assert drive.tokens[..|drive.tokens|] == drive.tokens;
    }

    /** The ledger at one time: what its bytes stood for, its state and its journal. */
    ghost predicate Was(v: View, s: State, log: seq<Undo>)
      reads this, drive, drive.store.data, journal
    {
      Shows(drive.cfg, s.mem, v) && Fits(drive.cfg, v) && Undoes(s, log, Now(), Log())
    }

    /**
      Rolling back to a mark and re-deriving the caches restores the ledger as it was at
      the mark: the same bytes, the same answers from every getter, the same journal.
     */
    method RestoreTo(mark: nat, ghost v: View, ghost s: State, ghost log: seq<Undo>)
      requires Valid() && Was(v, s, log) && mark == |log|
      modifies this, drive`tokens, drive`colOff, drive`view, drive.store.data, journal
      ensures Valid() && drive.view == v && Seen() == WorldOf(drive.cfg, v, s.ram)
      ensures drive.store.Bytes() == s.mem && Same(Now(), s) && Log() == log
    {
      RollbackTo(mark);
      ghost var back := Now();
      AfterRollback(v);
      SameTrans(Now(), back, s);
      SameWorld(drive.cfg, v, Now(), s);
    }
  }
}
