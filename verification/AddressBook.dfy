/** Addresses of a host: the three updaters, and the invariant they keep under
    any interleaving of registry transactions. */
module AddressBook {
  import opened Prelude
  import opened HostsRegistry

  // ---- the invariant ---------------------------------------------------------

  predicate Distinct(book: seq<Address>) {
    forall i, j :: 0 <= i < j < |book| ==> book[i].address != book[j].address
  }

  predicate Listed(book: seq<Address>, address: string) {
    exists i :: 0 <= i < |book| && book[i].address == address
  }

  /** Addresses are pairwise distinct, exactly one is primary, and it is the hostname. */
  predicate WellFormed(h: Host) {
    && h.addresses.Some? && h.hostname.Some?
    && Distinct(h.addresses.value)
    && Listed(h.addresses.value, h.hostname.value)
    && forall i :: 0 <= i < |h.addresses.value| ==>
         (h.addresses.value[i].isPrimary <==> h.addresses.value[i].address == h.hostname.value)
  }

  lemma ExactlyOnePrimary(h: Host)
    requires WellFormed(h)
    ensures exists i :: 0 <= i < |h.addresses.value| && h.addresses.value[i].isPrimary
              && forall j :: 0 <= j < |h.addresses.value| && h.addresses.value[j].isPrimary ==> j == i
  {
    var book := h.addresses.value;
    var i :| 0 <= i < |book| && book[i].address == h.hostname.value;
    forall j | 0 <= j < |book| && book[j].isPrimary ensures j == i {
      assert book[j].address == book[i].address;
    }
  }

  // ---- the updaters ------------------------------------------------------------

  /** `accepted` is the verdict of the address-format check. */
  datatype AddressOp =
    | AddTo(address: string, tag: Option<string>, stamp: string, accepted: bool)
    | RemoveFrom(address: string)
    | MakePrimary(address: string, accepted: bool)

  function Position(book: seq<Address>, address: string): (i: nat)
    ensures i <= |book|
    ensures i < |book| <==> Listed(book, address)
    ensures i < |book| ==> book[i].address == address
    ensures forall j :: 0 <= j < i ==> book[j].address != address
  {
    if book == [] then 0
    else if book[0].address == address then assert Listed(book, address) by { assert book[0].address == address; } 0
    else
      var k := Position(book[1..], address);
      assert Listed(book, address) <==> Listed(book[1..], address) by {
        if Listed(book[1..], address) { assert book[1 + k].address == address; }
        if Listed(book, address) {
          var i :| 0 <= i < |book| && book[i].address == address;
          assert book[1..][i - 1].address == address;
        }
      }
      1 + k
  }

  function Marked(book: seq<Address>, address: string): seq<Address> {
    seq(|book|, i requires 0 <= i < |book| => book[i].(isPrimary := book[i].address == address))
  }

  /** The closure each operation hands to `update_host`; None is an AddressError. */
  function Apply(op: AddressOp, host: Host, now: string): Option<Host> {
    var h := EnsureAddresses(host, now);
    var book := h.addresses.value;
    match op
    case AddTo(address, tag, stamp, _) =>
      if Listed(book, address) then None
      else Some(h.(addresses := Some(book + [Address(address, false, tag, stamp)])))
    case RemoveFrom(address) =>
      var i := Position(book, address);
      if i == |book| || book[i].isPrimary then None
      else Some(h.(addresses := Some(book[..i] + book[i + 1..])))
    case MakePrimary(address, _) =>
      if !Listed(book, address) then None
      else Some(h.(addresses := Some(Marked(book, address)), hostname := Some(address)))
  }

  lemma AddKeepsWellFormed(h: Host, address: string, tag: Option<string>, stamp: string)
    requires WellFormed(h) && !Listed(h.addresses.value, address)
    ensures WellFormed(h.(addresses := Some(h.addresses.value + [Address(address, false, tag, stamp)])))
  {
    var book := h.addresses.value;
    var k :| 0 <= k < |book| && book[k].address == h.hostname.value;
    assert (book + [Address(address, false, tag, stamp)])[k].address == h.hostname.value;
  }

  lemma RemoveKeepsWellFormed(h: Host, i: nat)
    requires WellFormed(h) && i < |h.addresses.value| && !h.addresses.value[i].isPrimary
    ensures WellFormed(h.(addresses := Some(h.addresses.value[..i] + h.addresses.value[i + 1..])))
  {
    var book := h.addresses.value;
    var book' := book[..i] + book[i + 1..];
    assert forall j :: 0 <= j < |book'| ==> book'[j] == book[if j < i then j else j + 1];
    var k :| 0 <= k < |book| && book[k].address == h.hostname.value;
    assert book'[if k < i then k else k - 1] == book[k];
  }

  lemma ApplyKeepsWellFormed(op: AddressOp, h: Host, now: string)
    requires WellFormed(h)
    ensures Apply(op, h, now).Some? ==> WellFormed(Apply(op, h, now).value)
  {
    var book := h.addresses.value;
    if Apply(op, h, now).Some? {
      match op
      case AddTo(address, tag, stamp, _) => AddKeepsWellFormed(h, address, tag, stamp);
      case RemoveFrom(address) => RemoveKeepsWellFormed(h, Position(book, address));
      case MakePrimary(address, _) =>
        assert Marked(book, address)[Position(book, address)].address == address;
    }
  }

  lemma ListedAfterAdd(book: seq<Address>, extra: Address, a: string)
    ensures Listed(book + [extra], a) <==> Listed(book, a) || a == extra.address
  {
    var book' := book + [extra];
    assert book'[|book|] == extra;
    if Listed(book, a) {
      assert book'[Position(book, a)].address == a;
    }
  }

  lemma ListedAfterRemove(book: seq<Address>, i: nat, a: string)
    requires i < |book| && Distinct(book)
    ensures Listed(book[..i] + book[i + 1..], a) <==> Listed(book, a) && a != book[i].address
  {
    var book' := book[..i] + book[i + 1..];
    forall j | 0 <= j < |book'| ensures book'[j] == book[if j < i then j else j + 1] {
    }
    if Listed(book, a) && a != book[i].address {
      var k := Position(book, a);
      assert book'[if k < i then k else k - 1] == book[k];
    }
  }

  lemma ListedAfterMark(book: seq<Address>, address: string, a: string)
    ensures Listed(Marked(book, address), a) <==> Listed(book, a)
  {
    if Listed(book, a) {
      assert Marked(book, address)[Position(book, a)].address == a;
    }
  }

  /** When each operation is refused on a well-formed host, and the book it leaves. */
  lemma ApplyMeaning(op: AddressOp, h: Host, now: string)
    requires WellFormed(h)
    ensures var book := h.addresses.value;
            var r := Apply(op, h, now);
            match op
            case AddTo(address, tag, stamp, _) =>
              && (r.None? <==> Listed(book, address))
              && (r.Some? ==>
                    && r.value.hostname == h.hostname
                    && forall a :: Listed(r.value.addresses.value, a) <==> Listed(book, a) || a == address)
            case RemoveFrom(address) =>
              && (r.None? <==> !Listed(book, address) || h.hostname == Some(address))
              && (r.Some? ==>
                    && r.value.hostname == h.hostname
                    && forall a :: Listed(r.value.addresses.value, a) <==> Listed(book, a) && a != address)
            case MakePrimary(address, _) =>
              && (r.None? <==> !Listed(book, address))
              && (r.Some? ==>
                    && r.value.hostname == Some(address)
                    && forall a :: Listed(r.value.addresses.value, a) <==> Listed(book, a))
  {
    var book := h.addresses.value;
    if Apply(op, h, now).Some? {
      match op
      case AddTo(address, tag, stamp, _) =>
        forall a { ListedAfterAdd(book, Address(address, false, tag, stamp), a); }
      case RemoveFrom(address) =>
        forall a { ListedAfterRemove(book, Position(book, address), a); }
      case MakePrimary(address, _) =>
        forall a { ListedAfterMark(book, address, a); }
    }
  }

  /** What an accepted operation leaves of a record that has addresses: the new entry at
      the end, secondary, labelled and stamped; or the book without one entry; or the same
      book with the primary mark moved.  Everything else of the record is kept. */
  lemma ApplyExactly(op: AddressOp, h: Host, now: string)
    requires h.addresses.Some? && Apply(op, h, now).Some?
    ensures var t, book := Apply(op, h, now).value, h.addresses.value;
            && t.addresses.Some?
            && t == h.(addresses := t.addresses, hostname := if op.MakePrimary? then Some(op.address) else h.hostname)
            && var after := t.addresses.value;
               match op
               case AddTo(address, tag, stamp, _) => after == book + [Address(address, false, tag, stamp)]
               case RemoveFrom(address) =>
                 exists i :: 0 <= i < |book| && book[i].address == address && !book[i].isPrimary
                             && after == book[..i] + book[i + 1..]
               case MakePrimary(address, _) =>
                 && |after| == |book|
                 && forall i :: 0 <= i < |book| ==>
                      after[i] == Address(book[i].address, book[i].address == address, book[i].tag, book[i].addedAt)
  {
    if op.RemoveFrom? {
      var i := Position(h.addresses.value, op.address);
      assert h.addresses.value[i].address == op.address;
    }
  }

  /** The closures as the source writes them, editing one host record in place.  False is
      an AddressError; the caller then discards the record. */
  class HostRecord {
    var host: Host

    method Ensure(now: string)
      modifies this
      ensures host == EnsureAddresses(old(host), now) && host.addresses.Some?
    {
      if host.addresses.None? {
        var own := host.hostname.Some? && host.hostname.value != "";
        var stamp := if host.addedAt.Some? then host.addedAt.value else now;
        host := host.(addresses := Some(if own then [Address(host.hostname.value, true, None, stamp)] else []));
      }
    }

    method Add(address: string, tag: Option<string>, stamp: string, now: string) returns (ok: bool)
      modifies this
      ensures var r := Apply(AddTo(address, tag, stamp, true), old(host), now);
              ok == r.Some? && host == if ok then r.value else EnsureAddresses(old(host), now)
    {
      Ensure(now);
      var addresses := host.addresses.value;
      for i := 0 to |addresses|
        invariant host == EnsureAddresses(old(host), now)
        invariant forall j :: 0 <= j < i ==> addresses[j].address != address
      {
        if addresses[i].address == address { return false; }
      }
      host := host.(addresses := Some(addresses + [Address(address, false, tag, stamp)]));
      return true;
    }

    method Remove(address: string, now: string) returns (ok: bool)
      modifies this
      ensures var r := Apply(RemoveFrom(address), old(host), now);
              ok == r.Some? && host == if ok then r.value else EnsureAddresses(old(host), now)
    {
      Ensure(now);
      var addresses := host.addresses.value;
      var foundIdx := |addresses|;
      for i := 0 to |addresses|
        invariant foundIdx == |addresses| && host == EnsureAddresses(old(host), now)
        invariant forall j :: 0 <= j < i ==> addresses[j].address != address
      {
        if addresses[i].address == address { foundIdx := i; break; }
      }
      if foundIdx == |addresses| || addresses[foundIdx].isPrimary { return false; }
      host := host.(addresses := Some(addresses[..foundIdx] + addresses[foundIdx + 1..]));
      return true;
    }

    method SetPrimary(address: string, now: string) returns (ok: bool)
      modifies this
      ensures var r := Apply(MakePrimary(address, true), old(host), now);
              ok == r.Some? && host == if ok then r.value else EnsureAddresses(old(host), now)
    {
      Ensure(now);
      var addresses := host.addresses.value;
      var found := false;
      for i := 0 to |addresses|
        invariant !found && host == EnsureAddresses(old(host), now)
        invariant forall j :: 0 <= j < i ==> addresses[j].address != address
      {
        if addresses[i].address == address { found := true; break; }
      }
      if !found { return false; }
      ghost var book := addresses;
      for i := 0 to |addresses|
        invariant |addresses| == |book| && host == EnsureAddresses(old(host), now)
        invariant forall j :: 0 <= j < i ==> addresses[j] == book[j].(isPrimary := book[j].address == address)
        invariant forall j :: i <= j < |book| ==> addresses[j] == book[j]
      {
        addresses := addresses[i := addresses[i].(isPrimary := addresses[i].address == address)];
      }
      assert addresses == Marked(book, address);
      host := host.(addresses := Some(addresses), hostname := Some(address));
      return true;
    }
  }

  // ---- the calls ---------------------------------------------------------------

  /** `get_host`: the first record whose hostname, alias or key id is the identifier. */
  predicate Answers(h: Host, identifier: string) {
    h.hostname == Some(identifier) || h.alias == Some(identifier) || h.keyId == Some(identifier)
  }

  predicate Accepted(op: AddressOp) {
    op.RemoveFrom? || op.accepted
  }

  /** The hostname of the first record that answers, if it has one. */
  function Resolved(disk: seq<Host>, identifier: string): Option<string> {
    if disk == [] then None
    else if Answers(disk[0], identifier) then disk[0].hostname
    else Resolved(disk[1..], identifier)
  }

  /** Position `i` is the first to answer to the identifier, and carries this hostname. */
  predicate Resolves(disk: seq<Host>, identifier: string, name: string, i: int) {
    && 0 <= i < |disk| && disk[i].hostname == Some(name) && Answers(disk[i], identifier)
    && forall k :: 0 <= k < i ==> !Answers(disk[k], identifier)
  }

  lemma {:induction false} ResolvedMeaning(disk: seq<Host>, identifier: string, name: string)
    ensures Resolved(disk, identifier) == Some(name) <==> exists i :: Resolves(disk, identifier, name, i)
  {
    if disk != [] {
      var rest := disk[1..];
      ResolvedMeaning(rest, identifier, name);
      if Answers(disk[0], identifier) {
        if disk[0].hostname == Some(name) { assert Resolves(disk, identifier, name, 0); }
      } else {
        if i :| Resolves(rest, identifier, name, i) {
          assert forall k :: 0 < k <= i ==> disk[k] == rest[k - 1];
          assert Resolves(disk, identifier, name, i + 1);
        }
        if i :| Resolves(disk, identifier, name, i) {
          assert forall k :: 0 <= k < i ==> rest[k] == disk[k + 1];
          assert Resolves(rest, identifier, name, i - 1);
        }
      }
    }
  }

  lemma LoadKeepsAnswers(disk: seq<Host>, clock: Clock, identifier: string, k: nat)
    requires k < |disk|
    ensures var h := Load(disk, clock)[k];
            h.hostname == disk[k].hostname && Answers(h, identifier) == Answers(disk[k], identifier)
  {
    NormalisePreserves(disk[k], clock(k));
    assert Load(disk, clock)[k].alias == disk[k].alias && Load(disk, clock)[k].keyId == disk[k].keyId;
  }

  /** `get_host`, as the calls use it: the hostname field of the first match. */
  method ResolveHost(file: HostsFile, identifier: string, clock: Clock) returns (r: Option<string>)
    ensures r == if file.readable && !Corrupt(file.disk) then Resolved(file.disk, identifier) else None
  {
    var loaded := file.LoadHosts(clock);
    if loaded.Err? { return None; }
    var hosts := loaded.value;
    ghost var disk := file.disk;
    assert disk[0..] == disk;
    for i := 0 to |hosts|
      invariant Resolved(disk, identifier) == Resolved(disk[i..], identifier)
    {
      LoadKeepsAnswers(disk, clock, identifier, i);
      // A record found by alias or key id may have no hostname; the caller then fails.
      if Answers(hosts[i], identifier) { return hosts[i].hostname; }
      assert disk[i..][1..] == disk[i + 1..];
    }
    return None;
  }

  /** The record at `j`, the first to carry the name, was edited; all others were only
      normalised. */
  ghost predicate Edited(before: seq<Host>, after: seq<Host>, op: AddressOp, clock: Clock, name: string, j: int) {
    EditsFirst(before, after, name, h => Apply(op, h, ""), clock, j)
  }

  /** The operation is applicable to the first record of the name. */
  predicate Applicable(disk: seq<Host>, op: AddressOp, clock: Clock, name: string) {
    var j := Find(disk, name);
    j < |disk| && Apply(op, Normalise(disk[j], clock(j)), "").Some?
  }

  /** The common outline of the three calls: check, resolve without the lock, then
      update under it.  Exactly when the file is good, the address accepted, the
      identifier resolved and the operation applicable, the first record with the
      resolved hostname, and only it, is edited; otherwise the file is as it was. */
  method ChangeAddress(file: HostsFile, identifier: string, op: AddressOp, seen: Clock, clock: Clock)
    returns (ok: bool)
    modifies file`disk
    ensures var disk := old(file.disk);
            var name := Resolved(disk, identifier);
            && (ok <==> file.readable && !Corrupt(disk) && Accepted(op) && name.Some?
                        && Applicable(disk, op, clock, name.value))
            && (ok ==> exists j :: Edited(disk, file.disk, op, clock, name.value, j))
            && (!ok ==> file.disk == disk)
  {
    if !op.RemoveFrom? && !op.accepted { return false; }
    var actual := ResolveHost(file, identifier, seen);
    if actual.None? { return false; }
    // Normalised records have addresses, so the closure's own clock reading is unused.
    var updater: Host -> Option<Host> := h => Apply(op, h, "");
    ghost var disk := file.disk;
    var r := file.UpdateHost(actual.value, updater, clock);
    ok := r == Ok(true);
    UpdateCommitsIff(disk, op, updater, actual.value, clock);
    if ok { UpdateEdits(disk, file.disk, op, updater, actual.value, clock); }
  }

  lemma UpdateCommitsIff(disk: seq<Host>, op: AddressOp, f: Host -> Option<Host>, name: string, clock: Clock)
    requires !Corrupt(disk) && Does(f, op)
    ensures Transact(disk, Update(name, f), clock).Commit? <==> Applicable(disk, op, clock, name)
  {
    var l := Load(disk, clock);
    forall k | 0 <= k < |disk| ensures l[k].hostname == disk[k].hostname {
      NormalisePreserves(disk[k], clock(k));
    }
    assert Find(l, name) == Find(disk, name);
  }

  /** The closure of an address operation. */
  ghost predicate Does(f: Host -> Option<Host>, op: AddressOp) {
    forall h :: f(h) == Apply(op, h, "")
  }

  lemma UpdateEdits(before: seq<Host>, after: seq<Host>, op: AddressOp, f: Host -> Option<Host>, name: string, clock: Clock)
    requires Does(f, op) && Transact(before, Update(name, f), clock) == Commit(after)
    ensures exists j :: Edited(before, after, op, clock, name, j)
  {
    TransactMeaning(before, Update(name, f), clock);
    var j :| EditsFirst(before, after, name, f, clock, j);
    assert Edited(before, after, op, clock, name, j);
  }

  // ---- interleaved calls -----------------------------------------------------

  /** Registry transactions that keep every book well formed. */
  ghost predicate BookOp(op: Op) {
    match op
    case Add(h) => WellFormed(h) || (h.addresses.None? && h.hostname.Some? && h.hostname.value != "")
    case Remove(_) => true
    case Update(_, f) => forall h: Host :: WellFormed(h) && f(h).Some? ==> WellFormed(f(h).value)
  }

  lemma AddressUpdatesAreBookOps(name: string, op: AddressOp, f: Host -> Option<Host>)
    requires Does(f, op)
    ensures BookOp(Update(name, f))
  {
    forall h: Host | WellFormed(h) && f(h).Some? ensures WellFormed(f(h).value) {
      ApplyKeepsWellFormed(op, h, "");
    }
  }

  predicate AllWellFormed(hosts: seq<Host>) {
    forall i :: 0 <= i < |hosts| ==> WellFormed(hosts[i])
  }

  lemma LoadKeepsWellFormed(disk: seq<Host>, clock: Clock)
    requires AllWellFormed(disk)
    ensures AllWellFormed(Load(disk, clock))
  {
    forall i | 0 <= i < |disk| ensures WellFormed(Load(disk, clock)[i]) {
      NormalisePreserves(disk[i], clock(i));
    }
  }

  lemma {:induction false} WithoutKeepsWellFormed(hosts: seq<Host>, name: string)
    requires AllWellFormed(hosts)
    ensures AllWellFormed(Without(hosts, name))
  {
    if hosts != [] { WithoutKeepsWellFormed(hosts[1..], name); }
  }

  lemma TransactKeepsWellFormed(disk: seq<Host>, op: Op, clock: Clock)
    requires AllWellFormed(disk) && BookOp(op)
    ensures Transact(disk, op, clock).Commit? ==> AllWellFormed(Transact(disk, op, clock).hosts)
  {
    LoadKeepsWellFormed(disk, clock);
    var l := Load(disk, clock);
    match op
    case Add(h) =>
      var h' := EnsureAddresses(h, clock(|l|));
      assert WellFormed(h') by {
        if h.addresses.None? { assert h'.addresses.value[0].address == h.hostname.value; }
      }
    case Remove(name) => WithoutKeepsWellFormed(l, name);
    case Update(name, f) =>
  }

  lemma {:induction false} ReplayKeepsWellFormed(init: seq<Host>, ops: seq<Op>, log: seq<Entry>)
    requires AllWellFormed(init)
    requires forall p :: 0 <= p < |ops| ==> BookOp(ops[p])
    ensures Replay(init, ops, log).Some? ==> AllWellFormed(Replay(init, ops, log).value)
  {
    if log != [] {
      var last := log[|log| - 1];
      ReplayKeepsWellFormed(init, ops, log[..|log| - 1]);
      if Replay(init, ops, log[..|log| - 1]).Some? && last.proc < |ops| {
        TransactKeepsWellFormed(Replay(init, ops, log[..|log| - 1]).value, ops[last.proc], last.clock);
      }
    }
  }

  lemma BooksFollow(init: seq<Host>, ops: seq<Op>, actions: seq<Action>)
    requires AllWellFormed(init) && NoSaveHosts(actions)
    requires forall p :: 0 <= p < |ops| ==> BookOp(ops[p])
    ensures var s := Run(Initial(init, ops), actions);
            && AllWellFormed(s.disk)
            && forall k :: 0 <= k < |s.readings| && s.readings[k].hosts.Ok? ==> AllWellFormed(s.readings[k].hosts.value)
  {
    NoLostUpdates(init, ops, actions);
    var s := Run(Initial(init, ops), actions);
    ReplayKeepsWellFormed(init, ops, s.log);
    forall k | 0 <= k < |s.readings| && s.readings[k].hosts.Ok?
      ensures AllWellFormed(s.readings[k].hosts.value)
    {
      var r := s.readings[k];
      assert ReadingSound(init, ops, s.log, r);
      ReplayKeepsWellFormed(init, ops, s.log[..r.at]);
      LoadKeepsWellFormed(Replay(init, ops, s.log[..r.at]).value, r.clock);
    }
  }

  /** What the processes do: change addresses, add a host, by its name or with a
      well-formed book, remove one. */
  ghost predicate HostCall(op: Op) {
    match op
    case Update(_, f) => exists change :: Does(f, change)
    case Add(h) => WellFormed(h) || (h.addresses.None? && h.hostname.Some? && h.hostname.value != "")
    case Remove(_) => true
  }

  /** Any number of processes adding, removing and promoting addresses, under host names
      that may be stale by the time they get the lock, beside others adding and removing
      hosts, with crashes anywhere: the file and every unlocked reading of it stay well
      formed. */
  lemma BooksStayWellFormed(init: seq<Host>, ops: seq<Op>, actions: seq<Action>)
    requires AllWellFormed(init) && NoSaveHosts(actions)
    requires forall p :: 0 <= p < |ops| ==> HostCall(ops[p])
    ensures var s := Run(Initial(init, ops), actions);
            && AllWellFormed(s.disk)
            && forall k :: 0 <= k < |s.readings| && s.readings[k].hosts.Ok? ==> AllWellFormed(s.readings[k].hosts.value)
  {
    forall p | 0 <= p < |ops| ensures BookOp(ops[p]) {
      assert HostCall(ops[p]);
      if ops[p].Update? {
        var change :| Does(ops[p].updater, change);
        AddressUpdatesAreBookOps(ops[p].name, change, ops[p].updater);
      }
    }
    BooksFollow(init, ops, actions);
  }
}
