/** hosts.json: what one transaction does to the list, and why interleaved
    transactions lose nothing.

    A transaction takes the file lock, loads and normalises the list, modifies
    it, writes a temporary file and swaps it in.  Readers take no lock. */
module HostsRegistry {
  import opened Prelude

  datatype Address = Address(address: string, isPrimary: bool, tag: Option<string>, addedAt: string)

  datatype Agent = Agent(config: map<string, string>, integrations: seq<string>)

  /** A host record.  `claws` marks the old schema; `addedAt` is `metadata.added_at`. */
  datatype Host = Host(
    hostname: Option<string>,
    alias: Option<string>,
    keyId: Option<string>,
    addresses: Option<seq<Address>>,
    osFamily: Option<string>,
    addedAt: Option<string>,
    agents: map<string, Agent>,
    claws: bool)

  /** The clock readings of one load, one per list position. */
  type Clock = nat -> string

  // ---- load_hosts ----------------------------------------------------------

  function EnsureAddresses(h: Host, now: string): Host {
    if h.addresses.Some? then h
    else if h.hostname.Some? && h.hostname.value != "" then
      var stamp := if h.addedAt.Some? then h.addedAt.value else now;
      h.(addresses := Some([Address(h.hostname.value, true, None, stamp)]))
    else h.(addresses := Some([]))
  }

  function ApplyLegacyDefaults(h: Host): Host {
    if h.osFamily.Some? then h else h.(osFamily := Some("linux"))
  }

  const PRUNED_KEYS := {"provider", "providers", "channels"}

  function PruneConfig(a: Agent): Agent {
    a.(config := a.config - PRUNED_KEYS)
  }

  function PruneAgentConfigMirror(h: Host): Host {
    h.(agents := map name | name in h.agents :: PruneConfig(h.agents[name]))
  }

  function Normalise(h: Host, now: string): Host {
    PruneAgentConfigMirror(ApplyLegacyDefaults(EnsureAddresses(h, now)))
  }

  predicate Corrupt(disk: seq<Host>) {
    exists i :: 0 <= i < |disk| && disk[i].claws
  }

  function Load(disk: seq<Host>, clock: Clock): seq<Host> {
    seq(|disk|, i requires 0 <= i < |disk| => Normalise(disk[i], clock(i)))
  }

  /** Loading a list that was itself loaded changes nothing, whatever the clock
      says by then: a stamp invented once is never replaced. */
  lemma LoadIdempotent(disk: seq<Host>, clock: Clock, later: Clock)
    ensures Load(Load(disk, clock), later) == Load(disk, clock)
  {
    forall i | 0 <= i < |disk|
      ensures Load(Load(disk, clock), later)[i] == Load(disk, clock)[i]
    {
      NormaliseIdempotent(disk[i], clock(i), later(i));
    }
  }

  lemma NormaliseIdempotent(h: Host, now: string, later: string)
    ensures Normalise(Normalise(h, now), later) == Normalise(h, now)
  {
    var n := Normalise(h, now);
    assert PruneAgentConfigMirror(n).agents == n.agents by {
      forall name | name in n.agents
        ensures PruneConfig(n.agents[name]) == n.agents[name]
      {
        assert n.agents[name].config - PRUNED_KEYS == n.agents[name].config;
      }
    }
  }

  /** `was` without the stale mirror: the attachments and every other entry stay. */
  predicate Pruned(was: Agent, is_: Agent) {
    && is_.integrations == was.integrations
    && (forall k :: k in was.config && k !in {"provider", "providers", "channels"} ==>
          k in is_.config && is_.config[k] == was.config[k])
    && (forall k :: k in is_.config ==> k in was.config && k !in {"provider", "providers", "channels"})
  }

  lemma PruneMeaning(a: Agent)
    ensures Pruned(a, PruneConfig(a))
  {
  }

  /** Normalising drops only the stale mirror, and the host keeps what it has; a missing
      family is "linux". */
  lemma NormalisePreserves(h: Host, now: string)
    ensures var n := Normalise(h, now);
            && n.hostname == h.hostname && n.alias == h.alias && n.keyId == h.keyId
            && n.addedAt == h.addedAt && n.claws == h.claws
            && n.addresses.Some? && (h.addresses.Some? ==> n.addresses == h.addresses)
            && n.osFamily == (if h.osFamily.Some? then h.osFamily else Some("linux"))
            && n.agents.Keys == h.agents.Keys
            && forall name :: name in h.agents ==> Pruned(h.agents[name], n.agents[name])
  {
    forall name | name in h.agents ensures Pruned(h.agents[name], Normalise(h, now).agents[name]) {
      PruneMeaning(h.agents[name]);
    }
  }

  /** Missing addresses are the hostname alone, as primary, stamped with when the host was
      added, or now. */
  lemma AddressesInvented(h: Host, now: string)
    requires h.addresses.None?
    ensures var book := Normalise(h, now).addresses;
            if h.hostname in {None, Some("")} then book == Some([])
            else book == Some([Address(h.hostname.value, true, None, if h.addedAt.Some? then h.addedAt.value else now)])
  {
  }

  // ---- one transaction -----------------------------------------------------

  datatype Op =
    | Add(host: Host)
    | Remove(hostname: string)
    | Update(name: string, updater: Host -> Option<Host>)   // None: the updater raised

  datatype Reason = CorruptFile | DuplicateHost | NotFound | UpdaterRaised

  datatype Verdict = Commit(hosts: seq<Host>) | Decline(reason: Reason)

  predicate Registered(hosts: seq<Host>, name: Option<string>) {
    exists i :: 0 <= i < |hosts| && hosts[i].hostname == name
  }

  function Without(hosts: seq<Host>, name: string): seq<Host> {
    if hosts == [] then []
    else (if hosts[0].hostname == Some(name) then [] else [hosts[0]]) + Without(hosts[1..], name)
  }

  /** The first position holding the name, or the length of the list. */
  function Find(hosts: seq<Host>, name: string): (i: nat)
    ensures i <= |hosts|
    ensures i < |hosts| ==> hosts[i].hostname == Some(name)
    ensures forall j :: 0 <= j < i ==> hosts[j].hostname != Some(name)
  {
    if hosts == [] || hosts[0].hostname == Some(name) then 0 else 1 + Find(hosts[1..], name)
  }

  function Modify(op: Op, hosts: seq<Host>, now: string): Verdict {
    match op
    case Add(h) =>
      if Registered(hosts, h.hostname) then Decline(DuplicateHost)
      else Commit(hosts + [EnsureAddresses(h, now)])
    case Remove(name) =>
      var rest := Without(hosts, name);
      if |rest| == |hosts| then Decline(NotFound) else Commit(rest)
    case Update(name, f) =>
      var i := Find(hosts, name);
      if i == |hosts| then Decline(NotFound)
      else match f(hosts[i])
           case None => Decline(UpdaterRaised)
           case Some(h) => Commit(hosts[i := h])
  }

  function Transact(disk: seq<Host>, op: Op, clock: Clock): Verdict {
    if Corrupt(disk) then Decline(CorruptFile)
    else Modify(op, Load(disk, clock), clock(|disk|))
  }

  lemma {:induction false} WithoutKeeps(hosts: seq<Host>, name: string)
    ensures !Registered(Without(hosts, name), Some(name))
    ensures |Without(hosts, name)| <= |hosts|
    ensures |Without(hosts, name)| == |hosts| <==> !Registered(hosts, Some(name))
    ensures !Registered(hosts, Some(name)) ==> Without(hosts, name) == hosts
  {
    if hosts != [] {
      WithoutKeeps(hosts[1..], name);
      assert hosts == [hosts[0]] + hosts[1..];
      var rest := Without(hosts[1..], name);
      var w := Without(hosts, name);
      forall i | 0 <= i < |w| ensures w[i].hostname != Some(name) {
        if hosts[0].hostname != Some(name) && i > 0 { assert w[i] == rest[i - 1]; } else { assert w[i] in w; }
      }
      if hosts[0].hostname != Some(name) && Registered(hosts, Some(name)) {
        var i :| 0 <= i < |hosts| && hosts[i].hostname == Some(name);
        assert hosts[1..][i - 1].hostname == Some(name);
      }
      if Registered(hosts[1..], Some(name)) {
        var i :| 0 <= i < |hosts[1..]| && hosts[1..][i].hostname == Some(name);
        assert hosts[i + 1].hostname == Some(name);
      }
    }
  }

  /** Removal keeps every other host, in order: it splits over any cut of the list. */
  lemma {:induction false} WithoutConcat(a: seq<Host>, b: seq<Host>, name: string)
    ensures Without(a + b, name) == Without(a, name) + Without(b, name)
  {
    if a == [] {
      assert a + b == b;
    } else {
      assert (a + b)[1..] == a[1..] + b;
      WithoutConcat(a[1..], b, name);
    }
  }

  lemma WithoutOne(h: Host, name: string)
    ensures Without([h], name) == if h.hostname == Some(name) then [] else [h]
  {
    assert [h][1..] == [];
  }

  /** What removal leaves: exactly the records of other names, each as often as before. */
  lemma {:induction false} WithoutMeaning(hosts: seq<Host>, name: string, h: Host)
    ensures multiset(Without(hosts, name))[h] == if h.hostname == Some(name) then 0 else multiset(hosts)[h]
  {
    if hosts != [] {
      var first, rest := hosts[0], hosts[1..];
      assert hosts == [first] + rest;
      WithoutMeaning(rest, name, h);
      assert multiset(hosts) == multiset{first} + multiset(rest);
      if first.hostname == Some(name) {
        assert Without(hosts, name) == Without(rest, name);
      } else {
        assert multiset(Without(hosts, name)) == multiset{first} + multiset(Without(rest, name));
      }
    }
  }

  /** Position `i` is the first of the name and was updated; all others were normalised. */
  ghost predicate EditsFirst(before: seq<Host>, after: seq<Host>, name: string, f: Host -> Option<Host>, clock: Clock, i: int) {
    && |after| == |before| && 0 <= i < |before| && before[i].hostname == Some(name)
    && (forall j :: 0 <= j < i ==> before[j].hostname != Some(name))
    && f(Normalise(before[i], clock(i))) == Some(after[i])
    && forall j :: 0 <= j < |before| && j != i ==> after[j] == Normalise(before[j], clock(j))
  }

  /** When each operation commits, and with what. */
  lemma TransactMeaning(disk: seq<Host>, op: Op, clock: Clock)
    requires !Corrupt(disk)
    ensures op.Add? ==>
              Transact(disk, op, clock) == if Registered(disk, op.host.hostname) then Decline(DuplicateHost)
                                           else Commit(Load(disk, clock) + [EnsureAddresses(op.host, clock(|disk|))])
    ensures op.Remove? ==>
              Transact(disk, op, clock) == if !Registered(disk, Some(op.hostname)) then Decline(NotFound)
                                           else Commit(Without(Load(disk, clock), op.hostname))
    ensures op.Update? ==>
              (Transact(disk, op, clock) == Decline(NotFound) <==> !Registered(disk, Some(op.name)))
    ensures op.Update? && Transact(disk, op, clock).Commit? ==>
              exists i :: EditsFirst(disk, Transact(disk, op, clock).hosts, op.name, op.updater, clock, i)
  {
    var l := Load(disk, clock);
    forall name: Option<string> ensures Registered(l, name) <==> Registered(disk, name) {
      if Registered(l, name) {
        var i :| 0 <= i < |l| && l[i].hostname == name;
        NormalisePreserves(disk[i], clock(i));
        assert disk[i].hostname == name;
      }
      if Registered(disk, name) {
        var i :| 0 <= i < |disk| && disk[i].hostname == name;
        NormalisePreserves(disk[i], clock(i));
        assert l[i].hostname == name;
      }
    }
    if op.Remove? { WithoutKeeps(l, op.hostname); }
    if op.Update? {
      var i := Find(l, op.name);
      if i < |l| { NormalisePreserves(disk[i], clock(i)); }
      assert i < |l| ==> disk[i].hostname == Some(op.name) && l[i] == Normalise(disk[i], clock(i));
      var verdict := Transact(disk, op, clock);
      forall j | 0 <= j < i ensures disk[j].hostname != Some(op.name) {
        NormalisePreserves(disk[j], clock(j));
        assert l[j].hostname != Some(op.name);
      }
      assert verdict.Commit? ==> EditsFirst(disk, verdict.hosts, op.name, op.updater, clock, i);
    }
  }

  /** An update edits the first host of the name, unless the updater raises on it. */
  lemma UpdateMeaning(disk: seq<Host>, name: string, f: Host -> Option<Host>, clock: Clock, i: nat)
    requires !Corrupt(disk) && i < |disk| && disk[i].hostname == Some(name)
    requires forall j :: 0 <= j < i ==> disk[j].hostname != Some(name)
    ensures f(Normalise(disk[i], clock(i))).None? ==> Transact(disk, Update(name, f), clock) == Decline(UpdaterRaised)
    ensures f(Normalise(disk[i], clock(i))).Some? ==>
              Transact(disk, Update(name, f), clock) == Commit(Load(disk, clock)[i := f(Normalise(disk[i], clock(i))).value])
  {
    var l := Load(disk, clock);
    forall j | 0 <= j <= i ensures l[j].hostname == disk[j].hostname {
      NormalisePreserves(disk[j], clock(j));
    }
    FindFirst(l, name, i);
  }

  lemma {:induction false} FindFirst(hosts: seq<Host>, name: string, i: nat)
    requires i < |hosts| && hosts[i].hostname == Some(name) && forall j :: 0 <= j < i ==> hosts[j].hostname != Some(name)
    ensures Find(hosts, name) == i
  {
    if i > 0 { FindFirst(hosts[1..], name, i - 1); }
  }

  // ---- the operations as the source runs them --------------------------------

  /** The file, held under its lock for the length of each call.  It is `readable` if it
      is absent, with an empty list, or parses as a list of objects. */
  class HostsFile {
    var disk: seq<Host>
    var readable: bool

    method LoadHosts(clock: Clock) returns (r: Result<seq<Host>, Reason>)
      ensures r == if !readable || Corrupt(disk) then Err(CorruptFile) else Ok(Load(disk, clock))
      ensures r.Ok? ==> |r.value| == |disk| && forall i :: 0 <= i < |disk| ==> r.value[i] == Normalise(disk[i], clock(i))
      ensures r.Err? <==> !readable || exists i :: 0 <= i < |disk| && disk[i].claws
    {
      if !readable { return Err(CorruptFile); }
      for i := 0 to |disk|
        invariant forall j :: 0 <= j < i ==> !disk[j].claws
      {
        if disk[i].claws { return Err(CorruptFile); }
      }
      var hosts: seq<Host> := [];
      for i := 0 to |disk|
        invariant hosts == Load(disk, clock)[..i]
      {
        hosts := hosts + [Normalise(disk[i], clock(i))];
      }
      assert Load(disk, clock)[..|disk|] == Load(disk, clock);
      return Ok(hosts);
    }

    method AddHost(host: Host, clock: Clock) returns (r: Result<bool, Reason>)
      modifies this`disk
      ensures Settled(old(disk), disk, r, if readable then Transact(old(disk), Add(host), clock) else Decline(CorruptFile))
      ensures r == Ok(true) <==> readable && !Corrupt(old(disk)) && !Registered(old(disk), host.hostname)
      ensures r == Ok(true) ==> disk == Load(old(disk), clock) + [EnsureAddresses(host, clock(|old(disk)|))]
    {
      var loaded := LoadHosts(clock);
      if loaded.Err? { return Err(loaded.error); }
      TransactMeaning(disk, Add(host), clock);
      var hosts := loaded.value;
      for i := 0 to |hosts|
        invariant forall j :: 0 <= j < i ==> hosts[j].hostname != host.hostname
      {
        if hosts[i].hostname == host.hostname { return Err(DuplicateHost); }
      }
      disk := hosts + [EnsureAddresses(host, clock(|hosts|))];
      return Ok(true);
    }

    method RemoveHost(name: string, clock: Clock) returns (r: Result<bool, Reason>)
      modifies this`disk
      ensures Settled(old(disk), disk, r, if readable then Transact(old(disk), Remove(name), clock) else Decline(CorruptFile))
      ensures r == Ok(true) <==> readable && !Corrupt(old(disk)) && Registered(old(disk), Some(name))
      ensures r == Ok(true) ==> disk == Without(Load(old(disk), clock), name)
    {
      var loaded := LoadHosts(clock);
      if loaded.Err? { return Err(loaded.error); }
      TransactMeaning(disk, Remove(name), clock);
      var hosts, filtered := loaded.value, [];
      for i := 0 to |hosts|
        invariant filtered == Without(hosts[..i], name) && disk == old(disk)
      {
        assert hosts[..i + 1] == hosts[..i] + [hosts[i]];
        WithoutConcat(hosts[..i], [hosts[i]], name);
        if hosts[i].hostname != Some(name) { filtered := filtered + [hosts[i]]; }
      }
      assert hosts[..|hosts|] == hosts;
      if |filtered| == |hosts| { return Ok(false); }
      disk := filtered;
      return Ok(true);
    }

    method UpdateHost(name: string, updater: Host -> Option<Host>, clock: Clock) returns (r: Result<bool, Reason>)
      modifies this`disk
      ensures Settled(old(disk), disk, r, if readable then Transact(old(disk), Update(name, updater), clock) else Decline(CorruptFile))
      ensures r == Ok(true) ==> exists i :: EditsFirst(old(disk), disk, name, updater, clock, i)
    {
      var loaded := LoadHosts(clock);
      if loaded.Err? { return Err(loaded.error); }
      TransactMeaning(disk, Update(name, updater), clock);
      var hosts, found := loaded.value, false;
      for i := 0 to |hosts|
        invariant !found && hosts == loaded.value
        invariant forall j :: 0 <= j < i ==> hosts[j].hostname != Some(name)
      {
        if hosts[i].hostname == Some(name) {
          var updated := updater(hosts[i]);
          if updated.None? { return Err(UpdaterRaised); }
          hosts, found := hosts[i := updated.value], true;
          break;
        }
      }
      if found { disk := hosts; }
      return Ok(found);
    }
  }

  /** What a caller sees: a commit replaces the file and answers true; "not found"
      answers false, any other refusal raises, and neither touches the file. */
  predicate Settled(before: seq<Host>, after: seq<Host>, r: Result<bool, Reason>, v: Verdict) {
    match v
    case Commit(hosts) => after == hosts && r == Ok(true)
    case Decline(NotFound) => after == before && r == Ok(false)
    case Decline(reason) => after == before && r == Err(reason)
  }

  // ---- interleaved processes -----------------------------------------------

  datatype Pc =
    | Ready
    | Holding                                        // inside _hosts_lock
    | Loaded(clock: Clock, hosts: seq<Host>)
    | Staged(clock: Clock, next: seq<Host>)          // temporary file written
    | Swapped                                        // os.replace done, lock still held
    | Finished(changed: bool)
    | Crashed

  datatype Entry = Entry(proc: nat, clock: Clock)

  /** A list some unlocked reader obtained when `at` changes had been committed. */
  datatype Reading = Reading(at: nat, clock: Clock, hosts: Result<seq<Host>, Reason>)

  datatype State = State(
    disk: seq<Host>,
    lock: Option<nat>,
    ops: seq<Op>,
    pc: seq<Pc>,
    log: seq<Entry>,
    readings: seq<Reading>)

  datatype Action =
    | Acquire(p: nat) | DoLoad(p: nat, clock: Clock) | Stage(p: nat) | Swap(p: nat) | Release(p: nat)
    | Crash(p: nat)
    | Read(clock: Clock)
    | SaveHosts(hosts: seq<Host>)    // save_hosts: locked write of a list loaded earlier, outside the lock

  function Initial(disk: seq<Host>, ops: seq<Op>): State {
    State(disk, None, ops, seq(|ops|, _ => Ready), [], [])
  }

  function Goto(s: State, p: nat, pc: Pc): State
    requires p < |s.pc|
  {
    s.(pc := s.pc[p := pc])
  }

  /** One step; an action that is not enabled changes nothing. */
  function Step(s: State, a: Action): State
    requires |s.pc| == |s.ops|
  {
    match a
    case Acquire(p) =>
      if p < |s.pc| && s.pc[p].Ready? && s.lock.None? then Goto(s, p, Holding).(lock := Some(p)) else s
    case DoLoad(p, clock) =>
      if p < |s.pc| && s.pc[p].Holding? then
        if Corrupt(s.disk) then Goto(s, p, Finished(false)).(lock := None)
        else Goto(s, p, Loaded(clock, Load(s.disk, clock)))
      else s
    case Stage(p) =>
      if p < |s.pc| && s.pc[p].Loaded? then
        match Modify(s.ops[p], s.pc[p].hosts, s.pc[p].clock(|s.pc[p].hosts|))
        case Decline(_) => Goto(s, p, Finished(false)).(lock := None)
        case Commit(next) => Goto(s, p, Staged(s.pc[p].clock, next))
      else s
    case Swap(p) =>
      if p < |s.pc| && s.pc[p].Staged? then
        Goto(s, p, Swapped).(disk := s.pc[p].next, log := s.log + [Entry(p, s.pc[p].clock)])
      else s
    case Release(p) =>
      if p < |s.pc| && s.pc[p].Swapped? then Goto(s, p, Finished(true)).(lock := None) else s
    case Crash(p) =>
      if p < |s.pc| && !s.pc[p].Finished? then
        Goto(s, p, Crashed).(lock := if s.lock == Some(p) then None else s.lock)
      else s
    case Read(clock) =>
      var seen := if Corrupt(s.disk) then Err(CorruptFile) else Ok(Load(s.disk, clock));
      s.(readings := s.readings + [Reading(|s.log|, clock, seen)])
    case SaveHosts(hosts) => if s.lock.None? then s.(disk := hosts) else s
  }

  function Run(s: State, actions: seq<Action>): (r: State)
    requires |s.pc| == |s.ops|
    ensures |r.pc| == |r.ops| && r.ops == s.ops
    decreases |actions|
  {
    if actions == [] then s else Run(Step(s, actions[0]), actions[1..])
  }

  /** The list after applying the logged changes, in log order, one at a time. */
  function Replay(disk: seq<Host>, ops: seq<Op>, log: seq<Entry>): Option<seq<Host>> {
    if log == [] then Some(disk)
    else
      var last := log[|log| - 1];
      match Replay(disk, ops, log[..|log| - 1])
      case None => None
      case Some(before) =>
        if last.proc >= |ops| then None
        else match Transact(before, ops[last.proc], last.clock)
             case Commit(after) => Some(after)
             case Decline(_) => None
  }

  predicate InSection(pc: Pc) {
    pc.Holding? || pc.Loaded? || pc.Staged? || pc.Swapped?
  }

  ghost predicate Logged(log: seq<Entry>, p: nat) {
    exists i :: 0 <= i < |log| && log[i].proc == p
  }

  ghost predicate ReadingSound(disk: seq<Host>, ops: seq<Op>, log: seq<Entry>, r: Reading) {
    && r.at <= |log|
    && Replay(disk, ops, log[..r.at]).Some?
    && var then_ := Replay(disk, ops, log[..r.at]).value;
       r.hosts == if Corrupt(then_) then Err(CorruptFile) else Ok(Load(then_, r.clock))
  }

  ghost predicate Inv(init: seq<Host>, s: State) {
    && |s.pc| == |s.ops|
    && Replay(init, s.ops, s.log) == Some(s.disk)
    && (forall p :: 0 <= p < |s.pc| ==> (s.lock == Some(p) <==> InSection(s.pc[p])))
    && (s.lock.Some? ==> s.lock.value < |s.pc|)
    && (forall p :: 0 <= p < |s.pc| && s.pc[p].Loaded? ==>
          !Corrupt(s.disk) && s.pc[p].hosts == Load(s.disk, s.pc[p].clock))
    && (forall p :: 0 <= p < |s.pc| && s.pc[p].Staged? ==>
          Transact(s.disk, s.ops[p], s.pc[p].clock) == Commit(s.pc[p].next))
    && (forall p :: 0 <= p < |s.pc| && (s.pc[p].Swapped? || s.pc[p] == Finished(true)) ==> Logged(s.log, p))
    && (forall p :: 0 <= p < |s.pc| && Logged(s.log, p) ==>
          s.pc[p].Swapped? || s.pc[p] == Finished(true) || s.pc[p].Crashed?)
    && (forall i, j :: 0 <= i < j < |s.log| ==> s.log[i].proc != s.log[j].proc)
    && (forall k :: 0 <= k < |s.readings| ==> ReadingSound(init, s.ops, s.log, s.readings[k]))
  }

  lemma ReplayOne(init: seq<Host>, ops: seq<Op>, log: seq<Entry>, e: Entry, before: seq<Host>, after: seq<Host>)
    requires Replay(init, ops, log) == Some(before) && e.proc < |ops|
    requires Transact(before, ops[e.proc], e.clock) == Commit(after)
    ensures Replay(init, ops, log + [e]) == Some(after)
  {
    assert (log + [e])[..|log|] == log;
  }

  lemma LoggedOne(log: seq<Entry>, e: Entry, q: nat)
    ensures Logged(log + [e], q) <==> Logged(log, q) || q == e.proc
  {
    var longer := log + [e];
    assert longer[|log|] == e;
    if i :| 0 <= i < |log| && log[i].proc == q { assert longer[i].proc == q; }
  }

  lemma ReadingStaysSound(init: seq<Host>, ops: seq<Op>, log: seq<Entry>, e: Entry, r: Reading)
    requires ReadingSound(init, ops, log, r)
    ensures ReadingSound(init, ops, log + [e], r)
  {
    assert (log + [e])[..r.at] == log[..r.at];
  }

  lemma SwapKeepsInv(init: seq<Host>, s: State, p: nat)
    requires Inv(init, s) && p < |s.pc| && s.pc[p].Staged?
    ensures Inv(init, Step(s, Swap(p)))
  {
    var s', e := Step(s, Swap(p)), Entry(p, s.pc[p].clock);
    ReplayOne(init, s.ops, s.log, e, s.disk, s.pc[p].next);
    assert !Logged(s.log, p);
    forall q: nat | q < |s.pc| ensures Logged(s'.log, q) <==> Logged(s.log, q) || q == p {
      LoggedOne(s.log, e, q);
    }
    forall i, j | 0 <= i < j < |s'.log| ensures s'.log[i].proc != s'.log[j].proc {
      assert s'.log[i] == s.log[i];
      if j == |s.log| { assert s.log[i].proc != p; }
    }
    forall k | 0 <= k < |s.readings| ensures ReadingSound(init, s.ops, s'.log, s'.readings[k]) {
      ReadingStaysSound(init, s.ops, s.log, e, s.readings[k]);
    }
  }

  lemma AcquireOrLoadKeepsInv(init: seq<Host>, s: State, a: Action)
    requires Inv(init, s) && (a.Acquire? || a.DoLoad?)
    ensures Inv(init, Step(s, a))
  {
  }

  lemma StageKeepsInv(init: seq<Host>, s: State, p: nat)
    requires Inv(init, s)
    ensures Inv(init, Step(s, Stage(p)))
  {
    if p < |s.pc| && s.pc[p].Loaded? {
      assert |s.pc[p].hosts| == |s.disk|;
    }
  }

  lemma LeaveKeepsInv(init: seq<Host>, s: State, a: Action)
    requires Inv(init, s) && (a.Release? || a.Crash?)
    ensures Inv(init, Step(s, a))
  {
  }

  lemma StepKeepsInv(init: seq<Host>, s: State, a: Action)
    requires Inv(init, s) && !a.SaveHosts?
    ensures Inv(init, Step(s, a))
  {
    match a
    case Stage(p) => StageKeepsInv(init, s, p);
    case Swap(p) => if p < |s.pc| && s.pc[p].Staged? { SwapKeepsInv(init, s, p); }
    case Read(clock) =>
      assert s.log[..|s.log|] == s.log;
      assert ReadingSound(init, s.ops, s.log, Step(s, a).readings[|s.readings|]);
    case Release(_) => LeaveKeepsInv(init, s, a);
    case Crash(_) => LeaveKeepsInv(init, s, a);
    case _ => AcquireOrLoadKeepsInv(init, s, a);
  }

  predicate NoSaveHosts(actions: seq<Action>) {
    forall i :: 0 <= i < |actions| ==> !actions[i].SaveHosts?
  }

  lemma {:induction false} RunKeepsInv(init: seq<Host>, s: State, actions: seq<Action>)
    requires Inv(init, s) && NoSaveHosts(actions)
    ensures Inv(init, Run(s, actions))
    decreases |actions|
  {
    if actions != [] {
      assert !actions[0].SaveHosts?;
      StepKeepsInv(init, s, actions[0]);
      RunKeepsInv(init, Step(s, actions[0]), actions[1..]);
    }
  }

  /** No lost updates.  Whatever the interleaving and whoever crashes where, the
      file is the initial list with the logged changes applied in lock order;
      every acknowledged change is logged exactly once, a declined one never; and
      every unlocked reader saw the list as it stood after some number of them. */
  lemma NoLostUpdates(init: seq<Host>, ops: seq<Op>, actions: seq<Action>)
    requires NoSaveHosts(actions)
    ensures var s := Run(Initial(init, ops), actions);
            && Replay(init, ops, s.log) == Some(s.disk)
            && (forall p :: 0 <= p < |s.pc| && s.pc[p] == Finished(true) ==> Logged(s.log, p))
            && (forall p :: 0 <= p < |s.pc| && s.pc[p] == Finished(false) ==> !Logged(s.log, p))
            && (forall i, j :: 0 <= i < j < |s.log| ==> s.log[i].proc != s.log[j].proc)
            && (forall k :: 0 <= k < |s.readings| ==> ReadingSound(init, ops, s.log, s.readings[k]))
  {
    assert Replay(init, ops, []) == Some(init);
    RunKeepsInv(init, Initial(init, ops), actions);
  }

  /** At most one process is between taking and releasing the lock. */
  lemma LockExcludes(init: seq<Host>, ops: seq<Op>, actions: seq<Action>, p: nat, q: nat)
    requires NoSaveHosts(actions) && p < |ops| && q < |ops|
    requires var s := Run(Initial(init, ops), actions); InSection(s.pc[p]) && InSection(s.pc[q])
    ensures p == q
  {
    assert Replay(init, ops, []) == Some(init);
    RunKeepsInv(init, Initial(init, ops), actions);
  }

  lemma RunCons(s: State, a: Action, rest: seq<Action>)
    requires |s.pc| == |s.ops|
    ensures Run(s, [a] + rest) == Run(Step(s, a), rest)
  {
    assert ([a] + rest)[1..] == rest;
  }

  lemma LoadsAlone(s: State, p: nat, clock: Clock, rest: seq<Action>)
    requires |s.pc| == |s.ops| && p < |s.pc| && s.pc[p].Ready? && s.lock.None?
    ensures Run(s, [Acquire(p)] + ([DoLoad(p, clock)] + rest))
         == Run(if Corrupt(s.disk) then Goto(s, p, Finished(false))
                else Goto(s, p, Loaded(clock, Load(s.disk, clock))).(lock := Some(p)), rest)
  {
    var s1 := Goto(s, p, Holding).(lock := Some(p));
    RunCons(s, Acquire(p), [DoLoad(p, clock)] + rest);
    RunCons(s1, DoLoad(p, clock), rest);
    assert s1.pc[p := Finished(false)] == s.pc[p := Finished(false)];
    assert s1.pc[p := Loaded(clock, Load(s.disk, clock))] == s.pc[p := Loaded(clock, Load(s.disk, clock))];
  }

  lemma FinishedStays(s: State, p: nat)
    requires |s.pc| == |s.ops| && p < |s.pc| && s.pc[p].Finished?
    ensures Run(s, [Swap(p)] + ([Release(p)] + [])) == s
    ensures Run(s, [Stage(p)] + ([Swap(p)] + ([Release(p)] + []))) == s
  {
    RunCons(s, Stage(p), [Swap(p)] + ([Release(p)] + []));
    RunCons(s, Swap(p), [Release(p)] + []);
    RunCons(s, Release(p), []);
  }

  lemma CommitsAlone(s: State, p: nat)
    requires |s.pc| == |s.ops| && p < |s.pc| && s.pc[p].Loaded?
    ensures var v := Modify(s.ops[p], s.pc[p].hosts, s.pc[p].clock(|s.pc[p].hosts|));
            var t := Goto(s, p, Finished(v.Commit?)).(lock := None);
            Run(s, [Stage(p)] + ([Swap(p)] + ([Release(p)] + [])))
            == if v.Commit? then t.(disk := v.hosts, log := s.log + [Entry(p, s.pc[p].clock)]) else t
  {
    var clock, v := s.pc[p].clock, Modify(s.ops[p], s.pc[p].hosts, s.pc[p].clock(|s.pc[p].hosts|));
    RunCons(s, Stage(p), [Swap(p)] + ([Release(p)] + []));
    if v.Commit? {
      var s1 := Goto(s, p, Staged(clock, v.hosts));
      var s2 := Goto(s, p, Swapped).(disk := v.hosts, log := s.log + [Entry(p, clock)]);
      assert Step(s, Stage(p)) == s1;
      assert s1.pc[p := Swapped] == s.pc[p := Swapped];
      RunCons(s1, Swap(p), [Release(p)] + []);
      RunCons(s2, Release(p), []);
      assert s2.pc[p := Finished(true)] == s.pc[p := Finished(true)];
    } else {
      FinishedStays(Goto(s, p, Finished(false)).(lock := None), p);
    }
  }

  /** A process that meets a free lock and is not disturbed commits what its operation makes
      of the file, or leaves the file as it is, and frees the lock. */
  lemma UndisturbedCompletes(s: State, p: nat, clock: Clock)
    requires |s.pc| == |s.ops| && p < |s.pc| && s.pc[p].Ready? && s.lock.None?
    ensures var t, v := Run(s, [Acquire(p), DoLoad(p, clock), Stage(p), Swap(p), Release(p)]), Transact(s.disk, s.ops[p], clock);
            && t.lock == None && t.pc == s.pc[p := Finished(v.Commit?)]
            && t.disk == (if v.Commit? then v.hosts else s.disk)
            && t.log == (if v.Commit? then s.log + [Entry(p, clock)] else s.log)
  {
    var rest := [Stage(p)] + ([Swap(p)] + ([Release(p)] + []));
    assert [Acquire(p), DoLoad(p, clock), Stage(p), Swap(p), Release(p)] == [Acquire(p)] + ([DoLoad(p, clock)] + rest);
    LoadsAlone(s, p, clock, rest);
    if Corrupt(s.disk) {
      FinishedStays(Goto(s, p, Finished(false)), p);
    } else {
      var s2 := Goto(s, p, Loaded(clock, Load(s.disk, clock))).(lock := Some(p));
      CommitsAlone(s2, p);
      var done := Finished(Transact(s.disk, s.ops[p], clock).Commit?);
      assert s2.pc[p := done] == s.pc[p := done];
    }
  }

  /** A lone addition to an empty file goes through. */
  lemma AddCommits(host: Host, clock: Clock, rest: seq<Action>) returns (actions: seq<Action>, s: State)
    ensures s.pc == [Finished(true)] && s.log == [Entry(0, clock)] && s.lock == None && s.ops == [Add(host)]
    ensures Run(Initial([], [Add(host)]), actions + rest) == Run(s, rest)
    ensures s.disk == [EnsureAddresses(host, clock(0))]
  {
    var s0 := Initial([], [Add(host)]);
    assert Load([], clock) == [];
    var s3 := Step(Step(s0, Acquire(0)), DoLoad(0, clock));
    assert s3.pc == [Loaded(clock, [])];
    s := Step(Step(Step(s3, Stage(0)), Swap(0)), Release(0));
    actions := [Acquire(0)] + ([DoLoad(0, clock)] + ([Stage(0)] + ([Swap(0)] + [Release(0)])));
    assert actions + rest == [Acquire(0)] + ([DoLoad(0, clock)] + ([Stage(0)] + ([Swap(0)] + ([Release(0)] + rest))));
    RunCons(s0, Acquire(0), [DoLoad(0, clock)] + ([Stage(0)] + ([Swap(0)] + ([Release(0)] + rest))));
    RunCons(Step(s0, Acquire(0)), DoLoad(0, clock), [Stage(0)] + ([Swap(0)] + ([Release(0)] + rest)));
    RunCons(s3, Stage(0), [Swap(0)] + ([Release(0)] + rest));
    RunCons(Step(s3, Stage(0)), Swap(0), [Release(0)] + rest);
    RunCons(Step(Step(s3, Stage(0)), Swap(0)), Release(0), rest);
  }

  /** `save_hosts` is outside the guarantee: it writes a list that its caller
      loaded before the lock was taken.  Here the caller loaded the empty list,
      and an addition acknowledged since then disappears. */
  lemma SaveHostsLosesAnUpdate(host: Host, clock: Clock) returns (actions: seq<Action>)
    ensures var s := Run(Initial([], [Add(host)]), actions);
            && s.pc == [Finished(true)] && s.disk == []
            && Replay([], [Add(host)], s.log) != Some(s.disk)
  {
    var s;
    actions, s := AddCommits(host, clock, [SaveHosts([])]);
    var s' := Step(s, SaveHosts([]));
    RunCons(s, SaveHosts([]), []);
    assert [SaveHosts([])] + [] == [SaveHosts([])];
    actions := actions + [SaveHosts([])];
    assert s'.log[..0] == [];
    assert Load([], clock) == [];
  }

  /** A save under the free lock keeps the guarantee exactly when its list is the file. */
  lemma SaveHostsKeepsIff(init: seq<Host>, s: State, hosts: seq<Host>)
    requires Inv(init, s) && s.lock.None?
    ensures Inv(init, Step(s, SaveHosts(hosts))) <==> hosts == s.disk
  {
    assert hosts == s.disk ==> Step(s, SaveHosts(hosts)) == s;
  }

  /** Every save that goes through writes the list that is on file. */
  ghost predicate SavesCurrent(s: State, actions: seq<Action>)
    requires |s.pc| == |s.ops|
    decreases |actions|
  {
    actions == [] ||
    ((actions[0].SaveHosts? && s.lock.None? ==> actions[0].hosts == s.disk) && SavesCurrent(Step(s, actions[0]), actions[1..]))
  }

  /** Runs with such saves lose no update either. */
  lemma {:induction false} CurrentSavesLoseNothing(init: seq<Host>, s: State, actions: seq<Action>)
    requires Inv(init, s) && SavesCurrent(s, actions)
    ensures Inv(init, Run(s, actions))
    decreases |actions|
  {
    if actions != [] {
      if actions[0].SaveHosts? {
        assert Step(s, actions[0]) == s;
      } else {
        StepKeepsInv(init, s, actions[0]);
      }
      CurrentSavesLoseNothing(init, Step(s, actions[0]), actions[1..]);
    }
  }
}
