/** Integrations attached to agents: the registry and the attachment lists live in two
    files under two locks, and one kind of integration may be attached only once. */
module AgentIntegrations {
  import opened Prelude

  type Name = string
  type Agent = string

  /** Types by name; the empty type stands for a record without one. */
  type Registry = map<Name, string>

  const GIT := "git"                 // the only singleton type

  function TypeOf(reg: Registry, name: Name): string {
    if name in reg then reg[name] else ""
  }

  predicate IsGit(reg: Registry, name: Name) {
    TypeOf(reg, name) == GIT
  }

  predicate Distinct(names: seq<Name>) {
    forall i, j :: 0 <= i < j < |names| ==> names[i] != names[j]
  }

  predicate OneGit(reg: Registry, names: seq<Name>) {
    forall i, j :: 0 <= i < j < |names| ==> !(IsGit(reg, names[i]) && IsGit(reg, names[j]))
  }

  /** Registration only adds names, and a name keeps its type. */
  ghost predicate Grows(before: Registry, after: Registry) {
    forall n :: n in before ==> n in after && after[n] == before[n]
  }

  // ---- one attachment list ----------------------------------------------------------------

  datatype Outcome = Added | AlreadyThere | NoAgent | Conflict(existing: Name) | Detached | NotAttached | Registered | Duplicate

  /** What attaching does to a list: `kind` is the type found before the hosts lock was
      taken, `reg` the registry as it is under the lock. */
  function AttachOutcome(reg: Registry, names: seq<Name>, name: Name, kind: string): Outcome {
    if name in names then AlreadyThere
    else if kind == GIT then match FirstGit(reg, names) case Some(other) => Conflict(other) case None => Added
    else Added
  }

  function FirstGit(reg: Registry, names: seq<Name>): (r: Option<Name>)
    ensures r.None? <==> forall n :: n in names ==> !IsGit(reg, n)
    ensures r.Some? ==> r.value in names && IsGit(reg, r.value)
  {
    if names == [] then None
    else if IsGit(reg, names[0]) then Some(names[0])
    else FirstGit(reg, names[1..])
  }

  function AfterAttach(reg: Registry, names: seq<Name>, name: Name, kind: string): seq<Name> {
    if AttachOutcome(reg, names, name, kind) == Added then names + [name] else names
  }

  /** The first listed name of the singleton type. */
  ghost predicate FirstOfType(reg: Registry, names: seq<Name>, k: nat) {
    && k < |names| && names[k] in reg && reg[names[k]] == "git"
    && forall j :: 0 <= j < k ==> !(names[j] in reg && reg[names[j]] == "git")
  }

  lemma {:induction false} FirstGitIs(reg: Registry, names: seq<Name>, k: nat)
    requires FirstOfType(reg, names, k)
    ensures FirstGit(reg, names) == Some(names[k])
  {
    if k > 0 {
      assert !IsGit(reg, names[0]);
      assert forall j :: 0 <= j < k - 1 ==> names[1..][j] == names[j + 1];
      FirstGitIs(reg, names[1..], k - 1);
    }
  }

  /** A listed name changes nothing; a name of the singleton type is refused, naming the
      first listed one of that type, if there is one; every other name is appended. */
  lemma AttachMeaning(reg: Registry, names: seq<Name>, name: Name, kind: string, k: nat)
    ensures name in names ==>
              AttachOutcome(reg, names, name, kind) == AlreadyThere && AfterAttach(reg, names, name, kind) == names
    ensures name !in names && kind != "git" ==>
              AttachOutcome(reg, names, name, kind) == Added && AfterAttach(reg, names, name, kind) == names + [name]
    ensures name !in names && (forall n :: n in names && n in reg ==> reg[n] != "git") ==>
              AttachOutcome(reg, names, name, kind) == Added && AfterAttach(reg, names, name, kind) == names + [name]
    ensures name !in names && kind == "git" && FirstOfType(reg, names, k) ==>
              AttachOutcome(reg, names, name, kind) == Conflict(names[k]) && AfterAttach(reg, names, name, kind) == names
  {
    if FirstOfType(reg, names, k) { FirstGitIs(reg, names, k); }
  }

  function WithoutFirst(names: seq<Name>, name: Name): (r: seq<Name>)
    ensures name !in names ==> r == names
  {
    if names == [] then []
    else if names[0] == name then names[1..]
    else [names[0]] + WithoutFirst(names[1..], name)
  }

  /** Detaching takes out one occurrence, the first, and keeps the others in order. */
  lemma {:induction false} WithoutFirstMeaning(names: seq<Name>, name: Name) returns (k: nat)
    requires name in names
    ensures k < |names| && names[k] == name && name !in names[..k]
    ensures WithoutFirst(names, name) == names[..k] + names[k + 1..]
  {
    if names[0] == name {
      k := 0;
    } else {
      var rest := names[1..];
      k := WithoutFirstMeaning(rest, name);
      assert names[..k + 1] == [names[0]] + rest[..k];
      assert names[k + 2..] == rest[k + 1..];
      k := k + 1;
    }
  }

  /** The record of one agent. */
  class AgentRecord {
    var integrations: seq<Name>

    constructor (integrations: seq<Name>)
      ensures this.integrations == integrations
    {
      this.integrations := integrations;
    }

    /** The closure run under the hosts lock. */
    method Attach(name: Name, kind: string, reg: Registry) returns (added: bool, conflict: Option<Name>)
      modifies this
      ensures integrations == AfterAttach(reg, old(integrations), name, kind)
      ensures added <==> AttachOutcome(reg, old(integrations), name, kind) == Added
      // the same without those functions
      ensures name in old(integrations) ==> !added && conflict.None?
      ensures name !in old(integrations) && conflict.None? ==> added
      ensures integrations == if added then old(integrations) + [name] else old(integrations)
      ensures conflict.Some? ==> kind == "git" && exists k: nat :: FirstOfType(reg, old(integrations), k) && conflict == Some(old(integrations)[k])
      ensures kind == "git" && name !in old(integrations) && (exists n :: n in old(integrations) && n in reg && reg[n] == "git")
              ==> conflict.Some?
      ensures conflict == match AttachOutcome(reg, old(integrations), name, kind) case Conflict(n) => Some(n) case _ => None
    {
      added, conflict := false, None;
      if name in integrations { return; }
      if kind == GIT {
        var i := 0;
        while i < |integrations|
          invariant 0 <= i <= |integrations| && integrations == old(integrations)
          invariant FirstGit(reg, integrations) == FirstGit(reg, integrations[i..])
          invariant forall j :: 0 <= j < i ==> !(integrations[j] in reg && reg[integrations[j]] == "git")
        {
          if TypeOf(reg, integrations[i]) == kind {
            assert FirstOfType(reg, integrations, i);
            conflict := Some(integrations[i]);
            return;
          }
          assert integrations[i..][1..] == integrations[i + 1..];
          i := i + 1;
        }
      }
      integrations := integrations + [name];
      added := true;
    }

    method Detach(name: Name) returns (removed: bool)
      modifies this
      ensures integrations == WithoutFirst(old(integrations), name)
      ensures removed <==> name in old(integrations)
    {
      removed := name in integrations;
      if removed {
        integrations := WithoutFirst(integrations, name);
      }
    }
  }

  // ---- any number of callers ------------------------------------------------------------------

  datatype Call = Register(name: Name, kind: string) | Attach(agent: Agent, name: Name) | Detach(agent: Agent, name: Name)

  /** `Looked` has read the registry and not yet taken the hosts lock. */
  datatype Pc = Begin | Looked(found: bool, kind: string) | Finished(outcome: Outcome)

  datatype Change = Change(caller: nat, agent: Agent, name: Name, attached: bool)

  /** `strays` are attachments whose call found no record of the name; `log` is every
      change of a list, in order. */
  datatype State = State(reg: Registry, lists: map<Agent, seq<Name>>, calls: seq<Call>, pc: seq<Pc>,
                         strays: set<(Agent, Name)>, log: seq<Change>)

  predicate Shaped(s: State) {
    |s.pc| == |s.calls|
  }

  /** One step of caller `p`.  The update under the hosts lock is one step: nobody else
      changes the lists meanwhile, and the registry is read there once. */
  function Step(s: State, p: nat): State
    requires Shaped(s)
  {
    if p >= |s.pc| then s
    else
      match s.pc[p]
      case Finished(_) => s
      case Begin =>
        (match s.calls[p]
         case Register(name, kind) =>
           if name in s.reg then s.(pc := s.pc[p := Finished(Duplicate)])
           else s.(reg := s.reg[name := kind], pc := s.pc[p := Finished(Registered)])
         case Attach(_, name) => s.(pc := s.pc[p := Looked(name in s.reg, TypeOf(s.reg, name))])
         case Detach(agent, name) => StepDetach(s, p, agent, name))
      case Looked(found, kind) =>
        if s.calls[p].Attach? then StepAttach(s, p, s.calls[p].agent, s.calls[p].name, found, kind) else s
  }

  function StepAttach(s: State, p: nat, agent: Agent, name: Name, found: bool, kind: string): State
    requires Shaped(s) && p < |s.pc|
  {
    if agent !in s.lists then s.(pc := s.pc[p := Finished(NoAgent)])
    else
      var outcome := AttachOutcome(s.reg, s.lists[agent], name, kind);
      var next := s.(lists := s.lists[agent := AfterAttach(s.reg, s.lists[agent], name, kind)], pc := s.pc[p := Finished(outcome)]);
      if outcome != Added then next
      else next.(strays := if found then s.strays - {(agent, name)} else s.strays + {(agent, name)},
                 log := s.log + [Change(p, agent, name, true)])
  }

  function StepDetach(s: State, p: nat, agent: Agent, name: Name): State
    requires Shaped(s) && p < |s.pc|
  {
    if agent !in s.lists then s.(pc := s.pc[p := Finished(NoAgent)])
    else if name !in s.lists[agent] then s.(pc := s.pc[p := Finished(NotAttached)])
    else s.(lists := s.lists[agent := WithoutFirst(s.lists[agent], name)], pc := s.pc[p := Finished(Detached)],
            log := s.log + [Change(p, agent, name, false)])
  }

  function Run(s: State, schedule: seq<nat>): (r: State)
    requires Shaped(s)
    ensures Shaped(r)
    decreases |schedule|
  {
    if schedule == [] then s else Run(Step(s, schedule[0]), schedule[1..])
  }

  function Initial(reg: Registry, lists: map<Agent, seq<Name>>, calls: seq<Call>): State {
    State(reg, lists, calls, seq(|calls|, _ => Begin), {}, [])
  }

  // ---- what every state keeps --------------------------------------------------------------------

  /** The list has no name twice; a name is registered unless it is a stray; of two
      attachments of the singleton type one is a stray. */
  predicate ListOk(reg: Registry, strays: set<(Agent, Name)>, agent: Agent, names: seq<Name>) {
    && Distinct(names)
    && (forall i :: 0 <= i < |names| ==> names[i] in reg || (agent, names[i]) in strays)
    && (forall i, j :: 0 <= i < j < |names| && IsGit(reg, names[i]) && IsGit(reg, names[j]) ==>
          (agent, names[i]) in strays || (agent, names[j]) in strays)
  }

  predicate CallerOk(s: State, p: nat)
    requires Shaped(s) && p < |s.pc|
  {
    match s.pc[p]
    case Looked(found, kind) =>
      && s.calls[p].Attach? && kind == (if found then TypeOf(s.reg, s.calls[p].name) else "")
      && (found ==> s.calls[p].name in s.reg)
    case Finished(_) => true
    case Begin => true
  }

  ghost predicate Inv(s: State) {
    && Shaped(s)
    && (forall a :: a in s.lists ==> ListOk(s.reg, s.strays, a, s.lists[a]))
    && (forall p: nat :: p < |s.pc| ==> CallerOk(s, p))
  }

  function Skip(i: nat, k: nat): nat {
    if i < k then i else i + 1
  }

  lemma OneLessKeepsListOk(reg: Registry, strays: set<(Agent, Name)>, agent: Agent, names: seq<Name>, k: nat, r: seq<Name>)
    requires ListOk(reg, strays, agent, names) && k < |names|
    requires |r| == |names| - 1 && forall i: nat :: i < |r| ==> r[i] == names[Skip(i, k)]
    ensures ListOk(reg, strays, agent, r)
  {
  }

  lemma WithoutFirstIndex(names: seq<Name>, name: Name) returns (k: nat, r: seq<Name>)
    requires name in names
    ensures r == WithoutFirst(names, name) && |r| == |names| - 1 && k < |names|
    ensures forall i: nat :: i < |r| ==> r[i] == names[Skip(i, k)]
  {
    k := WithoutFirstMeaning(names, name);
    r := names[..k] + names[k + 1..];
  }

  lemma WithoutFirstKeepsListOk(reg: Registry, strays: set<(Agent, Name)>, agent: Agent, names: seq<Name>, name: Name)
    requires ListOk(reg, strays, agent, names) && name in names
    ensures ListOk(reg, strays, agent, WithoutFirst(names, name))
  {
    var k, r := WithoutFirstIndex(names, name);
    OneLessKeepsListOk(reg, strays, agent, names, k, r);
  }

  lemma AttachKeepsListOk(reg: Registry, strays: set<(Agent, Name)>, agent: Agent, names: seq<Name>, name: Name, found: bool, kind: string)
    requires ListOk(reg, strays, agent, names) && AttachOutcome(reg, names, name, kind) == Added
    requires kind == (if found then TypeOf(reg, name) else "") && (found ==> name in reg)
    ensures ListOk(reg, if found then strays - {(agent, name)} else strays + {(agent, name)}, agent, names + [name])
  {
    if found && kind == GIT {
      assert FirstGit(reg, names).None?;
    }
  }

  lemma StepKeepsInv(s: State, p: nat)
    requires Inv(s)
    ensures Inv(Step(s, p))
    ensures Grows(s.reg, Step(s, p).reg)
  {
    var t := Step(s, p);
    if p < |s.pc| {
      assert CallerOk(s, p);
      forall a | a in t.lists ensures ListOk(t.reg, t.strays, a, t.lists[a]) {
        assert ListOk(s.reg, s.strays, a, s.lists[a]);
        if s.pc[p].Looked? && a == s.calls[p].agent {
          if AttachOutcome(s.reg, s.lists[a], s.calls[p].name, s.pc[p].kind) == Added {
            AttachKeepsListOk(s.reg, s.strays, a, s.lists[a], s.calls[p].name, s.pc[p].found, s.pc[p].kind);
          }
        } else if s.pc[p].Begin? && s.calls[p].Detach? && a == s.calls[p].agent && s.calls[p].name in s.lists[a] {
          WithoutFirstKeepsListOk(s.reg, s.strays, a, s.lists[a], s.calls[p].name);
        }
      }
      forall q: nat | q < |t.pc| ensures CallerOk(t, q) {
        assert CallerOk(s, q);
      }
    }
  }

  lemma {:induction false} RunKeepsInv(s: State, schedule: seq<nat>)
    requires Inv(s)
    ensures Inv(Run(s, schedule)) && Grows(s.reg, Run(s, schedule).reg)
    decreases |schedule|
  {
    if schedule != [] {
      StepKeepsInv(s, schedule[0]);
      RunKeepsInv(Step(s, schedule[0]), schedule[1..]);
    }
  }

  predicate CleanStart(reg: Registry, lists: map<Agent, seq<Name>>) {
    forall a :: a in lists ==> && Distinct(lists[a]) && OneGit(reg, lists[a])
                               && forall i :: 0 <= i < |lists[a]| ==> lists[a][i] in reg
  }

  /** In every reachable state attachments are duplicate-free, and an agent has two
      attachments of the singleton type only if one of their calls found no record of
      its name. */
  lemma AttachmentsStayValid(reg: Registry, lists: map<Agent, seq<Name>>, calls: seq<Call>, schedule: seq<nat>, agent: Agent)
    requires CleanStart(reg, lists)
    ensures var s := Run(Initial(reg, lists, calls), schedule);
            agent in s.lists ==>
              && Distinct(s.lists[agent])
              && ((forall n :: n in s.lists[agent] ==> (agent, n) !in s.strays) ==> OneGit(s.reg, s.lists[agent]))
  {
    var start := Initial(reg, lists, calls);
    forall a | a in lists ensures ListOk(reg, {}, a, lists[a]) {
    }
    assert forall p: nat :: p < |start.pc| ==> start.pc[p] == Begin;
    RunKeepsInv(start, schedule);
    var s := Run(start, schedule);
    if agent in s.lists {
      assert ListOk(s.reg, s.strays, agent, s.lists[agent]);
    }
  }

  /** If every lookup of the run finds its name, there are no strays at all. */
  ghost predicate AllFound(s: State, schedule: seq<nat>)
    requires Shaped(s)
    decreases |schedule|
  {
    schedule == [] ||
    var p := schedule[0];
    && (p < |s.pc| && s.pc[p].Begin? && s.calls[p].Attach? ==> s.calls[p].name in s.reg)
    && AllFound(Step(s, p), schedule[1..])
  }

  lemma {:induction false} NoStrays(s: State, schedule: seq<nat>)
    requires Shaped(s) && AllFound(s, schedule) && s.strays == {}
    requires forall p: nat :: p < |s.pc| && s.pc[p].Looked? ==> s.pc[p].found
    ensures Run(s, schedule).strays == {}
    decreases |schedule|
  {
    if schedule != [] {
      NoStrays(Step(s, schedule[0]), schedule[1..]);
    }
  }

  /** The singleton rule holds in every interleaving in which each attached name was
      registered when its call looked it up. */
  lemma SingletonHolds(reg: Registry, lists: map<Agent, seq<Name>>, calls: seq<Call>, schedule: seq<nat>, agent: Agent)
    requires CleanStart(reg, lists) && AllFound(Initial(reg, lists, calls), schedule)
    ensures var s := Run(Initial(reg, lists, calls), schedule); agent in s.lists ==> OneGit(s.reg, s.lists[agent])
  {
    AttachmentsStayValid(reg, lists, calls, schedule, agent);
    NoStrays(Initial(reg, lists, calls), schedule);
  }

  lemma RunCons(s: State, p: nat, rest: seq<nat>)
    requires Shaped(s)
    ensures Run(s, [p] + rest) == Run(Step(s, p), rest)
  {
    assert ([p] + rest)[1..] == rest;
  }

  /** It fails without that: a name attached before it is registered escapes the check,
      for good. */
  lemma UnregisteredNameEscapes() returns (calls: seq<Call>, schedule: seq<nat>)
    ensures var s := Run(Initial(map["g" := GIT], map["a" := ["g"]], calls), schedule);
            && CleanStart(map["g" := GIT], map["a" := ["g"]])
            && "a" in s.lists && s.lists["a"] == ["g", "h"] && !OneGit(s.reg, s.lists["a"])
  {
    calls := [Attach("a", "h"), Register("h", GIT)];
    var s0 := Initial(map["g" := GIT], map["a" := ["g"]], calls);
    assert s0.pc == [Begin, Begin];
    var s1 := Step(s0, 0);
    assert s1.pc == [Looked(false, ""), Begin];
    var s2 := Step(s1, 0);
    assert s2.lists["a"] == ["g", "h"] && s2.pc == [Finished(Added), Begin];
    var s3 := Step(s2, 1);
    assert IsGit(s3.reg, s3.lists["a"][0]) && IsGit(s3.reg, s3.lists["a"][1]);
    schedule := [0] + ([0] + ([1] + []));
    RunCons(s0, 0, [0] + ([1] + []));
    RunCons(s1, 0, [1] + []);
    RunCons(s2, 1, []);
  }

  predicate CouldBeGit(reg: Registry, name: Name) {
    name !in reg || IsGit(reg, name)
  }

  /** No later registration can break the rule for this list. */
  ghost predicate SafeForever(reg: Registry, names: seq<Name>) {
    forall later {:trigger Grows(reg, later)} :: Grows(reg, later) ==> OneGit(later, names)
  }

  /** Exactly which lists those are. */
  lemma SafeForeverIff(reg: Registry, names: seq<Name>)
    ensures SafeForever(reg, names) <==>
            forall i, j :: 0 <= i < j < |names| ==> !(CouldBeGit(reg, names[i]) && CouldBeGit(reg, names[j]))
  {
    if i, j :| 0 <= i < j < |names| && CouldBeGit(reg, names[i]) && CouldBeGit(reg, names[j]) {
      var later := reg[names[i] := GIT][names[j] := GIT];
      assert Grows(reg, later);
      assert IsGit(later, names[i]) && IsGit(later, names[j]);
    }
    forall later, i, j | Grows(reg, later) && 0 <= i < j < |names| && IsGit(later, names[i]) && IsGit(later, names[j])
      ensures CouldBeGit(reg, names[i]) && CouldBeGit(reg, names[j])
    {
    }
  }

  /** An undisturbed call leaves a list that no later registration can break exactly when
      the name is registered under another type, or nothing listed could be git, or the
      call is refused as a conflict. */
  lemma AttachSafeIff(reg: Registry, names: seq<Name>, name: Name)
    requires SafeForever(reg, names) && name !in names
    ensures SafeForever(reg, AfterAttach(reg, names, name, TypeOf(reg, name)))
            <==> || !CouldBeGit(reg, name)
                 || (forall n :: n in names ==> !CouldBeGit(reg, n))
                 || (IsGit(reg, name) && exists n :: n in names && IsGit(reg, n))
  {
    if AttachOutcome(reg, names, name, TypeOf(reg, name)) == Added {
      AppendSafeIff(reg, names, name);
    }
  }

  lemma AppendSafeIff(reg: Registry, names: seq<Name>, name: Name)
    requires SafeForever(reg, names)
    ensures SafeForever(reg, names + [name]) <==> !CouldBeGit(reg, name) || forall n :: n in names ==> !CouldBeGit(reg, n)
  {
    var longer := names + [name];
    SafeForeverIff(reg, names);
    SafeForeverIff(reg, longer);
    if CouldBeGit(reg, name) {
      forall i | 0 <= i < |names| && CouldBeGit(reg, names[i]) ensures !SafeForever(reg, longer) {
        assert CouldBeGit(reg, longer[i]) && CouldBeGit(reg, longer[|names|]);
      }
    }
  }

  lemma RunTwo(s: State, p: nat)
    requires Shaped(s)
    ensures Shaped(Step(s, p)) && Run(s, [p, p]) == Step(Step(s, p), p)
  {
    assert [p, p] == [p] + ([p] + []);
    RunCons(s, p, [p] + []);
    RunCons(Step(s, p), p, []);
  }

  predicate Told(t: State, p: nat, outcome: Outcome, lists: map<Agent, seq<Name>>) {
    p < |t.pc| && t.pc[p] == Finished(outcome) && t.lists == lists
  }

  /** An attachment nobody disturbs ends within its own two steps like this. */
  lemma UndisturbedAttach(s: State, p: nat, agent: Agent, name: Name, k: nat)
    requires Shaped(s) && p < |s.pc| && s.pc[p].Begin? && s.calls[p] == Attach(agent, name) && agent in s.lists
    ensures var t, names := Run(s, [p, p]), s.lists[agent];
            if name in names then Told(t, p, AlreadyThere, s.lists)
            else if name in s.reg && s.reg[name] == "git" && FirstOfType(s.reg, names, k) then
              Told(t, p, Conflict(names[k]), s.lists)
            else if name in s.reg && s.reg[name] == "git" && exists n :: n in names && n in s.reg && s.reg[n] == "git" then
              p < |t.pc| && t.pc[p].Finished? && t.pc[p].outcome.Conflict?
            else Told(t, p, Added, s.lists[agent := names + [name]])
  {
    var names := s.lists[agent];
    RunTwo(s, p);
    AttachMeaning(s.reg, names, name, TypeOf(s.reg, name), k);
    assert Step(s, p) == s.(pc := s.pc[p := Looked(name in s.reg, TypeOf(s.reg, name))]);
    assert s.lists[agent := names] == s.lists;
  }

  /** A detachment or a registration ends with its first step. */
  lemma UndisturbedRest(s: State, p: nat, agent: Agent, name: Name, kind: string)
    requires Shaped(s) && p < |s.pc| && s.pc[p].Begin?
    ensures s.calls[p] == Detach(agent, name) && agent in s.lists && name in s.lists[agent] ==>
              Told(Step(s, p), p, Detached, s.lists[agent := WithoutFirst(s.lists[agent], name)])
    ensures s.calls[p] == Detach(agent, name) && agent in s.lists && name !in s.lists[agent] ==>
              Told(Step(s, p), p, NotAttached, s.lists)
    ensures s.calls[p] == Register(name, kind) && name in s.reg ==>
              Told(Step(s, p), p, Duplicate, s.lists) && Step(s, p).reg == s.reg
    ensures s.calls[p] == Register(name, kind) && name !in s.reg ==>
              Told(Step(s, p), p, Registered, s.lists) && Step(s, p).reg == s.reg[name := kind]
  {
  }

  // ---- what a caller is told ------------------------------------------------------------------------

  function Applied(lists: map<Agent, seq<Name>>, c: Change): map<Agent, seq<Name>> {
    if c.agent !in lists then lists
    else lists[c.agent := if c.attached then lists[c.agent] + [c.name] else WithoutFirst(lists[c.agent], c.name)]
  }

  /** The lists are the initial ones with the logged changes applied in order. */
  function Replay(lists: map<Agent, seq<Name>>, log: seq<Change>): map<Agent, seq<Name>> {
    if log == [] then lists else Applied(Replay(lists, log[..|log| - 1]), log[|log| - 1])
  }

  function Entries(log: seq<Change>, p: nat): seq<Change> {
    if log == [] then []
    else Entries(log[..|log| - 1], p) + (if log[|log| - 1].caller == p then [log[|log| - 1]] else [])
  }

  /** The changes `p` has made, as its own state tells. */
  function Due(call: Call, pc: Pc, p: nat): seq<Change> {
    if pc == Finished(Added) && call.Attach? then [Change(p, call.agent, call.name, true)]
    else if pc == Finished(Detached) && call.Detach? then [Change(p, call.agent, call.name, false)]
    else []
  }

  /** Only an attaching call reports an attachment, only a detaching one a detachment. */
  predicate Fits(call: Call, pc: Pc) {
    && (pc.Looked? || pc == Finished(Added) ==> call.Attach?)
    && (pc == Finished(Detached) ==> call.Detach?)
  }

  /** Every caller has logged exactly what it was told, and the lists hold nothing but
      the logged changes. */
  ghost predicate Accounted(lists: map<Agent, seq<Name>>, s: State) {
    && Shaped(s) && s.lists == Replay(lists, s.log)
    && forall p: nat :: p < |s.pc| ==> Fits(s.calls[p], s.pc[p]) && Entries(s.log, p) == Due(s.calls[p], s.pc[p], p)
  }

  lemma LogOne(lists: map<Agent, seq<Name>>, log: seq<Change>, c: Change, p: nat)
    ensures Entries(log + [c], p) == Entries(log, p) + (if c.caller == p then [c] else [])
    ensures Replay(lists, log + [c]) == Applied(Replay(lists, log), c)
  {
    assert (log + [c])[..|log|] == log;
  }

  lemma Logged(lists: map<Agent, seq<Name>>, s: State, t: State, p: nat, pc: Pc, c: Change)
    requires Accounted(lists, s) && p < |s.pc| && Due(s.calls[p], s.pc[p], p) == []
    requires t.pc == s.pc[p := pc] && t.calls == s.calls && t.log == s.log + [c] && t.lists == Applied(s.lists, c)
    requires c.caller == p && Due(s.calls[p], pc, p) == [c] && Fits(s.calls[p], pc)
    ensures Accounted(lists, t)
  {
    LogOne(lists, s.log, c, p);
    forall q: nat | q < |t.pc| ensures Fits(t.calls[q], t.pc[q]) && Entries(t.log, q) == Due(t.calls[q], t.pc[q], q) {
      LogOne(lists, s.log, c, q);
    }
  }

  lemma Unlogged(lists: map<Agent, seq<Name>>, s: State, t: State, p: nat, pc: Pc)
    requires Accounted(lists, s) && p < |s.pc| && Due(s.calls[p], s.pc[p], p) == []
    requires t.pc == s.pc[p := pc] && t.calls == s.calls && t.log == s.log && t.lists == s.lists
    requires Due(s.calls[p], pc, p) == [] && Fits(s.calls[p], pc)
    ensures Accounted(lists, t)
  {
  }

  lemma StepKeepsAccounts(lists: map<Agent, seq<Name>>, s: State, p: nat)
    requires Accounted(lists, s)
    ensures Accounted(lists, Step(s, p))
  {
    if p < |s.pc| && !s.pc[p].Finished? {
      var call, pc, t := s.calls[p], s.pc[p], Step(s, p);
      assert Fits(call, pc) && Due(call, pc, p) == [];
      if pc.Looked? && t.pc[p] == Finished(Added) {
        Logged(lists, s, t, p, Finished(Added), Change(p, call.agent, call.name, true));
      } else if pc.Begin? && t.pc[p] == Finished(Detached) {
        Logged(lists, s, t, p, Finished(Detached), Change(p, call.agent, call.name, false));
      } else {
        Unlogged(lists, s, t, p, t.pc[p]);
      }
    }
  }

  /** A call is told that it attached exactly when its own step appended, and once; and
      the lists hold nothing but such changes. */
  lemma {:induction false} ReturnsTell(lists: map<Agent, seq<Name>>, s: State, schedule: seq<nat>)
    requires Accounted(lists, s)
    ensures Accounted(lists, Run(s, schedule))
    decreases |schedule|
  {
    if schedule != [] {
      StepKeepsAccounts(lists, s, schedule[0]);
      ReturnsTell(lists, Step(s, schedule[0]), schedule[1..]);
    }
  }
}
