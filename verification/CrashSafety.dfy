/** Named channels and integrations: a record in one file, credentials in a second,
    attachments in a third, under different locks; any process may die at any step. */
module CrashSafety {
  import opened Prelude

  type Name = string
  type Agent = string

  /** A creator stores the credentials after its record is in; whoever attaches first looks
      the name up. */
  datatype Call =
    | Create(name: Name)
    | Delete(name: Name, force: bool)
    | Attach(name: Name, agent: Agent)
    | Detach(name: Name, agent: Agent)

  datatype Pc =
    | Begin
    | Locked                        // holds the registry lock
    | Checked                       // deletion: nobody uses the name
    | Loaded(list: set<Name>)       // has read the registry
    | Cleared(list: set<Name>)      // deletion: credentials are gone
    | Recorded                      // creation: record saved, lock released
    | Looked                        // attachment: the name is registered
    | Finished(ok: bool)
    | Crashed

  /** `raced` names had a deletion and a creation or attachment in flight together. */
  datatype State = State(records: set<Name>, secrets: set<Name>, attached: set<(Agent, Name)>, lock: Option<nat>,
                         calls: seq<Call>, pc: seq<Pc>, raced: set<Name>)

  datatype Action = Advance(p: nat) | Crash(p: nat)

  predicate Shaped(s: State) {
    |s.pc| == |s.calls|
  }

  predicate InUse(s: State, name: Name) {
    exists link :: link in s.attached && link.1 == name
  }

  /** The deletion `p` of `name` has decided to go ahead and has not finished. */
  predicate Deleting(s: State, p: nat, name: Name)
    requires Shaped(s)
  {
    && p < |s.pc| && s.calls[p].Delete? && s.calls[p].name == name
    && (s.pc[p].Checked? || s.pc[p].Loaded? || s.pc[p].Cleared?)
  }

  /** `q` relies on the record of `name`. */
  predicate Relying(s: State, q: nat, name: Name)
    requires Shaped(s)
  {
    && q < |s.pc| && s.calls[q].name == name
    && ((s.calls[q].Attach? && s.pc[q].Looked?) || (s.calls[q].Create? && s.pc[q].Recorded?))
  }

  ghost predicate Overlap(s: State, name: Name)
    requires Shaped(s)
  {
    exists p: nat, q: nat :: Deleting(s, p, name) && Relying(s, q, name)
  }

  predicate Holds(pc: Pc) {
    pc.Locked? || pc.Checked? || pc.Loaded? || pc.Cleared?
  }

  function StepCreate(s: State, p: nat): State
    requires Shaped(s) && p < |s.pc| && s.calls[p].Create?
  {
    var name := s.calls[p].name;
    match s.pc[p]
    case Begin => if s.lock == None then s.(lock := Some(p), pc := s.pc[p := Locked]) else s
    case Locked =>
      if name in s.records then s.(lock := None, pc := s.pc[p := Finished(false)])
      else s.(pc := s.pc[p := Loaded(s.records)])
    case Loaded(list) => s.(records := list + {name}, lock := None, pc := s.pc[p := Recorded])
    case Recorded => s.(secrets := s.secrets + {name}, pc := s.pc[p := Finished(true)])
    case _ => s
  }

  function StepDelete(s: State, p: nat): State
    requires Shaped(s) && p < |s.pc| && s.calls[p].Delete?
  {
    var name := s.calls[p].name;
    match s.pc[p]
    case Begin => if s.lock == None then s.(lock := Some(p), pc := s.pc[p := Locked]) else s
    case Locked =>
      if !s.calls[p].force && InUse(s, name) then s.(lock := None, pc := s.pc[p := Finished(false)])
      else s.(pc := s.pc[p := Checked])
    case Checked =>
      if name !in s.records then s.(lock := None, pc := s.pc[p := Finished(false)])
      else s.(pc := s.pc[p := Loaded(s.records)])
    case Loaded(list) => s.(secrets := s.secrets - {name}, pc := s.pc[p := Cleared(list)])
    case Cleared(list) => s.(records := list - {name}, lock := None, pc := s.pc[p := Finished(true)])
    case _ => s
  }

  function StepAttach(s: State, p: nat): State
    requires Shaped(s) && p < |s.pc| && s.calls[p].Attach?
  {
    match s.pc[p]
    case Begin => s.(pc := s.pc[p := if s.calls[p].name in s.records then Looked else Finished(false)])
    case Looked => s.(attached := s.attached + {(s.calls[p].agent, s.calls[p].name)}, pc := s.pc[p := Finished(true)])
    case _ => s
  }

  function StepDetach(s: State, p: nat): State
    requires Shaped(s) && p < |s.pc| && s.calls[p].Detach?
  {
    if s.pc[p] != Begin then s
    else s.(attached := s.attached - {(s.calls[p].agent, s.calls[p].name)}, pc := s.pc[p := Finished(true)])
  }

  function Act(s: State, p: nat): State
    requires Shaped(s) && p < |s.pc|
  {
    match s.calls[p]
    case Create(_) => StepCreate(s, p)
    case Delete(_, _) => StepDelete(s, p)
    case Attach(_, _) => StepAttach(s, p)
    case Detach(_, _) => StepDetach(s, p)
  }

  /** The kernel drops the lock of a process that dies. */
  function Die(s: State, p: nat): State
    requires Shaped(s) && p < |s.pc|
  {
    s.(lock := if s.lock == Some(p) then None else s.lock, pc := s.pc[p := Crashed])
  }

  /** The bookkeeping that ends every step. */
  ghost function Noted(t: State, name: Name): State
    requires Shaped(t)
  {
    if Overlap(t, name) then t.(raced := t.raced + {name}) else t
  }

  ghost function Step(s: State, a: Action): State
    requires Shaped(s)
  {
    if a.p >= |s.pc| then s
    else Noted(if a.Crash? then Die(s, a.p) else Act(s, a.p), s.calls[a.p].name)
  }

  ghost function Run(s: State, actions: seq<Action>): (r: State)
    requires Shaped(s)
    ensures Shaped(r) && r.calls == s.calls
    decreases |actions|
  {
    if actions == [] then s else Run(Step(s, actions[0]), actions[1..])
  }

  /** Nothing in flight, every credential and every attachment with its record. */
  predicate Clean(s: State) {
    && Shaped(s) && s.lock == None && s.raced == {}
    && (forall p: nat :: p < |s.pc| ==> s.pc[p] == Begin)
    && s.secrets <= s.records
    && (forall link :: link in s.attached ==> link.1 in s.records)
  }

  // ---- what every interleaving keeps ---------------------------------------------------------

  predicate Forced(calls: seq<Call>, name: Name) {
    exists p :: 0 <= p < |calls| && calls[p] == Delete(name, true)
  }

  predicate Local(s: State, p: nat)
    requires Shaped(s) && p < |s.pc|
  {
    var call, pc := s.calls[p], s.pc[p];
    && (Holds(pc) <==> s.lock == Some(p))
    && (pc.Loaded? || pc.Cleared? ==> pc.list == s.records && (call.Create? || call.Delete?))
    && (Deleting(s, p, call.name) && call.name !in s.raced && !call.force ==> !InUse(s, call.name))
    && (pc.Cleared? ==> call.Delete? && (call.name !in s.raced ==> call.name !in s.secrets))
    && (Relying(s, p, call.name) && call.name !in s.raced ==> call.name in s.records)
  }

  ghost predicate Inv(s: State) {
    && Shaped(s)
    && (forall p: nat :: p < |s.pc| ==> Local(s, p))
    && (s.lock.Some? ==> s.lock.value < |s.pc|)
    && (forall n :: n in s.secrets && n !in s.raced ==> n in s.records)
    && (forall link :: link in s.attached && link.1 !in s.raced && !Forced(s.calls, link.1) ==> link.1 in s.records)
    && (forall n {:trigger Overlap(s, n)} :: Overlap(s, n) ==> n in s.raced)
  }

  lemma CleanIsInv(s: State)
    requires Clean(s)
    ensures Inv(s)
  {
    forall p: nat | p < |s.pc| ensures Local(s, p) {
      assert s.pc[p] == Begin;
    }
  }

  /** Only the name of the stepping process can start to overlap. */
  lemma OverlapElsewhere(s: State, t: State, p: nat, pc: Pc, name: Name)
    requires Shaped(s) && p < |s.pc| && t.calls == s.calls && t.pc == s.pc[p := pc]
    requires Overlap(t, name) && name != s.calls[p].name
    ensures Overlap(s, name)
  {
    var d: nat, r: nat :| Deleting(t, d, name) && Relying(t, r, name);
    assert Deleting(s, d, name) && Relying(s, r, name);
  }

  /** A name that is not raced after the step of a deletion has nobody relying on it. */
  lemma NobodyRelies(s: State, p: nat, q: nat)
    requires Inv(s) && p < |s.pc| && q < |s.pc|
    requires Deleting(s, p, s.calls[p].name) && s.calls[p].name !in s.raced
    ensures !Relying(s, q, s.calls[p].name)
  {
    if Relying(s, q, s.calls[p].name) {
      assert Overlap(s, s.calls[p].name);
    }
  }

  lemma NobodyDeletes(s: State, p: nat, q: nat)
    requires Inv(s) && p < |s.pc| && q < |s.pc|
    requires Relying(s, p, s.calls[p].name) && s.calls[p].name !in s.raced
    ensures !Deleting(s, q, s.calls[p].name)
  {
    if Deleting(s, q, s.calls[p].name) {
      assert Overlap(s, s.calls[p].name);
    }
  }

  lemma OverlapsNoted(s: State, t: State, p: nat, pc: Pc)
    requires Inv(s) && p < |s.pc| && t.calls == s.calls && t.pc == s.pc[p := pc] && t.raced == s.raced
    ensures forall n {:trigger Overlap(Noted(t, t.calls[p].name), n)} ::
              Overlap(Noted(t, t.calls[p].name), n) ==> n in Noted(t, t.calls[p].name).raced
  {
    var name, r := t.calls[p].name, Noted(t, t.calls[p].name);
    forall n | Overlap(r, n) ensures n in r.raced {
      var d: nat, u: nat :| Deleting(r, d, n) && Relying(r, u, n);
      assert Deleting(t, d, n) && Relying(t, u, n);
      if n != name { OverlapElsewhere(s, t, p, pc, n); }
    }
  }

  lemma DieKeepsInv(s: State, p: nat)
    requires Inv(s) && p < |s.pc|
    ensures Inv(Noted(Die(s, p), s.calls[p].name))
  {
    var t := Die(s, p);
    var r := Noted(t, s.calls[p].name);
    OverlapsNoted(s, t, p, Crashed);
    assert Local(s, p);
    forall q: nat | q < |r.pc| ensures Local(r, q) {
      assert Local(s, q);
    }
  }

  lemma DetachKeepsInv(s: State, p: nat)
    requires Inv(s) && p < |s.pc| && s.calls[p].Detach?
    ensures Inv(Noted(StepDetach(s, p), s.calls[p].name))
  {
    var t := StepDetach(s, p);
    var r := Noted(t, s.calls[p].name);
    OverlapsNoted(s, t, p, t.pc[p]);
    assert Local(s, p);
    forall q: nat | q < |r.pc| ensures Local(r, q) {
      assert Local(s, q);
    }
  }

  lemma AttachKeepsInv(s: State, p: nat)
    requires Inv(s) && p < |s.pc| && s.calls[p].Attach?
    ensures Inv(Noted(StepAttach(s, p), s.calls[p].name))
  {
    var t := StepAttach(s, p);
    var r := Noted(t, s.calls[p].name);
    OverlapsNoted(s, t, p, t.pc[p]);
    assert Local(s, p);
    forall q: nat | q < |r.pc| ensures Local(r, q) {
      assert Local(s, q);
      if s.pc[p].Looked? && s.calls[p].name !in s.raced { NobodyDeletes(s, p, q); }
    }
  }

  lemma CreateKeepsInv(s: State, p: nat)
    requires Inv(s) && p < |s.pc| && s.calls[p].Create?
    ensures Inv(Noted(StepCreate(s, p), s.calls[p].name))
  {
    var t := StepCreate(s, p);
    var r := Noted(t, s.calls[p].name);
    OverlapsNoted(s, t, p, t.pc[p]);
    assert Local(s, p);
    forall q: nat | q < |r.pc| ensures Local(r, q) {
      assert Local(s, q);
      if s.pc[p].Recorded? && s.calls[p].name !in s.raced { NobodyDeletes(s, p, q); }
    }
  }

  lemma DeleteKeepsInv(s: State, p: nat)
    requires Inv(s) && p < |s.pc| && s.calls[p].Delete?
    ensures Inv(Noted(StepDelete(s, p), s.calls[p].name))
  {
    var t := StepDelete(s, p);
    var r := Noted(t, s.calls[p].name);
    OverlapsNoted(s, t, p, t.pc[p]);
    assert Local(s, p);
    forall q: nat | q < |r.pc| ensures Local(r, q) {
      assert Local(s, q);
      if s.pc[p].Cleared? && s.calls[p].name !in s.raced { NobodyRelies(s, p, q); }
    }
  }

  lemma StepKeepsInv(s: State, a: Action)
    requires Inv(s)
    ensures Inv(Step(s, a))
  {
    if a.p < |s.pc| {
      if a.Crash? {
        DieKeepsInv(s, a.p);
      } else {
        match s.calls[a.p]
        case Create(_) => CreateKeepsInv(s, a.p);
        case Delete(_, _) => DeleteKeepsInv(s, a.p);
        case Attach(_, _) => AttachKeepsInv(s, a.p);
        case Detach(_, _) => DetachKeepsInv(s, a.p);
      }
    }
  }

  lemma {:induction false} RunKeepsInv(s: State, actions: seq<Action>)
    requires Inv(s)
    ensures Inv(Run(s, actions))
    decreases |actions|
  {
    if actions != [] {
      StepKeepsInv(s, actions[0]);
      RunKeepsInv(Step(s, actions[0]), actions[1..]);
    }
  }

  /** Whatever the interleaving and wherever processes die: credentials without a record
      need a race, an attachment without a record needs a race or a forced deletion. */
  lemma DanglingOnlyIfRaced(s: State, actions: seq<Action>)
    requires Clean(s)
    ensures var t := Run(s, actions);
            && (forall n :: n in t.secrets && n !in t.raced ==> n in t.records)
            && (forall link :: link in t.attached && link.1 !in t.raced && !Forced(s.calls, link.1) ==> link.1 in t.records)
  {
    CleanIsInv(s);
    RunKeepsInv(s, actions);
  }

  // ---- exactly when something is left behind ------------------------------------------------

  predicate Dangles(s: State, link: (Agent, Name)) {
    link in s.attached && link.1 !in s.records
  }

  predicate Orphaned(s: State, name: Name) {
    name in s.secrets && name !in s.records
  }

  /** An attachment committed after its record is gone, or the last step of a deletion
      that finds it attached. */
  predicate Strands(s: State, a: Action, link: (Agent, Name))
    requires Shaped(s)
  {
    && a.Advance? && a.p < |s.pc|
    && ((s.calls[a.p] == Attach(link.1, link.0) && s.pc[a.p].Looked? && link.1 !in s.records)
        || (s.calls[a.p].Delete? && s.calls[a.p].name == link.1 && s.pc[a.p].Cleared? && link in s.attached))
  }

  /** A detachment, or a record saved under the name. */
  predicate Mends(s: State, a: Action, link: (Agent, Name))
    requires Shaped(s)
  {
    && a.Advance? && a.p < |s.pc|
    && ((s.calls[a.p] == Detach(link.1, link.0) && s.pc[a.p].Begin?)
        || (s.calls[a.p] == Create(link.1) && s.pc[a.p].Loaded?))
  }

  /** Credentials stored after their record is gone, or the last step of a deletion that
      finds some. */
  predicate Forsakes(s: State, a: Action, name: Name)
    requires Shaped(s)
  {
    && a.Advance? && a.p < |s.pc|
    && ((s.calls[a.p] == Create(name) && s.pc[a.p].Recorded? && name !in s.records)
        || (s.calls[a.p].Delete? && s.calls[a.p].name == name && s.pc[a.p].Cleared? && name in s.secrets))
  }

  /** A record saved under the name, or its credentials cleared. */
  predicate Reclaims(s: State, a: Action, name: Name)
    requires Shaped(s)
  {
    && a.Advance? && a.p < |s.pc| && s.calls[a.p].name == name && s.pc[a.p].Loaded?
    && (s.calls[a.p].Create? || s.calls[a.p].Delete?)
  }

  lemma DanglesStepIff(s: State, a: Action, link: (Agent, Name))
    requires Inv(s)
    ensures Dangles(Step(s, a), link) <==> if Dangles(s, link) then !Mends(s, a, link) else Strands(s, a, link)
  {
    if a.p < |s.pc| { assert Local(s, a.p); }
  }

  lemma OrphanedStepIff(s: State, a: Action, name: Name)
    requires Inv(s)
    ensures Orphaned(Step(s, a), name) <==> if Orphaned(s, name) then !Reclaims(s, a, name) else Forsakes(s, a, name)
  {
    if a.p < |s.pc| { assert Local(s, a.p); }
  }

  lemma RunLast(s: State, actions: seq<Action>)
    requires Shaped(s) && actions != []
    ensures Run(s, actions) == Step(Run(s, actions[..|actions| - 1]), actions[|actions| - 1])
  {
    var before, last := actions[..|actions| - 1], actions[|actions| - 1];
    assert before + [last] == actions;
    RunConcat(s, before, [last]);
    RunCons(Run(s, before), last, []);
    assert [last] + [] == [last];
  }

  /** Step `k` of the run left the attachment without its record, and nothing mended it. */
  ghost predicate StrandedAt(s: State, actions: seq<Action>, link: (Agent, Name), k: int)
    requires Shaped(s)
  {
    && 0 <= k < |actions| && Strands(Run(s, actions[..k]), actions[k], link)
    && forall j :: k < j < |actions| ==> !Mends(Run(s, actions[..j]), actions[j], link)
  }

  lemma DanglesLast(s: State, actions: seq<Action>, link: (Agent, Name))
    requires Inv(s) && actions != []
    ensures var before, last := Run(s, actions[..|actions| - 1]), actions[|actions| - 1];
            Dangles(Run(s, actions), link) <==> if Dangles(before, link) then !Mends(before, last, link) else Strands(before, last, link)
  {
    RunLast(s, actions);
    RunKeepsInv(s, actions[..|actions| - 1]);
    DanglesStepIff(Run(s, actions[..|actions| - 1]), actions[|actions| - 1], link);
  }

  /** In every interleaving, with crashes anywhere, an attachment ends up without its
      record exactly when it was committed after the record was gone, or a deletion
      finished while it stood, and neither a detachment nor a new record came since. */
  lemma {:induction false} DanglesIff(s: State, actions: seq<Action>, link: (Agent, Name))
    requires Inv(s) && !Dangles(s, link)
    ensures Dangles(Run(s, actions), link) <==> exists k :: StrandedAt(s, actions, link, k)
    decreases |actions|
  {
    if actions != [] {
      var n := |actions| - 1;
      var before := actions[..n];
      DanglesLast(s, actions, link);
      DanglesIff(s, before, link);
      forall j | 0 <= j < n ensures before[..j] == actions[..j] {
      }
      if Dangles(Run(s, actions), link) {
        if Dangles(Run(s, before), link) {
          var k :| StrandedAt(s, before, link, k);
          assert StrandedAt(s, actions, link, k);
        } else {
          assert StrandedAt(s, actions, link, n);
        }
      }
      if k :| StrandedAt(s, actions, link, k) {
        if k < n { assert StrandedAt(s, before, link, k); }
      }
    }
  }

  ghost predicate ForsakenAt(s: State, actions: seq<Action>, name: Name, k: int)
    requires Shaped(s)
  {
    && 0 <= k < |actions| && Forsakes(Run(s, actions[..k]), actions[k], name)
    && forall j :: k < j < |actions| ==> !Reclaims(Run(s, actions[..j]), actions[j], name)
  }

  lemma OrphanedLast(s: State, actions: seq<Action>, name: Name)
    requires Inv(s) && actions != []
    ensures var before, last := Run(s, actions[..|actions| - 1]), actions[|actions| - 1];
            Orphaned(Run(s, actions), name) <==> if Orphaned(before, name) then !Reclaims(before, last, name) else Forsakes(before, last, name)
  {
    RunLast(s, actions);
    RunKeepsInv(s, actions[..|actions| - 1]);
    OrphanedStepIff(Run(s, actions[..|actions| - 1]), actions[|actions| - 1], name);
  }

  /** The same for credentials. */
  lemma {:induction false} OrphanedIff(s: State, actions: seq<Action>, name: Name)
    requires Inv(s) && !Orphaned(s, name)
    ensures Orphaned(Run(s, actions), name) <==> exists k :: ForsakenAt(s, actions, name, k)
    decreases |actions|
  {
    if actions != [] {
      var n := |actions| - 1;
      var before := actions[..n];
      OrphanedLast(s, actions, name);
      OrphanedIff(s, before, name);
      forall j | 0 <= j < n ensures before[..j] == actions[..j] {
      }
      if Orphaned(Run(s, actions), name) {
        if Orphaned(Run(s, before), name) {
          var k :| ForsakenAt(s, before, name, k);
          assert ForsakenAt(s, actions, name, k);
        } else {
          assert ForsakenAt(s, actions, name, n);
        }
      }
      if k :| ForsakenAt(s, actions, name, k) {
        if k < n { assert ForsakenAt(s, before, name, k); }
      }
    }
  }

  // ---- serial runs -----------------------------------------------------------------------------

  predicate Idle(pc: Pc) {
    pc.Begin? || pc.Finished? || pc.Crashed?
  }

  /** A process moves only while every other one is idle: done, dead or not begun. */
  ghost predicate Serial(s: State, actions: seq<Action>)
    requires Shaped(s)
    decreases |actions|
  {
    actions == [] ||
    ((forall q: nat :: q < |s.pc| && q != actions[0].p ==> Idle(s.pc[q]))
     && Serial(Step(s, actions[0]), actions[1..]))
  }

  lemma SerialStepNeverRaces(s: State, a: Action)
    requires Shaped(s) && forall q: nat :: q < |s.pc| && q != a.p ==> Idle(s.pc[q])
    ensures Step(s, a).raced == s.raced
  {
    if a.p < |s.pc| {
      var t := if a.Crash? then Die(s, a.p) else Act(s, a.p);
      forall d: nat, r: nat ensures !(Deleting(t, d, s.calls[a.p].name) && Relying(t, r, s.calls[a.p].name)) {
        if d < |s.pc| && d != a.p { assert t.pc[d] == s.pc[d]; }
        if r < |s.pc| && r != a.p { assert t.pc[r] == s.pc[r]; }
      }
    }
  }

  lemma {:induction false} SerialNeverRaces(s: State, actions: seq<Action>)
    requires Shaped(s) && Serial(s, actions)
    ensures Run(s, actions).raced == s.raced
    decreases |actions|
  {
    if actions != [] {
      SerialStepNeverRaces(s, actions[0]);
      SerialNeverRaces(Step(s, actions[0]), actions[1..]);
    }
  }

  /** In a serial run with a crash at any point, stored credentials imply their record;
      and unless a deletion is forced, so does every attachment. */
  lemma SerialRunsAreSafe(s: State, actions: seq<Action>)
    requires Clean(s) && Serial(s, actions)
    ensures var t := Run(s, actions);
            && t.secrets <= t.records
            && ((forall p :: 0 <= p < |s.calls| && s.calls[p].Delete? ==> !s.calls[p].force) ==>
                forall link :: link in t.attached ==> link.1 in t.records)
  {
    DanglingOnlyIfRaced(s, actions);
    SerialNeverRaces(s, actions);
  }

  // ---- one operation alone ---------------------------------------------------------------------

  lemma RunCons(s: State, a: Action, rest: seq<Action>)
    requires Shaped(s)
    ensures Run(s, [a] + rest) == Run(Step(s, a), rest)
  {
    assert ([a] + rest)[1..] == rest;
  }

  function Repeat(p: nat, k: nat): seq<Action> {
    if k == 0 then [] else [Advance(p)] + Repeat(p, k - 1)
  }

  /** How far a deletion that meets no obstacle has come. */
  function DeletionStage(pc: Pc): nat {
    match pc
    case Begin => 0
    case Locked => 1
    case Checked => 2
    case Loaded(_) => 3
    case Cleared(_) => 4
    case _ => 5
  }

  /** `t` is `s` with the deletion `p` of a registered, unused or forced name `stage` steps
      on: credentials go at the fourth step, the record at the fifth. */
  predicate DeletedSoFar(s: State, t: State, p: nat, stage: nat)
    requires Shaped(s) && p < |s.pc|
  {
    var name := s.calls[p].name;
    && Shaped(t) && t.calls == s.calls && t.attached == s.attached
    && t.pc == s.pc[p := t.pc[p]] && DeletionStage(t.pc[p]) == stage && (stage == 5 ==> t.pc[p] == Finished(true))
    && t.lock == (if 1 <= stage <= 4 then Some(p) else None)
    && (t.pc[p].Loaded? || t.pc[p].Cleared? ==> t.pc[p].list == s.records)
    && t.secrets == (if stage >= 4 then s.secrets - {name} else s.secrets)
    && t.records == (if stage == 5 then s.records - {name} else s.records)
  }

  lemma {:induction false} DeletionSteps(s: State, t: State, p: nat, stage: nat, k: nat)
    requires Shaped(s) && p < |s.pc| && s.calls[p].Delete? && s.calls[p].name in s.records
    requires stage >= 2 || s.calls[p].force || !InUse(s, s.calls[p].name)
    requires DeletedSoFar(s, t, p, stage) && stage + k <= 5
    ensures DeletedSoFar(s, Run(t, Repeat(p, k)), p, stage + k)
    decreases k
  {
    if k > 0 {
      RunCons(t, Advance(p), Repeat(p, k - 1));
      assert DeletedSoFar(s, Step(t, Advance(p)), p, stage + 1);
      DeletionSteps(s, Step(t, Advance(p)), p, stage + 1, k - 1);
    }
  }

  lemma DeletionDies(s: State, t: State, p: nat, stage: nat)
    requires Shaped(s) && p < |s.pc| && s.calls[p].Delete? && DeletedSoFar(s, t, p, stage)
    ensures var u, name := Step(t, Crash(p)), s.calls[p].name;
            && Shaped(u) && u.calls == s.calls && u.pc == s.pc[p := Crashed] && u.lock == None && u.attached == s.attached
            && u.secrets == (if stage >= 4 then s.secrets - {name} else s.secrets)
            && u.records == (if stage == 5 then s.records - {name} else s.records)
  {
    assert t.pc[p := Crashed] == s.pc[p := Crashed];
  }

  /** A deletion that dies after any number of steps leaves everything, or a record
      without credentials, or nothing, but never credentials without a record. */
  lemma DeletionAlone(s: State, p: nat, k: nat)
    requires Shaped(s) && s.lock == None && p < |s.pc| && s.pc[p] == Begin && s.calls[p].Delete?
    requires s.calls[p].name in s.records && (s.calls[p].force || !InUse(s, s.calls[p].name)) && k <= 5
    ensures var t, name := Step(Run(s, Repeat(p, k)), Crash(p)), s.calls[p].name;
            && Shaped(t) && t.calls == s.calls && t.pc == s.pc[p := Crashed]
            && t.lock == None && t.attached == s.attached
            && (k <= 3 ==> t.records == s.records && t.secrets == s.secrets)
            && (k == 4 ==> t.records == s.records && t.secrets == s.secrets - {name})
            && (k == 5 ==> t.records == s.records - {name} && t.secrets == s.secrets - {name})
  {
    DeletionSteps(s, s, p, 0, k);
    DeletionDies(s, Run(s, Repeat(p, k)), p, k);
  }

  // ---- what interleaving can do -------------------------------------------------------------------

  lemma DeletionCompletes(s: State, p: nat)
    requires Shaped(s) && s.lock == None && p < |s.pc| && s.pc[p] == Begin && s.calls[p].Delete?
    requires s.calls[p].name in s.records && (s.calls[p].force || !InUse(s, s.calls[p].name))
    ensures var t, name := Run(s, Repeat(p, 5)), s.calls[p].name;
            && t.records == s.records - {name} && t.secrets == s.secrets - {name} && t.attached == s.attached
            && t.pc == s.pc[p := Finished(true)] && t.lock == None
  {
    DeletionSteps(s, s, p, 0, 5);
  }

  /** What an unfinished dead deletion left, a second one removes: record and
      credentials, and nothing else. */
  lemma RerunCompletes(s: State, p: nat, k: nat, q: nat)
    requires Shaped(s) && s.lock == None && p < |s.pc| && q < |s.pc| && p != q && k <= 4
    requires s.pc[p] == Begin && s.pc[q] == Begin && s.calls[p].Delete? && s.calls[q].Delete?
    requires s.calls[p].name == s.calls[q].name && s.calls[p].name in s.records && !InUse(s, s.calls[p].name)
    ensures var t, name := Run(Step(Run(s, Repeat(p, k)), Crash(p)), Repeat(q, 5)), s.calls[p].name;
            && t.records == s.records - {name} && t.secrets == s.secrets - {name} && t.attached == s.attached
            && t.pc == s.pc[p := Crashed][q := Finished(true)] && t.lock == None
  {
    DeletionAlone(s, p, k);
    DeletionCompletes(Step(Run(s, Repeat(p, k)), Crash(p)), q);
  }

  lemma {:induction false} RunConcat(s: State, a: seq<Action>, b: seq<Action>)
    requires Shaped(s)
    ensures Run(s, a + b) == Run(Run(s, a), b)
    decreases |a|
  {
    if a == [] {
      assert a + b == b;
    } else {
      assert (a + b)[1..] == a[1..] + b;
      RunConcat(Step(s, a[0]), a[1..], b);
    }
  }

  lemma Twice(s: State, p: nat)
    requires Shaped(s)
    ensures Run(s, Repeat(p, 2)) == Step(Step(s, Advance(p)), Advance(p))
  {
    var t := Step(s, Advance(p));
    RunCons(s, Advance(p), Repeat(p, 1));
    RunCons(t, Advance(p), Repeat(p, 0));
  }

  lemma AttachmentSteps(s: State, p: nat)
    requires Shaped(s) && p < |s.pc| && s.calls[p].Attach? && s.pc[p] == Begin && s.calls[p].name in s.records
    ensures var t := Run(s, Repeat(p, 2));
            && t.attached == s.attached + {(s.calls[p].agent, s.calls[p].name)} && t.pc == s.pc[p := Finished(true)]
            && t.records == s.records && t.secrets == s.secrets && t.lock == s.lock
  {
    Twice(s, p);
  }

  lemma DetachmentStep(s: State, p: nat)
    requires Shaped(s) && p < |s.pc| && s.calls[p].Detach? && s.pc[p] == Begin
    ensures var t := Run(s, Repeat(p, 1));
            && t.attached == s.attached - {(s.calls[p].agent, s.calls[p].name)} && t.pc == s.pc[p := Finished(true)]
            && t.records == s.records && t.secrets == s.secrets && t.lock == s.lock
  {
    RunCons(s, Advance(p), Repeat(p, 0));
  }

  lemma CreationSteps(s: State, p: nat)
    requires Shaped(s) && p < |s.pc| && s.calls[p].Create? && s.pc[p] == Begin && s.lock == None
    requires s.calls[p].name !in s.records
    ensures var t := Run(s, Repeat(p, 3));
            && t.records == s.records + {s.calls[p].name} && t.pc == s.pc[p := Recorded] && t.lock == None
            && t.secrets == s.secrets && t.attached == s.attached
  {
    var t := Step(s, Advance(p));
    RunCons(s, Advance(p), Repeat(p, 2));
    assert t.pc[p] == Locked && t.records == s.records;
    Twice(t, p);
  }

  /** The lock of a deletion does not cover attachments: one committed between its check
      and its save outlives the record. */
  lemma RacedAttachmentDangles(name: Name, agent: Agent) returns (s: State, actions: seq<Action>)
    ensures Clean(s) && forall n :: !Forced(s.calls, n)
    ensures var t := Run(s, actions); (agent, name) in t.attached && name !in t.records
  {
    s := State({name}, {}, {}, None, [Delete(name, false), Attach(name, agent)], [Begin, Begin], {});
    actions := Repeat(0, 2) + (Repeat(1, 2) + Repeat(0, 3));
    var checked := Run(s, Repeat(0, 2));
    DeletionSteps(s, s, 0, 0, 2);
    AttachmentSteps(checked, 1);
    var attached := Run(checked, Repeat(1, 2));
    DeletionSteps(attached, attached, 0, 2, 3);
    RunConcat(s, Repeat(0, 2), Repeat(1, 2) + Repeat(0, 3));
    RunConcat(checked, Repeat(1, 2), Repeat(0, 3));
  }

  lemma LateCredentials(s: State, p: nat)
    requires Shaped(s) && p < |s.pc| && s.calls[p].Create? && s.pc[p] == Recorded
    ensures var t := Run(s, [Advance(p)]); t.secrets == s.secrets + {s.calls[p].name} && t.records == s.records
  {
    RunCons(s, Advance(p), []);
    assert [Advance(p)] + [] == [Advance(p)];
  }

  /** Nor does it cover the credentials a creator stores after its record: they outlive
      a deletion that slips in between. */
  lemma RacedCredentialsAreOrphaned(name: Name) returns (s: State, actions: seq<Action>)
    ensures Clean(s) && forall n :: !Forced(s.calls, n)
    ensures var t := Run(s, actions); name in t.secrets && name !in t.records
  {
    s := State({}, {}, {}, None, [Delete(name, false), Create(name)], [Begin, Begin], {});
    actions := Repeat(1, 3) + (Repeat(0, 5) + [Advance(1)]);
    CreationSteps(s, 1);
    var recorded := Run(s, Repeat(1, 3));
    DeletionCompletes(recorded, 0);
    var deleted := Run(recorded, Repeat(0, 5));
    RunConcat(s, Repeat(1, 3), Repeat(0, 5) + [Advance(1)]);
    RunConcat(recorded, Repeat(0, 5), [Advance(1)]);
    LateCredentials(deleted, 1);
  }

  // ---- the same operations, called one after another ------------------------------------------

  function Names(list: seq<Name>): set<Name> {
    set n | n in list
  }

  function Without(list: seq<Name>, name: Name): (r: seq<Name>)
    ensures forall n :: n in r <==> n in list && n != name
    ensures name !in list <==> |r| == |list|
    ensures |r| <= |list|
  {
    if list == [] then []
    else if list[0] == name then Without(list[1..], name)
    else [list[0]] + Without(list[1..], name)
  }

  lemma {:induction false} WithoutSnoc(list: seq<Name>, last: Name, name: Name)
    ensures Without(list + [last], name) == Without(list, name) + (if last == name then [] else [last])
  {
    if list == [] {
      assert [] + [last] == [last];
    } else {
      assert (list + [last])[1..] == list[1..] + [last];
      WithoutSnoc(list[1..], last, name);
    }
  }

  lemma CreationRefused(s: State, p: nat)
    requires Shaped(s) && p < |s.pc| && s.calls[p].Create? && s.pc[p] == Begin && s.lock == None
    requires s.calls[p].name in s.records
    ensures var t := Run(s, Repeat(p, 2));
            t.records == s.records && t.secrets == s.secrets && t.attached == s.attached && t.pc[p] == Finished(false)
  {
    Twice(s, p);
  }

  /** The three files as a single caller sees them. */
  class ChannelFiles {
    var channels: seq<Name>
    var secrets: set<Name>
    var attached: set<(Agent, Name)>

    constructor ()
      ensures channels == [] && secrets == {} && attached == {}
    {
      channels, secrets, attached := [], {}, {};
    }

    /** These files with one process about to make `call`. */
    function About(call: Call): State
      reads this
    {
      State(Names(channels), secrets, attached, None, [call], [Begin], {})
    }

    predicate Matches(s: State)
      reads this
    {
      Names(channels) == s.records && secrets == s.secrets && attached == s.attached
    }

    method AddChannel(name: Name) returns (ok: bool)
      modifies this`channels
      ensures ok <==> name !in old(channels)
      ensures channels == old(channels) + if ok then [name] else []
      ensures Matches(Run(old(About(Create(name))), Repeat(0, if ok then 3 else 2)))
    {
      ghost var start := About(Create(name));
      for i := 0 to |channels|
        invariant channels == old(channels) && name !in channels[..i]
      {
        if channels[i] == name {
          CreationRefused(start, 0);
          return false;
        }
      }
      CreationSteps(start, 0);
      channels := channels + [name];
      ok := true;
    }

    /** `None` when an agent still uses the channel. */
    method RemoveChannel(name: Name, force: bool) returns (removed: Option<bool>)
      modifies this
      ensures removed == (if !force && (exists link :: link in old(attached) && link.1 == name) then None
                          else Some(name in old(channels)))
      ensures removed == Some(true) ==>
                && channels == Without(old(channels), name) && secrets == old(secrets) - {name} && attached == old(attached)
                && Matches(Run(old(About(Delete(name, force))), Repeat(0, 5)))
      ensures removed != Some(true) ==> channels == old(channels) && secrets == old(secrets) && attached == old(attached)
    {
      ghost var start := About(Delete(name, force));
      if !force && exists link :: link in attached && link.1 == name { return None; }
      var remaining := [];
      for i := 0 to |channels|
        invariant channels == old(channels) && secrets == old(secrets) && attached == old(attached)
        invariant remaining == Without(channels[..i], name)
      {
        assert channels[..i + 1] == channels[..i] + [channels[i]];
        WithoutSnoc(channels[..i], channels[i], name);
        if channels[i] != name { remaining := remaining + [channels[i]]; }
      }
      assert channels[..|channels|] == channels;
      if |remaining| == |channels| { return Some(false); }
      DeletionSteps(start, start, 0, 0, 5);
      secrets := secrets - {name};
      channels := remaining;
      removed := Some(true);
    }
  }
}
