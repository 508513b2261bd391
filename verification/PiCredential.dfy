/** Native starts of the Codex-backed Pi agent, from exec and from chat, against
    the writers that revoke or restore its credential.

    All parties share one credential lock and one durable record.  A start reads
    the record again once it holds the lock.  Writers change the record only
    while holding it.  Any caller may be killed at any step, which frees the lock. */
module PiCredential {
  import opened Prelude

  /** The attached selection is the Codex provider; recovery is pending. */
  datatype Record = Record(codex: bool, pending: bool)

  datatype Role =
    | Exec                    // run_agent_exec, inference mode
    | Chat                    // PiChatBackend.send_message for provider openai-codex
    | Writer(next: Record)    // configure, detach, login: rewrites the record under the lock

  datatype Pc =
    | Begin                        // exec: about to prepare, on entry and on re-entry alike
    | WantLock
    | Recheck                      // chat: lock held, about to read the record
    | Cleared(codex: bool)         // authorised; about to launch
    | Running(codex: bool)         // waiting for the runner
    | Revising                     // writer inside the lock, record already rewritten
    | Leaving                      // finished its work, lock still to be dropped
    | Finished | Failed

  /** The remote job: `abandoned` once its caller stopped waiting for it. */
  datatype Runner = NoRunner | Alive(codex: bool, abandoned: bool) | Exited

  /** One launch, with the lock owner and the record at that moment. */
  datatype Start = Start(proc: nat, codex: bool, owner: Option<nat>, record: Record)

  datatype State = State(
    record: Record,
    lock: Option<nat>,
    roles: seq<Role>,
    pc: seq<Pc>,
    held: seq<bool>,          // exec: the `_pi_lock_held` argument of the current call
    depth: seq<nat>,          // exec: re-entrant calls of run_agent_exec so far
    runner: seq<Runner>,
    starts: seq<Start>)

  datatype Action =
    | Advance(p: nat)
    | RunnerExits(p: nat)
    | GiveUp(p: nat)          // chat: deadline or cancellation while the runner is still alive
    | Kill(p: nat)

  function Initial(record: Record, roles: seq<Role>): State {
    State(record, None, roles, seq(|roles|, _ => Begin), seq(|roles|, _ => false), seq(|roles|, _ => 0),
          seq(|roles|, _ => NoRunner), [])
  }

  predicate Shaped(s: State) {
    |s.pc| == |s.roles| == |s.held| == |s.depth| == |s.runner|
  }

  function Goto(s: State, p: nat, pc: Pc): State
    requires p < |s.pc|
  {
    s.(pc := s.pc[p := pc])
  }

  function Unlock(s: State, p: nat): State {
    if s.lock == Some(p) then s.(lock := None) else s
  }

  function Advanced(s: State, p: nat): (s': State)
    requires Shaped(s) && p < |s.pc|
    ensures Shaped(s') && s'.roles == s.roles
  {
    match s.pc[p]
    case Begin =>
      (match s.roles[p]
       case Exec =>
         // _prepare_pi_exec; only the flag tells the re-entrant call from the first one
         if s.record.codex && s.record.pending then Unlock(Goto(s, p, Failed), p)
         else if s.record.codex && !s.held[p] then Goto(s, p, WantLock)
         else Goto(s, p, Cleared(s.record.codex))
       case Chat => Goto(s, p, WantLock)
       case Writer(_) => Goto(s, p, WantLock))
    case WantLock =>
      if s.lock.Some? then s
      else
        var held := s.(lock := Some(p));
        (match s.roles[p]
         case Exec => Goto(held, p, Begin).(held := s.held[p := true], depth := s.depth[p := s.depth[p] + 1])
         case Chat => Goto(held, p, Recheck)
         case Writer(next) => Goto(held, p, Revising).(record := next))
    case Recheck =>
      if s.record.codex && s.record.pending then Unlock(Goto(s, p, Failed), p)
      else if !s.record.codex then Unlock(Goto(s, p, Failed), p)
      else Goto(s, p, Cleared(s.record.codex))
    case Cleared(codex) =>
      Goto(s, p, Running(codex)).(
        runner := s.runner[p := Alive(codex, false)],
        starts := s.starts + [Start(p, codex, s.lock, s.record)])
    case Running(_) => if s.runner[p].Exited? then Goto(s, p, Leaving) else s
    case Revising => Goto(s, p, Leaving)
    case Leaving => Unlock(Goto(s, p, Finished), p)
    case Finished => s
    case Failed => s
  }

  function Step(s: State, a: Action): (s': State)
    requires Shaped(s)
    ensures Shaped(s') && s'.roles == s.roles
  {
    if a.p >= |s.pc| then s else
    match a
    case Advance(p) => Advanced(s, p)
    case RunnerExits(p) => if s.runner[p].Alive? then s.(runner := s.runner[p := Exited]) else s
    case GiveUp(p) =>
      if s.roles[p].Chat? && s.pc[p].Running? && s.runner[p].Alive? then
        Goto(s, p, Leaving).(runner := s.runner[p := s.runner[p].(abandoned := true)])
      else s
    case Kill(p) =>
      if s.pc[p].Finished? || s.pc[p].Failed? then s
      else
        var s' := Unlock(Goto(s, p, Failed), p);
        if s.runner[p].Alive? then s'.(runner := s.runner[p := s.runner[p].(abandoned := true)]) else s'
  }

  function Run(s: State, actions: seq<Action>): (s': State)
    requires Shaped(s)
    ensures Shaped(s') && s'.roles == s.roles
    decreases |actions|
  {
    if actions == [] then s else Run(Step(s, actions[0]), actions[1..])
  }

  // ---- the invariant ---------------------------------------------------------

  predicate CodexBound(pc: Pc) {
    (pc.Cleared? || pc.Running?) && pc.codex
  }

  predicate MustHold(pc: Pc, held: bool) {
    pc.Recheck? || pc.Revising? || CodexBound(pc) || (pc.Begin? && held)
  }

  ghost predicate Authorised(start: Start) {
    start.codex ==> start.owner == Some(start.proc) && start.record.codex && !start.record.pending
  }

  predicate Local(s: State, p: nat)
    requires Shaped(s) && p < |s.pc|
  {
    && (MustHold(s.pc[p], s.held[p]) ==> s.lock == Some(p))
    && (s.lock == Some(p) ==> MustHold(s.pc[p], s.held[p]) || s.pc[p].Leaving? || s.pc[p].Cleared? || s.pc[p].Running?)
    && (CodexBound(s.pc[p]) ==> s.record.codex && !s.record.pending)
    && (s.pc[p].Revising? ==> s.roles[p].Writer? && s.record == s.roles[p].next)
    && (s.pc[p].Recheck? || s.pc[p].Cleared? || s.pc[p].Running? ==> !s.roles[p].Writer?)
    && (s.roles[p].Chat? && (s.pc[p].Cleared? || s.pc[p].Running?) ==> s.pc[p].codex)
    && s.depth[p] == (if s.held[p] then 1 else 0)
    && (s.held[p] ==> s.roles[p].Exec? && !s.pc[p].WantLock?)
    && (s.pc[p].Recheck? ==> s.roles[p].Chat?)
    && (s.runner[p].Alive? && !s.runner[p].abandoned ==> s.pc[p] == Running(s.runner[p].codex))
  }

  ghost predicate Inv(s: State) {
    && Shaped(s)
    && (s.lock.Some? ==> s.lock.value < |s.pc|)
    && (forall p :: 0 <= p < |s.pc| ==> Local(s, p))
    && (forall i :: 0 <= i < |s.starts| ==> Authorised(s.starts[i]))
  }

  lemma TakeLockKeepsInv(s: State, p: nat)
    requires Inv(s) && p < |s.pc| && s.pc[p].WantLock?
    ensures Inv(Advanced(s, p))
  {
    var s' := Advanced(s, p);
    if s.lock.None? {
      forall q | 0 <= q < |s.pc| ensures Local(s', q) {
        assert Local(s, q);
      }
    }
  }

  lemma AdvancedLocal(s: State, p: nat)
    requires Shaped(s) && p < |s.pc| && Local(s, p) && !s.pc[p].WantLock?
    ensures var s' := Advanced(s, p);
            && Local(s', p) && s'.record == s.record && (s'.lock == s.lock || (s.lock == Some(p) && s'.lock == None))
  {
  }

  lemma AdvancedStarts(s: State, p: nat)
    requires Inv(s) && p < |s.pc|
    ensures forall i :: 0 <= i < |Advanced(s, p).starts| ==> Authorised(Advanced(s, p).starts[i])
  {
    assert Local(s, p);
  }

  /** Another caller is as it was, with as much right to the lock. */
  predicate Undisturbed(s: State, s': State, q: nat)
    requires Shaped(s) && Shaped(s') && q < |s.pc| == |s'.pc|
  {
    && s'.roles == s.roles && s'.record == s.record && (s'.lock == s.lock || (s.lock != Some(q) && s'.lock == None))
    && s'.pc[q] == s.pc[q] && s'.held[q] == s.held[q] && s'.depth[q] == s.depth[q] && s'.runner[q] == s.runner[q]
  }

  lemma UndisturbedLocal(s: State, s': State, q: nat)
    requires Shaped(s) && Shaped(s') && q < |s.pc| == |s'.pc| && Local(s, q) && Undisturbed(s, s', q)
    ensures Local(s', q)
  {
  }

  lemma AdvancedUndisturbed(s: State, p: nat, q: nat)
    requires Shaped(s) && p < |s.pc| && q < |s.pc| && p != q && Local(s, p) && !s.pc[p].WantLock?
    ensures Undisturbed(s, Advanced(s, p), q)
  {
    AdvancedLocal(s, p);
  }

  lemma AdvanceKeepsInv(s: State, p: nat)
    requires Inv(s) && p < |s.pc|
    ensures Inv(Advanced(s, p))
  {
    if s.pc[p].WantLock? {
      TakeLockKeepsInv(s, p);
    } else {
      assert Local(s, p);
      AdvancedLocal(s, p);
      AdvancedStarts(s, p);
      forall q | 0 <= q < |s.pc| && q != p ensures Local(Advanced(s, p), q) {
        assert Local(s, q);
        AdvancedUndisturbed(s, p, q);
        UndisturbedLocal(s, Advanced(s, p), q);
      }
    }
  }

  lemma StepKeepsInv(s: State, a: Action)
    requires Inv(s)
    ensures Inv(Step(s, a))
  {
    if a.p >= |s.pc| { return; }
    if a.Advance? { AdvanceKeepsInv(s, a.p); return; }
    var s' := Step(s, a);
    forall q | 0 <= q < |s.pc| ensures Local(s', q) {
      assert Local(s, q) && Local(s, a.p);
    }
  }

  lemma {:induction false} RunKeepsInv(s: State, actions: seq<Action>)
    requires Inv(s)
    ensures Inv(Run(s, actions))
    decreases |actions|
  {
    if actions != [] {
      StepKeepsInv(s, actions[0]);
      RunKeepsInv(Step(s, actions[0]), actions[1..]);
    }
  }

  /** Every Codex-backed start happened while its own caller held the lock and the
      record, at that very moment, selected Codex with no recovery pending. */
  lemma CodexStartsAuthorised(record: Record, roles: seq<Role>, actions: seq<Action>, i: nat)
    requires i < |Run(Initial(record, roles), actions).starts|
    ensures Authorised(Run(Initial(record, roles), actions).starts[i])
  {
    RunKeepsInv(Initial(record, roles), actions);
  }

  /** While a writer is inside the lock nobody is authorised for, launching, or
      waiting on a Codex start; a Codex runner still alive then was abandoned. */
  lemma WriterExcludesStarts(record: Record, roles: seq<Role>, actions: seq<Action>, w: nat, p: nat)
    requires w < |roles| && p < |roles|
    requires Run(Initial(record, roles), actions).pc[w].Revising?
    ensures var s := Run(Initial(record, roles), actions);
            && !CodexBound(s.pc[p])
            && (s.runner[p].Alive? && s.runner[p].codex ==> s.runner[p].abandoned)
  {
    RunKeepsInv(Initial(record, roles), actions);
    var s := Run(Initial(record, roles), actions);
    assert Local(s, w) && Local(s, p);
  }

  /** The re-entrant exec call happens at most once per request: what the re-entrant
      call runs is the same preparation, and the flag alone keeps it from the lock. */
  lemma ReentersAtMostOnce(record: Record, roles: seq<Role>, actions: seq<Action>, p: nat)
    requires p < |roles|
    ensures Run(Initial(record, roles), actions).depth[p] <= 1
  {
    RunKeepsInv(Initial(record, roles), actions);
    assert Local(Run(Initial(record, roles), actions), p);
  }

  /** A Chat or Codex start cannot be reached while recovery stays pending: if no
      writer ever clears it, no Codex start is ever recorded. */
  lemma {:induction false} NoStartWhilePending(s: State, actions: seq<Action>)
    requires Inv(s) && s.record.codex && s.record.pending
    requires forall p :: 0 <= p < |s.roles| && s.roles[p].Writer? ==> s.roles[p].next.codex && s.roles[p].next.pending
    ensures Run(s, actions).record.codex && Run(s, actions).record.pending
    ensures forall i :: |s.starts| <= i < |Run(s, actions).starts| ==> !Run(s, actions).starts[i].codex
    ensures |Run(s, actions).starts| >= |s.starts|
    decreases |actions|
  {
    if actions != [] {
      StepKeepsInv(s, actions[0]);
      NoStartWhilePending(Step(s, actions[0]), actions[1..]);
      PrefixKept(Step(s, actions[0]), actions[1..]);
    }
  }

  lemma {:induction false} PrefixKept(s: State, actions: seq<Action>)
    requires Shaped(s)
    ensures s.starts <= Run(s, actions).starts
    decreases |actions|
  {
    if actions != [] {
      PrefixKept(Step(s, actions[0]), actions[1..]);
    }
  }

  lemma RunCons(s: State, a: Action, rest: seq<Action>)
    requires Shaped(s)
    ensures Run(s, [a] + rest) == Run(Step(s, a), rest)
  {
    assert ([a] + rest)[1..] == rest;
  }

  // ---- what a caller achieves on its own ------------------------------------------------

  lemma RunFour(s: State, a: Action)
    requires Shaped(s)
    ensures Run(s, [a, a, a, a]) == Step(Step(Step(Step(s, a), a), a), a)
  {
    var s1 := Step(s, a);
    var s2 := Step(s1, a);
    var s3 := Step(s2, a);
    assert [a, a, a, a] == [a] + ([a] + ([a] + ([a] + [])));
    RunCons(s, a, [a] + ([a] + ([a] + [])));
    RunCons(s1, a, [a] + ([a] + []));
    RunCons(s2, a, [a] + []);
    RunCons(s3, a, []);
  }

  ghost predicate Asking(s: State, p: nat) {
    && Inv(s) && p < |s.pc| && s.pc[p].Begin? && !s.held[p] && s.lock.None? && !s.roles[p].Writer?
  }

  lemma ExecWalks(s: State, p: nat)
    requires Asking(s, p) && s.roles[p].Exec? && s.record == Record(true, false)
    ensures var s2 := Step(Step(s, Advance(p)), Advance(p));
            s2.pc[p] == Begin && s2.held[p] && s2.lock == Some(p) && s2.record == s.record && s2.starts == s.starts
  {
    assert Step(s, Advance(p)) == Goto(s, p, WantLock);
  }

  lemma ChatWalks(s: State, p: nat)
    requires Asking(s, p) && s.roles[p].Chat?
    ensures var s2 := Step(Step(s, Advance(p)), Advance(p));
            s2.pc[p] == Recheck && s2.lock == Some(p) && s2.record == s.record && s2.starts == s.starts
  {
    assert Step(s, Advance(p)) == Goto(s, p, WantLock);
  }

  /** A request that meets a free lock and a clear Codex record is started: from exec and
      from chat alike, within four of its own steps, and it then owns the lock. */
  lemma ClearRequestStarts(s: State, p: nat)
    requires Asking(s, p) && s.record == Record(true, false)
    ensures var t := Run(s, [Advance(p), Advance(p), Advance(p), Advance(p)]);
            && t.starts == s.starts + [Start(p, true, Some(p), s.record)]
            && t.pc[p] == Running(true) && t.runner[p] == Alive(true, false) && t.lock == Some(p)
  {
    RunFour(s, Advance(p));
    var s2 := Step(Step(s, Advance(p)), Advance(p));
    if s.roles[p].Exec? { ExecWalks(s, p); } else { ChatWalks(s, p); }
    assert Step(s2, Advance(p)) == Goto(s2, p, Cleared(true));
  }

  /** One that meets a pending recovery fails without a start and without the lock. */
  lemma PendingRequestFails(s: State, p: nat)
    requires Asking(s, p) && s.record == Record(true, true)
    ensures var t := Run(s, [Advance(p), Advance(p), Advance(p), Advance(p)]);
            t.starts == s.starts && t.pc[p] == Failed && t.lock == None
  {
    RunFour(s, Advance(p));
    if s.roles[p].Chat? {
      ChatWalks(s, p);
      var s2 := Step(Step(s, Advance(p)), Advance(p));
      assert Step(s2, Advance(p)) == Unlock(Goto(s2, p, Failed), p);
    } else {
      assert Step(s, Advance(p)) == Unlock(Goto(s, p, Failed), p);
    }
  }

  /** Under another provider exec starts without the lock, and chat, which is only for
      Codex, fails. */
  lemma OtherProviderRequest(s: State, p: nat)
    requires Asking(s, p) && !s.record.codex
    ensures var t := Run(s, [Advance(p), Advance(p), Advance(p), Advance(p)]);
            && t.lock == None
            && (s.roles[p].Exec? ==> t.starts == s.starts + [Start(p, false, None, s.record)] && t.pc[p] == Running(false))
            && (s.roles[p].Chat? ==> t.starts == s.starts && t.pc[p] == Failed)
  {
    RunFour(s, Advance(p));
    if s.roles[p].Chat? {
      ChatWalks(s, p);
      var s2 := Step(Step(s, Advance(p)), Advance(p));
      assert Step(s2, Advance(p)) == Unlock(Goto(s2, p, Failed), p);
    } else {
      assert Step(s, Advance(p)) == Goto(s, p, Cleared(false));
    }
  }

  /** Once its runner has exited a caller leaves, in two steps, with the lock free. */
  lemma ExitedRunnerIsLeft(s: State, p: nat)
    requires Inv(s) && p < |s.pc| && s.pc[p] == Running(true) && s.runner[p] == Exited
    ensures var t := Run(s, [Advance(p), Advance(p)]); t.pc[p] == Finished && t.lock == None && t.starts == s.starts
  {
    assert Local(s, p);
    assert [Advance(p), Advance(p)] == [Advance(p)] + ([Advance(p)] + []);
    RunCons(s, Advance(p), [Advance(p)] + []);
    RunCons(Step(s, Advance(p)), Advance(p), []);
    assert Step(s, Advance(p)) == Goto(s, p, Leaving);
  }

  const ABANDONING := [Chat, Writer(Record(true, true))]

  function Midway(lock: Option<nat>, pc: Pc, runner: Runner, starts: seq<Start>): State {
    State(Record(true, false), lock, ABANDONING, [pc, Begin], [false, false], [0, 0], [runner, NoRunner], starts)
  }

  const LAUNCH := Start(0, true, Some(0), Record(true, false))

  lemma ChatGetsCleared(rest: seq<Action>)
    ensures Run(Initial(Record(true, false), ABANDONING), [Advance(0)] + ([Advance(0)] + ([Advance(0)] + rest)))
         == Run(Midway(Some(0), Cleared(true), NoRunner, []), rest)
  {
    var s := Initial(Record(true, false), ABANDONING);
    assert s == Midway(None, Begin, NoRunner, []);
    var s1, s2 := Midway(None, WantLock, NoRunner, []), Midway(Some(0), Recheck, NoRunner, []);
    assert Step(s, Advance(0)) == s1 && Step(s1, Advance(0)) == s2;
    RunCons(s2, Advance(0), rest);
    RunCons(s1, Advance(0), [Advance(0)] + rest);
    RunCons(s, Advance(0), [Advance(0)] + ([Advance(0)] + rest));
    assert Step(s2, Advance(0)) == Midway(Some(0), Cleared(true), NoRunner, []);
  }

  lemma ChatGivesUp(rest: seq<Action>)
    ensures Run(Midway(Some(0), Cleared(true), NoRunner, []), [Advance(0)] + ([GiveUp(0)] + ([Advance(0)] + rest)))
         == Run(Midway(None, Finished, Alive(true, true), [LAUNCH]), rest)
  {
    var s := Midway(Some(0), Cleared(true), NoRunner, []);
    var s1 := Midway(Some(0), Running(true), Alive(true, false), [LAUNCH]);
    var s2 := Midway(Some(0), Leaving, Alive(true, true), [LAUNCH]);
    assert [] + [LAUNCH] == [LAUNCH];
    assert Step(s, Advance(0)) == s1;
    assert Step(s1, GiveUp(0)) == s2;
    RunCons(s2, Advance(0), rest);
    RunCons(s1, GiveUp(0), [Advance(0)] + rest);
    RunCons(s, Advance(0), [GiveUp(0)] + ([Advance(0)] + rest));
    assert Step(s2, Advance(0)) == Midway(None, Finished, Alive(true, true), [LAUNCH]);
  }

  lemma WriterGetsIn(s: State)
    requires Shaped(s) && |s.pc| == 2 && s.pc[1].Begin? && s.roles[1].Writer? && s.lock.None?
    ensures var t := Run(s, [Advance(1)] + ([Advance(1)] + []));
            t.pc[1].Revising? && t.record == s.roles[1].next && t.runner == s.runner
  {
    RunCons(s, Advance(1), [Advance(1)] + []);
    RunCons(Step(s, Advance(1)), Advance(1), []);
  }

  /** The exclusion is of starts, not of runners: a chat turn that gives up drops
      the lock while its runner may still be alive, and a revocation can then run. */
  lemma RevocationCanOverlapAbandonedRunner() returns (actions: seq<Action>)
    ensures var s := Run(Initial(Record(true, false), [Chat, Writer(Record(true, true))]), actions);
            && s.pc[1].Revising? && s.record.pending
            && s.runner[0] == Alive(true, true)
  {
    var tail := [Advance(1)] + ([Advance(1)] + []);
    var mid := [Advance(0)] + ([GiveUp(0)] + ([Advance(0)] + tail));
    actions := [Advance(0)] + ([Advance(0)] + ([Advance(0)] + mid));
    ChatGetsCleared(mid);
    ChatGivesUp(tail);
    WriterGetsIn(Midway(None, Finished, Alive(true, true), [LAUNCH]));
  }

  // ---- exactly when a revocation is alone --------------------------------------------------

  predicate Abandons(a: Action) {
    a.GiveUp? || a.Kill?
  }

  /** Somebody is revising the record while a Codex runner is alive. */
  predicate RevisedUnderRunner(s: State)
    requires Shaped(s)
  {
    exists w, p :: 0 <= w < |s.pc| && 0 <= p < |s.pc| && s.pc[w].Revising? && s.runner[p].Alive? && s.runner[p].codex
  }

  predicate Watched(r: Runner) {
    r.Alive? ==> !r.abandoned
  }

  lemma StepWatches(s: State, a: Action, p: nat)
    requires Shaped(s) && !Abandons(a) && p < |s.pc| && Watched(s.runner[p])
    ensures Watched(Step(s, a).runner[p])
  {
  }

  lemma {:induction false} RunWatches(s: State, actions: seq<Action>, p: nat)
    requires Shaped(s) && p < |s.pc| && Watched(s.runner[p])
    requires forall i :: 0 <= i < |actions| ==> !Abandons(actions[i])
    ensures Watched(Run(s, actions).runner[p])
    decreases |actions|
  {
    if actions != [] {
      StepWatches(s, actions[0], p);
      RunWatches(Step(s, actions[0]), actions[1..], p);
    }
  }

  /** Runs whose actions may abandon a runner only if `mayAbandon`. */
  predicate Allowed(actions: seq<Action>, mayAbandon: bool) {
    forall i :: 0 <= i < |actions| ==> Abandons(actions[i]) ==> mayAbandon
  }

  lemma RevocationMeetsNobody(record: Record, roles: seq<Role>, actions: seq<Action>)
    requires Allowed(actions, false)
    ensures !RevisedUnderRunner(Run(Initial(record, roles), actions))
  {
    var s := Run(Initial(record, roles), actions);
    forall w: nat, p: nat | w < |s.pc| && p < |s.pc| && s.pc[w].Revising? ensures !(s.runner[p].Alive? && s.runner[p].codex) {
      WriterExcludesStarts(record, roles, actions, w, p);
      RunWatches(Initial(record, roles), actions, p);
    }
  }

  lemma RevocationMeetsRunner() returns (record: Record, roles: seq<Role>, actions: seq<Action>)
    ensures Allowed(actions, true) && RevisedUnderRunner(Run(Initial(record, roles), actions))
  {
    record, roles := Record(true, false), [Chat, Writer(Record(true, true))];
    actions := RevocationCanOverlapAbandonedRunner();
    var s := Run(Initial(record, roles), actions);
    assert s.pc[1].Revising? && s.runner[0].Alive? && s.runner[0].codex;
  }

  /** A writer inside the lock never meets a live Codex runner if and only if no caller
      gives up on its runner or is killed. */
  lemma RevocationAloneIff(mayAbandon: bool)
    ensures (forall record, roles, actions :: Allowed(actions, mayAbandon)
               ==> !RevisedUnderRunner(Run(Initial(record, roles), actions)))
            <==> !mayAbandon
  {
    if mayAbandon {
      var record, roles, actions := RevocationMeetsRunner();
    } else {
      forall record, roles, actions | Allowed(actions, false)
        ensures !RevisedUnderRunner(Run(Initial(record, roles), actions))
      {
        RevocationMeetsNobody(record, roles, actions);
      }
    }
  }
}
