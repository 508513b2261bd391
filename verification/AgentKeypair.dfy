/** The exclusive-create protocol of `ensure_agent_keypair`.

    A directory holds a private and a public key file.  Any number of callers
    run the function at once; each file-system call is one step, and a caller
    that is never scheduled again has been killed.  Writes do not raise. */
module AgentKeypair {
  import opened Prelude

  type Key = int

  /** `Torn` is a file whose bytes are not all there yet, or are no Ed25519 private key or
      no public line at all. */
  datatype File = Missing | Torn | Whole(bytes: int)

  /** `pubOf` derives the public line from a private key; `minted(p)` is the key
      that caller `p` generates if it gets that far. */
  datatype World = World(pubOf: Key -> int, minted: nat -> Key)

  datatype Pc =
    | Idle                       // about to test private_path.exists()
    | CheckPublic                // about to test public_path.exists()
    | CreatePrivate              // O_EXCL open of the private file
    | WritePrivate | CreatePublic | WritePublic
    | SeePrivate | SeePublic | LoadPrivate | LoadPublic(loaded: Key)
    | UnlinkPrivate | UnlinkPublic
    | Returned(priv: Key, pub: int)
    | Refused

  datatype State = State(priv: File, pub: File, pc: seq<Pc>)

  function Clean(callers: nat): State {
    State(Missing, Missing, seq(callers, _ => Idle))
  }

  /** One file-system call by caller `p`; scheduling a finished caller does nothing. */
  function Step(w: World, s: State, p: nat): State {
    if p >= |s.pc| then s else
    match s.pc[p]
    case Idle => Goto(s, p, if s.priv != Missing then SeePrivate else CheckPublic)
    case CheckPublic => Goto(s, p, if s.pub != Missing then SeePrivate else CreatePrivate)
    case CreatePrivate =>
      if s.priv != Missing then Goto(s, p, SeePrivate)
      else Goto(s.(priv := Torn), p, WritePrivate)
    case WritePrivate => Goto(s.(priv := Whole(w.minted(p))), p, CreatePublic)
    case CreatePublic =>
      if s.pub != Missing then Goto(s, p, UnlinkPrivate)
      else Goto(s.(pub := Torn), p, WritePublic)
    case WritePublic => Goto(s.(pub := Whole(w.pubOf(w.minted(p)))), p, SeePrivate)
    case SeePrivate => Goto(s, p, if s.priv == Missing then Refused else SeePublic)
    case SeePublic => Goto(s, p, if s.pub == Missing then Refused else LoadPrivate)
    case LoadPrivate => Goto(s, p, if s.priv.Whole? then LoadPublic(s.priv.bytes) else Refused)
    case LoadPublic(k) => Goto(s, p, if s.pub == Whole(w.pubOf(k)) then Returned(k, w.pubOf(k)) else Refused)
    case UnlinkPrivate => Goto(s.(priv := Missing), p, UnlinkPublic)
    case UnlinkPublic => Goto(s.(pub := Missing), p, Refused)
    case Returned(_, _) => s
    case Refused => s
  }

  function Goto(s: State, p: nat, pc: Pc): State
    requires p < |s.pc|
  {
    s.(pc := s.pc[p := pc])
  }

  function Run(w: World, s: State, schedule: seq<nat>): (r: State)
    ensures |r.pc| == |s.pc|
    decreases |schedule|
  {
    if schedule == [] then s else Run(w, Step(w, s, schedule[0]), schedule[1..])
  }

  // ---- the inductive invariant -------------------------------------------

  datatype Phase = Empty | Making(creator: nat) | Done(key: Key)

  predicate Creating(pc: Pc) {
    pc.WritePrivate? || pc.CreatePublic? || pc.WritePublic?
  }

  predicate Unlinking(pc: Pc) {
    pc.UnlinkPrivate? || pc.UnlinkPublic?
  }

  ghost predicate Inv(w: World, s: State, phase: Phase) {
    && (forall p :: 0 <= p < |s.pc| ==> !Unlinking(s.pc[p]))
    && match phase
       case Empty =>
         && s.priv == s.pub == Missing
         && (forall p :: 0 <= p < |s.pc| ==> s.pc[p] in {Idle, CheckPublic, CreatePrivate})
       case Making(c) =>
         && c < |s.pc| && Creating(s.pc[c])
         && s.priv == (if s.pc[c].WritePrivate? then Torn else Whole(w.minted(c)))
         && s.pub == (if s.pc[c].WritePublic? then Torn else Missing)
         && (forall p :: 0 <= p < |s.pc| && p != c ==> !Creating(s.pc[p]) && !s.pc[p].Returned?)
         && (forall p :: 0 <= p < |s.pc| && s.pc[p].LoadPublic? ==> s.priv == Whole(s.pc[p].loaded) && s.pub == Torn)
         && (forall p :: 0 <= p < |s.pc| && s.pc[p].LoadPrivate? ==> s.pub == Torn)
       case Done(k) =>
         && s.priv == Whole(k) && s.pub == Whole(w.pubOf(k))
         && (forall p :: 0 <= p < |s.pc| ==> !Creating(s.pc[p]))
         && (forall p :: 0 <= p < |s.pc| && s.pc[p].LoadPublic? ==> s.pc[p].loaded == k)
         && (forall p :: 0 <= p < |s.pc| && s.pc[p].Returned? ==> s.pc[p] == Returned(k, w.pubOf(k)))
  }

  /** The phase only moves forward: empty, then one creator, then its finished pair. */
  function NextPhase(w: World, s: State, p: nat, phase: Phase): Phase {
    if p >= |s.pc| then phase
    else if phase.Empty? && s.pc[p].CreatePrivate? then Making(p)
    else if phase == Making(p) && s.pc[p].WritePublic? then Done(w.minted(p))
    else phase
  }

  lemma StepKeepsInv(w: World, s: State, p: nat, phase: Phase)
    requires Inv(w, s, phase)
    ensures Inv(w, Step(w, s, p), NextPhase(w, s, p, phase))
    ensures |Step(w, s, p).pc| == |s.pc|
  {
    if p < |s.pc| {
      match phase
      case Empty => assert s.pc[p] in {Idle, CheckPublic, CreatePrivate};
      case Making(c) => MakingKeepsInv(w, s, p, c);
      case Done(k) => DoneKeepsInv(w, s, p, k);
    }
  }

  lemma MakingKeepsInv(w: World, s: State, p: nat, c: nat)
    requires Inv(w, s, Making(c)) && p < |s.pc|
    ensures Inv(w, Step(w, s, p), NextPhase(w, s, p, Making(c)))
  {
    assert !Unlinking(s.pc[p]) && (p != c ==> !Creating(s.pc[p]));
  }

  lemma DoneKeepsInv(w: World, s: State, p: nat, k: Key)
    requires Inv(w, s, Done(k)) && p < |s.pc|
    ensures Inv(w, Step(w, s, p), Done(k))
  {
    assert !Unlinking(s.pc[p]) && !Creating(s.pc[p]);
  }

  function LastPhase(w: World, s: State, schedule: seq<nat>, phase: Phase): Phase
    decreases |schedule|
  {
    if schedule == [] then phase
    else LastPhase(w, Step(w, s, schedule[0]), schedule[1..], NextPhase(w, s, schedule[0], phase))
  }

  lemma {:induction false} RunKeepsInv(w: World, s: State, schedule: seq<nat>, phase: Phase)
    requires Inv(w, s, phase)
    ensures Inv(w, Run(w, s, schedule), LastPhase(w, s, schedule, phase))
    ensures phase.Done? ==> LastPhase(w, s, schedule, phase) == phase
    ensures phase.Making? ==> LastPhase(w, s, schedule, phase) in {phase, Done(w.minted(phase.creator))}
    decreases |schedule|
  {
    if schedule != [] {
      StepKeepsInv(w, s, schedule[0], phase);
      RunKeepsInv(w, Step(w, s, schedule[0]), schedule[1..], NextPhase(w, s, schedule[0], phase));
    }
  }

  // ---- what callers may rely on ------------------------------------------

  /** All callers that return hold the same key, it is the one on disk, and it matches. */
  lemma Agreement(w: World, callers: nat, schedule: seq<nat>, p: nat, q: nat)
    requires var s := Run(w, Clean(callers), schedule);
             p < |s.pc| && q < |s.pc| && s.pc[p].Returned? && s.pc[q].Returned?
    ensures var s := Run(w, Clean(callers), schedule);
            && s.pc[p] == s.pc[q]
            && s.pc[p].pub == w.pubOf(s.pc[p].priv)
            && s.priv == Whole(s.pc[p].priv) && s.pub == Whole(s.pc[p].pub)
  {
    RunKeepsInv(w, Clean(callers), schedule, Empty);
  }

  /** Neither file changes after the first return. */
  lemma FilesSettle(w: World, callers: nat, before: seq<nat>, after: seq<nat>, p: nat)
    requires var s := Run(w, Clean(callers), before); p < |s.pc| && s.pc[p].Returned?
    ensures var s := Run(w, Clean(callers), before);
            var s' := Run(w, s, after);
            s'.priv == s.priv && s'.pub == s.pub
  {
    RunKeepsInv(w, Clean(callers), before, Empty);
    var s := Run(w, Clean(callers), before);
    RunKeepsInv(w, s, after, LastPhase(w, Clean(callers), before, Empty));
  }

  /** From a clean start nobody finds the public file already there after
      creating the private one, so the cleanup that unlinks both never runs. */
  lemma CleanupUnreachable(w: World, callers: nat, schedule: seq<nat>, p: nat)
    requires p < callers
    ensures !Unlinking(Run(w, Clean(callers), schedule).pc[p])
  {
    RunKeepsInv(w, Clean(callers), schedule, Empty);
  }

  // ---- progress -----------------------------------------------------------

  /** How many further steps of its own a caller needs once the pair is assured. */
  function Remaining(pc: Pc): nat {
    match pc
    case WritePrivate => 7
    case CreatePublic => 6
    case WritePublic => 5
    case Idle => 5
    case CheckPublic => 5
    case CreatePrivate => 5
    case SeePrivate => 4
    case SeePublic => 3
    case LoadPrivate => 2
    case LoadPublic(_) => 1
    case _ => 0
  }

  /** Caller `p` is the creator, or the pair is complete and `p` was not refused before that. */
  predicate Assured(s: State, p: nat, phase: Phase) {
    p < |s.pc| && (phase == Making(p) || (phase.Done? && !s.pc[p].Refused?))
  }

  function Turns(schedule: seq<nat>, p: nat): nat {
    if schedule == [] then 0 else (if schedule[0] == p then 1 else 0) + Turns(schedule[1..], p)
  }

  lemma AssuredStep(w: World, s: State, p: nat, q: nat, phase: Phase)
    requires Inv(w, s, phase) && Assured(s, p, phase)
    ensures Assured(Step(w, s, q), p, NextPhase(w, s, q, phase))
    ensures q == p ==> Remaining(Step(w, s, q).pc[p]) < Remaining(s.pc[p]) || s.pc[p].Returned?
    ensures q != p ==> Step(w, s, q).pc[p] == s.pc[p]
    ensures s.pc[p].Returned? ==> Step(w, s, q).pc[p] == s.pc[p]
  {
  }

  /** The creator, and everyone not yet refused once the pair is complete, returns
      after at most seven steps of its own, whatever the others do in between. */
  lemma {:induction false} AssuredReturns(w: World, s: State, schedule: seq<nat>, p: nat, phase: Phase)
    requires Inv(w, s, phase) && Assured(s, p, phase)
    requires Turns(schedule, p) >= Remaining(s.pc[p])
    ensures p < |Run(w, s, schedule).pc| && Run(w, s, schedule).pc[p].Returned?
    decreases |schedule|
  {
    if schedule == [] {
      assert Remaining(s.pc[p]) == 0;
    } else {
      var q := schedule[0];
      StepKeepsInv(w, s, q, phase);
      AssuredStep(w, s, p, q, phase);
      AssuredReturns(w, Step(w, s, q), schedule[1..], p, NextPhase(w, s, q, phase));
    }
  }

  /** Once both files are complete no further caller is refused. */
  lemma EstablishedPairIsKept(w: World, callers: nat, before: seq<nat>, after: seq<nat>, p: nat)
    requires p < callers
    requires var s := Run(w, Clean(callers), before); s.priv.Whole? && s.pub.Whole?
    requires !Run(w, Clean(callers), before).pc[p].Refused?
    requires Turns(after, p) >= 5
    ensures var s := Run(w, Clean(callers), before);
            var s' := Run(w, s, after);
            p < |s'.pc| && s'.pc[p] == Returned(s.priv.bytes, s.pub.bytes)
  {
    RunKeepsInv(w, Clean(callers), before, Empty);
    var s := Run(w, Clean(callers), before);
    var phase := LastPhase(w, Clean(callers), before, Empty);
    RunKeepsInv(w, s, after, phase);
    AssuredReturns(w, s, after, p, phase);
  }

  lemma RunCons(w: World, s: State, p: nat, rest: seq<nat>)
    ensures Run(w, s, [p] + rest) == Run(w, Step(w, s, p), rest)
  {
    assert ([p] + rest)[1..] == rest;
  }

  lemma {:induction false} RefusedForGood(w: World, s: State, schedule: seq<nat>, p: nat)
    requires p < |s.pc| && s.pc[p].Refused?
    ensures Run(w, s, schedule).pc[p].Refused?
    decreases |schedule|
  {
    if schedule != [] {
      RefusedForGood(w, Step(w, s, schedule[0]), schedule[1..], p);
    }
  }

  /** Caller 0 creates the private file; caller 1 sees it, and looks for the public one too early. */
  lemma RaceToRefusal(w: World, rest: seq<nat>)
    ensures Run(w, Clean(2), [0] + ([0] + ([0] + ([1] + ([1] + ([1] + rest))))))
         == Run(w, State(Torn, Missing, [WritePrivate, Refused]), rest)
  {
    var r3 := [1] + ([1] + ([1] + rest));
    var s2 := State(Missing, Missing, [CreatePrivate, Idle]);
    var s3 := State(Torn, Missing, [WritePrivate, Idle]);
    assert Run(w, Clean(2), [0] + ([0] + ([0] + r3))) == Run(w, s3, r3) by {
      RunCons(w, Clean(2), 0, [0] + ([0] + r3));
      RunCons(w, Step(w, Clean(2), 0), 0, [0] + r3);
      assert Step(w, Step(w, Clean(2), 0), 0) == s2;
      RunCons(w, s2, 0, r3);
      assert Step(w, s2, 0) == s3;
    }
    RaceLoses(w, rest);
  }

  lemma RaceLoses(w: World, rest: seq<nat>)
    ensures Run(w, State(Torn, Missing, [WritePrivate, Idle]), [1] + ([1] + ([1] + rest)))
         == Run(w, State(Torn, Missing, [WritePrivate, Refused]), rest)
  {
    var s3 := State(Torn, Missing, [WritePrivate, Idle]);
    var s4 := State(Torn, Missing, [WritePrivate, SeePrivate]);
    var s5 := State(Torn, Missing, [WritePrivate, SeePublic]);
    RunCons(w, s3, 1, [1] + ([1] + rest));
    assert Step(w, s3, 1) == s4;
    RunCons(w, s4, 1, [1] + rest);
    assert Step(w, s4, 1) == s5;
    RunCons(w, s5, 1, rest);
    assert Step(w, s5, 1) == State(Torn, Missing, [WritePrivate, Refused]);
  }

  /** The source's comment says a loser retains the winner's pair.  It does not
      when it looks between the winner's two creates: here caller 1 is refused
      although caller 0 goes on to return the key it made. */
  lemma LoserMayBeRefused(w: World) returns (schedule: seq<nat>)
    ensures Run(w, Clean(2), schedule).pc == [Returned(w.minted(0), w.pubOf(w.minted(0))), Refused]
  {
    var rest := [0, 0, 0, 0, 0, 0, 0];
    var s6 := State(Torn, Missing, [WritePrivate, Refused]);
    schedule := [0] + ([0] + ([0] + ([1] + ([1] + ([1] + rest)))));
    RaceToRefusal(w, rest);
    SevenTurns();
    AssuredReturns(w, s6, rest, 0, Making(0));
    RunKeepsInv(w, s6, rest, Making(0));
    RefusedForGood(w, s6, rest, 1);
  }

  lemma SevenTurns()
    ensures Turns([0, 0, 0, 0, 0, 0, 0], 0) == 7
  {
    assert [0, 0, 0, 0, 0, 0, 0][1..] == [0, 0, 0, 0, 0, 0];
    assert [0, 0, 0, 0, 0, 0][1..] == [0, 0, 0, 0, 0];
    assert [0, 0, 0, 0, 0][1..] == [0, 0, 0, 0];
    assert [0, 0, 0, 0][1..] == [0, 0, 0];
    assert [0, 0, 0][1..] == [0, 0];
    assert [0, 0][1..] == [0];
    assert Turns([0], 0) == 1;
  }

  /** Refusals happen exactly when a caller tests for, or reads, a public file
      that the creator has not finished; in particular never once both are whole. */
  lemma RefusedExactlyWhileUnfinished(w: World, callers: nat, schedule: seq<nat>, p: nat)
    requires p < callers && !Run(w, Clean(callers), schedule).pc[p].Refused?
    ensures var s := Run(w, Clean(callers), schedule);
            Step(w, s, p).pc[p].Refused?
            <==> (s.pc[p].SeePublic? && s.pub == Missing) || (s.pc[p].LoadPublic? && s.pub == Torn)
  {
    RunKeepsInv(w, Clean(callers), schedule, Empty);
    RefusalStep(w, Run(w, Clean(callers), schedule), p, LastPhase(w, Clean(callers), schedule, Empty));
  }

  lemma RefusalStep(w: World, s: State, p: nat, phase: Phase)
    requires Inv(w, s, phase) && p < |s.pc| && !s.pc[p].Refused?
    ensures Step(w, s, p).pc[p].Refused?
            <==> (s.pc[p].SeePublic? && s.pub == Missing) || (s.pc[p].LoadPublic? && s.pub == Torn)
  {
    match phase
    case Empty => assert s.pc[p] in {Idle, CheckPublic, CreatePrivate};
    case Making(c) => if p != c { assert !Creating(s.pc[p]); }
    case Done(k) => assert !Creating(s.pc[p]);
  }

  // ---- the function itself, run without interference -----------------------

  predicate Matched(w: World, priv: File, pub: File) {
    priv.Whole? && pub == Whole(w.pubOf(priv.bytes))
  }

  /** The controller-side directory of one agent identity.  Each file is what its path
      leads to; the path itself may be a symbolic link, which leads nowhere if the file
      is missing. */
  class KeyDirectory {
    var priv: File
    var pub: File
    var privLinked: bool
    var pubLinked: bool

    /** `_validate_agent_keypair` */
    method Validate(w: World) returns (r: Result<Key, ()>)
      ensures r == if !privLinked && !pubLinked && Matched(w, priv, pub) then Ok(priv.bytes) else Err(())
    {
      if privLinked || pubLinked { return Err(()); }
      if priv == Missing || pub == Missing { return Err(()); }
      if !priv.Whole? { return Err(()); }
      var expected := w.pubOf(priv.bytes);
      if pub != Whole(expected) { return Err(()); }
      return Ok(priv.bytes);
    }

    /** `get_agent_private_key`: absent, valid, or an error; never a partial identity. */
    method GetPrivateKey(w: World) returns (r: Result<Option<Key>, ()>)
      ensures r == Ok(None) <==> priv == Missing && pub == Missing
      ensures r.Ok? && r.value.Some? <==> !privLinked && !pubLinked && Matched(w, priv, pub)
      ensures r.Ok? && r.value.Some? ==> priv == Whole(r.value.value)
    {
      if priv == Missing && pub == Missing { return Ok(None); }
      var v := Validate(w);
      return match v case Ok(k) => Ok(Some(k)) case Err(e) => Err(e);
    }

    /** `ensure_agent_keypair` when nobody else touches the directory: it creates a pair
        only where there was nothing; a dangling link in the way of the public file is
        removed again with the private one; otherwise nothing changes. */
    method EnsureKeypair(w: World, generated: Key) returns (r: Result<Key, ()>)
      modifies this
      ensures var nothing := old(priv == Missing && pub == Missing);
              if nothing && !old(privLinked) && !old(pubLinked) then
                && r == Ok(generated) && priv == Whole(generated) && pub == Whole(w.pubOf(generated))
                && !privLinked && !pubLinked
              else if nothing && !old(privLinked) then
                r == Err(()) && priv == Missing && pub == Missing && !privLinked && !pubLinked
              else
                && priv == old(priv) && pub == old(pub) && privLinked == old(privLinked) && pubLinked == old(pubLinked)
                && r == (if !privLinked && !pubLinked && Matched(w, priv, pub) then Ok(priv.bytes) else Err(()))
    {
      if priv != Missing || pub != Missing {
        r := Validate(w);
        return;
      }
      // An exclusive create fails on a link, wherever it leads; nobody else is there.
      if privLinked {
        r := Validate(w);
        return;
      }
      priv := Torn;
      priv := Whole(generated);
      if pubLinked {
        priv, pub, privLinked, pubLinked := Missing, Missing, false, false;
        return Err(());
      }
      pub := Torn;
      pub := Whole(w.pubOf(generated));
      r := Validate(w);
    }
  }

  /** The state after `n` steps of a lone caller. */
  function Alone(w: World, s: State, n: nat): State
    decreases n
  {
    if n == 0 then s else Alone(w, Step(w, s, 0), n - 1)
  }

  /** The solo method and the interleaved machine describe the same function: a
      lone caller, on any two files, ends as `EnsureKeypair` says within ten steps. */
  lemma {:induction false} SoloRunAgrees(w: World, priv: File, pub: File)
    ensures var s := Alone(w, State(priv, pub, [Idle]), 10);
            if priv == Missing && pub == Missing then
              var k := w.minted(0);
              s == State(Whole(k), Whole(w.pubOf(k)), [Returned(k, w.pubOf(k))])
            else
              && s.priv == priv && s.pub == pub
              && s.pc == [if Matched(w, priv, pub) then Returned(priv.bytes, pub.bytes) else Refused]
  {
    if priv == Missing && pub == Missing {
      var k := w.minted(0);
      AloneSteps(w, State(priv, pub, [Idle]), State(Torn, Missing, [WritePrivate]), 3, 7);
      AloneSteps(w, State(Torn, Missing, [WritePrivate]), State(Whole(k), Whole(w.pubOf(k)), [SeePrivate]), 3, 4);
      AloneSteps(w, State(Whole(k), Whole(w.pubOf(k)), [SeePrivate]),
                 State(Whole(k), Whole(w.pubOf(k)), [LoadPublic(k)]), 3, 1);
    } else {
      var n := if priv != Missing then 1 else 2;
      AloneSteps(w, State(priv, pub, [Idle]), State(priv, pub, [SeePrivate]), n, 10 - n);
      SoloValidates(w, priv, pub, 10 - n);
    }
  }

  lemma AloneSteps(w: World, s: State, s': State, n: nat, m: nat)
    requires n <= 3
    requires s' == if n == 0 then s
                   else if n == 1 then Step(w, s, 0)
                   else if n == 2 then Step(w, Step(w, s, 0), 0)
                   else Step(w, Step(w, Step(w, s, 0), 0), 0)
    ensures Alone(w, s, n + m) == Alone(w, s', m)
  {
    if n > 0 { AloneOne(w, s, n + m - 1); }
    if n > 1 { AloneOne(w, Step(w, s, 0), n + m - 2); }
    if n > 2 { AloneOne(w, Step(w, Step(w, s, 0), 0), n + m - 3); }
  }

  lemma AloneOne(w: World, s: State, m: nat)
    ensures Alone(w, s, m + 1) == Alone(w, Step(w, s, 0), m)
  {
  }

  lemma SoloValidates(w: World, priv: File, pub: File, n: nat)
    requires n >= 4
    ensures var s := Alone(w, State(priv, pub, [SeePrivate]), n);
            && s.priv == priv && s.pub == pub
            && s.pc == [if Matched(w, priv, pub) then Returned(priv.bytes, pub.bytes) else Refused]
  {
    if priv == Missing {
      AloneSteps(w, State(priv, pub, [SeePrivate]), State(priv, pub, [Refused]), 1, n - 1);
      FinishedAlone(w, State(priv, pub, [Refused]), n - 1);
    } else if pub == Missing {
      AloneSteps(w, State(priv, pub, [SeePrivate]), State(priv, pub, [Refused]), 2, n - 2);
      FinishedAlone(w, State(priv, pub, [Refused]), n - 2);
    } else {
      var s3 := State(priv, pub, [if priv.Whole? then LoadPublic(priv.bytes) else Refused]);
      AloneSteps(w, State(priv, pub, [SeePrivate]), s3, 3, n - 3);
      FinishedAlone(w, Step(w, s3, 0), n - 4);
    }
  }

  lemma {:induction false} FinishedAlone(w: World, s: State, n: nat)
    requires |s.pc| == 1 && (s.pc[0].Refused? || s.pc[0].Returned?)
    ensures Alone(w, s, n) == s
  {
    if n > 0 { FinishedAlone(w, s, n - 1); }
  }
}
