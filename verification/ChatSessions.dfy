/** Conversation continuity of the Claude, Codex and Pi backends: when a turn
    resumes an upstream conversation, and which one. */
module ChatSessions {
  import opened Prelude
  import opened Text
  import CodexStream

  // ---- the abstract machine -----------------------------------------------------------

  /** A fresh turn asks the upstream to create the conversation of a given id, or of
      one of its own choosing. */
  datatype Issued = Fresh(asked: Option<string>) | Resume(id: string)

  datatype Outcome = Succeeded(id: string) | Failed | Cancelled

  /** One call on a backend.  `Neutral` is a connect, a close, or a send refused
      before it touched the session. */
  datatype Event =
    | Turn(key: string, issued: Issued, outcome: Outcome)
    | Clear
    | Neutral

  datatype Conversation = Conversation(key: string, id: string)

  function LiveAfter(live: Option<Conversation>, e: Event): Option<Conversation> {
    match e
    case Neutral => live
    case Clear => None
    case Turn(key, _, Succeeded(id)) => Some(Conversation(key, id))
    case Turn(key, _, Failed) => if live.Some? && live.value.key == key then live else None
    case Turn(_, _, Cancelled) => None
  }

  /** The conversation that the next turn may continue. */
  function Live(trace: seq<Event>): Option<Conversation> {
    if trace == [] then None else LiveAfter(Live(trace[..|trace| - 1]), trace[|trace| - 1])
  }

  function Due(live: Option<Conversation>, key: string): Option<string> {
    if live.Some? && live.value.key == key then Some(live.value.id) else None
  }

  /** If `e` is a turn, it resumes what was due after `before`, or else starts fresh. */
  predicate Obeys(e: Event, before: seq<Event>) {
    e.Turn? ==> match Due(Live(before), e.key)
                case Some(id) => e.issued == Resume(id)
                case None => e.issued.Fresh?
  }

  /** Every turn was issued what was due. */
  ghost predicate Legal(trace: seq<Event>) {
    forall n :: 0 <= n < |trace| ==> Obeys(trace[n], trace[..n])
  }

  /** An event that leaves a conversation under `key` resumable. */
  predicate Harmless(e: Event, key: string) {
    e.Neutral? || (e.Turn? && e.key == key && e.outcome.Failed?)
  }

  /** Position `i` is the latest successful turn of the conversation, and since then
      there was no clear, no cancellation and no other key. */
  ghost predicate Sustains(trace: seq<Event>, i: int, key: string, id: string) {
    && 0 <= i < |trace|
    && trace[i].Turn? && trace[i].key == key && trace[i].outcome == Succeeded(id)
    && forall j :: i < j < |trace| ==> Harmless(trace[j], key)
  }

  ghost predicate Resumable(trace: seq<Event>, key: string, id: string) {
    exists i :: Sustains(trace, i, key, id)
  }

  lemma {:induction false} LiveMeaning(trace: seq<Event>, key: string, id: string)
    ensures Live(trace) == Some(Conversation(key, id)) <==> exists i :: Sustains(trace, i, key, id)
  {
    if trace != [] {
      var before, last := trace[..|trace| - 1], trace[|trace| - 1];
      LiveMeaning(before, key, id);
      if Live(trace) == Some(Conversation(key, id)) {
        if last.Turn? && last.outcome.Succeeded? {
          assert Sustains(trace, |trace| - 1, key, id);
        } else {
          var i :| Sustains(before, i, key, id);
          assert Sustains(trace, i, key, id);
        }
      }
      if exists i :: Sustains(trace, i, key, id) {
        var i :| Sustains(trace, i, key, id);
        if i < |before| {
          assert Harmless(trace[|trace| - 1], key);
          assert Sustains(before, i, key, id);
        }
      }
    }
  }

  /** A resume argument is issued exactly with the id of the latest successful turn
      under the same key, with no clear, cancellation or key change since; every other
      turn starts fresh. */
  lemma ResumesExactly(trace: seq<Event>, n: nat, id: string)
    requires Legal(trace) && n < |trace| && trace[n].Turn?
    ensures trace[n].issued == Resume(id) <==> exists i :: Sustains(trace[..n], i, trace[n].key, id)
    ensures trace[n].issued.Fresh? <==> forall i, id' :: !Sustains(trace[..n], i, trace[n].key, id')
  {
    assert Obeys(trace[n], trace[..n]);
    LiveMeaning(trace[..n], trace[n].key, id);
    forall i, id' | Sustains(trace[..n], i, trace[n].key, id') ensures trace[n].issued == Resume(id') {
      LiveMeaning(trace[..n], trace[n].key, id');
    }
    if trace[n].issued.Resume? {
      LiveMeaning(trace[..n], trace[n].key, trace[n].issued.id);
    }
  }

  /** A resumed id was returned to an earlier turn under the same key. */
  lemma ResumedIdWasReturned(trace: seq<Event>, n: nat)
    requires Legal(trace) && n < |trace| && trace[n].Turn? && trace[n].issued.Resume?
    ensures exists i :: 0 <= i < n && trace[i].Turn? && trace[i].key == trace[n].key
                        && trace[i].outcome == Succeeded(trace[n].issued.id)
  {
    ResumesExactly(trace, n, trace[n].issued.id);
    var i :| Sustains(trace[..n], i, trace[n].key, trace[n].issued.id);
    assert trace[i] == trace[..n][i];
  }

  lemma Extend(trace: seq<Event>, e: Event)
    requires Legal(trace) && Obeys(e, trace)
    ensures Legal(trace + [e]) && Live(trace + [e]) == LiveAfter(Live(trace), e)
  {
    var longer := trace + [e];
    forall n | 0 <= n < |longer| ensures Obeys(longer[n], longer[..n]) {
      assert longer[..n] == trace[..n];
      if n == |trace| {
        assert trace[..n] == trace;
      } else {
        assert Obeys(trace[n], trace[..n]);
      }
    }
  }

  // ---- ids that the backend mints ------------------------------------------------------

  /** How many ids a backend has used up, and the key of its session. */
  datatype Session = Session(epoch: nat, key: Option<string>)

  /** A turn under another key drops the session first. */
  function Entered(s: Session, key: string): Session {
    Session(if s.key.Some? && s.key.value != key then s.epoch + 1 else s.epoch, Some(key))
  }

  function Dropped(s: Session): Session {
    Session(s.epoch + 1, None)
  }

  function AfterEvent(s: Session, e: Event): Session {
    match e
    case Neutral => s
    case Clear => Dropped(s)
    case Turn(key, _, outcome) => if outcome.Cancelled? then Dropped(Entered(s, key)) else Entered(s, key)
  }

  function SessionOf(trace: seq<Event>): Session {
    if trace == [] then Session(0, None) else AfterEvent(SessionOf(trace[..|trace| - 1]), trace[|trace| - 1])
  }

  /** The epoch of the turn at `n`. */
  function EpochAt(trace: seq<Event>, n: nat): nat
    requires n < |trace| && trace[n].Turn?
  {
    Entered(SessionOf(trace[..n]), trace[n].key).epoch
  }

  /** What a turn under `key` is issued next, by a backend that mints its ids. */
  function NextIssue(trace: seq<Event>, key: string, mint: nat -> string): Issued {
    match Due(Live(trace), key)
    case Some(id) => Resume(id)
    case None => Fresh(Some(mint(Entered(SessionOf(trace), key).epoch)))
  }

  /** Every turn was issued what a minting backend issues. */
  ghost predicate Mints(trace: seq<Event>, mint: nat -> string) {
    forall n :: 0 <= n < |trace| && trace[n].Turn? ==> trace[n].issued == NextIssue(trace[..n], trace[n].key, mint)
  }

  /** The id a turn was sent with. */
  function SentId(e: Event): Option<string>
    requires e.Turn?
  {
    match e.issued case Fresh(asked) => asked case Resume(id) => Some(id)
  }

  /** Every successful turn reported the id it was sent with. */
  predicate Echoes(trace: seq<Event>) {
    trace == [] || (Echoes(trace[..|trace| - 1]) && Echo(trace[|trace| - 1]))
  }

  predicate Echo(e: Event) {
    e.Turn? && e.outcome.Succeeded? ==> SentId(e) == Some(e.outcome.id)
  }

  lemma {:induction false} EchoesAt(trace: seq<Event>, n: nat)
    requires Echoes(trace) && n < |trace|
    ensures Echo(trace[n])
  {
    if n < |trace| - 1 { EchoesAt(trace[..|trace| - 1], n); }
  }

  ghost predicate Injective(mint: nat -> string) {
    forall i: nat, j: nat :: mint(i) == mint(j) ==> i == j
  }

  lemma MintsIsLegal(trace: seq<Event>, mint: nat -> string)
    requires Mints(trace, mint)
    ensures Legal(trace)
  {
    forall n | 0 <= n < |trace| ensures Obeys(trace[n], trace[..n]) {
    }
  }

  lemma PrefixStep(trace: seq<Event>, n: nat)
    requires n < |trace|
    ensures SessionOf(trace[..n + 1]) == AfterEvent(SessionOf(trace[..n]), trace[n])
  {
    assert trace[..n + 1][..n] == trace[..n];
  }

  lemma {:induction false} EpochGrows(trace: seq<Event>, i: nat, n: nat)
    requires i <= n <= |trace|
    ensures SessionOf(trace[..i]).epoch <= SessionOf(trace[..n]).epoch
  {
    if i < n {
      EpochGrows(trace, i, n - 1);
      PrefixStep(trace, n - 1);
    }
  }

  /** An event that leaves the session of `key` as it is. */
  predicate Calm(e: Event, key: string) {
    e.Neutral? || (e.Turn? && e.key == key && !e.outcome.Cancelled?)
  }

  /** A step that uses up no id leaves the key of a session, and is calm. */
  lemma CalmStep(s: Session, e: Event)
    requires s.key.Some? && AfterEvent(s, e).epoch == s.epoch
    ensures AfterEvent(s, e).key == s.key && Calm(e, s.key.value)
  {
  }

  lemma EpochReached(trace: seq<Event>, i: nat, n: nat)
    requires i < n <= |trace| && trace[i].Turn?
    ensures EpochAt(trace, i) <= SessionOf(trace[..n]).epoch
    ensures n == i + 1 && SessionOf(trace[..n]).epoch == EpochAt(trace, i) ==>
              SessionOf(trace[..n]).key == Some(trace[i].key) && Calm(trace[i], trace[i].key)
  {
    PrefixStep(trace, i);
    EpochGrows(trace, i + 1, n);
  }

  /** Two turns of one epoch are under one key, with nothing between them, from the
      first on, that ends a session. */
  lemma {:induction false} OneEpoch(trace: seq<Event>, i: nat, n: nat)
    requires i < n <= |trace| && trace[i].Turn? && SessionOf(trace[..n]).epoch == EpochAt(trace, i)
    ensures SessionOf(trace[..n]).key == Some(trace[i].key)
    ensures forall j :: i <= j < n ==> Calm(trace[j], trace[i].key)
  {
    EpochReached(trace, i, n);
    if i < n - 1 {
      EpochReached(trace, i, n - 1);
      EpochGrows(trace, n - 1, n);
      OneEpoch(trace, i, n - 1);
      PrefixStep(trace, n - 1);
      CalmStep(SessionOf(trace[..n - 1]), trace[n - 1]);
    }
  }

  lemma SameEpochTurns(trace: seq<Event>, i: nat, n: nat)
    requires i < n < |trace| && trace[i].Turn? && trace[n].Turn? && EpochAt(trace, i) == EpochAt(trace, n)
    ensures trace[i].key == trace[n].key && forall j :: i <= j < n ==> Calm(trace[j], trace[i].key)
  {
    PrefixStep(trace, i);
    EpochGrows(trace, i + 1, n);
    OneEpoch(trace, i, n);
  }

  /** Nothing calm ends a live conversation. */
  lemma {:induction false} LiveStays(trace: seq<Event>, m: nat, n: nat, key: string)
    requires m <= n <= |trace| && forall j :: m <= j < n ==> Calm(trace[j], key)
    requires Live(trace[..m]).Some? && Live(trace[..m]).value.key == key
    ensures Live(trace[..n]).Some? && Live(trace[..n]).value.key == key
    decreases n
  {
    if m < n {
      LiveStays(trace, m, n - 1, key);
      assert Calm(trace[n - 1], key);
      assert trace[..n][..n - 1] == trace[..n - 1];
    }
  }

  /** With an echoing upstream every id sent is the one minted for its epoch. */
  lemma {:induction false} SentIdIsOwn(trace: seq<Event>, n: nat, mint: nat -> string)
    requires Mints(trace, mint) && Echoes(trace) && n < |trace| && trace[n].Turn?
    ensures SentId(trace[n]) == Some(mint(EpochAt(trace, n)))
    decreases n
  {
    assert trace[n].issued == NextIssue(trace[..n], trace[n].key, mint);
    if trace[n].issued.Resume? {
      MintsIsLegal(trace, mint);
      var id := trace[n].issued.id;
      ResumesExactly(trace, n, id);
      var i :| Sustains(trace[..n], i, trace[n].key, id);
      assert trace[..n][i] == trace[i];
      SentIdIsOwn(trace, i, mint);
      EchoesAt(trace, i);
      forall j | i < j < n ensures Harmless(trace[j], trace[n].key) { assert trace[..n][j] == trace[j]; }
      CalmEpoch(trace, i, n);
    }
  }

  lemma {:induction false} CalmEpoch(trace: seq<Event>, i: nat, n: nat)
    requires i < n < |trace| && trace[i].Turn? && trace[n].Turn? && trace[i].key == trace[n].key
    requires !trace[i].outcome.Cancelled? && forall j :: i < j < n ==> Harmless(trace[j], trace[i].key)
    ensures EpochAt(trace, n) == EpochAt(trace, i)
  {
    CalmSession(trace, i, n);
  }

  lemma {:induction false} CalmSession(trace: seq<Event>, i: nat, n: nat)
    requires i < n <= |trace| && trace[i].Turn? && !trace[i].outcome.Cancelled?
    requires forall j :: i < j < n ==> Harmless(trace[j], trace[i].key)
    ensures SessionOf(trace[..n]) == Session(EpochAt(trace, i), Some(trace[i].key))
    decreases n
  {
    PrefixStep(trace, n - 1);
    if i < n - 1 {
      CalmSession(trace, i, n - 1);
      assert Harmless(trace[n - 1], trace[i].key);
    }
  }

  /** A fresh id is never that of an earlier success, if that success reported the id
      minted for it or none that the backend ever mints. */
  lemma FreshIdIsNew(trace: seq<Event>, mint: nat -> string, i: nat, n: nat)
    requires Injective(mint) && Mints(trace, mint) && i < n < |trace|
    requires trace[i].Turn? && trace[i].outcome.Succeeded? && trace[n].Turn? && trace[n].issued.Fresh?
    requires var id := trace[i].outcome.id; id == mint(EpochAt(trace, i)) || forall k: nat :: id != mint(k)
    ensures trace[n].issued.asked != Some(trace[i].outcome.id)
  {
    assert trace[n].issued == NextIssue(trace[..n], trace[n].key, mint);
    if trace[n].issued.asked == Some(trace[i].outcome.id) {
      SameEpochTurns(trace, i, n);
      assert trace[..i + 1][..i] == trace[..i];
      LiveStays(trace, i + 1, n, trace[i].key);
    }
  }

  /** With an echoing upstream no id is ever sent under two keys. */
  lemma NoIdUnderTwoKeys(trace: seq<Event>, mint: nat -> string, i: nat, n: nat)
    requires Injective(mint) && Mints(trace, mint) && Echoes(trace) && i < n < |trace|
    requires trace[i].Turn? && trace[n].Turn? && trace[i].key != trace[n].key
    ensures SentId(trace[i]).Some? && SentId(trace[n]).Some? && SentId(trace[i]) != SentId(trace[n])
  {
    SentIdIsOwn(trace, i, mint);
    SentIdIsOwn(trace, n, mint);
    if EpochAt(trace, i) == EpochAt(trace, n) { SameEpochTurns(trace, i, n); }
  }

  /** Whatever the upstream reports, no fresh id is asked for under two keys. */
  lemma NoFreshIdUnderTwoKeys(trace: seq<Event>, mint: nat -> string, i: nat, n: nat)
    requires Injective(mint) && Mints(trace, mint) && i < n < |trace|
    requires trace[i].Turn? && trace[n].Turn? && trace[i].issued.Fresh? && trace[i].issued == trace[n].issued
    ensures trace[i].key == trace[n].key
  {
    assert trace[i].issued == NextIssue(trace[..i], trace[i].key, mint);
    assert trace[n].issued == NextIssue(trace[..n], trace[n].key, mint);
    SameEpochTurns(trace, i, n);
  }

  /** The last event before `n` that is not neutral is a failed fresh turn under `key`. */
  ghost predicate JustFailedFresh(trace: seq<Event>, n: nat, key: string)
    requires n <= |trace|
  {
    exists j :: && 0 <= j < n && trace[j].Turn? && trace[j].key == key && trace[j].issued.Fresh? && trace[j].outcome.Failed?
                && forall k :: j < k < n ==> trace[k].Neutral?
  }

  /** A fresh id was asked for before exactly when the last thing that happened was a
      fresh turn under the same key that failed. */
  lemma FreshIdRepeatsIff(trace: seq<Event>, mint: nat -> string, n: nat)
    requires Injective(mint) && Mints(trace, mint) && n < |trace| && trace[n].Turn? && trace[n].issued.Fresh?
    ensures (exists i :: 0 <= i < n && trace[i].Turn? && trace[i].issued == trace[n].issued)
            <==> JustFailedFresh(trace, n, trace[n].key)
  {
    assert trace[n].issued == NextIssue(trace[..n], trace[n].key, mint);
    if i :| 0 <= i < n && trace[i].Turn? && trace[i].issued == trace[n].issued {
      assert trace[i].issued == NextIssue(trace[..i], trace[i].key, mint);
      SameEpochTurns(trace, i, n);
      var j := LastMove(trace, i, n);
      NotLiveBefore(trace, mint, j, n);
    }
    if j :| && 0 <= j < n && trace[j].Turn? && trace[j].key == trace[n].key && trace[j].issued.Fresh? && trace[j].outcome.Failed?
            && forall k :: j < k < n ==> trace[k].Neutral? {
      assert trace[j].issued == NextIssue(trace[..j], trace[j].key, mint);
      CalmEpoch(trace, j, n);
    }
  }

  lemma {:induction false} LastMove(trace: seq<Event>, i: nat, n: nat) returns (j: nat)
    requires i < n <= |trace| && !trace[i].Neutral?
    ensures i <= j < n && !trace[j].Neutral? && forall k :: j < k < n ==> trace[k].Neutral?
  {
    if trace[n - 1].Neutral? { j := LastMove(trace, i, n - 1); } else { j := n - 1; }
  }

  /** Before a fresh turn the last move, if calm, was itself fresh and failed. */
  lemma NotLiveBefore(trace: seq<Event>, mint: nat -> string, j: nat, n: nat)
    requires Mints(trace, mint) && j < n < |trace| && trace[n].Turn? && trace[n].issued.Fresh?
    requires trace[j].Turn? && trace[j].key == trace[n].key && !trace[j].outcome.Cancelled?
    requires forall k :: j < k < n ==> trace[k].Neutral?
    ensures trace[j].issued.Fresh? && trace[j].outcome.Failed?
  {
    assert trace[j].issued == NextIssue(trace[..j], trace[j].key, mint);
    assert trace[n].issued == NextIssue(trace[..n], trace[n].key, mint);
    assert trace[..j + 1][..j] == trace[..j];
    if Live(trace[..j + 1]).Some? && Live(trace[..j + 1]).value.key == trace[n].key {
      LiveStays(trace, j + 1, n, trace[n].key);
    }
  }

  lemma ExtendMints(trace: seq<Event>, e: Event, mint: nat -> string)
    requires Mints(trace, mint) && (e.Turn? ==> e.issued == NextIssue(trace, e.key, mint))
    ensures Mints(trace + [e], mint)
    ensures SessionOf(trace + [e]) == AfterEvent(SessionOf(trace), e) && Live(trace + [e]) == LiveAfter(Live(trace), e)
    ensures (trace + [e])[..|trace|] == trace
  {
    var longer := trace + [e];
    forall n | 0 <= n < |longer| && longer[n].Turn?
      ensures longer[n].issued == NextIssue(longer[..n], longer[n].key, mint)
    {
      assert longer[..n] == trace[..n];
      if n == |trace| {
        assert trace[..n] == trace;
      } else {
        assert trace[n].issued == NextIssue(trace[..n], trace[n].key, mint);
      }
    }
  }

  // ---- the fields of a backend that mints its ids -------------------------------------------

  /** `minted` ids are used up; unless `started`, `id` is the last of them. */
  datatype Fields = Fields(minted: nat, id: string, key: Option<string>, started: bool)

  /** `clear_history` */
  function Renewed(f: Fields, mint: nat -> string): Fields {
    Fields(f.minted + 1, mint(f.minted), None, false)
  }

  /** A turn under another key first clears. */
  function Entering(f: Fields, key: string, mint: nat -> string): Fields {
    (if f.key.Some? && f.key != Some(key) then Renewed(f, mint) else f).(key := Some(key))
  }

  function Issue(f: Fields): Issued {
    if f.started then Resume(f.id) else Fresh(Some(f.id))
  }

  function Leaving(f: Fields, outcome: Outcome, mint: nat -> string): Fields {
    match outcome
    case Succeeded(id) => f.(id := id, started := true)
    case Failed => f
    case Cancelled => Renewed(f, mint)
  }

  predicate Agrees(f: Fields, session: Session, live: Option<Conversation>, mint: nat -> string) {
    && f.minted == session.epoch + 1 && f.key == session.key
    && (if f.started then f.key.Some? else f.id == mint(f.minted - 1))
    && live == (if f.started && f.key.Some? then Some(Conversation(f.key.value, f.id)) else None)
  }

  /** The fields are what the trace has made of them. */
  ghost predicate Reflects(f: Fields, trace: seq<Event>, mint: nat -> string) {
    Mints(trace, mint) && Agrees(f, SessionOf(trace), Live(trace), mint)
  }

  function Next(f: Fields, e: Event, mint: nat -> string): Fields {
    match e
    case Neutral => f
    case Clear => Renewed(f, mint)
    case Turn(key, _, outcome) => Leaving(Entering(f, key, mint), outcome, mint)
  }

  /** The fields after a trace. */
  function FieldsOf(trace: seq<Event>, mint: nat -> string): Fields {
    if trace == [] then Fields(1, mint(0), None, false)
    else Next(FieldsOf(trace[..|trace| - 1], mint), trace[|trace| - 1], mint)
  }

  /** Every turn was issued what the fields said at the time. */
  predicate Played(trace: seq<Event>, mint: nat -> string) {
    trace == [] ||
    var before, e := trace[..|trace| - 1], trace[|trace| - 1];
    Played(before, mint) && (e.Turn? ==> e.issued == Issue(Entering(FieldsOf(before, mint), e.key, mint)))
  }

  lemma PlayOne(trace: seq<Event>, e: Event, mint: nat -> string)
    requires Played(trace, mint) && (e.Turn? ==> e.issued == Issue(Entering(FieldsOf(trace, mint), e.key, mint)))
    ensures Played(trace + [e], mint) && FieldsOf(trace + [e], mint) == Next(FieldsOf(trace, mint), e, mint)
    ensures Echoes(trace + [e]) <==> Echoes(trace) && Echo(e)
  {
    assert (trace + [e])[..|trace|] == trace;
  }

  lemma AgreesNext(f: Fields, session: Session, live: Option<Conversation>, e: Event, mint: nat -> string)
    requires Agrees(f, session, live, mint)
    ensures Agrees(Next(f, e, mint), AfterEvent(session, e), LiveAfter(live, e), mint)
  {
  }

  lemma AgreesIssue(f: Fields, trace: seq<Event>, key: string, mint: nat -> string)
    requires Agrees(f, SessionOf(trace), Live(trace), mint)
    ensures Issue(Entering(f, key, mint)) == NextIssue(trace, key, mint)
  {
  }

  lemma ReflectsNext(f: Fields, trace: seq<Event>, e: Event, mint: nat -> string)
    requires Reflects(f, trace, mint) && (e.Turn? ==> e.issued == Issue(Entering(f, e.key, mint)))
    ensures Reflects(Next(f, e, mint), trace + [e], mint)
  {
    if e.Turn? { AgreesIssue(f, trace, e.key, mint); }
    ExtendMints(trace, e, mint);
    AgreesNext(f, SessionOf(trace), Live(trace), e, mint);
  }

  /** The fields of a backend refine the abstract machine: what they issue is what the
      trace makes due, and a fresh id is the one minted for its epoch. */
  lemma {:induction false} PlayedReflects(trace: seq<Event>, mint: nat -> string)
    requires Played(trace, mint)
    ensures Reflects(FieldsOf(trace, mint), trace, mint)
  {
    if trace != [] {
      var before, e := trace[..|trace| - 1], trace[|trace| - 1];
      PlayedReflects(before, mint);
      ReflectsNext(FieldsOf(before, mint), before, e, mint);
      assert before + [e] == trace;
    }
  }

  lemma PlayedIssues(trace: seq<Event>, key: string, mint: nat -> string)
    requires Played(trace, mint)
    ensures Issue(Entering(FieldsOf(trace, mint), key, mint)) == NextIssue(trace, key, mint)
  {
    PlayedReflects(trace, mint);
    AgreesIssue(FieldsOf(trace, mint), trace, key, mint);
  }

  // ---- what a runner reports -----------------------------------------------------------

  datatype RunnerResult =
    | TransportFault           // the runner refused to start
    | OtherFault               // any other exception, or no result
    | Exit(stdout: string, stderr: string, rc: int)

  datatype ChatError =
    | NotConnected | NotText | CannotStart | CannotRun | TimedOut | AuthRejected | ExitStatus(rc: int) | BadReply
    | Interrupted | CallbackRaised

  /** A reply and the id the upstream reported with it. */
  datatype Parsed = Parsed(text: string, id: string)

  /** How Claude and Codex read a runner result. */
  function Judge(result: RunnerResult, looksAuth: string -> bool, parse: string -> Result<Parsed, ChatError>): Result<Parsed, ChatError> {
    match result
    case TransportFault => Err(CannotStart)
    case OtherFault => Err(CannotRun)
    case Exit(stdout, stderr, rc) =>
      if rc == 124 then Err(TimedOut)
      else if rc != 0 then
        if looksAuth(stdout) || looksAuth(stderr) then Err(AuthRejected)
        else if rc == 255 then Err(CannotRun)
        else Err(ExitStatus(rc))
      else parse(stdout)
  }

  /** A clean exit is read by the parser; a time-out comes first, then a rejection that
      either stream shows, then a runner that could not run, then any other status. */
  lemma JudgeMeaning(result: RunnerResult, looksAuth: string -> bool, parse: string -> Result<Parsed, ChatError>)
    ensures var r := Judge(result, looksAuth, parse);
            && (result.TransportFault? ==> r == Err(CannotStart))
            && (result.OtherFault? ==> r == Err(CannotRun))
            && (result.Exit? && result.rc == 0 ==> r == parse(result.stdout))
            && (result.Exit? && result.rc == 124 ==> r == Err(TimedOut))
            && (result.Exit? && result.rc !in {0, 124} && (looksAuth(result.stdout) || looksAuth(result.stderr))
                ==> r == Err(AuthRejected))
            && (result.Exit? && result.rc !in {0, 124} && !looksAuth(result.stdout) && !looksAuth(result.stderr)
                ==> r == Err(if result.rc == 255 then CannotRun else ExitStatus(result.rc)))
  {
  }

  /** The reply goes to the caller's callback last, when the session has already moved
      on: a callback that raises fails the call but not the turn. */
  function Delivered(text: string, refused: bool): Result<string, ChatError> {
    if refused && text != "" then Err(CallbackRaised) else Ok(text)
  }

  // ---- Claude -----------------------------------------------------------------------------

  function ClaudeArgv(issued: Issued): seq<string>
    requires issued.Fresh? ==> issued.asked.Some?
  {
    ["--print", "--output-format", "json"] +
    match issued
    case Resume(id) => ["--resume", id]
    case Fresh(asked) => ["--session-id", asked.value]
  }

  /** In the words of the command line: the turn resumes exactly the conversation that the
      trace sustains, and with none it asks for `minted`. */
  ghost predicate ClaudeAsks(argv: seq<string>, trace: seq<Event>, key: string, minted: string) {
    && (forall id :: argv == ["--print", "--output-format", "json", "--resume", id] <==> Resumable(trace, key, id))
    && ((forall id :: !Resumable(trace, key, id)) ==>
        argv == ["--print", "--output-format", "json", "--session-id", minted])
  }

  lemma ClaudeArgvIs(id: string, issued: Issued)
    requires issued == Resume(id) || issued == Fresh(Some(id))
    ensures ClaudeArgv(issued) == ["--print", "--output-format", "json", if issued.Resume? then "--resume" else "--session-id", id]
    ensures "--resume" != "--session-id"
  {
    assert |"--resume"| == 8 && |"--session-id"| == 12;
  }

  lemma DueMeaning(trace: seq<Event>, key: string)
    ensures forall id :: Resumable(trace, key, id) <==> Due(Live(trace), key) == Some(id)
  {
    forall id ensures Resumable(trace, key, id) <==> Due(Live(trace), key) == Some(id) {
      LiveMeaning(trace, key, id);
    }
  }

  lemma ClaudeArgvMeaning(trace: seq<Event>, key: string, mint: nat -> string, argv: seq<string>)
    requires argv == ClaudeArgv(NextIssue(trace, key, mint))
    ensures ClaudeAsks(argv, trace, key, mint(Entered(SessionOf(trace), key).epoch))
  {
    DueMeaning(trace, key);
    var issued := NextIssue(trace, key, mint);
    ClaudeArgvIs(if issued.Resume? then issued.id else issued.asked.value, issued);
    if issued.Resume? { assert Resumable(trace, key, issued.id); }
    forall id ensures argv == ["--print", "--output-format", "json", "--resume", id] <==> Resumable(trace, key, id) {
      assert ["--print", "--output-format", "json", "--resume", id][3..] == ["--resume", id];
    }
  }

  class ClaudeBackend {
    const mint: nat -> string            // session_id_factory
    var minted: nat
    var sessionId: string
    var sessionKey: Option<string>
    var started: bool
    var connected: bool
    ghost var trace: seq<Event>

    function Now(): Fields
      reads this
    {
      Fields(minted, sessionId, sessionKey, started)
    }

    ghost predicate Valid()
      reads this
    {
      Now() == FieldsOf(trace, mint) && Played(trace, mint)
    }

    constructor (mint: nat -> string)
      ensures Valid() && trace == [] && !connected && this.mint == mint
    {
      this.mint := mint;
      minted, sessionId, sessionKey, started, connected, trace := 1, mint(0), None, false, false, [];
    }

    method Connect()
      requires Valid()
      modifies this
      ensures Valid() && connected && trace == old(trace) + [Neutral]
    {
      PlayOne(trace, Neutral, mint);
      connected, trace := true, trace + [Neutral];
    }

    method Close()
      requires Valid()
      modifies this
      ensures Valid() && !connected && trace == old(trace) + [Neutral]
    {
      PlayOne(trace, Neutral, mint);
      connected, trace := false, trace + [Neutral];
    }

    method ClearHistory()
      requires Valid()
      modifies this
      ensures Valid() && trace == old(trace) + [Clear] && connected == old(connected)
      ensures !started && sessionKey.None? && sessionId == mint(old(minted)) && minted == old(minted) + 1
    {
      PlayOne(trace, Clear, mint);
      sessionId, minted, started, sessionKey := mint(minted), minted + 1, false, None;
      trace := trace + [Clear];
    }

    /** `_argv_for_turn`: a changed key first drops the old session. */
    method ArgvForTurn(key: string) returns (argv: seq<string>)
      requires Valid()
      modifies this`sessionId, this`minted, this`started, this`sessionKey
      ensures Now() == Entering(old(Now()), key, mint) && Issue(Now()) == NextIssue(trace, key, mint)
      ensures ClaudeAsks(argv, trace, key, mint(Entered(SessionOf(trace), key).epoch))
      ensures sessionKey == Some(key)
      ensures if old(sessionKey) in {None, Some(key)}
              then sessionId == old(sessionId) && started == old(started) && minted == old(minted)
              else sessionId == mint(old(minted)) && !started && minted == old(minted) + 1
      ensures argv == ["--print", "--output-format", "json"]
                      + (if started then ["--resume", sessionId] else ["--session-id", sessionId])
    {
      PlayedIssues(trace, key, mint);
      if sessionKey.Some? && Some(key) != sessionKey {
        sessionId, minted, started, sessionKey := mint(minted), minted + 1, false, None;
      }
      sessionKey := Some(key);
      argv := ["--print", "--output-format", "json"];
      if started { argv := argv + ["--resume", sessionId]; } else { argv := argv + ["--session-id", sessionId]; }
      ClaudeArgvMeaning(trace, key, mint, argv);
    }

    /** One turn.  What is sent is what the trace so far makes due, id included. */
    method SendMessage(message: Option<string>, key: string, cancelled: bool, refused: bool, result: RunnerResult,
                       looksAuth: string -> bool, parse: string -> Result<Parsed, ChatError>)
      returns (argv: seq<string>, r: Result<string, ChatError>)
      requires Valid()
      modifies this
      ensures Valid()
      ensures !old(connected) || message.None? ==>
                && argv == [] && trace == old(trace) + [Neutral] && connected == old(connected)
                && r == Err(if !old(connected) then NotConnected else NotText)
      ensures old(connected) && message.Some? ==>
                var issued := NextIssue(old(trace), key, mint);
                var verdict := Judge(result, looksAuth, parse);
                && trace == old(trace) + [Turn(key, issued,
                     if cancelled then Cancelled else if verdict.Ok? then Succeeded(verdict.value.id) else Failed)]
                && ClaudeAsks(argv, old(trace), key, mint(Entered(SessionOf(old(trace)), key).epoch))
                && r == (if cancelled then Err(Interrupted)
                         else match verdict case Err(e) => Err(e) case Ok(p) => Delivered(p.text, refused))
                && connected == !cancelled
    {
      argv := [];
      if !connected || message.None? {
        PlayOne(trace, Neutral, mint);
        trace := trace + [Neutral];
        return argv, Err(if !connected then NotConnected else NotText);
      }
      ghost var before, issued := trace, NextIssue(trace, key, mint);
      argv := ArgvForTurn(key);
      if cancelled {
        PlayOne(before, Turn(key, issued, Cancelled), mint);
        sessionId, minted, started, sessionKey := mint(minted), minted + 1, false, None;
        connected := false;
        trace := before + [Turn(key, issued, Cancelled)];
        return argv, Err(Interrupted);
      }
      var verdict := Judge(result, looksAuth, parse);
      if verdict.Err? {
        PlayOne(before, Turn(key, issued, Failed), mint);
        trace := before + [Turn(key, issued, Failed)];
        return argv, Err(verdict.error);
      }
      PlayOne(before, Turn(key, issued, Succeeded(verdict.value.id)), mint);
      sessionId := verdict.value.id;
      started := true;
      trace := before + [Turn(key, issued, Succeeded(sessionId))];
      return argv, Delivered(verdict.value.text, refused);
    }
  }

  /** The id that a cancelled first turn must not use again is used again after a first
      turn that only failed. */
  method RetryAsksAgain(mint: nat -> string, key: string, message: string, looksAuth: string -> bool,
                        parse: string -> Result<Parsed, ChatError>)
    returns (first: seq<string>, second: seq<string>)
    ensures first == second == ["--print", "--output-format", "json", "--session-id", mint(0)]
  {
    var backend := new ClaudeBackend(mint);
    var r;
    backend.Connect();
    PlayedIssues(backend.trace, key, mint);
    first, r := backend.SendMessage(Some(message), key, false, false, Exit("", "", 124), looksAuth, parse);
    PlayedIssues(backend.trace, key, mint);
    second, r := backend.SendMessage(Some(message), key, false, false, Exit("", "", 124), looksAuth, parse);
  }

  // ---- Codex ------------------------------------------------------------------------------

  function CodexArgv(issued: Issued): seq<string> {
    match issued
    case Resume(id) => ["exec", "resume", "--json", "--skip-git-repo-check", id, "-"]
    case Fresh(_) => ["exec", "--json", "--skip-git-repo-check", "-"]
  }

  /** As for Claude, but with no conversation sustained the upstream chooses the id. */
  ghost predicate CodexAsks(argv: seq<string>, trace: seq<Event>, key: string) {
    && (forall id :: argv == ["exec", "resume", "--json", "--skip-git-repo-check", id, "-"] <==> Resumable(trace, key, id))
    && ((forall id :: !Resumable(trace, key, id)) ==> argv == ["exec", "--json", "--skip-git-repo-check", "-"])
  }

  lemma CodexArgvMeaning(trace: seq<Event>, key: string, argv: seq<string>)
    requires argv == CodexArgv(NextNative(trace, key))
    ensures CodexAsks(argv, trace, key)
  {
    DueMeaning(trace, key);
    forall id
      ensures argv == ["exec", "resume", "--json", "--skip-git-repo-check", id, "-"] <==> Resumable(trace, key, id)
    {
      assert ["exec", "resume", "--json", "--skip-git-repo-check", id, "-"][4] == id;
    }
  }

  /** The recogniser, as a parser of a whole stdout. */
  function CodexParse(split: string -> seq<string>, decode: string -> CodexStream.Line, stdout: string)
    : Result<Parsed, ChatError>
  {
    match CodexStream.Recognise(split(stdout), decode)
    case Ok(reply) => Ok(Parsed(reply.text, reply.threadId))
    case Err(_) => Err(BadReply)
  }

  function CodexVerdict(result: RunnerResult, looksAuth: string -> bool, split: string -> seq<string>,
                        decode: string -> CodexStream.Line): Result<Parsed, ChatError>
  {
    Judge(result, looksAuth, stdout => CodexParse(split, decode, stdout))
  }

  /** A reply is exactly a clean exit whose output the recogniser accepts, and the id it
      reports is not empty. */
  lemma CodexVerdictMeaning(result: RunnerResult, looksAuth: string -> bool, split: string -> seq<string>,
                            decode: string -> CodexStream.Line, text: string, id: string)
    ensures CodexVerdict(result, looksAuth, split, decode) == Ok(Parsed(text, id)) <==>
              result.Exit? && result.rc == 0
              && CodexStream.Recognise(split(result.stdout), decode) == Ok(CodexStream.Reply(text, id))
    ensures CodexVerdict(result, looksAuth, split, decode) == Ok(Parsed(text, id)) ==> id != ""
  {
    if CodexVerdict(result, looksAuth, split, decode) == Ok(Parsed(text, id)) { CodexStream.AcceptedIdIsUsable(split(result.stdout), decode); }
  }

  lemma CodexIdIsUsable(result: RunnerResult, looksAuth: string -> bool, split: string -> seq<string>,
                        decode: string -> CodexStream.Line)
    requires CodexVerdict(result, looksAuth, split, decode).Ok?
    ensures CodexVerdict(result, looksAuth, split, decode).value.id != ""
  {
    var reply := CodexVerdict(result, looksAuth, split, decode).value;
    CodexVerdictMeaning(result, looksAuth, split, decode, reply.text, reply.id);
  }

  /** Codex leaves the choice of an id to the upstream. */
  function NextNative(trace: seq<Event>, key: string): Issued {
    match Due(Live(trace), key) case Some(id) => Resume(id) case None => Fresh(None)
  }

  /** Every turn was issued what was due, or left to the upstream. */
  predicate PlayedNative(trace: seq<Event>) {
    trace == [] ||
    var before, e := trace[..|trace| - 1], trace[|trace| - 1];
    PlayedNative(before) && (e.Turn? ==> e.issued == NextNative(before, e.key))
  }

  /** So the turns of a Codex backend are those of the abstract machine. */
  lemma {:induction false} NativeIsLegal(trace: seq<Event>)
    requires PlayedNative(trace)
    ensures Legal(trace)
  {
    if trace != [] {
      var before, e := trace[..|trace| - 1], trace[|trace| - 1];
      NativeIsLegal(before);
      Extend(before, e);
      assert before + [e] == trace;
    }
  }

  lemma ExtendNeutral(trace: seq<Event>, e: Event)
    requires PlayedNative(trace) && !e.Turn?
    ensures PlayedNative(trace + [e])
    ensures Live(trace + [e]) == if e.Clear? then None else Live(trace)
  {
    assert (trace + [e])[..|trace|] == trace;
  }

  lemma ExtendNative(trace: seq<Event>, key: string, outcome: Outcome)
    requires PlayedNative(trace)
    ensures var longer := trace + [Turn(key, NextNative(trace, key), outcome)];
            && PlayedNative(longer)
            && (outcome.Succeeded? ==> Live(longer) == Some(Conversation(key, outcome.id)))
            && (outcome.Cancelled? ==> Live(longer) == None)
            && (outcome.Failed? ==> Live(longer) == if Due(Live(trace), key).Some? then Live(trace) else None)
  {
    var longer := trace + [Turn(key, NextNative(trace, key), outcome)];
    assert longer[..|trace|] == trace;
  }

  class CodexBackend {
    var threadId: Option<string>
    var sessionKey: Option<string>
    var started: bool
    var connected: bool
    ghost var trace: seq<Event>

    ghost predicate Valid()
      reads this
    {
      && PlayedNative(trace)
      && (started ==> sessionKey.Some? && threadId.Some? && threadId.value != "")
      && Live(trace) == (if started && sessionKey.Some? && threadId.Some?
                         then Some(Conversation(sessionKey.value, threadId.value)) else None)
    }

    constructor ()
      ensures Valid() && trace == [] && !connected
    {
      threadId, sessionKey, started, connected, trace := None, None, false, false, [];
    }

    method ClearHistory()
      requires Valid()
      modifies this
      ensures Valid() && trace == old(trace) + [Clear] && connected == old(connected)
    {
      ExtendNeutral(trace, Clear);
      threadId, started, sessionKey := None, false, None;
      trace := trace + [Clear];
    }

    method Connect()
      requires Valid()
      modifies this
      ensures Valid() && connected && trace == old(trace) + [Neutral]
    {
      ExtendNeutral(trace, Neutral);
      connected, trace := true, trace + [Neutral];
    }

    method Close()
      requires Valid()
      modifies this
      ensures Valid() && !connected && trace == old(trace) + [Neutral]
    {
      ExtendNeutral(trace, Neutral);
      connected, trace := false, trace + [Neutral];
    }

    method ArgvForTurn(key: string) returns (argv: seq<string>)
      requires Valid()
      modifies this`threadId, this`started, this`sessionKey
      ensures sessionKey == Some(key)
      ensures started == (old(started) && old(sessionKey) == Some(key))
      ensures threadId == (if old(sessionKey) in {None, Some(key)} then old(threadId) else None)
      ensures CodexAsks(argv, trace, key)
    {
      if sessionKey.Some? && Some(key) != sessionKey {
        threadId, started, sessionKey := None, false, None;
      }
      sessionKey := Some(key);
      if started && threadId.Some? && threadId.value != "" {
        argv := ["exec", "resume", "--json", "--skip-git-repo-check", threadId.value, "-"];
      } else {
        argv := ["exec", "--json", "--skip-git-repo-check", "-"];
      }
      CodexArgvMeaning(trace, key, argv);
    }

    method SendMessage(message: Option<string>, key: string, cancelled: bool, refused: bool, result: RunnerResult,
                       looksAuth: string -> bool, split: string -> seq<string>, decode: string -> CodexStream.Line)
      returns (argv: seq<string>, r: Result<string, ChatError>)
      requires Valid()
      modifies this
      ensures Valid()
      ensures !old(connected) || message.None? ==>
                && argv == [] && trace == old(trace) + [Neutral] && connected == old(connected)
                && r == Err(if !old(connected) then NotConnected else NotText)
      ensures old(connected) && message.Some? ==>
                var issued := NextNative(old(trace), key);
                var verdict := CodexVerdict(result, looksAuth, split, decode);
                && trace == old(trace) + [Turn(key, issued,
                     if cancelled then Cancelled else if verdict.Ok? then Succeeded(verdict.value.id) else Failed)]
                && CodexAsks(argv, old(trace), key)
                && r == (if cancelled then Err(Interrupted)
                         else match verdict case Err(e) => Err(e) case Ok(p) => Delivered(p.text, refused))
                && connected == !cancelled
    {
      argv := [];
      if !connected || message.None? {
        ExtendNeutral(trace, Neutral);
        trace := trace + [Neutral];
        return argv, Err(if !connected then NotConnected else NotText);
      }
      ghost var before := trace;
      ghost var issued := NextNative(trace, key);
      argv := ArgvForTurn(key);
      if cancelled {
        ExtendNative(before, key, Cancelled);
        threadId, started, sessionKey, connected := None, false, None, false;
        trace := before + [Turn(key, issued, Cancelled)];
        return argv, Err(Interrupted);
      }
      var verdict := CodexVerdict(result, looksAuth, split, decode);
      if verdict.Err? {
        ExtendNative(before, key, Failed);
        trace := before + [Turn(key, issued, Failed)];
        return argv, Err(verdict.error);
      }
      CodexIdIsUsable(result, looksAuth, split, decode);
      threadId := Some(verdict.value.id);
      started := true;
      ExtendNative(before, key, Succeeded(verdict.value.id));
      trace := before + [Turn(key, issued, Succeeded(verdict.value.id))];
      return argv, Delivered(verdict.value.text, refused);
    }
  }

  // ---- Pi -----------------------------------------------------------------------------------

  /** What the worker thread of a Pi turn left behind. */
  datatype PiResult = Unauthorised | NoResult | PiExit(stdout: string, stderr: string, rc: int)

  function PiJudge(result: PiResult, looksAuth: string -> bool): Result<string, ChatError> {
    match result
    case Unauthorised => Err(AuthRejected)
    case NoResult => Err(CannotRun)
    case PiExit(stdout, stderr, rc) =>
      if rc == 124 then Err(TimedOut)
      else if rc != 0 then
        if looksAuth(stdout) || looksAuth(stderr) then Err(AuthRejected)
        else if rc == 255 then Err(CannotRun)
        else Err(ExitStatus(rc))
      else if Strip(Sanitize(stdout)) == "" then Err(BadReply)
      else Ok(Strip(Sanitize(stdout)))
  }

  /** A reply is exactly a clean exit whose output, without its forbidden characters and
      then stripped, is not empty. */
  lemma PiJudgeMeaning(result: PiResult, looksAuth: string -> bool, text: string)
    ensures PiJudge(result, looksAuth) == Ok(text) <==>
              result.PiExit? && result.rc == 0 && text == Strip(Sanitize(result.stdout)) && text != ""
    ensures result.PiExit? && result.rc == 0 && Strip(Sanitize(result.stdout)) == "" ==>
              PiJudge(result, looksAuth) == Err(BadReply)
    ensures result.PiExit? && result.rc != 0 ==>
              PiJudge(result, looksAuth)
              == Err(if result.rc == 124 then TimedOut
                     else if looksAuth(result.stdout) || looksAuth(result.stderr) then AuthRejected
                     else if result.rc == 255 then CannotRun else ExitStatus(result.rc))
    ensures result.Unauthorised? ==> PiJudge(result, looksAuth) == Err(AuthRejected)
    ensures result.NoResult? ==> PiJudge(result, looksAuth) == Err(CannotRun)
  {
  }

  lemma IssueMeaning(trace: seq<Event>, key: string, mint: nat -> string, id: string)
    ensures NextIssue(trace, key, mint) == Resume(id) <==> Resumable(trace, key, id)
    ensures NextIssue(trace, key, mint).Fresh? ==> !Resumable(trace, key, id)
  {
    LiveMeaning(trace, key, id);
  }

  class PiBackend {
    const mint: nat -> string
    var minted: nat
    var sessionId: string
    var sessionKey: Option<string>
    var started: bool
    var connected: bool
    ghost var trace: seq<Event>

    function Now(): Fields
      reads this
    {
      Fields(minted, sessionId, sessionKey, started)
    }

    ghost predicate Valid()
      reads this
    {
      Now() == FieldsOf(trace, mint) && Played(trace, mint) && Echoes(trace)
    }

    constructor (mint: nat -> string)
      ensures Valid() && trace == [] && !connected && this.mint == mint
    {
      this.mint := mint;
      minted, sessionId, sessionKey, started, connected, trace := 1, mint(0), None, false, false, [];
    }

    method ClearHistory()
      requires Valid()
      modifies this
      ensures Valid() && trace == old(trace) + [Clear] && connected == old(connected)
      ensures !started && sessionKey.None? && sessionId == mint(old(minted)) && minted == old(minted) + 1
    {
      PlayOne(trace, Clear, mint);
      sessionId, minted, sessionKey, started := mint(minted), minted + 1, None, false;
      trace := trace + [Clear];
    }

    method Connect()
      requires Valid()
      modifies this
      ensures Valid() && connected && trace == old(trace) + [Neutral]
    {
      PlayOne(trace, Neutral, mint);
      connected, trace := true, trace + [Neutral];
    }

    method Close()
      requires Valid()
      modifies this
      ensures Valid() && !connected && trace == old(trace) + [Neutral]
    {
      PlayOne(trace, Neutral, mint);
      connected, trace := false, trace + [Neutral];
    }

    method EnterSession(key: string)
      modifies this`sessionId, this`minted, this`started, this`sessionKey
      ensures Now() == Entering(old(Now()), key, mint)
    {
      if sessionKey.Some? && sessionKey != Some(key) {
        sessionId, minted, sessionKey, started := mint(minted), minted + 1, None, false;
      }
      sessionKey := Some(key);
    }

    /** Pi keeps the id this backend minted, so a success continues the id it was sent.
        `resume` and `sent` are what the fixed argv is built from; building it may fail,
        which fails the turn. */
    method SendMessage(message: Option<string>, key: string, argvBuilds: bool, cancelled: bool, refused: bool, result: PiResult,
                       looksAuth: string -> bool)
      returns (sent: string, resume: bool, r: Result<string, ChatError>)
      requires Valid()
      modifies this
      ensures Valid()
      ensures !old(connected) || message.None? ==>
                && trace == old(trace) + [Neutral] && connected == old(connected)
                && r == Err(if !old(connected) then NotConnected else NotText)
      ensures old(connected) && message.Some? ==>
                var issued := NextIssue(old(trace), key, mint);
                var verdict := if argvBuilds then PiJudge(result, looksAuth) else Err(BadReply);
                && issued == (if resume then Resume(sent) else Fresh(Some(sent)))
                && (resume ==> Resumable(old(trace), key, sent))
                && (!resume ==> forall id :: !Resumable(old(trace), key, id))
                && trace == old(trace) + [Turn(key, issued,
                     if argvBuilds && cancelled then Cancelled else if verdict.Ok? then Succeeded(sent) else Failed)]
                && r == (if argvBuilds && cancelled then Err(Interrupted)
                         else match verdict case Err(e) => Err(e) case Ok(text) => Delivered(text, refused))
                && connected == !(argvBuilds && cancelled)
    {
      sent, resume := "", false;
      if !connected || message.None? {
        PlayOne(trace, Neutral, mint);
        trace := trace + [Neutral];
        return sent, resume, Err(if !connected then NotConnected else NotText);
      }
      ghost var before, issued := trace, NextIssue(trace, key, mint);
      PlayedIssues(before, key, mint);
      EnterSession(key);
      sent, resume := sessionId, started;
      forall id ensures (issued == Resume(id) <==> Resumable(before, key, id)) && (issued.Fresh? ==> !Resumable(before, key, id)) {
        IssueMeaning(before, key, mint, id);
      }
      if !argvBuilds {
        PlayOne(before, Turn(key, issued, Failed), mint);
        trace := before + [Turn(key, issued, Failed)];
        return sent, resume, Err(BadReply);
      }
      if cancelled {
        PlayOne(before, Turn(key, issued, Cancelled), mint);
        sessionId, minted, sessionKey, started := mint(minted), minted + 1, None, false;
        connected := false;
        trace := before + [Turn(key, issued, Cancelled)];
        return sent, resume, Err(Interrupted);
      }
      r := PiJudge(result, looksAuth);
      if r.Err? {
        PlayOne(before, Turn(key, issued, Failed), mint);
        trace := before + [Turn(key, issued, Failed)];
        return;
      }
      PlayOne(before, Turn(key, issued, Succeeded(sent)), mint);
      started := true;
      trace := before + [Turn(key, issued, Succeeded(sent))];
      r := Delivered(r.value, refused);
    }
  }

  /** Two turns of one Pi backend under different keys never use one session directory. */
  lemma PiKeysNeverShare(backend: PiBackend, i: nat, n: nat)
    requires backend.Valid() && Injective(backend.mint) && i < n < |backend.trace|
    requires backend.trace[i].Turn? && backend.trace[n].Turn? && backend.trace[i].key != backend.trace[n].key
    ensures SentId(backend.trace[i]) != SentId(backend.trace[n])
  {
    PlayedReflects(backend.trace, backend.mint);
    NoIdUnderTwoKeys(backend.trace, backend.mint, i, n);
  }
}
