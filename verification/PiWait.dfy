/** A cancellable remote Pi run: how long its caller waits for the runner thread, and
    who removes the run's private work directory. */
module PiWait {
  import opened Prelude

  // ---- the wait loop ------------------------------------------------------------------

  const GRACE: real := 30.0             // added to the caller's timeout
  const CANCEL_CLEANUP: real := 1.0
  const JOIN: real := 0.05              // one bounded join of the runner thread

  /** What pass `i` of the loop sees: whether the thread is alive at its head, the clock
      after the join, and whether the cancel event is set when it is then looked at. */
  datatype Env = Env(alive: nat -> bool, now: nat -> real, cancelled: nat -> bool)

  /** The reading before pass `i`. */
  function Before(env: Env, start: real, i: nat): real {
    if i == 0 then start else env.now(i - 1)
  }

  /** A pass takes at most `poll`; the join of a thread that stays alive takes its whole
      timeout, and a dead thread stays dead. */
  predicate Pass(env: Env, start: real, poll: real, i: nat) {
    && Before(env, start, i) <= env.now(i) <= Before(env, start, i) + poll
    && (env.alive(i + 1) ==> env.alive(i) && Before(env, start, i) + JOIN <= env.now(i))
  }

  ghost predicate Timely(env: Env, start: real, poll: real) {
    forall i: nat {:trigger Pass(env, start, poll, i)} :: Pass(env, start, poll, i)
  }

  function Deadline(start: real, timeout: real): real {
    start + timeout + GRACE
  }

  /** Pass `i` finds its deadline behind it, or a cancellation seen long enough ago. */
  ghost predicate Expired(env: Env, deadline: real, i: nat) {
    env.now(i) >= deadline || exists k: nat :: k <= i && env.cancelled(k) && env.now(k) + CANCEL_CLEANUP <= env.now(i)
  }

  /** Pass `n` is the first to find the thread dead or the wait expired. */
  ghost predicate LeavesAt(env: Env, deadline: real, n: nat) {
    && (!env.alive(n) || Expired(env, deadline, n))
    && forall j: nat :: j < n ==> env.alive(j) && !Expired(env, deadline, j)
  }

  lemma {:induction false} ClockAdvances(env: Env, start: real, poll: real, i: nat, j: nat)
    requires Timely(env, start, poll) && i <= j
    ensures env.now(i) <= env.now(j)
    decreases j
  {
    if i < j {
      ClockAdvances(env, start, poll, i, j - 1);
      assert Pass(env, start, poll, j);
    }
  }

  /** A live thread at pass `i` has cost `i` whole joins. */
  lemma {:induction false} JoinsCost(env: Env, start: real, poll: real, i: nat)
    requires Timely(env, start, poll) && env.alive(i)
    ensures start + i as real * JOIN <= Before(env, start, i)
    ensures forall j: nat :: j <= i ==> env.alive(j)
  {
    if i > 0 {
      assert Pass(env, start, poll, i - 1);
      JoinsCost(env, start, poll, i - 1);
      assert i as real * JOIN == (i - 1) as real * JOIN + JOIN;
    }
  }

  /** The first observed cancellation is the one whose grace runs out first. */
  lemma FirstSeenDecides(env: Env, start: real, poll: real, deadline: real, first: nat, i: nat)
    requires Timely(env, start, poll) && first <= i && env.cancelled(first)
    requires forall j: nat :: j < first ==> !env.cancelled(j)
    ensures Expired(env, deadline, i) <==> env.now(i) >= deadline || env.now(first) + CANCEL_CLEANUP <= env.now(i)
  {
    forall k: nat | k <= i && env.cancelled(k) ensures env.now(first) <= env.now(k) {
      ClockAdvances(env, start, poll, first, k);
    }
  }

  /** The loop always ends, at exactly the first pass that finds the thread dead or the
      wait expired, and gives up exactly when the thread was still alive there. */
  method Wait(env: Env, start: real, timeout: real, ghost poll: real) returns (n: nat, gaveUp: bool)
    requires Timely(env, start, poll) && 0.0 <= timeout
    ensures LeavesAt(env, Deadline(start, timeout), n)
    ensures gaveUp <==> env.alive(n)
    ensures n as real * JOIN <= timeout + GRACE + JOIN
  {
    var deadline := start + timeout + GRACE;
    var cancelDeadline: Option<real> := None;
    ghost var first: nat := 0;
    n, gaveUp := 0, false;
    while env.alive(n)
      invariant forall j: nat :: j < n ==> env.alive(j) && !Expired(env, deadline, j)
      invariant forall j: nat :: j < first ==> !env.cancelled(j)
      invariant match cancelDeadline
                case None => first == n
                case Some(d) => first < n && env.cancelled(first) && d == env.now(first) + CANCEL_CLEANUP
      invariant n > 0 ==> start + (n - 1) as real * JOIN <= env.now(n - 1) < deadline
      decreases (20.0 * (timeout + GRACE)).Floor + 2 - n
    {
      JoinsCost(env, start, poll, n);
      assert Pass(env, start, poll, n);
      var now := env.now(n);
      if env.cancelled(n) && cancelDeadline.None? {
        cancelDeadline := Some(now + CANCEL_CLEANUP);
      }
      if env.cancelled(first) {
        FirstSeenDecides(env, start, poll, deadline, first, n);
      }
      if now >= deadline || (cancelDeadline.Some? && now >= cancelDeadline.value) {
        return n, true;
      }
      if cancelDeadline.None? {
        first := n + 1;
      }
      n := n + 1;
    }
  }

  // ---- how late it can leave ------------------------------------------------------------

  /** The last reading taken by a loop that leaves at pass `n`. */
  function LastReading(env: Env, start: real, n: nat): real {
    if env.alive(n) then env.now(n) else Before(env, start, n)
  }

  /** One pass after the earlier of the deadline and the grace counted from any pass
      that saw the cancellation, the loop has left. */
  lemma LeavesInTime(env: Env, start: real, timeout: real, poll: real, n: nat)
    requires Timely(env, start, poll) && 0.0 <= timeout && 0.0 <= poll
    requires LeavesAt(env, Deadline(start, timeout), n)
    ensures LastReading(env, start, n) <= Deadline(start, timeout) + poll
    ensures forall k: nat :: k <= n && env.cancelled(k) ==> LastReading(env, start, n) <= env.now(k) + CANCEL_CLEANUP + poll
  {
    assert Pass(env, start, poll, n);
    if n > 0 {
      assert !Expired(env, Deadline(start, timeout), n - 1);
    }
    forall k: nat | k <= n && env.cancelled(k)
      ensures LastReading(env, start, n) <= env.now(k) + CANCEL_CLEANUP + poll
    {
      if k < n {
        assert !Expired(env, Deadline(start, timeout), n - 1);
        assert k <= n - 1 && env.cancelled(k);
      }
    }
  }

  /** `at` is when the cancel event was really set: the passes that look at it later see
      it.  A pass looks after its own reading and before the next one. */
  ghost predicate CancelledAt(env: Env, look: nat -> real, at: real) {
    forall i: nat {:trigger env.cancelled(i)} ::
      env.now(i) <= look(i) && (env.cancelled(i) <==> at <= look(i))
  }

  /** Counted from the real cancellation the loop has left after the grace and two
      passes: one to notice it, one to notice the grace is over. */
  lemma LeavesAfterRealCancel(env: Env, start: real, timeout: real, poll: real, look: nat -> real, at: real, n: nat)
    requires Timely(env, start, poll) && 0.0 <= timeout && 0.0 <= poll && start <= at
    requires LeavesAt(env, Deadline(start, timeout), n) && CancelledAt(env, look, at)
    ensures LastReading(env, start, n) <= at + CANCEL_CLEANUP + 2.0 * poll
  {
    LeavesInTime(env, start, timeout, poll, n);
    assert Pass(env, start, poll, n);
    if env.cancelled(n) {
      var k := FirstSeen(env, n);
      assert Pass(env, start, poll, k);
      if k > 0 { assert !env.cancelled(k - 1); }
    } else {
      assert at > look(n);
    }
  }

  lemma {:induction false} FirstSeen(env: Env, n: nat) returns (k: nat)
    requires env.cancelled(n)
    ensures k <= n && env.cancelled(k) && forall j: nat :: j < k ==> !env.cancelled(j)
  {
    if j: nat :| j < n && env.cancelled(j) {
      k := FirstSeen(env, j);
    } else {
      k := n;
    }
  }

  /** Both passes are needed: a cancellation missed by a pass is left later than the
      grace and one pass. */
  lemma OnePassIsNotEnough() returns (env: Env, look: nat -> real, at: real, poll: real, n: nat)
    ensures Timely(env, 0.0, poll) && CancelledAt(env, look, at) && 0.0 <= at
    ensures LeavesAt(env, Deadline(0.0, 10.0), n)
    ensures LastReading(env, 0.0, n) > at + CANCEL_CLEANUP + poll
  {
    env := Env(i => true, i => (i + 1) as real * 0.06, i => i >= 1);
    look := i => (i + 1) as real * 0.06 + 0.001;
    at, poll, n := 0.062, 0.06, 18;
    forall i: nat ensures Pass(env, 0.0, poll, i) {
      assert Before(env, 0.0, i) == i as real * 0.06;
    }
    assert env.cancelled(1) && env.now(1) + CANCEL_CLEANUP <= env.now(18);
    forall j: nat | j < 18 ensures !Expired(env, Deadline(0.0, 10.0), j) {
      assert env.now(j) <= 18.0 * 0.06;
    }
  }

  // ---- who removes the work directory -----------------------------------------------------

  datatype Thread = NotStarted | Alive | Dead

  /** Where the calling thread is. */
  datatype Main =
    | Preparing                    // directory made, run not started
    | Waiting                      // in the loop
    | GivingUp                     // expired, about to start the cleaner
    | Deferring                    // cleaner started, flag not yet set
    | Unwinding                    // on its way into the `finally` block
    | Returned

  datatype Cleaner = Absent | Joining | Removing | Finished

  datatype Remover = FinallyBlock | DeferredCleaner

  datatype State = State(main: Main, runner: Thread, cleaner: Cleaner, deferred: bool,
                         present: bool, removals: seq<Remover>, tornDown: bool)

  /** `StartCleaner` consults the process: a thread may be impossible to start. */
  datatype Action =
    | PrepareFails | RunInline | StartRunner | RunnerExits | SeesRunnerDead | Expires | StartCleaner | SetFlag
    | Unwind | CleanerJoins | CleanerRemoves

  const INITIAL := State(Preparing, NotStarted, Absent, false, true, [], false)

  /** Remove the work directory; `tornDown` records that a live runner lost it. */
  function Remove(s: State, who: Remover): State {
    s.(present := false, removals := s.removals + [who], tornDown := s.tornDown || s.runner.Alive?)
  }

  /** One step; a disabled action does nothing. */
  function Step(s: State, a: Action, threadsLeft: bool): State {
    match a
    case PrepareFails => if s.main.Preparing? then s.(main := Unwinding) else s
    case RunInline => if s.main.Preparing? then s.(main := Unwinding, runner := Dead) else s
    case StartRunner => if s.main.Preparing? then s.(main := Waiting, runner := Alive) else s
    case RunnerExits => if s.runner.Alive? then s.(runner := Dead) else s
    case SeesRunnerDead => if s.main.Waiting? && s.runner.Dead? then s.(main := Unwinding) else s
    case Expires => if s.main.Waiting? then s.(main := GivingUp) else s
    case StartCleaner =>
      if !s.main.GivingUp? then s
      else if threadsLeft then s.(main := Deferring, cleaner := Joining)
      else s.(main := Unwinding)
    case SetFlag => if s.main.Deferring? then s.(main := Unwinding, deferred := true) else s
    case Unwind =>
      if !s.main.Unwinding? then s
      else (if s.deferred then s else Remove(s, FinallyBlock)).(main := Returned)
    case CleanerJoins => if s.cleaner.Joining? && s.runner.Dead? then s.(cleaner := Removing) else s
    case CleanerRemoves => if s.cleaner.Removing? then Remove(s, DeferredCleaner).(cleaner := Finished) else s
  }

  function Run(s: State, actions: seq<Action>, threadsLeft: bool): State
    decreases |actions|
  {
    if actions == [] then s else Run(Step(s, actions[0], threadsLeft), actions[1..], threadsLeft)
  }

  /** The cleaner exists exactly once the caller has handed the directory over. */
  predicate Inv(s: State) {
    && (s.main.Deferring? ==> !s.cleaner.Absent?)
    && (!s.cleaner.Absent? ==> !s.runner.NotStarted?)
    && (s.main.Preparing? || s.main.Waiting? || s.main.GivingUp? ==> s.cleaner.Absent? && !s.deferred)
    && (s.main.Unwinding? || s.main.Returned? ==> (s.deferred <==> !s.cleaner.Absent?))
    && (s.main.Preparing? <==> s.runner.NotStarted? && !s.main.Unwinding? && !s.main.Returned?)
    && (s.cleaner.Removing? || s.cleaner.Finished? ==> s.runner.Dead?)
    && s.removals == (if s.cleaner.Finished? then [DeferredCleaner]
                      else if s.main.Returned? && s.cleaner.Absent? then [FinallyBlock] else [])
    && (s.present <==> s.removals == [])
  }

  lemma StepKeepsInv(s: State, a: Action, threadsLeft: bool)
    requires Inv(s)
    ensures Inv(Step(s, a, threadsLeft))
  {
    assert [] + [FinallyBlock] == [FinallyBlock];
    assert [] + [DeferredCleaner] == [DeferredCleaner];
  }

  lemma {:induction false} RunKeepsInv(s: State, actions: seq<Action>, threadsLeft: bool)
    requires Inv(s)
    ensures Inv(Run(s, actions, threadsLeft))
    decreases |actions|
  {
    if actions != [] {
      StepKeepsInv(s, actions[0], threadsLeft);
      RunKeepsInv(Step(s, actions[0], threadsLeft), actions[1..], threadsLeft);
    }
  }

  /** In every schedule the directory is removed at most once, and by exactly one of the
      two removers once the caller has returned and a cleaner, if any, has finished. */
  lemma RemovedExactlyOnce(actions: seq<Action>, threadsLeft: bool)
    ensures var s := Run(INITIAL, actions, threadsLeft);
            && |s.removals| <= 1 && (s.present <==> s.removals == [])
            && (s.main.Returned? && s.cleaner.Absent? ==> s.removals == [FinallyBlock])
            && (s.cleaner.Finished? ==> s.removals == [DeferredCleaner])
            && (s.main.Returned? && !s.cleaner.Absent? ==> s.deferred && FinallyBlock !in s.removals)
  {
    RunKeepsInv(INITIAL, actions, threadsLeft);
  }

  /** A directory handed to the cleaner is not lost: once the runner is dead, two steps
      of the cleaner remove it. */
  lemma CleanerGetsThere(actions: seq<Action>, threadsLeft: bool)
    requires var s := Run(INITIAL, actions, threadsLeft); s.cleaner.Joining?
    ensures var s := Run(INITIAL, actions, threadsLeft);
            && s.present
            && Run(s, [RunnerExits, CleanerJoins, CleanerRemoves], threadsLeft).removals == [DeferredCleaner]
            && (!s.runner.Dead? ==> Run(s, [CleanerJoins, CleanerRemoves], threadsLeft) == s)
  {
    var s := Run(INITIAL, actions, threadsLeft);
    RunKeepsInv(INITIAL, actions, threadsLeft);
    assert [RunnerExits, CleanerJoins, CleanerRemoves][1..] == [CleanerJoins, CleanerRemoves];
    assert [CleanerJoins, CleanerRemoves][1..] == [CleanerRemoves];
    var dead := Step(s, RunnerExits, threadsLeft);
    var removing := Step(dead, CleanerJoins, threadsLeft);
    assert Run(dead, [CleanerJoins, CleanerRemoves], threadsLeft) == Run(removing, [CleanerRemoves], threadsLeft);
    assert removing.cleaner.Removing? && removing.removals == [];
    assert Run(removing, [CleanerRemoves], threadsLeft) == Step(removing, CleanerRemoves, threadsLeft);
  }

  /** While threads can be started, a live runner keeps its directory. */
  predicate Safe(s: State) {
    && Inv(s) && !s.tornDown
    && (s.main.Unwinding? && s.runner.Alive? ==> s.deferred)
  }

  lemma {:induction false} RunKeepsSafe(s: State, actions: seq<Action>)
    requires Safe(s)
    ensures Safe(Run(s, actions, true))
    decreases |actions|
  {
    if actions != [] {
      StepKeepsInv(s, actions[0], true);
      RunKeepsSafe(Step(s, actions[0], true), actions[1..]);
    }
  }

  lemma RunCons(s: State, a: Action, rest: seq<Action>, threadsLeft: bool)
    ensures Run(s, [a] + rest, threadsLeft) == Run(Step(s, a, threadsLeft), rest, threadsLeft)
  {
    assert ([a] + rest)[1..] == rest;
  }

  /** No schedule takes the directory from a live runner exactly when the cleaner thread
      can be started: a failed start is caught by the blanket handler and the `finally`
      block then removes the directory under the runner. */
  lemma LiveRunnerKeepsDirectoryIff(threadsLeft: bool)
    ensures (forall actions :: !Run(INITIAL, actions, threadsLeft).tornDown) <==> threadsLeft
  {
    if threadsLeft {
      forall actions ensures !Run(INITIAL, actions, threadsLeft).tornDown {
        RunKeepsSafe(INITIAL, actions);
      }
    } else {
      var s1 := Step(INITIAL, StartRunner, false);
      var s2 := Step(s1, Expires, false);
      var s3 := Step(s2, StartCleaner, false);
      var actions := [StartRunner] + ([Expires] + ([StartCleaner] + ([Unwind] + [])));
      RunCons(INITIAL, StartRunner, [Expires] + ([StartCleaner] + ([Unwind] + [])), false);
      RunCons(s1, Expires, [StartCleaner] + ([Unwind] + []), false);
      RunCons(s2, StartCleaner, [Unwind] + [], false);
      RunCons(s3, Unwind, [], false);
      assert Run(INITIAL, actions, false).tornDown;
    }
  }
}
