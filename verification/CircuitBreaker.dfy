/** The failover circuit breaker, lock section by lock section (failover_circuit_breaker.rs). */
module CircuitBreaker {
  import opened Seqs

  datatype State = Closed | Open | HalfOpen

  /** What the lock protects. Times are instants on one clock. */
  datatype Breaker = Breaker(state: State, failures: nat, openedAt: Option<nat>, threshold: nat, timeout: nat)

  function Fresh(threshold: nat, timeout: nat): Breaker { Breaker(Closed, 0, None, threshold, timeout) }

  // ---- the lock sections ----

  datatype Choice = Primary | Fallback | Probe

  /** The read section of should_use_fallback; Probe: the recovery time has passed. */
  function Read(b: Breaker, now: nat): Choice {
    if b.state == Open then
      if b.openedAt.Some? && now >= b.openedAt.value + b.timeout then Probe else Fallback
    else Primary
  }

  /** Its write section, which looks at the state again. */
  function Halve(b: Breaker): Breaker { if b.state == Open then b.(state := HalfOpen) else b }

  function Success(b: Breaker): Breaker {
    match b.state
    case HalfOpen => b.(state := Closed, failures := 0, openedAt := None)
    case Closed => b.(failures := 0)
    case Open => b.(failures := 0)
  }

  function Failure(b: Breaker, now: nat): Breaker {
    var failed := b.(failures := b.failures + 1);
    match b.state
    case Closed => if failed.failures >= b.threshold then failed.(state := Open, openedAt := Some(now)) else failed
    case HalfOpen => failed.(state := Open, openedAt := Some(now))
    case Open => failed
  }

  class CircuitBreaker {
    var state: State
    var failures: nat
    var openedAt: Option<nat>
    const threshold: nat
    const timeout: nat

    ghost function View(): Breaker
      reads this
    {
      Breaker(state, failures, openedAt, threshold, timeout)
    }

    constructor (threshold0: nat, timeout0: nat)
      ensures View() == Fresh(threshold0, timeout0)
    {
      state, failures, openedAt, threshold, timeout := Closed, 0, None, threshold0, timeout0;
    }

    method ReadSection(now: nat) returns (choice: Choice)
      ensures choice == Read(View(), now)
    {
      match state {
        case Closed => choice := Primary;
        case Open =>
          choice := Fallback;
          if openedAt.Some? && now >= openedAt.value + timeout {
            choice := Probe;
          }
        case HalfOpen => choice := Primary;
      }
    }

    method WriteSection()
      modifies this
      ensures View() == Halve(old(View()))
    {
      if state == Open {
        state := HalfOpen;
      }
    }

    /** Both sections, with no other call in between. */
    method ShouldUseFallback(now: nat) returns (yes: bool)
      modifies this
      ensures yes == Read(old(View()), now).Fallback?
      ensures View() == if Read(old(View()), now).Probe? then Halve(old(View())) else old(View())
    {
      var choice := ReadSection(now);
      if choice == Probe {
        WriteSection();
        return false;
      }
      return choice == Fallback;
    }

    method RecordSuccess()
      modifies this
      ensures View() == Success(old(View()))
    {
      match state {
        case HalfOpen =>
          state := Closed;
          failures := 0;
          openedAt := None;
        case Closed => failures := 0;
        case Open => failures := 0;
      }
    }

    method RecordFailure(now: nat)
      modifies this
      ensures View() == Failure(old(View()), now)
    {
      failures := failures + 1;
      match state {
        case Closed =>
          if failures >= threshold {
            state := Open;
            openedAt := Some(now);
          }
        case HalfOpen =>
          state := Open;
          openedAt := Some(now);
        case Open =>
      }
    }

    /**
     * execute, with no other call in between: `primary` and `fallback` are what the two sources would
     * answer, None for an error. With a fallback it errs only if the fallback did.
     */
    method Execute<T>(now: nat, later: nat, primary: Option<T>, hasFallback: bool, fallback: Option<T>)
      returns (r: Option<T>)
      modifies this
      ensures !hasFallback ==> r == primary && View() == old(View())
      ensures hasFallback ==> (r, View()) == Called(old(View()), now, later, primary, fallback)
      ensures hasFallback && r.None? ==> fallback.None?
    {
      if !hasFallback {
        return primary;
      }
      var avoid := ShouldUseFallback(now);
      if avoid {
        return fallback;
      }
      if primary.Some? {
        RecordSuccess();
        return primary;
      }
      RecordFailure(later);
      return fallback;
    }
  }

  function Called<T>(b: Breaker, now: nat, later: nat, primary: Option<T>, fallback: Option<T>): (Option<T>, Breaker) {
    var choice := Read(b, now);
    var tried := if choice.Probe? then Halve(b) else b;
    if choice.Fallback? then (fallback, b)
    else if primary.Some? then (primary, Success(tried))
    else (fallback, Failure(tried, later))
  }

  // ---- calls that do not overlap ----

  datatype Call<T> = Call(now: nat, later: nat, primary: Option<T>, fallback: Option<T>)

  /** The breaker after the first n of a sequence of calls, one after another. */
  function After<T>(b: Breaker, calls: seq<Call<T>>, n: nat): Breaker
    requires n <= |calls|
  {
    if n == 0 then b else
      var call := calls[n - 1];
      Called(After(b, calls, n - 1), call.now, call.later, call.primary, call.fallback).1
  }

  /** Throughout the recovery window every call uses the fallback, and nothing changes. */
  lemma {:induction false} RecoveryWindow<T>(b: Breaker, calls: seq<Call<T>>, i: nat)
    requires b.state == Open && b.openedAt.Some? && i < |calls|
    requires forall k :: 0 <= k <= i ==> calls[k].now < b.openedAt.value + b.timeout
    ensures After(b, calls, i) == After(b, calls, i + 1) == b
    ensures Called(After(b, calls, i), calls[i].now, calls[i].later, calls[i].primary, calls[i].fallback).0
      == calls[i].fallback
  {
    if i > 0 {
      RecoveryWindow(b, calls, i - 1);
    }
  }

  /** The first call after the window tries the primary, and its outcome alone decides. */
  lemma AfterWindow<T>(b: Breaker, call: Call<T>)
    requires b.state == Open && b.openedAt.Some? && call.now >= b.openedAt.value + b.timeout
    ensures var r := Called(b, call.now, call.later, call.primary, call.fallback);
      if call.primary.Some? then r == (call.primary, Fresh(b.threshold, b.timeout))
      else r == (call.fallback, b.(failures := b.failures + 1, openedAt := Some(call.later)))
  {
  }

  // ---- any interleaving ----

  /** Where a call of execute stands. */
  datatype Place = Start | Probing | OnPrimary | OnFallback | Succeeded | Failed

  /** `recorded` is the history of recorded outcomes: true for a success. */
  datatype System = System(b: Breaker, now: nat, calls: seq<Place>, recorded: seq<bool>)

  /** One lock section, one answer of a source, or time passing. */
  datatype Step =
    | Tick(time: nat)
    | Arrive
    | ReadLock(i: nat)
    | WriteLock(i: nat)
    | PrimaryAnswers(i: nat, ok: bool)
    | FallbackAnswers(i: nat, ok: bool)

  predicate Enabled(s: System, step: Step) {
    match step
    case Tick(time) => s.now <= time
    case Arrive => true
    case ReadLock(i) => i < |s.calls| && s.calls[i] == Start
    case WriteLock(i) => i < |s.calls| && s.calls[i] == Probing
    case PrimaryAnswers(i, _) => i < |s.calls| && s.calls[i] == OnPrimary
    case FallbackAnswers(i, _) => i < |s.calls| && s.calls[i] == OnFallback
  }

  function Next(s: System, step: Step): System
    requires Enabled(s, step)
  {
    match step
    case Tick(time) => s.(now := time)
    case Arrive => s.(calls := s.calls + [Start])
    case ReadLock(i) =>
      var place := match Read(s.b, s.now) case Primary => OnPrimary case Fallback => OnFallback case Probe => Probing;
      s.(calls := s.calls[i := place])
    case WriteLock(i) => s.(b := Halve(s.b), calls := s.calls[i := OnPrimary])
    case PrimaryAnswers(i, ok) =>
      if ok then s.(b := Success(s.b), calls := s.calls[i := Succeeded], recorded := s.recorded + [true])
      else s.(b := Failure(s.b, s.now), calls := s.calls[i := OnFallback], recorded := s.recorded + [false])
    case FallbackAnswers(i, ok) => s.(calls := s.calls[i := if ok then Succeeded else Failed])
  }

  /** Failures recorded since the last recorded success. */
  function Streak(recorded: seq<bool>): nat {
    if recorded == [] || recorded[|recorded| - 1] then 0 else Streak(recorded[..|recorded| - 1]) + 1
  }

  /** What holds of the breaker at any time `now` after this streak of failures. */
  ghost predicate Sound(b: Breaker, now: nat, streak: nat) {
    && b.failures == streak
    && (b.openedAt.Some? <==> b.state != Closed)
    && (b.state == Closed ==> b.failures == 0 || b.failures < b.threshold)
    && (b.openedAt.Some? ==> b.openedAt.value <= now)
  }

  ghost predicate Inv(s: System) { Sound(s.b, s.now, Streak(s.recorded)) }

  /** A run: every step enabled where it is taken. */
  ghost predicate IsRun(run: seq<System>, steps: seq<Step>, threshold: nat, timeout: nat) {
    && |run| == |steps| + 1 && run[0] == System(Fresh(threshold, timeout), 0, [], [])
    && forall k :: 0 <= k < |steps| ==> Enabled(run[k], steps[k]) && run[k + 1] == Next(run[k], steps[k])
  }

  lemma SuccessKeeps(b: Breaker, now: nat, streak: nat)
    requires Sound(b, now, streak)
    ensures Sound(Success(b), now, 0)
  {
  }

  lemma FailureKeeps(b: Breaker, now: nat, streak: nat)
    requires Sound(b, now, streak)
    ensures Sound(Failure(b, now), now, streak + 1)
  {
  }

  lemma HalveKeeps(b: Breaker, now: nat, streak: nat)
    requires Sound(b, now, streak)
    ensures Sound(Halve(b), now, streak)
  {
  }

  lemma TickKeeps(b: Breaker, now: nat, later: nat, streak: nat)
    requires Sound(b, now, streak) && now <= later
    ensures Sound(b, later, streak)
  {
  }

  lemma StreakStep(recorded: seq<bool>, ok: bool)
    ensures Streak(recorded + [ok]) == if ok then 0 else Streak(recorded) + 1
  {
    assert (recorded + [ok])[..|recorded|] == recorded;
  }

  lemma StepKeeps(s: System, step: Step)
    requires Inv(s) && Enabled(s, step)
    ensures Inv(Next(s, step))
  {
    hide Sound, Streak, Success, Failure, Halve, Read;
    var streak := Streak(s.recorded);
    match step
    case Tick(time) => TickKeeps(s.b, s.now, time, streak);
    case Arrive =>
    case ReadLock(_) =>
    case WriteLock(_) => HalveKeeps(s.b, s.now, streak);
    case PrimaryAnswers(_, ok) =>
      StreakStep(s.recorded, ok);
      if ok {
        SuccessKeeps(s.b, s.now, streak);
      } else {
        FailureKeeps(s.b, s.now, streak);
      }
    case FallbackAnswers(_, _) =>
  }

  /** In every state of every interleaving the count is the streak, and the opening time goes with the state. */
  lemma {:induction false} EveryInterleaving(run: seq<System>, steps: seq<Step>, threshold: nat, timeout: nat, k: nat)
    requires IsRun(run, steps, threshold, timeout) && k < |run|
    ensures Inv(run[k]) && run[k].b.threshold == threshold && run[k].b.timeout == timeout
  {
    hide Inv, Next, Enabled;
    if k == 0 {
      FirstKeeps(threshold, timeout);
    } else {
      EveryInterleaving(run, steps, threshold, timeout, k - 1);
      assert Enabled(run[k - 1], steps[k - 1]) && run[k] == Next(run[k - 1], steps[k - 1]);
      StepKeeps(run[k - 1], steps[k - 1]);
      ConfigKept(run[k - 1], steps[k - 1]);
    }
  }

  lemma FirstKeeps(threshold: nat, timeout: nat)
    ensures Inv(System(Fresh(threshold, timeout), 0, [], []))
  {
  }

  lemma ConfigKept(s: System, step: Step)
    requires Enabled(s, step)
    ensures Next(s, step).b.threshold == s.b.threshold && Next(s, step).b.timeout == s.b.timeout
  {
  }

  /** A closed breaker opens only by a recorded failure that makes the streak reach the threshold. */
  lemma OpensAtThreshold(s: System, step: Step)
    requires Inv(s) && Enabled(s, step) && s.b.state == Closed
    ensures var s' := Next(s, step);
      && (s'.b.state != Closed <==> step.PrimaryAnswers? && !step.ok && Streak(s'.recorded) >= s.b.threshold)
      && (s'.b.state != Closed ==> s'.b.state == Open && s'.b.openedAt == Some(s.now))
  {
    hide Streak;
    if step.PrimaryAnswers? {
      StreakStep(s.recorded, step.ok);
    }
  }

  /** As long as no streak of failures has reached the threshold the breaker is closed and calls try the primary. */
  lemma {:induction false} BelowThreshold(run: seq<System>, steps: seq<Step>, threshold: nat, timeout: nat, k: nat)
    requires IsRun(run, steps, threshold, timeout) && k < |run|
    requires forall j :: 0 < j <= k ==> run[j].recorded == run[j - 1].recorded || Streak(run[j].recorded) < threshold
    ensures run[k].b.state == Closed && Read(run[k].b, run[k].now) == Primary
  {
    hide Inv, Next, Enabled, Streak;
    if k > 0 {
      BelowThreshold(run, steps, threshold, timeout, k - 1);
      EveryInterleaving(run, steps, threshold, timeout, k - 1);
      assert Enabled(run[k - 1], steps[k - 1]) && run[k] == Next(run[k - 1], steps[k - 1]);
      OpensAtThreshold(run[k - 1], steps[k - 1]);
      Recorded(run[k - 1], steps[k - 1]);
    }
  }

  lemma Recorded(s: System, step: Step)
    requires Enabled(s, step)
    ensures step.PrimaryAnswers? <==> Next(s, step).recorded != s.recorded
  {
    if step.PrimaryAnswers? {
      assert |Next(s, step).recorded| == |s.recorded| + 1;
    }
  }

  /** While the breaker stays open, late answers of other calls do not move its recovery window. */
  lemma WindowStays(s: System, step: Step)
    requires Enabled(s, step) && s.b.state == Open && Next(s, step).b.state == Open
    ensures Next(s, step).b.openedAt == s.b.openedAt && Next(s, step).b.timeout == s.b.timeout
  {
  }

  /** A call has failed only if at some step its fallback answered with an error. */
  lemma {:induction false} FailsOnlyByFallback(run: seq<System>, steps: seq<Step>, threshold: nat, timeout: nat, k: nat,
                                               i: nat)
    returns (j: nat)
    requires IsRun(run, steps, threshold, timeout) && k < |run| && i < |run[k].calls| && run[k].calls[i] == Failed
    ensures j < k && steps[j] == FallbackAnswers(i, false)
  {
    var s, step := run[k - 1], steps[k - 1];
    assert Enabled(s, step) && run[k] == Next(s, step);
    if step == FallbackAnswers(i, false) {
      j := k - 1;
    } else {
      j := FailsOnlyByFallback(run, steps, threshold, timeout, k - 1, i);
    }
  }

  /** A call that succeeded got its answer from a source. */
  lemma {:induction false} SucceedsOnlyByAnswer(run: seq<System>, steps: seq<Step>, threshold: nat, timeout: nat,
                                                k: nat, i: nat)
    returns (j: nat)
    requires IsRun(run, steps, threshold, timeout) && k < |run| && i < |run[k].calls| && run[k].calls[i] == Succeeded
    ensures j < k && (steps[j] == PrimaryAnswers(i, true) || steps[j] == FallbackAnswers(i, true))
  {
    var s, step := run[k - 1], steps[k - 1];
    assert Enabled(s, step) && run[k] == Next(s, step);
    if step == PrimaryAnswers(i, true) || step == FallbackAnswers(i, true) {
      j := k - 1;
    } else {
      j := SucceedsOnlyByAnswer(run, steps, threshold, timeout, k - 1, i);
    }
  }

  /** An open breaker leaves the open state only by a probe's write section, never straight to closed. */
  lemma OpenLeavesByProbe(s: System, step: Step)
    requires Enabled(s, step) && s.b.state == Open && Next(s, step).b.state != Open
    ensures step.WriteLock? && Next(s, step).b == s.b.(state := HalfOpen)
  {
  }
}
