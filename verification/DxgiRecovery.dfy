/** The recovery of a lost desktop duplication (platform/windows/gsr_capture_dxgi.c): timed
    retries, a stop that is final, and who holds a frame. The device and the output exist from
    a successful start on. */
module DxgiRecovery {

  const RETRY_MS: nat := 500
  const MAX_FAILURES: nat := 20

  datatype Acquire = Timeout | AccessLost | AcquireFailed | Frame(isTexture: bool)

  /** What one tick meets. `check` and `later` are the clock when the retry is considered and
      when the next one is scheduled. */
  datatype Env = Env(deviceRemoved: bool, check: nat, later: nat, duplicateOk: bool, acquire: Acquire)

  /** An attempt to recreate the duplication: the clock at its end, and whether it succeeded. */
  datatype Attempt = Attempt(at: nat, ok: bool)

  /** The last three are bookkeeping: when access was last lost, how many attempts there had been
      by then, and all attempts. */
  datatype State = State(duplication: bool, frameHeld: bool, shouldStop: bool, stopIsError: bool,
                         failures: nat, nextMs: nat, lostAt: nat, lostAfter: nat, attempts: seq<Attempt>)

  /** The state after a successful dxgi_start. */
  function Started(): State { State(true, false, false, false, 0, 0, 0, 0, []) }

  function Fail(s: State): State { s.(shouldStop := true, stopIsError := true) }

  /** dxgi_try_recreate_duplication. */
  function Recreate(s: State, env: Env): State {
    var tried := s.(attempts := s.attempts + [Attempt(env.later, env.duplicateOk)]);
    if env.duplicateOk then tried.(duplication := true, failures := 0, nextMs := 0)
    else
      var failed := tried.(failures := s.failures + 1, nextMs := env.later + RETRY_MS);
      if failed.failures >= MAX_FAILURES then Fail(failed) else failed
  }

  /** dxgi_tick. */
  function Tick(s: State, env: Env): State {
    if s.shouldStop then s
    else if env.deviceRemoved then Fail(s)
    else if !s.duplication then (if env.check >= s.nextMs then Recreate(s, env) else s)
    else
      var released := s.(frameHeld := false);
      match env.acquire
      case Timeout => released
      case AccessLost =>
        released.(duplication := false, nextMs := env.later + RETRY_MS, lostAt := env.later, lostAfter := |s.attempts|)
      case AcquireFailed => Fail(released)
      case Frame(isTexture) => released.(frameHeld := isTexture)
  }

  function Run(s: State, envs: seq<Env>): State
    decreases |envs|
  {
    if envs == [] then s else Run(Tick(s, envs[0]), envs[1..])
  }

  /** The clock never runs backwards. */
  predicate Monotone(envs: seq<Env>) {
    && (forall i :: 0 <= i < |envs| ==> envs[i].check <= envs[i].later)
    && forall i :: 0 < i < |envs| ==> envs[i - 1].later <= envs[i].check
  }

  /** Consecutive attempts are one retry interval apart, and so is the next one. */
  predicate Spaced(s: State) {
    && (forall i :: 0 < i < |s.attempts| ==> s.attempts[i - 1].at + RETRY_MS <= s.attempts[i].at)
    && (!s.duplication && |s.attempts| > 0 ==> s.attempts[|s.attempts| - 1].at + RETRY_MS <= s.nextMs)
  }

  /** The last failures attempts failed in a row after access was lost, each one interval after
      the one before. */
  predicate Inv(s: State, now: nat) {
    && s.shouldStop == s.stopIsError
    && s.failures <= MAX_FAILURES
    && (s.frameHeld ==> s.duplication)
    && (s.duplication ==> s.failures == 0)
    && (!s.duplication ==> s.nextMs >= s.lostAt + (s.failures + 1) * RETRY_MS)
    && (!s.duplication && s.failures > 0 ==> now >= s.lostAt + s.failures * RETRY_MS)
    && (s.failures == MAX_FAILURES ==> s.shouldStop)
    && (forall i :: 0 <= i < |s.attempts| ==> s.attempts[i].at <= now)
    && Spaced(s)
  }

  lemma AttemptKeepsSpacing(s: State, env: Env, now: nat)
    requires Inv(s, now) && now <= env.check <= env.later && !s.duplication && env.check >= s.nextMs
    ensures var r := Recreate(s, env);
      Spaced(r) && forall i :: 0 <= i < |r.attempts| ==> r.attempts[i].at <= env.later
  {
    assert Recreate(s, env).attempts == s.attempts + [Attempt(env.later, env.duplicateOk)];
  }

  lemma AttemptKeeps(s: State, env: Env, now: nat)
    requires Inv(s, now) && now <= env.check <= env.later && !s.shouldStop && !s.duplication && env.check >= s.nextMs
    ensures Inv(Recreate(s, env), env.later)
  {
    AttemptKeepsSpacing(s, env, now);
    hide Spaced;
  }

  lemma TickKeeps(s: State, env: Env, now: nat)
    requires Inv(s, now) && now <= env.check <= env.later
    ensures Inv(Tick(s, env), env.later)
  {
    if !s.shouldStop && !env.deviceRemoved && !s.duplication && env.check >= s.nextMs {
      AttemptKeeps(s, env, now);
      hide Inv;
    }
    hide Recreate;
  }

  lemma {:induction false} RunKeeps(s: State, envs: seq<Env>, now: nat) returns (end: nat)
    requires Inv(s, now) && Monotone(envs) && (envs != [] ==> now <= envs[0].check)
    ensures Inv(Run(s, envs), end)
    ensures end == if envs == [] then now else envs[|envs| - 1].later
    decreases |envs|
  {
    if envs == [] { return now; }
    TickKeeps(s, envs[0], now);
    assert forall i :: 0 < i < |envs[1..]| ==> envs[1..][i - 1] == envs[i] && envs[1..][i] == envs[i + 1];
    end := RunKeeps(Tick(s, envs[0]), envs[1..], envs[0].later);
  }

  /** In every run on a monotone clock: a stop is an error stop, at most 20 failures are
      counted, a frame is held only with a duplication, consecutive attempts are at least 500 ms
      apart, and giving up after 20 failures happens at least 10 s after access was lost. */
  lemma EveryRunRecoversInTime(envs: seq<Env>)
    requires Monotone(envs)
    ensures var s := Run(Started(), envs);
      && (s.shouldStop <==> s.stopIsError)
      && s.failures <= MAX_FAILURES
      && (s.frameHeld ==> s.duplication)
      && (forall i :: 0 < i < |s.attempts| ==> s.attempts[i - 1].at + 500 <= s.attempts[i].at)
      && (s.failures == MAX_FAILURES ==> s.shouldStop && envs != [] && envs[|envs| - 1].later >= s.lostAt + 10000)
  {
    var end := RunKeeps(Started(), envs, 0);
  }

  // ---- when the capture stops ---------------------------------------------------------------

  /** `failures` counts the attempts since access was last lost, all of which failed; while there
      is a duplication, the last attempt succeeded. */
  predicate CountsAttempts(s: State) {
    && s.lostAfter <= |s.attempts|
    && (s.lostAfter > 0 ==> s.attempts[s.lostAfter - 1].ok)
    && if s.duplication then s.failures == 0 && (s.attempts != [] ==> s.attempts[|s.attempts| - 1].ok)
       else
         && s.failures == |s.attempts| - s.lostAfter
         && forall i :: s.lostAfter <= i < |s.attempts| ==> !s.attempts[i].ok
  }

  predicate LastFailed(attempts: seq<Attempt>, n: nat) {
    n <= |attempts| && forall i :: |attempts| - n <= i < |attempts| ==> !attempts[i].ok
  }

  /** A tick that is handled and meets a removed device or a failed acquire. */
  predicate Fatal(s: State, env: Env) {
    !s.shouldStop && (env.deviceRemoved || (s.duplication && env.acquire.AcquireFailed?))
  }

  lemma TickCounts(s: State, env: Env)
    requires CountsAttempts(s) && (s.failures >= MAX_FAILURES ==> s.shouldStop)
    ensures var r := Tick(s, env);
      && CountsAttempts(r) && (r.failures >= MAX_FAILURES ==> r.shouldStop)
      && (r.shouldStop <==> s.shouldStop || Fatal(s, env) || (r.failures >= MAX_FAILURES))
      && (s.failures >= MAX_FAILURES ==> r == s)
  {
  }

  lemma {:induction false} RunSnoc(s: State, envs: seq<Env>, env: Env)
    ensures Run(s, envs + [env]) == Tick(Run(s, envs), env)
    decreases |envs|
  {
    hide Tick;
    if envs == [] {
      assert [env][1..] == [] && [] + [env] == [env];
    } else {
      assert (envs + [env])[1..] == envs[1..] + [env];
      RunSnoc(Tick(s, envs[0]), envs[1..], env);
    }
  }

  lemma {:induction false} RunCounts(envs: seq<Env>)
    ensures var s := Run(Started(), envs);
      && CountsAttempts(s) && (s.failures >= MAX_FAILURES ==> s.shouldStop)
      && (s.shouldStop <==>
           (s.failures >= MAX_FAILURES || exists i :: 0 <= i < |envs| && Fatal(Run(Started(), envs[..i]), envs[i])))
    decreases |envs|
  {
    if envs != [] {
      var n := |envs| - 1;
      var pre := envs[..n];
      assert envs == pre + [envs[n]];
      RunSnoc(Started(), pre, envs[n]);
      RunCounts(pre);
      TickCounts(Run(Started(), pre), envs[n]);
      assert forall i :: 0 <= i < n ==> envs[..i] == pre[..i] && envs[i] == pre[i];
      hide Run, Tick, CountsAttempts, Fatal;
    }
  }

  lemma TwentyInARow(s: State)
    requires CountsAttempts(s)
    ensures s.failures >= MAX_FAILURES <==> LastFailed(s.attempts, MAX_FAILURES)
  {
  }

  /** In every run: the failures counted are the attempts since access was last lost, all of them
      failed; and the capture has stopped exactly when a tick it handled met a removed device or
      a failed acquire, or the last 20 attempts have failed. */
  lemma StopsExactly(envs: seq<Env>)
    ensures var s := Run(Started(), envs);
      && (!s.duplication ==> s.failures == |s.attempts| - s.lostAfter && LastFailed(s.attempts, s.failures))
      && (s.shouldStop <==>
           (LastFailed(s.attempts, 20) || exists i :: 0 <= i < |envs| && Fatal(Run(Started(), envs[..i]), envs[i])))
  {
    RunCounts(envs);
    TwentyInARow(Run(Started(), envs));
    hide Run;
  }

  // ---- when the capture retries -------------------------------------------------------------

  /** When access was lost or, if later, when the last attempt since then was made. */
  function LastTry(s: State): nat {
    if s.lostAfter < |s.attempts| then s.attempts[|s.attempts| - 1].at else s.lostAt
  }

  predicate Scheduled(s: State) {
    s.lostAfter <= |s.attempts| && (!s.duplication ==> s.nextMs == LastTry(s) + RETRY_MS)
  }

  lemma TickSchedules(s: State, env: Env)
    requires Scheduled(s)
    ensures Scheduled(Tick(s, env))
  {
  }

  lemma {:induction false} RunSchedules(s: State, envs: seq<Env>)
    requires Scheduled(s)
    ensures Scheduled(Run(s, envs))
    decreases |envs|
  {
    hide Scheduled, Tick;
    if envs != [] {
      TickSchedules(s, envs[0]);
      RunSchedules(Tick(s, envs[0]), envs[1..]);
    }
  }

  /** In every run, a tick of a running capture on a live device. Without a duplication it makes one
      attempt if its clock is 500 ms past the loss and past the last attempt since, and otherwise
      does nothing; the duplication is back exactly when that attempt succeeds. With a duplication
      it makes no attempt, loses the duplication exactly when access is lost, which it notes, and
      holds a frame exactly when it has acquired a texture. */
  lemma RetriesExactly(envs: seq<Env>, env: Env)
    ensures var s := Run(Started(), envs); var r := Run(Started(), envs + [env]);
      !s.shouldStop && !env.deviceRemoved ==>
        if !s.duplication then
          if env.check >= LastTry(s) + 500
          then r.attempts == s.attempts + [Attempt(env.later, env.duplicateOk)] && r.duplication == env.duplicateOk
          else r == s
        else
          && r.attempts == s.attempts
          && (r.duplication <==> env.acquire != AccessLost)
          && (!r.duplication ==> LastTry(r) == r.lostAt == env.later)
          && (r.frameHeld <==> env.acquire == Frame(true))
  {
    assert Scheduled(Started());
    RunSchedules(Started(), envs);
    RunSnoc(Started(), envs, env);
    hide Run;
  }

  /** On a clock that never runs backwards, that is 500 ms after the loss and after every attempt
      since then. */
  lemma DueExactly(envs: seq<Env>, check: nat)
    requires Monotone(envs)
    ensures var s := Run(Started(), envs);
      && s.lostAfter <= |s.attempts|
      && (check >= LastTry(s) + 500 <==>
           check >= s.lostAt + 500 && forall i :: s.lostAfter <= i < |s.attempts| ==> check >= s.attempts[i].at + 500)
  {
    TriesComeAfterTheLoss(Started(), envs, 0);
    var end := RunKeeps(Started(), envs, 0);
    var s := Run(Started(), envs);
    hide Run;
    forall i | 0 <= i < |s.attempts| ensures s.attempts[i].at <= s.attempts[|s.attempts| - 1].at {
      AttemptsAdvance(s, i, |s.attempts| - 1);
    }
  }

  lemma {:induction false} AttemptsAdvance(s: State, i: nat, j: nat)
    requires Spaced(s) && i <= j < |s.attempts|
    ensures s.attempts[i].at <= s.attempts[j].at
    decreases j - i
  {
    if i < j { AttemptsAdvance(s, i, j - 1); }
  }

  lemma {:induction false} TriesComeAfterTheLoss(s: State, envs: seq<Env>, now: nat)
    requires Monotone(envs) && (envs != [] ==> now <= envs[0].check)
    requires s.lostAfter <= |s.attempts| && s.lostAt <= LastTry(s) && s.lostAt <= now
    ensures var r := Run(s, envs); r.lostAfter <= |r.attempts| && r.lostAt <= LastTry(r)
    decreases |envs|
  {
    if envs != [] {
      assert forall i :: 0 < i < |envs[1..]| ==> envs[1..][i - 1] == envs[i] && envs[1..][i] == envs[i + 1];
      TriesComeAfterTheLoss(Tick(s, envs[0]), envs[1..], envs[0].later);
    }
  }

  /** A stop is final. */
  lemma {:induction false} StopIsFinal(s: State, envs: seq<Env>)
    requires s.shouldStop
    ensures Run(s, envs) == s
    decreases |envs|
  {
    if envs != [] { StopIsFinal(s, envs[1..]); }
  }

  lemma RunStep(s: State, envs: seq<Env>, i: nat)
    requires i < |envs|
    ensures Run(s, envs[i..]) == Run(Tick(s, envs[i]), envs[i + 1..])
  {
    assert envs[i..][1..] == envs[i + 1..];
    hide Tick;
  }

  lemma RunEnds(s: State, envs: seq<Env>)
    ensures Run(s, envs[|envs|..]) == s
  {
  }

  class Capture {
    var duplication: bool
    var frameHeld: bool
    var shouldStop: bool
    var stopIsError: bool
    var recreateFailures: nat
    var nextRecreateMs: nat
    ghost var lostAt: nat
    ghost var lostAfter: nat
    ghost var attempts: seq<Attempt>

    ghost function Abs(): State
      reads this
    {
      State(duplication, frameHeld, shouldStop, stopIsError, recreateFailures, nextRecreateMs, lostAt, lostAfter,
            attempts)
    }

    constructor ()
      ensures Abs() == Started()
    {
      duplication, frameHeld, shouldStop, stopIsError := true, false, false, false;
      recreateFailures, nextRecreateMs, lostAt, lostAfter, attempts := 0, 0, 0, 0, [];
    }

    /** dxgi_release_frame. */
    method ReleaseFrame()
      modifies this`frameHeld
      ensures !frameHeld
    {
      if frameHeld { frameHeld := false; }
    }

    /** dxgi_release_duplication: the frame goes first. */
    method ReleaseDuplication()
      modifies this`frameHeld, this`duplication
      ensures !frameHeld && !duplication
    {
      ReleaseFrame();
      if duplication { duplication := false; }
    }

    method TryRecreate(env: Env)
      modifies this
      ensures Abs() == Recreate(old(Abs()), env)
    {
      attempts := attempts + [Attempt(env.later, env.duplicateOk)];
      if !env.duplicateOk {
        recreateFailures := recreateFailures + 1;
        nextRecreateMs := env.later + RETRY_MS;
        if recreateFailures >= MAX_FAILURES { shouldStop, stopIsError := true, true; }
        return;
      }
      duplication := true;
      recreateFailures := 0;
      nextRecreateMs := 0;
    }

    method DoTick(env: Env)
      modifies this
      ensures Abs() == Tick(old(Abs()), env)
    {
      if shouldStop { return; }
      if env.deviceRemoved {
        shouldStop, stopIsError := true, true;
        return;
      }
      if !duplication {
        if env.check >= nextRecreateMs { TryRecreate(env); }
        return;
      }
      ReleaseFrame();
      match env.acquire {
        case Timeout =>
        case AccessLost =>
          ReleaseDuplication();
          nextRecreateMs := env.later + RETRY_MS;
          lostAt, lostAfter := env.later, |attempts|;
        case AcquireFailed => shouldStop, stopIsError := true, true;
        case Frame(isTexture) => frameHeld := isTexture;
      }
    }

    /** Any sequence of ticks is a run. */
    method DoTicks(envs: seq<Env>)
      modifies this
      ensures Abs() == Run(old(Abs()), envs)
    {
      hide Run, Tick;
      assert envs[0..] == envs;
      for i := 0 to |envs|
        invariant Run(Abs(), envs[i..]) == Run(old(Abs()), envs)
      {
        RunStep(Abs(), envs, i);
        DoTick(envs[i]);
      }
      RunEnds(Abs(), envs);
    }
  }
}
