/**
  The paced progress loop of the video-task handler.

  Every second the loop computes a ceiling, whole seconds since enrolment
  plus a fixed lookahead, and reports `speed` more seconds of watching only
  if that stays within the ceiling. It leaves once the next step would reach
  the target, and then forces completion with one report of exactly the
  target unless the last reply already said the quest was completed.

  The wall clock and the server are parameters: `clock(i)` is Date.now() at
  the top of the i-th iteration, and `replies(i)` is the server's answer to
  the report made in iteration i (the extra final report uses the index that
  follows the last iteration). The loop is verified for every such clock and
  every such server.
 */
module VideoProgress {
  import opened Options

  /** How far ahead of elapsed time a report may claim, in seconds. */
  const MaxFuture: int := 10

  /** The speed used when the completionSpeed setting is 0 or unset. */
  const DefaultSpeed: nat := 10

  /** `settings.store.completionSpeed || 10`. */
  function Speed(completionSpeed: nat): (s: nat)
    ensures s >= 1
    ensures completionSpeed > 0 ==> s == completionSpeed
    ensures completionSpeed == 0 ==> s == DefaultSpeed
  {
    if completionSpeed == 0 then DefaultSpeed else completionSpeed
  }

  /**
    maxAllowed: whole seconds elapsed since enrolment plus MaxFuture. With a
    positive divisor Dafny's `/` rounds down, as Math.floor does, also when
    the clock is behind the enrolment time.
   */
  function Ceiling(now: int, enrolledAt: int): int
  {
    (now - enrolledAt) / 1000 + MaxFuture
  }

  function Min(a: int, b: int): int { if a < b then a else b }

  /** What a progress post comes back with: whether completed_at is set, or an exception. */
  datatype Reply = Ack(completed: bool) | Failure

  /** One iteration: the clock read, secondsDone at the top, and the value reported, if any. */
  datatype Tick = Tick(now: int, done: int, post: Option<int>)

  /** secondsDone at the end of an iteration whose post succeeded. */
  function After(t: Tick): int
  {
    if t.post.Some? then t.post.value else t.done
  }

  /**
    How the handler ends. Finished carries the extra report made after the
    loop, if one was made. ProgressFailed: a report inside the loop threw; the
    handler returns false. FinalReportFailed: the extra report threw; the
    exception leaves the handler.
   */
  datatype VideoOutcome = Finished(finalReport: Option<int>) | ProgressFailed | FinalReportFailed

  /** A report is made exactly when the ceiling leaves room for a whole step, and it reports one step, clamped to the target. */
  ghost predicate Paced(t: Tick, needed: int, speed: nat, enrolledAt: int)
  {
    t.post == if Ceiling(t.now, enrolledAt) - t.done >= speed then Some(Min(needed, t.done + speed)) else None
  }

  /** The iterations of one run of the loop, up to and including the one it leaves in. */
  ghost predicate LoopTrace(ticks: seq<Tick>, initial: int, needed: int, speed: nat, enrolledAt: int, clock: nat -> int)
  {
    && |ticks| >= 1
    && ticks[0].done == initial
    && (forall i :: 0 <= i < |ticks| ==> ticks[i].now == clock(i) && Paced(ticks[i], needed, speed, enrolledAt))
    && (forall i :: 0 <= i < |ticks| - 1 ==> ticks[i + 1].done == After(ticks[i]))
    && (forall i :: 0 <= i < |ticks| - 1 ==> ticks[i].done + speed < needed)
  }

  /** The `completed` variable after these iterations: every successful report overwrites it. */
  ghost function CompletedFlag(ticks: seq<Tick>, replies: nat -> Reply): bool
  {
    if ticks == [] then false
    else
      var last := |ticks| - 1;
      if ticks[last].post.Some? && replies(last).Ack? then replies(last).completed
      else CompletedFlag(ticks[..last], replies)
  }

  /** The clock moves on by at least the one-second sleep from one iteration to the next. */
  ghost predicate Ticking(clock: nat -> int)
  {
    forall i: nat, j: nat :: j == i + 1 ==> clock(i) + 1000 <= clock(j)
  }

  /** Each iteration raises the ceiling by at least one, since the clock moves on by at least a second. */
  lemma CeilingStep(now: int, later: int, enrolledAt: int)
    requires now + 1000 <= later
    ensures Ceiling(now, enrolledAt) + 1 <= Ceiling(later, enrolledAt)
  {
    var x := now - enrolledAt;
    var y := later - enrolledAt;
    assert (x + 1000) / 1000 == x / 1000 + 1;
    assert x + 1000 <= y;
  }

  /** Iterations that all went round again: the loop invariant of the handler. */
  ghost predicate Continuing(ticks: seq<Tick>, initial: int, needed: int, speed: nat, enrolledAt: int, clock: nat -> int)
  {
    && (|ticks| > 0 ==> ticks[0].done == initial)
    && (forall i :: 0 <= i < |ticks| ==> ticks[i].now == clock(i) && Paced(ticks[i], needed, speed, enrolledAt))
    && (forall i :: 0 <= i < |ticks| - 1 ==> ticks[i + 1].done == After(ticks[i]))
    && (forall i :: 0 <= i < |ticks| ==> ticks[i].done + speed < needed)
  }

  /** secondsDone after these iterations. */
  ghost function DoneAfter(ticks: seq<Tick>, initial: int): int
  {
    if ticks == [] then initial else After(ticks[|ticks| - 1])
  }

  /** Every report made in these iterations was answered. */
  ghost predicate Answered(ticks: seq<Tick>, replies: nat -> Reply)
  {
    forall i :: 0 <= i < |ticks| && ticks[i].post.Some? ==> replies(i).Ack?
  }

  lemma GoRound(ticks: seq<Tick>, t: Tick, initial: int, needed: int, speed: nat, enrolledAt: int,
                clock: nat -> int, replies: nat -> Reply)
    requires Continuing(ticks, initial, needed, speed, enrolledAt, clock) && Answered(ticks, replies)
    requires t.now == clock(|ticks|) && Paced(t, needed, speed, enrolledAt)
    requires t.done == DoneAfter(ticks, initial) && t.done + speed < needed
    requires t.post.Some? ==> replies(|ticks|).Ack?
    ensures Continuing(ticks + [t], initial, needed, speed, enrolledAt, clock) && Answered(ticks + [t], replies)
    ensures CompletedFlag(ticks + [t], replies) ==
      if t.post.Some? then replies(|ticks|).completed else CompletedFlag(ticks, replies)
  {
    var longer := ticks + [t];
    assert longer[..|ticks|] == ticks;
    assert forall i :: 0 <= i < |ticks| ==> longer[i] == ticks[i];
    assert longer[|ticks|] == t;
  }

  lemma Leave(ticks: seq<Tick>, t: Tick, initial: int, needed: int, speed: nat, enrolledAt: int,
              clock: nat -> int, replies: nat -> Reply)
    requires Continuing(ticks, initial, needed, speed, enrolledAt, clock) && Answered(ticks, replies)
    requires t.now == clock(|ticks|) && Paced(t, needed, speed, enrolledAt)
    requires t.done == DoneAfter(ticks, initial)
    ensures LoopTrace(ticks + [t], initial, needed, speed, enrolledAt, clock)
    ensures forall i :: 0 <= i < |ticks + [t]| - 1 && (ticks + [t])[i].post.Some? ==> replies(i).Ack?
    ensures CompletedFlag(ticks + [t], replies) ==
      if t.post.Some? && replies(|ticks|).Ack? then replies(|ticks|).completed else CompletedFlag(ticks, replies)
  {
    assert (ticks + [t])[..|ticks|] == ticks;
  }

  /**
    The `while (true)` loop of completeVideoQuest. `iterations` counts the
    iterations made; `failed` says a report in the last one threw.
   */
  method PacedLoop(initial: nat, needed: nat, speed: nat, enrolledAt: int,
                   clock: nat -> int, replies: nat -> Reply)
    returns (failed: bool, secondsDone: int, completed: bool, iterations: nat, ghost ticks: seq<Tick>)
    requires speed >= 1
    requires Ticking(clock)
    ensures LoopTrace(ticks, initial, needed, speed, enrolledAt, clock) && iterations == |ticks|
    ensures forall i :: 0 <= i < |ticks| - 1 && ticks[i].post.Some? ==> replies(i).Ack?
    ensures failed <==> ticks[|ticks| - 1].post.Some? && replies(|ticks| - 1).Failure?
    ensures failed ==> secondsDone == ticks[|ticks| - 1].done
    ensures !failed ==> secondsDone == After(ticks[|ticks| - 1]) && ticks[|ticks| - 1].done + speed >= needed
    ensures !failed ==> completed == CompletedFlag(ticks, replies)
    ensures !failed ==> secondsDone + speed >= needed
    ensures initial <= needed ==> secondsDone <= needed
  {
    var i: nat := 0;
    secondsDone := initial;
    completed := false;
    failed := false;
    ticks := [];
    while true
      invariant |ticks| == i
      invariant Continuing(ticks, initial, needed, speed, enrolledAt, clock)
      invariant Answered(ticks, replies)
      invariant secondsDone == DoneAfter(ticks, initial)
      invariant completed == CompletedFlag(ticks, replies)
      invariant initial <= needed ==> secondsDone <= needed
      decreases needed - secondsDone, speed - (Ceiling(clock(i), enrolledAt) - secondsDone)
    {
      var now := clock(i);
      var maxAllowed := Ceiling(now, enrolledAt);
      var diff := maxAllowed - secondsDone;
      var timestamp := secondsDone + speed;
      var tick := if diff >= speed then Tick(now, secondsDone, Some(Min(needed, timestamp)))
                  else Tick(now, secondsDone, None);
      if diff >= speed {
        var reply := replies(i);
        if reply.Failure? {
          Leave(ticks, tick, initial, needed, speed, enrolledAt, clock, replies);
          ticks := ticks + [tick];
          failed := true;
          break;
        }
        completed := reply.completed;
        secondsDone := Min(needed, timestamp);
      }
      if timestamp >= needed {
        Leave(ticks, tick, initial, needed, speed, enrolledAt, clock, replies);
        ticks := ticks + [tick];
        break;
      }
      GoRound(ticks, tick, initial, needed, speed, enrolledAt, clock, replies);
      ticks := ticks + [tick];
      CeilingStep(clock(i), clock(i + 1), enrolledAt);
      i := i + 1;
    }
    iterations := i + 1;
  }

  /** completeVideoQuest up to the point where it clears the flags: the loop, then the forced final report. */
  method RunVideoProgress(initial: nat, needed: nat, speed: nat, enrolledAt: int,
                          clock: nat -> int, replies: nat -> Reply)
    returns (outcome: VideoOutcome, secondsDone: int, ghost ticks: seq<Tick>)
    requires speed >= 1
    requires Ticking(clock)
    ensures LoopTrace(ticks, initial, needed, speed, enrolledAt, clock)
    ensures forall i :: 0 <= i < |ticks| - 1 && ticks[i].post.Some? ==> replies(i).Ack?
    ensures outcome == ProgressFailed <==> ticks[|ticks| - 1].post.Some? && replies(|ticks| - 1).Failure?
    ensures outcome == ProgressFailed ==> secondsDone == ticks[|ticks| - 1].done
    ensures outcome != ProgressFailed ==> secondsDone == After(ticks[|ticks| - 1])
    ensures outcome != ProgressFailed ==> ticks[|ticks| - 1].done + speed >= needed
    ensures outcome != ProgressFailed ==> secondsDone + speed >= needed
    ensures outcome == FinalReportFailed <==>
      outcome != ProgressFailed && !CompletedFlag(ticks, replies) && replies(|ticks|).Failure?
    ensures outcome.Finished? ==>
      outcome.finalReport == if CompletedFlag(ticks, replies) then None else Some(needed)
    ensures initial <= needed ==> secondsDone <= needed
  {
    var failed, completed, iterations;
    failed, secondsDone, completed, iterations, ticks := PacedLoop(initial, needed, speed, enrolledAt, clock, replies);
    if failed {
      outcome := ProgressFailed;
    } else if completed {
      outcome := Finished(None);
    } else if replies(iterations).Failure? {
      outcome := FinalReportFailed;
    } else {
      outcome := Finished(Some(needed));
    }
  }

  /** Every report stays within the ceiling of its iteration and never exceeds the target. */
  lemma PostsWithinCeiling(ticks: seq<Tick>, initial: int, needed: int, speed: nat, enrolledAt: int, clock: nat -> int)
    requires LoopTrace(ticks, initial, needed, speed, enrolledAt, clock)
    ensures forall i :: 0 <= i < |ticks| && ticks[i].post.Some? ==>
      ticks[i].post.value <= Ceiling(clock(i), enrolledAt) && ticks[i].post.value <= needed
  {
  }

  /** Each report before the last iteration advances secondsDone by exactly one step. */
  lemma PostsAdvanceBySpeed(ticks: seq<Tick>, initial: int, needed: int, speed: nat, enrolledAt: int, clock: nat -> int)
    requires LoopTrace(ticks, initial, needed, speed, enrolledAt, clock)
    ensures forall i :: 0 <= i < |ticks| - 1 && ticks[i].post.Some? ==>
      ticks[i + 1].done == ticks[i].done + speed
    ensures forall i :: 0 <= i < |ticks| - 1 && ticks[i].post.None? ==>
      ticks[i + 1].done == ticks[i].done
  {
  }

  /** secondsDone never exceeds the target when it starts at or below it. */
  lemma {:induction false} DoneWithinTarget(ticks: seq<Tick>, initial: int, needed: int, speed: nat,
                                            enrolledAt: int, clock: nat -> int, n: nat)
    requires LoopTrace(ticks, initial, needed, speed, enrolledAt, clock)
    requires initial <= needed
    requires n < |ticks|
    ensures ticks[n].done <= needed
    ensures After(ticks[n]) <= needed
  {
    assert Paced(ticks[n], needed, speed, enrolledAt);
    if n > 0 {
      DoneWithinTarget(ticks, initial, needed, speed, enrolledAt, clock, n - 1);
    }
  }

  /** secondsDone never goes down from one iteration to a later one. */
  lemma {:induction false} DoneMonotone(ticks: seq<Tick>, initial: int, needed: int, speed: nat,
                                        enrolledAt: int, clock: nat -> int, m: nat, n: nat)
    requires LoopTrace(ticks, initial, needed, speed, enrolledAt, clock)
    requires m <= n < |ticks|
    ensures ticks[m].done <= ticks[n].done
    decreases n - m
  {
    if m < n {
      assert Paced(ticks[m], needed, speed, enrolledAt);
      DoneMonotone(ticks, initial, needed, speed, enrolledAt, clock, m + 1, n);
    }
  }

  /** When no successful report said completed, the flag is still false after the loop. */
  lemma {:induction false} NoCompletionNoFlag(ticks: seq<Tick>, replies: nat -> Reply)
    requires forall i :: 0 <= i < |ticks| && ticks[i].post.Some? ==> replies(i) != Ack(true)
    ensures !CompletedFlag(ticks, replies)
  {
    if ticks != [] {
      var last := |ticks| - 1;
      NoCompletionNoFlag(ticks[..last], replies);
    }
  }

  /** The flag is set only if some successful report said completed. */
  lemma {:induction false} FlagHasWitness(ticks: seq<Tick>, replies: nat -> Reply)
    requires CompletedFlag(ticks, replies)
    ensures exists i :: 0 <= i < |ticks| && ticks[i].post.Some? && replies(i) == Ack(true)
  {
    var last := |ticks| - 1;
    if !(ticks[last].post.Some? && replies(last).Ack?) {
      FlagHasWitness(ticks[..last], replies);
      var i :| 0 <= i < last && ticks[..last][i].post.Some? && replies(i) == Ack(true);
      assert ticks[i] == ticks[..last][i];
    }
  }

  /**
    With target 30, step 10 and a clock that reads exactly one second per
    iteration from enrolment, the ceiling of iteration i is i + 10, so
    secondsDone is 0, then 10 for iterations 1 to 10, then 20.
   */
  lemma {:induction false} ThirtySecondDone(ticks: seq<Tick>, enrolledAt: int, clock: nat -> int, n: nat)
    requires forall i: nat :: clock(i) == enrolledAt + 1000 * i
    requires LoopTrace(ticks, 0, 30, 10, enrolledAt, clock)
    requires n < |ticks| && n <= 11
    ensures ticks[n].done == if n == 0 then 0 else if n <= 10 then 10 else 20
  {
    if n > 0 {
      ThirtySecondDone(ticks, enrolledAt, clock, n - 1);
      var m := n - 1;
      assert (1000 * m) / 1000 == m;
      assert Ceiling(clock(m), enrolledAt) == m + 10;
      assert Paced(ticks[m], 30, 10, enrolledAt);
      assert ticks[n].done == After(ticks[m]);
    }
  }

  /**
    A run with target 30, step 10 and a clock ticking once a second, against
    a server that never completes: twelve iterations, reports of 10 and 20
    in iterations 0 and 10, none in the last, then the forced report of 30,
    which lies beyond the last iteration's ceiling of 21.
   */
  method ThirtySecondRun(enrolledAt: int) returns (outcome: VideoOutcome, done: int, ghost ticks: seq<Tick>)
    ensures outcome == Finished(Some(30))
    ensures done == 20
    ensures |ticks| == 12 && ticks[11].post == None
    ensures Ceiling(enrolledAt + 11000, enrolledAt) == 21 < outcome.finalReport.value
  {
    var clock := (i: nat) => enrolledAt + 1000 * i;
    var replies := (i: nat) => Ack(false);
    outcome, done, ticks := RunVideoProgress(0, 30, 10, enrolledAt, clock, replies);
    NoCompletionNoFlag(ticks, replies);
    var last := |ticks| - 1;
    if last <= 10 {
      ThirtySecondDone(ticks, enrolledAt, clock, last);
      assert false;
    }
    if last > 11 {
      ThirtySecondDone(ticks, enrolledAt, clock, 11);
      assert false;
    }
    ThirtySecondDone(ticks, enrolledAt, clock, 11);
    assert (1000 * 11) / 1000 == 11;
    assert Paced(ticks[11], 30, 10, enrolledAt);
  }
}
