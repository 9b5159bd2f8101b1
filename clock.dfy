/** The playback clock: one iteration of the wait loop that reconciles the
    polled playback timestamp with local extrapolation and detects a pause.

    The time file poll is a parameter (-1 stands for "unknown": the file
    could not be opened), and so is the local time elapsed since the
    previous iteration. Times are reals; both correction constants are 0. */
module Clock {
  import opened Show

  /** Returned by the time-file poll when the file cannot be opened. */
  const Unknown: real := -1.0
  /** Time correction for audio playback delay (CORRECTION). */
  const Correction: real := 0.0
  /** Time correction for the decoder's timestamp delay (CORRECTION2). */
  const Correction2: real := 0.0
  /** How long the polled value may stay unchanged before playback counts as paused. */
  const Staleness: real := 0.6

  /** currTime and prevTime: the current show time and the last polled value adopted. */
  datatype Clock = Clock(curr: real, prev: real)

  /** One poll of the time file and the local time elapsed since the last iteration. */
  datatype Sample = Sample(poll: real, elapsed: real)

  datatype Branch = Adopt | Extrapolate | Pause

  /** Only `restart` and `end` skip the pause branch; `continue` does not. */
  predicate PauseExempt(op: Op)
  {
    op == Restart || op == End
  }

  /** Which branch one iteration takes. Only a known poll that differs
      from the adopted one is adopted; a pause needs the clock to have run
      the staleness threshold past the adopted poll, and never happens to
      `restart` or `end`. A known poll that has changed is always adopted;
      otherwise a clock that has run that far pauses every other command,
      and a less stale one extrapolates. */
  function StepBranch(c: Clock, g: real, op: Op): (b: Branch)
    ensures b == Adopt ==> g != Unknown && g != c.prev
    ensures b == Pause ==> c.curr - c.prev >= Staleness
    ensures PauseExempt(op) ==> b != Pause
    ensures g == c.prev || g == Unknown ==> b != Adopt
    ensures g != Unknown && g != c.prev ==> b == Adopt
    ensures (g == Unknown || g == c.prev) && c.curr - c.prev >= Staleness && !PauseExempt(op) ==> b == Pause
    ensures (g == Unknown || g == c.prev) && c.curr - c.prev < Staleness ==> b == Extrapolate
  {
    if g + Correction2 != c.prev && g != Unknown then Adopt
    else if c.prev > c.curr - Staleness then Extrapolate
    else if !PauseExempt(op) then Pause
    else Extrapolate
  }

  /** One iteration of the wait loop: adopt a fresh poll, extrapolate by the
      elapsed time, or (paused) leave the clock as it is until the poll
      changes. The adopted value moves only to a known poll, and then the
      current time jumps to it; otherwise the current time either stays or moves
      by the elapsed time, and for `restart` and `end` it always moves. A
      known poll that has changed is adopted at once; otherwise the clock
      stands still exactly when it is stale and the command is not exempt. */
  function Step(c: Clock, s: Sample, op: Op): (r: Clock)
    ensures r.prev != c.prev ==> s.poll != Unknown && r.curr == r.prev == s.poll
    ensures r.prev == c.prev ==> r.curr == c.curr || r.curr == c.curr + s.elapsed
    ensures PauseExempt(op) && r.prev == c.prev ==> r.curr == c.curr + s.elapsed
    ensures s.poll != Unknown && s.poll != c.prev ==> r == Clock(s.poll, s.poll)
    ensures (s.poll == Unknown || s.poll == c.prev) && c.curr - c.prev >= Staleness && !PauseExempt(op) ==> r == c
    ensures (s.poll == Unknown || s.poll == c.prev) && (c.curr - c.prev < Staleness || PauseExempt(op))
            ==> r == Clock(c.curr + s.elapsed, c.prev)
  {
    match StepBranch(c, s.poll, op)
    case Adopt => Clock(s.poll + Correction2, s.poll + Correction2)
    case Extrapolate => Clock(c.curr + s.elapsed, c.prev)
    case Pause => c
  }

  /** The clock after a sequence of iterations, all while waiting on one command. */
  function Run(c: Clock, samples: seq<Sample>, op: Op): Clock
  {
    if |samples| == 0 then c
    else Step(Run(c, samples[..|samples| - 1], op), samples[|samples| - 1], op)
  }

  /** The wait loop exits once the command's offset is no longer beyond the
      current time shifted by the accumulated `add`. */
  predicate Due(startTime: real, currTime: real, add: real)
  {
    !(startTime > currTime + Correction - add)
  }

  /** Whether a command at `startTime` is due once the wait has run the
      clock over the first j samples. */
  predicate DueAfter(startTime: real, c: Clock, samples: seq<Sample>, op: Op, add: real, j: nat)
    requires j <= |samples|
  {
    Due(startTime, Run(c, samples[..j], op).curr, add)
  }

  /** How many samples the wait before a command consumes: the first i at
      which the command is due on the clock run over the first i samples,
      or all of them when it never becomes due. */
  function Wait(startTime: real, c: Clock, samples: seq<Sample>, op: Op, add: real): (k: nat)
    ensures k <= |samples|
    ensures DueAfter(startTime, c, samples, op, add, k) || k == |samples|
    ensures forall j :: 0 <= j < k ==> !DueAfter(startTime, c, samples, op, add, j)
  {
    WaitFrom(startTime, c, samples, op, add, 0)
  }

  /** `Wait` for a wait not yet due after i samples. */
  function WaitFrom(startTime: real, c: Clock, samples: seq<Sample>, op: Op, add: real, i: nat): (k: nat)
    requires i <= |samples|
    ensures i <= k <= |samples|
    ensures DueAfter(startTime, c, samples, op, add, k) || k == |samples|
    ensures forall j :: i <= j < k ==> !DueAfter(startTime, c, samples, op, add, j)
    decreases |samples| - i
  {
    if i == |samples| || DueAfter(startTime, c, samples, op, add, i) then i
    else WaitFrom(startTime, c, samples, op, add, i + 1)
  }

  /** A wait that ends due at k, or runs out at k, and was not due before
      has consumed exactly `Wait` samples. */
  lemma WaitUnique(startTime: real, c: Clock, samples: seq<Sample>, op: Op, add: real, k: nat)
    requires k <= |samples|
    requires DueAfter(startTime, c, samples, op, add, k) || k == |samples|
    requires forall j :: 0 <= j < k ==> !DueAfter(startTime, c, samples, op, add, j)
    ensures k == Wait(startTime, c, samples, op, add)
  {
  }

  /** `add` is a shift of the schedule, not of the clock: a command at offset
      s fires when one at offset s + add would fire with no add, so a
      positive add delays every later command. */
  lemma AddShiftsSchedule(startTime: real, currTime: real, add: real, more: real)
    requires more >= 0.0
    ensures Due(startTime, currTime, add) <==> Due(startTime + add, currTime, 0.0)
    ensures Due(startTime, currTime, add + more) ==> Due(startTime, currTime, add)
  {
  }

  /** Terminal commands other than `continue` never pause. */
  lemma ExemptNeverPauses(c: Clock, s: Sample, op: Op)
    requires PauseExempt(op)
    ensures StepBranch(c, s.poll, op) != Pause
    ensures s.elapsed >= 0.0 && StepBranch(c, s.poll, op) == Extrapolate ==> Step(c, s, op).curr >= c.curr
  {
  }

  /** `continue` is not exempt: with a stale poll it pauses. */
  lemma ContinueCanPause()
    ensures StepBranch(Clock(1.0, 0.0), 0.0, Continue) == Pause
    ensures StepBranch(Clock(1.0, 0.0), 0.0, End) == Extrapolate
  {
  }

  /** Adopting a poll is idempotent: polling the same value again extrapolates. */
  lemma AdoptOnce(c: Clock, s: Sample, t: Sample, op: Op)
    requires StepBranch(c, s.poll, op) == Adopt && t.poll == s.poll
    ensures StepBranch(Step(c, s, op), t.poll, op) == Extrapolate
    ensures Step(Step(c, s, op), t, op) == Clock(s.poll + t.elapsed, s.poll)
  {
  }

  lemma RunAppend(c: Clock, samples: seq<Sample>, s: Sample, op: Op)
    ensures Run(c, samples + [s], op) == Step(Run(c, samples, op), s, op)
  {
    assert (samples + [s])[..|samples|] == samples;
  }

  /** With non-negative elapsed times the current time never falls behind
      the last adopted poll. */
  lemma {:induction false} RunKeepsAnchor(c: Clock, samples: seq<Sample>, op: Op)
    requires c.curr >= c.prev
    requires forall k :: 0 <= k < |samples| ==> samples[k].elapsed >= 0.0
    ensures Run(c, samples, op).curr >= Run(c, samples, op).prev
  {
    if |samples| > 0 {
      var init := samples[..|samples| - 1];
      assert forall k :: 0 <= k < |init| ==> init[k] == samples[k];
      RunKeepsAnchor(c, init, op);
    }
  }

  /** Pause detection bounds extrapolation: for a command that can pause,
      the current time never runs more than the staleness threshold plus one
      elapsed step past the last adopted poll. */
  lemma {:induction false} RunStaysNearPoll(c: Clock, samples: seq<Sample>, op: Op, maxStep: real)
    requires !PauseExempt(op)
    requires c.curr - c.prev < Staleness + maxStep && maxStep >= 0.0
    requires forall k :: 0 <= k < |samples| ==> samples[k].elapsed <= maxStep
    ensures Run(c, samples, op).curr - Run(c, samples, op).prev < Staleness + maxStep
  {
    if |samples| > 0 {
      var init := samples[..|samples| - 1];
      assert forall k :: 0 <= k < |init| ==> init[k] == samples[k];
      RunStaysNearPoll(c, init, op, maxStep);
    }
  }

  /** For `restart` and `end` a stalled poll never stops the clock: every
      iteration moves it by the elapsed time or adopts a new poll. */
  lemma {:induction false} ExemptRunAdvances(c: Clock, samples: seq<Sample>, op: Op)
    requires PauseExempt(op)
    requires forall k :: 0 <= k < |samples| ==> samples[k].poll == c.prev
    ensures Run(c, samples, op).prev == c.prev
    ensures Run(c, samples, op).curr == c.curr + SumElapsed(samples)
  {
    if |samples| > 0 {
      var init := samples[..|samples| - 1];
      assert forall k :: 0 <= k < |init| ==> init[k] == samples[k];
      ExemptRunAdvances(c, init, op);
    }
  }

  function SumElapsed(samples: seq<Sample>): real
  {
    if |samples| == 0 then 0.0 else SumElapsed(samples[..|samples| - 1]) + samples[|samples| - 1].elapsed
  }

  /** A poll p > 0 seen at local times t, t+0.2, t+0.4 and t+0.7, then a
      different known poll q: the clock extrapolates while p is less than
      0.6 s stale, then pauses for an `on` command but keeps extrapolating
      for `end`, and adopts q as soon as it is polled. */
  lemma StalePollScenario(p: real, q: real)
    requires p > 0.0 && q != p && q != Unknown
    ensures var samples := [Sample(p, 0.0), Sample(p, 0.2), Sample(p, 0.2), Sample(p, 0.3)];
      && Run(Clock(0.0, 0.0), samples, On) == Clock(p + 0.7, p)
      && StepBranch(Clock(p + 0.7, p), p, On) == Pause
      && Step(Clock(p + 0.7, p), Sample(p, 0.2), End) == Clock(p + 0.9, p)
      && Step(Clock(p + 0.7, p), Sample(q, 0.2), On) == Clock(q, q)
  {
    var samples := [Sample(p, 0.0), Sample(p, 0.2), Sample(p, 0.2), Sample(p, 0.3)];
    var c0 := Clock(0.0, 0.0);
    assert samples[..1][..0] == [];
    assert Run(c0, samples[..1], On) == Clock(p, p);
    assert samples[..2][..1] == samples[..1];
    assert Run(c0, samples[..2], On) == Clock(p + 0.2, p);
    assert samples[..3][..2] == samples[..2];
    assert Run(c0, samples[..3], On) == Clock(p + 0.4, p);
    assert samples[..3] == samples[..|samples| - 1];
  }

  /** After `play`, the show resumes at the first poll that is known and
      differs from the leftover value seen before the track started. */
  predicate FreshTimestamp(g: real, initTime: real)
  {
    !(g < 0.0 || g == initTime)
  }

  /** The play wait: index of the first fresh poll, or |polls| if none came. */
  method AwaitFreshTimestamp(polls: seq<real>, initTime: real) returns (k: nat)
    ensures k <= |polls|
    ensures k < |polls| ==> polls[k] >= 0.0 && polls[k] != initTime
    ensures forall j :: 0 <= j < k ==> polls[j] < 0.0 || polls[j] == initTime
  {
    k := 0;
    while k < |polls| && !FreshTimestamp(polls[k], initTime)
      invariant k <= |polls|
      invariant forall j :: 0 <= j < k ==> polls[j] < 0.0 || polls[j] == initTime
    {
      k := k + 1;
    }
  }
}
