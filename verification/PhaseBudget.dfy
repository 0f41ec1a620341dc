/** The time budgets of a sandbox job.

    Instants and durations are counted in nanoseconds.  Each stage of a job is
    wrapped in a timeout computed when the stage starts, from what is left of the
    job's deadline; the clock moves only inside those awaits. */
module PhaseBudget {
  type Nanos = nat

  const SECOND: Nanos := 1_000_000_000

  const BOOT_TIMEOUT: Nanos := 600 * SECOND

  datatype Phase = Image | Boot | Upload | Build | Run

  function Cap(phase: Phase): Nanos {
    match phase
    case Image => 300 * SECOND
    case Boot => BOOT_TIMEOUT
    case Upload => 300 * SECOND
    case Build => 1800 * SECOND
    case Run => 1800 * SECOND
  }

  /** Subtraction that stops at zero. */
  function Saturating(a: Nanos, b: Nanos): Nanos {
    if a < b then 0 else a - b
  }

  function Share(remaining: Nanos, phase: Phase): Nanos {
    match phase
    case Image => remaining / 3
    case Boot => remaining / 2
    case Upload => remaining
    case Build => remaining
    case Run => Saturating(remaining, 5 * SECOND)
  }

  function Max(a: Nanos, b: Nanos): Nanos {
    if a < b then b else a
  }

  function Min(a: Nanos, b: Nanos): Nanos {
    if a < b then a else b
  }

  /** Never less than a second, however late, and never more than the stage's cap. */
  function Budget(deadline: Nanos, now: Nanos, phase: Phase): (budget: Nanos)
    ensures SECOND <= budget <= Cap(phase)
    ensures budget > SECOND ==> now + budget <= deadline
  {
    Max(Min(Share(Saturating(deadline, now), phase), Cap(phase)), SECOND)
  }

  // ----- The stages of a job -----

  function Rank(phase: Phase): nat {
    match phase
    case Image => 0
    case Boot => 1
    case Upload => 2
    case Build => 3
    case Run => 4
  }

  /** Creating a machine and initialising it are two awaits under one budget. */
  function Awaits(phase: Phase): nat {
    if phase == Boot then 2 else 1
  }

  /** A stage and how long each of its awaits took; fewer than all of them if one
      failed. */
  datatype Stage = Stage(phase: Phase, took: seq<Nanos>)

  function Sum(took: seq<Nanos>): Nanos {
    if took == [] then 0 else took[0] + Sum(took[1..])
  }

  predicate WithinBudget(deadline: Nanos, now: Nanos, stage: Stage) {
    && |stage.took| <= Awaits(stage.phase)
    && forall k | 0 <= k < |stage.took| :: stage.took[k] <= Budget(deadline, now, stage.phase)
  }

  /** The stages come in the order of the phases; any of them may be skipped (the
      image is ready, a machine is kept, nothing to upload or build) and the job may
      end early. */
  predicate Timeline(deadline: Nanos, now: Nanos, from: nat, stages: seq<Stage>)
    decreases |stages|
  {
    stages == [] ||
    (&& from <= Rank(stages[0].phase)
     && WithinBudget(deadline, now, stages[0])
     && Timeline(deadline, now + Sum(stages[0].took), Rank(stages[0].phase) + 1, stages[1..]))
  }

  function End(now: Nanos, stages: seq<Stage>): Nanos
    decreases |stages|
  {
    if stages == [] then now else End(now + Sum(stages[0].took), stages[1..])
  }

  /** Awaits in the phases from rank `from` on. */
  function AwaitsFrom(from: nat): nat {
    if from == 0 then 6 else if from == 1 then 5 else if from <= 4 then 5 - from else 0
  }

  lemma StageEndsBy(deadline: Nanos, now: Nanos, stage: Stage)
    requires WithinBudget(deadline, now, stage)
    ensures now + Sum(stage.took) <= Max(now, deadline) + Awaits(stage.phase) * SECOND
  {
    var b := Budget(deadline, now, stage.phase);
    if |stage.took| == 1 {
      assert Sum(stage.took) == stage.took[0] + Sum([]);
    } else if |stage.took| == 2 {
      assert Sum(stage.took) == stage.took[0] + Sum(stage.took[1..]);
      assert Sum(stage.took[1..]) == stage.took[1] + Sum([]);
    }
  }

  lemma {:induction false} TimelineEndsBy(deadline: Nanos, now: Nanos, from: nat, stages: seq<Stage>)
    requires Timeline(deadline, now, from, stages)
    ensures End(now, stages) <= Max(now, deadline) + AwaitsFrom(from) * SECOND
    decreases |stages|
  {
    if stages != [] {
      var stage := stages[0];
      StageEndsBy(deadline, now, stage);
      TimelineEndsBy(deadline, now + Sum(stage.took), Rank(stage.phase) + 1, stages[1..]);
    }
  }

  /** Whatever stages a job goes through and however long they take within their
      timeouts, it is over six seconds after its start or its deadline, whichever
      is later. */
  lemma JobEndsBy(deadline: Nanos, start: Nanos, stages: seq<Stage>)
    requires Timeline(deadline, start, 0, stages)
    ensures End(start, stages) <= Max(start, deadline) + 6 * SECOND
  {
    TimelineEndsBy(deadline, start, 0, stages);
  }

  ghost predicate CanEndAt(deadline: Nanos, start: Nanos, end: Nanos) {
    exists stages :: Timeline(deadline, start, 0, stages) && End(start, stages) == end
  }

  /** A job that starts before its deadline stays below the bound: with the image
      stage the first second is spent before the deadline, without it one await
      is missing. */
  lemma EarlyStartStaysBelow(deadline: Nanos, start: Nanos, stages: seq<Stage>)
    requires start < deadline && Timeline(deadline, start, 0, stages)
    ensures End(start, stages) < deadline + 6 * SECOND
  {
    if stages != [] {
      var stage := stages[0];
      StageEndsBy(deadline, start, stage);
      TimelineEndsBy(deadline, start + Sum(stage.took), Rank(stage.phase) + 1, stages[1..]);
      if stage.phase == Image && stage.took != [] {
        assert Sum(stage.took) == stage.took[0] + Sum([]);
      }
    }
  }

  lemma OneMoreStage(deadline: Nanos, now: Nanos, from: nat, stage: Stage, rest: seq<Stage>)
    requires from <= Rank(stage.phase) && WithinBudget(deadline, now, stage)
    requires Timeline(deadline, now + Sum(stage.took), Rank(stage.phase) + 1, rest)
    ensures Timeline(deadline, now, from, [stage] + rest)
    ensures End(now, [stage] + rest) == End(now + Sum(stage.took), rest)
  {
    assert ([stage] + rest)[1..] == rest;
  }

  lemma OneSecondEach()
    ensures Sum([SECOND]) == SECOND
    ensures Sum([SECOND, SECOND]) == 2 * SECOND
  {
    assert [SECOND, SECOND][1..] == [SECOND];
    assert [SECOND][1..] == [];
  }

  /** The bound is attained by exactly the jobs taken up at or after their
      deadline, which still get a second for each of the six awaits. */
  lemma BoundAttainedIff(deadline: Nanos, start: Nanos)
    ensures CanEndAt(deadline, start, Max(start, deadline) + 6 * SECOND) <==> start >= deadline
  {
    if start < deadline {
      forall stages | Timeline(deadline, start, 0, stages)
        ensures End(start, stages) != Max(start, deadline) + 6 * SECOND
      {
        EarlyStartStaysBelow(deadline, start, stages);
      }
    }
    if start >= deadline {
      OneSecondEach();
      var run, build, upload := Stage(Run, [SECOND]), Stage(Build, [SECOND]), Stage(Upload, [SECOND]);
      var boot, image := Stage(Boot, [SECOND, SECOND]), Stage(Image, [SECOND]);
      OneMoreStage(deadline, start + 5 * SECOND, 4, run, []);
      OneMoreStage(deadline, start + 4 * SECOND, 3, build, [run] + []);
      OneMoreStage(deadline, start + 3 * SECOND, 2, upload, [build] + ([run] + []));
      OneMoreStage(deadline, start + SECOND, 1, boot, [upload] + ([build] + ([run] + [])));
      OneMoreStage(deadline, start, 0, image, [boot] + ([upload] + ([build] + ([run] + []))));
    }
  }

  /** The run stage is sure to be over five seconds before the deadline exactly
      when at least six seconds are left as it starts. */
  lemma RunLeavesFiveSecondsIff(deadline: Nanos, now: Nanos)
    ensures (forall took: Nanos | WithinBudget(deadline, now, Stage(Run, [took])) :: now + took + 5 * SECOND <= deadline)
            <==> now + 6 * SECOND <= deadline
  {
    var most := Stage(Run, [Budget(deadline, now, Run)]);
    assert WithinBudget(deadline, now, most);
    forall took: Nanos | WithinBudget(deadline, now, Stage(Run, [took]))
      ensures took <= Budget(deadline, now, Run)
    {
      assert Stage(Run, [took]).took[0] == took;
    }
  }

  // ----- The whole queue -----

  /** A job of the queue: its deadline, fixed when it was submitted, its stages, and
      how long the pool refill took afterwards: up to two awaits under the fixed
      boot timeout, before the reply is sent. */
  datatype Queued = Queued(deadline: Nanos, stages: seq<Stage>, refill: seq<Nanos>)

  predicate RefillWithinBudget(pooling: bool, refill: seq<Nanos>) {
    && |refill| <= (if pooling then 2 else 0)
    && forall k | 0 <= k < |refill| :: refill[k] <= BOOT_TIMEOUT
  }

  function ReplyAt(now: Nanos, job: Queued): Nanos {
    End(now, job.stages) + Sum(job.refill)
  }

  /** Jobs served back to back from `now` on. */
  predicate Schedule(pooling: bool, now: Nanos, queue: seq<Queued>)
    decreases |queue|
  {
    queue == [] ||
    (&& Timeline(queue[0].deadline, now, 0, queue[0].stages)
     && RefillWithinBudget(pooling, queue[0].refill)
     && Schedule(pooling, ReplyAt(now, queue[0]), queue[1..]))
  }

  function LastReplyAt(now: Nanos, queue: seq<Queued>): Nanos
    decreases |queue|
  {
    if queue == [] then now else LastReplyAt(ReplyAt(now, queue[0]), queue[1..])
  }

  /** The longest a reply may trail the later of the job's start and its deadline. */
  function Overrun(pooling: bool): Nanos {
    if pooling then 6 * SECOND + 2 * BOOT_TIMEOUT else 6 * SECOND
  }

  lemma ReplyBy(pooling: bool, now: Nanos, job: Queued)
    requires Timeline(job.deadline, now, 0, job.stages) && RefillWithinBudget(pooling, job.refill)
    ensures ReplyAt(now, job) <= Max(now, job.deadline) + Overrun(pooling)
  {
    JobEndsBy(job.deadline, now, job.stages);
    if |job.refill| >= 1 {
      assert Sum(job.refill) == job.refill[0] + Sum(job.refill[1..]);
      if |job.refill| == 2 {
        assert Sum(job.refill[1..]) == job.refill[1] + Sum([]);
      }
    }
  }

  /** However the deadlines are spread, a queue of jobs with deadlines up to `latest`
      is drained within one overrun per job after the later of `now` and `latest`:
      a job never waits for the sum of the budgets ahead of it. */
  lemma {:induction false} QueueDrainsBy(pooling: bool, now: Nanos, latest: Nanos, queue: seq<Queued>)
    requires Schedule(pooling, now, queue)
    requires forall k | 0 <= k < |queue| :: queue[k].deadline <= latest
    ensures LastReplyAt(now, queue) <= Max(now, latest) + |queue| * Overrun(pooling)
    decreases |queue|
  {
    if queue != [] {
      ReplyBy(pooling, now, queue[0]);
      QueueDrainsBy(pooling, ReplyAt(now, queue[0]), latest, queue[1..]);
      assert |queue| * Overrun(pooling) == (|queue| - 1) * Overrun(pooling) + Overrun(pooling);
    }
  }

  /** The reply really waits for the refill: a job that is done by its deadline may
      be answered twenty minutes after it. */
  lemma RefillDelaysTheReply(deadline: Nanos)
    ensures
      var job := Queued(deadline, [], [BOOT_TIMEOUT, BOOT_TIMEOUT]);
      Schedule(true, deadline, [job]) && LastReplyAt(deadline, [job]) == deadline + 1200 * SECOND
  {
    var job := Queued(deadline, [], [BOOT_TIMEOUT, BOOT_TIMEOUT]);
    assert [BOOT_TIMEOUT, BOOT_TIMEOUT][1..] == [BOOT_TIMEOUT];
    assert [BOOT_TIMEOUT][1..] == [];
    assert Sum([BOOT_TIMEOUT]) == BOOT_TIMEOUT;
    assert Sum(job.refill) == 2 * BOOT_TIMEOUT;
    assert [job][1..] == [];
    assert LastReplyAt(deadline, [job]) == LastReplyAt(ReplyAt(deadline, job), []);
  }

  /** Every reply comes within six seconds of the later of the job's start and its
      deadline if and only if machines are not pooled. */
  lemma RepliesInTimeIff(pooling: bool)
    ensures (forall now, job | Schedule(pooling, now, [job]) ::
               LastReplyAt(now, [job]) <= Max(now, job.deadline) + 6 * SECOND) <==> !pooling
  {
    if !pooling {
      forall now, job | Schedule(pooling, now, [job])
        ensures LastReplyAt(now, [job]) <= Max(now, job.deadline) + 6 * SECOND
      {
        ReplyBy(pooling, now, job);
        assert [job][1..] == [];
        assert LastReplyAt(now, [job]) == LastReplyAt(ReplyAt(now, job), []);
      }
    }
    if pooling {
      RefillDelaysTheReply(0);
      var job := Queued(0, [], [BOOT_TIMEOUT, BOOT_TIMEOUT]);
      assert Schedule(pooling, 0, [job]) && LastReplyAt(0, [job]) == 1200 * SECOND;
    }
  }

  /** The time that must be left for a stage to be given its full cap. */
  function EnoughForCap(phase: Phase): Nanos {
    match phase
    case Image => 900 * SECOND
    case Boot => 1200 * SECOND
    case Upload => 300 * SECOND
    case Build => 1800 * SECOND
    case Run => 1805 * SECOND
  }

  /** A stage gets its full cap exactly when that much is left as it starts, and a
      larger budget never comes from less time left. */
  lemma FullBudgetIff(deadline: Nanos, now: Nanos, later: Nanos, phase: Phase)
    requires now <= later
    ensures Budget(deadline, now, phase) == Cap(phase) <==> now + EnoughForCap(phase) <= deadline
    ensures Budget(deadline, later, phase) <= Budget(deadline, now, phase)
  {
    var left, less := Saturating(deadline, now), Saturating(deadline, later);
    assert less / 3 <= left / 3 && less / 2 <= left / 2;
  }

  /** Below its cap and above a second, a budget is a third of what is left for the
      image, half for the boot, all of it for upload and build, and all but five
      seconds for the run, rounded down. */
  lemma BudgetIsItsShare(deadline: Nanos, now: Nanos, phase: Phase)
    requires SECOND < Budget(deadline, now, phase) < Cap(phase)
    ensures
      var left, b := deadline - now, Budget(deadline, now, phase);
      match phase
      case Image => 3 * b <= left < 3 * b + 3
      case Boot => 2 * b <= left < 2 * b + 2
      case Upload => b == left
      case Build => b == left
      case Run => b + 5_000_000_000 == left
  {
  }

  /** The caps, and the time left up to which a stage gets no more than a second. */
  lemma LeastBudgetIff(deadline: Nanos, now: Nanos, phase: Phase)
    ensures Cap(phase) == match phase
                          case Image => 300_000_000_000
                          case Boot => 600_000_000_000
                          case Upload => 300_000_000_000
                          case Build => 1800_000_000_000
                          case Run => 1800_000_000_000
    ensures Budget(deadline, now, phase) == 1_000_000_000 <==>
            match phase
            case Image => deadline <= now + 3_000_000_002
            case Boot => deadline <= now + 2_000_000_001
            case Upload => deadline <= now + 1_000_000_000
            case Build => deadline <= now + 1_000_000_000
            case Run => deadline <= now + 6_000_000_000
  {
  }
}
