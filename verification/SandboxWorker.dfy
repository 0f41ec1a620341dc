/** The sandbox worker: one thread serving jobs in order, holding at most one
    virtual machine, under the policy of a pool plan.

    Everything the hypervisor decides is an input: whether the image could be
    prepared, whether the held machine still answers, whether a boot, a job and a
    refill succeed. */
module SandboxWorker {
  import opened Prelude

  type JobId = nat

  /** Machines are numbered in the order they were booted. */
  type MachineId = nat

  const MAX_POOL_TARGET: nat := 8

  datatype PoolAction = Keep | Discard | Refill(target: nat)

  datatype PoolPlan = PoolPlan(reuse: bool, target: nat) {
    static function New(reuse: bool, configuredSize: nat): PoolPlan {
      PoolPlan(reuse, if reuse then 0 else if configuredSize < MAX_POOL_TARGET then configuredSize else MAX_POOL_TARGET)
    }

    function AfterJob(): seq<PoolAction> {
      if reuse then [Keep]
      else if target == 0 then [Discard]
      else [Discard, Refill(target)]
    }
  }

  datatype Failure = ImageUnavailable | BootFailed | JobFailed

  type Outcome = Result<Bytes, Failure>

  /** One job and what the hypervisor will do to it.  `image`, `answers`, `boots`
      and `refills` are consulted only where the worker asks. */
  datatype Job = Job(id: JobId, image: bool, answers: bool, boots: bool, result: Option<Bytes>, refills: bool)

  /** What a served job left behind: the reply sent and the machine it ran on. */
  datatype Turn = Turn(job: JobId, on: Option<MachineId>, reply: Outcome)

  /** `owned` are the machines whose handle was neither dropped nor given up. */
  datatype State = State(
    image: bool,
    machine: Option<MachineId>,
    owned: set<MachineId>,
    booted: nat,
    turns: seq<Turn>)

  const IDLE := State(false, None, {}, 0, [])

  // ----- What serving one job means -----

  function Held(s: State): set<MachineId> {
    if s.machine.Some? then {s.machine.value} else {}
  }

  function DropHeld(s: State): State {
    s.(machine := None, owned := s.owned - Held(s))
  }

  /** A successful boot: the new machine replaces whatever was held. */
  function Booted(s: State): State {
    s.(machine := Some(s.booted), owned := s.owned - Held(s) + {s.booted}, booted := s.booted + 1)
  }

  /** Image, then machine; the failure of either ends the preparation. */
  function Prepare(s: State, job: Job): (State, Option<Failure>) {
    if !s.image && !job.image then (s, Some(ImageUnavailable))
    else
      var s := s.(image := true);
      if s.machine.Some? && job.answers then (s, None)
      else if job.boots then (Booted(s), None)
      else (s, Some(BootFailed))
  }

  function OutcomeOf(job: Job, failed: Option<Failure>): Outcome {
    if failed.Some? then Err(failed.value)
    else if job.result.Some? then Ok(job.result.value)
    else Err(JobFailed)
  }

  function Settle(plan: PoolPlan, s: State, job: Job): State {
    if plan.reuse then s
    else if plan.target > 0 && s.image && job.refills then Booted(DropHeld(s))
    else DropHeld(s)
  }

  function Serve(plan: PoolPlan, s: State, job: Job): State {
    var (ready, failed) := Prepare(s, job);
    var outcome := OutcomeOf(job, failed);
    var turn := Turn(job.id, if failed.None? then ready.machine else None, outcome);
    var after := Settle(plan, if outcome.Err? then DropHeld(ready) else ready, job);
    after.(turns := after.turns + [turn])
  }

  function ServeAll(plan: PoolPlan, s: State, jobs: seq<Job>): State
    decreases |jobs|
  {
    if jobs == [] then s else Serve(plan, ServeAll(plan, s, jobs[..|jobs| - 1]), jobs[|jobs| - 1])
  }

  // ----- The worker itself -----

  class Worker {
    const plan: PoolPlan
    var image: bool
    var machine: Option<MachineId>
    var owned: set<MachineId>
    var booted: nat
    var turns: seq<Turn>

    ghost function View(): State
      reads this
    {
      State(image, machine, owned, booted, turns)
    }

    constructor (reuse: bool, configuredSize: nat)
      ensures plan == PoolPlan.New(reuse, configuredSize)
      ensures View() == IDLE
    {
      plan := PoolPlan.New(reuse, configuredSize);
      image, machine, owned, booted, turns := false, None, {}, 0, [];
    }

    /** The guest could not be trusted, or the plan gives it up. */
    method DropMachine()
      modifies this`machine, this`owned
      ensures View() == DropHeld(old(View()))
    {
      if machine.Some? {
        owned := owned - {machine.value};
      }
      machine := None;
    }

    /** Boots a machine and, on success, puts it where the worker keeps its one
        machine; a handle that was there is dropped by the assignment. */
    method BootMachine(boots: bool) returns (ok: bool)
      modifies this`machine, this`owned, this`booted
      ensures ok == boots
      ensures View() == if boots then Booted(old(View())) else old(View())
    {
      ok := boots;
      if boots {
        DropMachine();
        machine, owned, booted := Some(booted), owned + {booted}, booted + 1;
      }
    }

    method EnsureImage(available: bool) returns (ok: bool)
      modifies this`image
      ensures ok <==> old(image) || available
      ensures View() == old(View()).(image := ok)
    {
      if image {
        return true;
      }
      image := available;
      return available;
    }

    method PrepareJob(job: Job) returns (failed: Option<Failure>)
      modifies this`image, this`machine, this`owned, this`booted
      ensures (View(), failed) == Prepare(old(View()), job)
      ensures failed == Some(ImageUnavailable) <==> !old(image) && !job.image
      ensures failed == Some(BootFailed) <==>
              (old(image) || job.image) && !(old(machine).Some? && job.answers) && !job.boots
      ensures failed.None? && old(machine).Some? && job.answers ==> machine == old(machine) && booted == old(booted)
      ensures failed.None? && !(old(machine).Some? && job.answers) ==>
              machine == Some(old(booted)) && booted == old(booted) + 1
    {
      var ready := EnsureImage(job.image);
      if !ready {
        return Some(ImageUnavailable);
      }
      if machine.None? || !job.answers {
        var ok := BootMachine(job.boots);
        if !ok {
          return Some(BootFailed);
        }
      }
      return None;
    }

    /** Carries out the plan's actions, one after the other. */
    method FollowPlan(job: Job)
      modifies this`machine, this`owned, this`booted
      ensures View() == Settle(plan, old(View()), job)
    {
      var actions := plan.AfterJob();
      ghost var before := View();
      var i := 0;
      while i < |actions|
        invariant 0 <= i <= |actions|
        invariant image == old(image) && turns == old(turns)
        invariant i == 0 || plan.reuse ==> View() == before
        invariant i == 1 && !plan.reuse ==> View() == DropHeld(before)
        invariant i == 2 ==> View() == Settle(plan, before, job)
      {
        match actions[i] {
          case Keep =>
          case Discard => DropMachine();
          case Refill(_) =>
            if image {
              var _ := BootMachine(job.refills);
            }
        }
        i := i + 1;
      }
    }

    method ServeJob(job: Job)
      modifies this
      ensures View() == Serve(plan, old(View()), job)
    {
      var failed := PrepareJob(job);
      var outcome := OutcomeOf(job, failed);
      var turn := Turn(job.id, if failed.None? then machine else None, outcome);
      if outcome.Err? {
        DropMachine();
      }
      FollowPlan(job);
      turns := turns + [turn];
    }

    method Run(jobs: seq<Job>)
      modifies this
      ensures View() == ServeAll(plan, old(View()), jobs)
    {
      var i := 0;
      while i < |jobs|
        invariant 0 <= i <= |jobs|
        invariant View() == ServeAll(plan, old(View()), jobs[..i])
      {
        ServeJob(jobs[i]);
        i := i + 1;
        assert jobs[..i][..i - 1] == jobs[..i - 1];
      }
      assert jobs[..|jobs|] == jobs;
    }
  }

  // ----- One reply per job, and no machine left behind -----

  function Ids(jobs: seq<Job>): seq<JobId> {
    seq(|jobs|, k requires 0 <= k < |jobs| => jobs[k].id)
  }

  function Answered(turns: seq<Turn>): seq<JobId> {
    seq(|turns|, k requires 0 <= k < |turns| => turns[k].job)
  }

  ghost predicate Orderly(s: State) {
    && s.owned == Held(s)
    && (s.machine.Some? ==> s.image && s.machine.value < s.booted)
    && (forall k | 0 <= k < |s.turns| && s.turns[k].on.Some? :: s.turns[k].on.value < s.booted)
    && (forall k | 0 <= k < |s.turns| && s.turns[k].reply.Ok? :: s.turns[k].on.Some?)
  }

  lemma PrepareKeepsOrder(s: State, job: Job)
    requires Orderly(s)
    ensures
      var (ready, failed) := Prepare(s, job);
      && Orderly(ready) && ready.turns == s.turns && ready.booted >= s.booted
      && (s.image ==> ready.image)
      && (failed.None? ==> ready.machine.Some?)
  {
  }

  lemma SettleKeepsOrder(plan: PoolPlan, s: State, job: Job)
    requires Orderly(s)
    ensures
      var after := Settle(plan, s, job);
      && Orderly(after) && after.turns == s.turns && after.booted >= s.booted && after.image == s.image
  {
  }

  /** One job: one turn for it at the end, the earlier turns unchanged. */
  lemma ServeKeepsOrder(plan: PoolPlan, s: State, job: Job)
    requires Orderly(s)
    ensures
      var after := Serve(plan, s, job);
      && Orderly(after)
      && |after.turns| == |s.turns| + 1 && after.turns[..|s.turns|] == s.turns
      && after.turns[|s.turns|].job == job.id
      && (s.image ==> after.image)
  {
    PrepareKeepsOrder(s, job);
    var (ready, failed) := Prepare(s, job);
    var kept := if OutcomeOf(job, failed).Err? then DropHeld(ready) else ready;
    SettleKeepsOrder(plan, kept, job);
  }

  /** Serving any jobs in any mode answers each of them once, in order, gives up
      the handle of every machine it no longer holds, and never runs a job it
      reports as successful without a machine. */
  lemma {:induction false} OneReplyPerJob(plan: PoolPlan, jobs: seq<Job>)
    ensures
      var s := ServeAll(plan, IDLE, jobs);
      && Answered(s.turns) == Ids(jobs)
      && Orderly(s) && |s.owned| <= 1
    decreases |jobs|
  {
    if jobs != [] {
      var n := |jobs| - 1;
      OneReplyPerJob(plan, jobs[..n]);
      var s := ServeAll(plan, IDLE, jobs[..n]);
      ServeKeepsOrder(plan, s, jobs[n]);
      AnsweredSnoc(s.turns, ServeAll(plan, IDLE, jobs).turns, jobs);
    }
  }

  lemma AnsweredSnoc(turns: seq<Turn>, after: seq<Turn>, jobs: seq<Job>)
    requires jobs != [] && Answered(turns) == Ids(jobs[..|jobs| - 1])
    requires |after| == |turns| + 1 && after[..|turns|] == turns && after[|turns|].job == jobs[|jobs| - 1].id
    ensures Answered(after) == Ids(jobs)
  {
    assert |turns| == |Answered(turns)| == |Ids(jobs[..|jobs| - 1])| == |jobs| - 1;
    forall k | 0 <= k < |turns|
      ensures after[k].job == jobs[k].id
    {
      assert Answered(turns)[k] == Ids(jobs[..|jobs| - 1])[k];
      assert after[k] == turns[k];
    }
  }

  lemma OneTurnPerJob(plan: PoolPlan, jobs: seq<Job>)
    ensures |ServeAll(plan, IDLE, jobs).turns| == |jobs|
    ensures Orderly(ServeAll(plan, IDLE, jobs))
  {
    OneReplyPerJob(plan, jobs);
    assert |Answered(ServeAll(plan, IDLE, jobs).turns)| == |Ids(jobs)|;
  }

  /** What the last job adds to the turns and the image. */
  lemma LastJobAddsATurn(plan: PoolPlan, jobs: seq<Job>)
    requires jobs != []
    ensures
      var m := |jobs| - 1;
      var s, after := ServeAll(plan, IDLE, jobs[..m]), ServeAll(plan, IDLE, jobs);
      && |s.turns| == m && |after.turns| == m + 1 && after.turns[..m] == s.turns
      && (s.image ==> after.image)
  {
    var m := |jobs| - 1;
    OneTurnPerJob(plan, jobs[..m]);
    ServeKeepsOrder(plan, ServeAll(plan, IDLE, jobs[..m]), jobs[m]);
  }

  /** Turns are never rewritten: those of a prefix of the jobs stay. */
  lemma {:induction false} TurnsStay(plan: PoolPlan, jobs: seq<Job>, n: nat)
    requires n <= |jobs|
    ensures |ServeAll(plan, IDLE, jobs).turns| == |jobs|
    ensures ServeAll(plan, IDLE, jobs[..n]).turns == ServeAll(plan, IDLE, jobs).turns[..n]
    ensures ServeAll(plan, IDLE, jobs[..n]).image ==> ServeAll(plan, IDLE, jobs).image
    decreases |jobs|
  {
    if n == |jobs| {
      OneTurnPerJob(plan, jobs);
      assert jobs[..n] == jobs;
    } else {
      var m := |jobs| - 1;
      LastJobAddsATurn(plan, jobs);
      TurnsStay(plan, jobs[..m], n);
      assert jobs[..m][..n] == jobs[..n];
      PrefixOfPrefix(ServeAll(plan, IDLE, jobs).turns, m, n);
    }
  }

  lemma PrefixOfPrefix(turns: seq<Turn>, m: nat, n: nat)
    requires n <= m <= |turns|
    ensures turns[..m][..n] == turns[..n]
  {
  }

  /** The state in which job `j` is taken up, and the turn it gets. */
  lemma TurnOf(plan: PoolPlan, jobs: seq<Job>, j: nat)
    requires j < |jobs|
    ensures
      var s := ServeAll(plan, IDLE, jobs[..j]);
      var turns := ServeAll(plan, IDLE, jobs).turns;
      && Orderly(s) && |s.turns| == j < |turns| == |jobs|
      && s.turns == turns[..j]
      && Serve(plan, s, jobs[j]).turns == turns[..j + 1]
  {
    OneReplyPerJob(plan, jobs[..j]);
    TurnsStay(plan, jobs, j);
    TurnsStay(plan, jobs, j + 1);
    assert jobs[..j + 1][..j] == jobs[..j];
  }

  // ----- Isolation -----

  ghost predicate Untouched(s: State) {
    forall k | 0 <= k < |s.turns| && s.machine.Some? :: s.turns[k].on != s.machine
  }

  /** In fresh mode the machine held between jobs has run nothing yet. */
  lemma HeldMachineIsUnused(plan: PoolPlan, jobs: seq<Job>)
    requires !plan.reuse
    ensures Untouched(ServeAll(plan, IDLE, jobs))
  {
    OneReplyPerJob(plan, jobs);
    if jobs != [] {
      OneReplyPerJob(plan, jobs[..|jobs| - 1]);
    }
  }

  /** In reuse mode the machine held between jobs is that of the last job, kept
      exactly when that job succeeded. */
  lemma HeldMachineIsTheLast(plan: PoolPlan, jobs: seq<Job>)
    requires plan.reuse && jobs != []
    ensures
      var s := ServeAll(plan, IDLE, jobs);
      && |s.turns| == |jobs|
      && var last := s.turns[|jobs| - 1];
      && s.machine == if last.reply.Ok? then last.on else None
  {
    TurnOf(plan, jobs, |jobs| - 1);
    assert jobs[..|jobs|] == jobs;
  }

  /** Between its jobs `i` and `j` the machine of `i` was kept: every job from `i`
      on succeeded, and the machine answered every time it was taken up. */
  ghost predicate KeptBetween(turns: seq<Turn>, jobs: seq<Job>, i: nat, j: nat)
    requires i < j < |jobs| == |turns|
  {
    && (forall k | i <= k < j :: turns[k].reply.Ok?)
    && (forall k | i < k <= j :: jobs[k].answers)
  }

  /** Which machine a job gets: the one held, or one never seen before. */
  lemma MachineOfTurn(plan: PoolPlan, jobs: seq<Job>, j: nat)
    requires j < |jobs|
    ensures
      var s := ServeAll(plan, IDLE, jobs[..j]);
      var turns := ServeAll(plan, IDLE, jobs).turns;
      && |turns| == |jobs|
      && (turns[j].on.Some? && s.machine.Some? && jobs[j].answers ==> turns[j].on == s.machine)
      && (turns[j].on.Some? && !(s.machine.Some? && jobs[j].answers) ==>
            forall i | 0 <= i < j :: turns[i].on != turns[j].on)
  {
    TurnOf(plan, jobs, j);
    var s := ServeAll(plan, IDLE, jobs[..j]);
    var turns := ServeAll(plan, IDLE, jobs).turns;
    assert turns[j] == turns[..j + 1][j];
    forall i | 0 <= i < j
      ensures turns[i] == s.turns[i]
    {
    }
  }

  lemma NeverSharedInFresh(plan: PoolPlan, jobs: seq<Job>, i: nat, j: nat)
    requires !plan.reuse && i < j < |jobs|
    ensures |ServeAll(plan, IDLE, jobs).turns| == |jobs|
    ensures
      var turns := ServeAll(plan, IDLE, jobs).turns;
      turns[j].on.Some? ==> turns[i].on != turns[j].on
  {
    MachineOfTurn(plan, jobs, j);
    TurnOf(plan, jobs, j);
    HeldMachineIsUnused(plan, jobs[..j]);
    assert ServeAll(plan, IDLE, jobs).turns[i] == ServeAll(plan, IDLE, jobs[..j]).turns[i];
  }

  /** In reuse mode a job shares a machine with an earlier one through its
      immediate predecessor or not at all. */
  lemma SharedThroughPredecessor(plan: PoolPlan, jobs: seq<Job>, i: nat, j: nat)
    requires plan.reuse && i < j < |jobs|
    ensures |ServeAll(plan, IDLE, jobs).turns| == |jobs|
    ensures
      var turns := ServeAll(plan, IDLE, jobs).turns;
      && (turns[j - 1].reply.Ok? ==> turns[j - 1].on.Some?)
      && (turns[j].on.Some? ==>
            (turns[i].on == turns[j].on <==>
               turns[j - 1].reply.Ok? && jobs[j].answers && turns[i].on == turns[j - 1].on))
  {
    MachineOfTurn(plan, jobs, j);
    TurnOf(plan, jobs, j);
    HeldMachineIsTheLast(plan, jobs[..j]);
    var turns, s := ServeAll(plan, IDLE, jobs).turns, ServeAll(plan, IDLE, jobs[..j]);
    assert turns[i] == s.turns[i] && turns[j - 1] == s.turns[j - 1];
  }

  /** Two jobs run on the same machine exactly when machines are reused, all the
      jobs from the first up to the second succeeded, and the machine answered
      before every one of them.  So in fresh mode no machine runs two jobs, and in
      reuse mode no machine runs anything after a job that failed on it. */
  lemma {:induction false} SharedMachineIff(plan: PoolPlan, jobs: seq<Job>, i: nat, j: nat)
    requires i < j < |jobs|
    ensures |ServeAll(plan, IDLE, jobs).turns| == |jobs|
    ensures
      var turns := ServeAll(plan, IDLE, jobs).turns;
      turns[i].on.Some? && turns[j].on.Some? ==>
        (turns[i].on == turns[j].on <==> plan.reuse && KeptBetween(turns, jobs, i, j))
    decreases j
  {
    if !plan.reuse {
      NeverSharedInFresh(plan, jobs, i, j);
    } else {
      SharedThroughPredecessor(plan, jobs, i, j);
      if i < j - 1 {
        SharedMachineIff(plan, jobs, i, j - 1);
        KeptOneMore(ServeAll(plan, IDLE, jobs).turns, jobs, i, j);
      }
    }
  }

  lemma KeptOneMore(turns: seq<Turn>, jobs: seq<Job>, i: nat, j: nat)
    requires i < j - 1 < |jobs| - 1 && |turns| == |jobs|
    ensures KeptBetween(turns, jobs, i, j) <==>
            KeptBetween(turns, jobs, i, j - 1) && turns[j - 1].reply.Ok? && jobs[j].answers
  {
  }

  /** The image is prepared once: after one job got past that stage, no later job
      fails there. */
  lemma ImageStaysPrepared(plan: PoolPlan, jobs: seq<Job>, i: nat, j: nat)
    requires i < j < |jobs|
    ensures |ServeAll(plan, IDLE, jobs).turns| == |jobs|
    ensures
      var turns := ServeAll(plan, IDLE, jobs).turns;
      turns[j].reply == Err(ImageUnavailable) ==> turns[i].reply == Err(ImageUnavailable)
  {
    var turns := ServeAll(plan, IDLE, jobs).turns;
    OneTurnPerJob(plan, jobs);
    assert turns[i].reply != Err(ImageUnavailable) ==> ServeAll(plan, IDLE, jobs[..i + 1]).image by {
      TurnOf(plan, jobs, i);
      assert turns[i] == turns[..i + 1][i];
      ImageAfterTurn(plan, ServeAll(plan, IDLE, jobs[..i]), jobs[i]);
      assert jobs[..i + 1][..i] == jobs[..i];
    }
    assert jobs[..j][..i + 1] == jobs[..i + 1];
    TurnsStay(plan, jobs[..j], i + 1);
    TurnOf(plan, jobs, j);
    assert turns[j] == turns[..j + 1][j];
    ImageAfterTurn(plan, ServeAll(plan, IDLE, jobs[..j]), jobs[j]);
  }

  lemma ImageAfterTurn(plan: PoolPlan, s: State, job: Job)
    requires Orderly(s)
    ensures |Serve(plan, s, job).turns| == |s.turns| + 1
    ensures Serve(plan, s, job).turns[|s.turns|].reply == Err(ImageUnavailable) <==> !s.image && !job.image
    ensures Serve(plan, s, job).image <==> s.image || job.image
  {
  }

  // ----- The size of the pool -----

  lemma {:induction false} OnlyPoolingMatters(a: PoolPlan, b: PoolPlan, jobs: seq<Job>)
    requires a.reuse == b.reuse && (a.target > 0 <==> b.target > 0)
    ensures ServeAll(a, IDLE, jobs) == ServeAll(b, IDLE, jobs)
    decreases |jobs|
  {
    if jobs != [] {
      OnlyPoolingMatters(a, b, jobs[..|jobs| - 1]);
    }
  }

  /** The two plans cannot be told apart by any run. */
  ghost predicate SameRuns(a: PoolPlan, b: PoolPlan) {
    forall jobs :: ServeAll(a, IDLE, jobs) == ServeAll(b, IDLE, jobs)
  }

  /** The worker keeps one idle machine whatever the target says: two configured
      pool sizes behave alike on every run exactly when machines are reused or
      both sizes, or neither, are zero. */
  lemma PoolSizesAlikeIff(reuse: bool, m: nat, n: nat)
    ensures SameRuns(PoolPlan.New(reuse, m), PoolPlan.New(reuse, n)) <==> reuse || (m > 0 <==> n > 0)
  {
    var a, b := PoolPlan.New(reuse, m), PoolPlan.New(reuse, n);
    if reuse || (m > 0 <==> n > 0) {
      forall jobs
        ensures ServeAll(a, IDLE, jobs) == ServeAll(b, IDLE, jobs)
      {
        OnlyPoolingMatters(a, b, jobs);
      }
      assert SameRuns(a, b);
    }
    if SameRuns(a, b) && !reuse {
      var job := Job(0, true, true, true, Some([]), true);
      assert ServeAll(a, IDLE, [job]) == ServeAll(b, IDLE, [job]);
      OneJobThenRefill(a, job);
      OneJobThenRefill(b, job);
    }
  }

  lemma OneJobThenRefill(plan: PoolPlan, job: Job)
    requires job.image && job.boots && job.result.Some? && job.refills && !plan.reuse
    ensures ServeAll(plan, IDLE, [job]).machine == if plan.target > 0 then Some(1) else None
  {
    assert [job][..0] == [];
    assert ServeAll(plan, IDLE, [job]) == Serve(plan, IDLE, job);
  }

  // ----- What a job is told -----

  /** A job that got a machine is answered by what happened on it, byte for byte;
      one that got none, by the stage that failed to provide it. */
  lemma ReplyIsTheJobsOwn(plan: PoolPlan, jobs: seq<Job>, j: nat)
    requires j < |jobs|
    ensures |ServeAll(plan, IDLE, jobs).turns| == |jobs|
    ensures
      var turn := ServeAll(plan, IDLE, jobs).turns[j];
      && turn.job == jobs[j].id
      && (turn.on.Some? ==>
            turn.reply == if jobs[j].result.Some? then Ok(jobs[j].result.value) else Err(JobFailed))
      && (turn.on.None? ==> turn.reply == Err(ImageUnavailable) || turn.reply == Err(BootFailed))
  {
    TurnOf(plan, jobs, j);
    var s := ServeAll(plan, IDLE, jobs[..j]);
    PrepareKeepsOrder(s, jobs[j]);
    assert ServeAll(plan, IDLE, jobs).turns[j] == Serve(plan, s, jobs[j]).turns[j];
  }

  // ----- When a job gets a machine -----

  /** The image could be prepared for job `j` or for one before it. */
  ghost predicate ImageBy(jobs: seq<Job>, j: nat)
    requires j < |jobs|
  {
    exists k | 0 <= k <= j :: jobs[k].image
  }

  lemma {:induction false} ImageOnceAvailable(plan: PoolPlan, jobs: seq<Job>)
    ensures ServeAll(plan, IDLE, jobs).image <==> exists k | 0 <= k < |jobs| :: jobs[k].image
    decreases |jobs|
  {
    if jobs != [] {
      var n := |jobs| - 1;
      var s := ServeAll(plan, IDLE, jobs[..n]);
      ImageOnceAvailable(plan, jobs[..n]);
      OneTurnPerJob(plan, jobs[..n]);
      ImageAfterTurn(plan, s, jobs[n]);
      if exists k | 0 <= k < |jobs| :: jobs[k].image {
        var k :| 0 <= k < |jobs| && jobs[k].image;
        assert k < n ==> jobs[..n][k].image;
      }
      if s.image {
        var k :| 0 <= k < n && jobs[..n][k].image;
        assert jobs[k].image;
      }
    }
  }

  lemma ImageByIff(plan: PoolPlan, jobs: seq<Job>, j: nat)
    requires j < |jobs|
    ensures ImageBy(jobs, j) <==> ServeAll(plan, IDLE, jobs[..j]).image || jobs[j].image
  {
    ImageOnceAvailable(plan, jobs[..j]);
    if ImageBy(jobs, j) {
      var k :| 0 <= k <= j && jobs[k].image;
      assert k < j ==> jobs[..j][k].image;
    }
    if ServeAll(plan, IDLE, jobs[..j]).image {
      var k :| 0 <= k < j && jobs[..j][k].image;
      assert jobs[k].image;
    }
  }

  lemma TurnServed(plan: PoolPlan, s: State, job: Job)
    ensures |Serve(plan, s, job).turns| == |s.turns| + 1
    ensures
      var turn := Serve(plan, s, job).turns[|s.turns|];
      && (turn.on.Some? <==> (s.image || job.image) && ((s.machine.Some? && job.answers) || job.boots))
      && (turn.on.Some? ==> turn.on == if s.machine.Some? && job.answers then s.machine else Some(s.booted))
      && (turn.reply == Err(ImageUnavailable) <==> !s.image && !job.image)
      && (turn.reply == Err(BootFailed) <==> (s.image || job.image) && turn.on.None?)
  {
  }

  /** Job `j` gets a machine if and only if the image was available to it or to a job
      before it, and the machine held answers or a boot succeeds.  It gets the held
      one if that answers and otherwise a newly booted one.  Without a machine the
      reply names the stage that failed. */
  lemma GetsMachineIff(plan: PoolPlan, jobs: seq<Job>, j: nat)
    requires j < |jobs|
    ensures |ServeAll(plan, IDLE, jobs).turns| == |jobs|
    ensures
      var s, turn := ServeAll(plan, IDLE, jobs[..j]), ServeAll(plan, IDLE, jobs).turns[j];
      var held := s.machine.Some? && jobs[j].answers;
      && (turn.on.Some? <==> ImageBy(jobs, j) && (held || jobs[j].boots))
      && (turn.on.Some? ==> turn.on == if held then s.machine else Some(s.booted))
      && (turn.reply == Err(ImageUnavailable) <==> !ImageBy(jobs, j))
      && (turn.reply == Err(BootFailed) <==> ImageBy(jobs, j) && !held && !jobs[j].boots)
  {
    TurnOf(plan, jobs, j);
    ImageByIff(plan, jobs, j);
    var s := ServeAll(plan, IDLE, jobs[..j]);
    TurnServed(plan, s, jobs[j]);
    assert ServeAll(plan, IDLE, jobs).turns[j] == Serve(plan, s, jobs[j]).turns[j];
  }

  /** Between jobs a machine is held, in reuse mode, exactly after a job that
      succeeded, namely that job's; in fresh mode, exactly after a successful refill,
      for which pooling must be on and the image there, and then it is the one
      booted last. */
  lemma HeldAfterIff(plan: PoolPlan, jobs: seq<Job>)
    requires jobs != []
    ensures |ServeAll(plan, IDLE, jobs).turns| == |jobs|
    ensures
      var s, n := ServeAll(plan, IDLE, jobs), |jobs| - 1;
      && (plan.reuse ==> s.machine == if s.turns[n].reply.Ok? then s.turns[n].on else None)
      && (!plan.reuse ==> (s.machine.Some? <==> plan.target > 0 && ImageBy(jobs, n) && jobs[n].refills))
      && (!plan.reuse && s.machine.Some? ==> s.booted > 0 && s.machine == Some(s.booted - 1))
  {
    var n := |jobs| - 1;
    OneTurnPerJob(plan, jobs);
    ImageByIff(plan, jobs, n);
    if plan.reuse {
      HeldMachineIsTheLast(plan, jobs);
    } else {
      HeldAfterFresh(plan, ServeAll(plan, IDLE, jobs[..n]), jobs[n]);
    }
  }

  lemma HeldAfterFresh(plan: PoolPlan, s: State, job: Job)
    requires !plan.reuse
    ensures
      var after := Serve(plan, s, job);
      && (after.machine.Some? <==> plan.target > 0 && (s.image || job.image) && job.refills)
      && (after.machine.Some? ==> after.booted > 0 && after.machine == Some(after.booted - 1))
  {
  }

  /** The plan for a mode: reuse never pools; otherwise the target is the configured
      size up to eight, and a machine is discarded after every job, with a refill to
      the target exactly if there is one. */
  lemma PlanFollowsMode(reuse: bool, size: nat)
    ensures
      var plan := PoolPlan.New(reuse, size);
      && plan.reuse == reuse && plan.target <= 8
      && (reuse ==> plan.target == 0 && plan.AfterJob() == [Keep])
      && (!reuse ==> (plan.target == size <==> size <= 8) && (size > 8 ==> plan.target == 8))
      && (!reuse && size == 0 ==> plan.AfterJob() == [Discard])
      && (!reuse && size > 0 ==> plan.AfterJob() == [Discard, Refill(plan.target)])
  {
  }
}
