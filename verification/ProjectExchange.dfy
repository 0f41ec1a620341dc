/** The executor side of the project protocol: the swarm event loop parks one
    response channel per request, detached jobs hand their outcome back through
    a bounded queue, and only the loop answers.

    `Loop` is what the event loop owns.  `System` adds the detached jobs and the
    two bounded channels, and its steps interleave freely. */
module ProjectExchange {
  import opened Prelude

  type TaskId = nat

  /** A response channel, named by the position of its request in the order of
      arrival: the transport hands out a new one per request. */
  type Channel = nat

  /** Capacity of the application event channel and of the outcome queue. */
  const EVENT_CAPACITY := 256
  const OUTCOME_CAPACITY := 8

  const REJECTED := 101

  const NO_EXECUTOR := "no project executor on this node (Linux+KVM required); task rejected instead of silently dropped"

  datatype Request = Request(taskId: TaskId)

  /** `executedOn` is a node id, 0 for the nil one. */
  datatype ProjectResult = ProjectResult(
    taskId: TaskId, exitCode: int, stdout: string, stderr: string, executionMs: nat, executedOn: nat)

  /** What the executor's `run` returns. */
  datatype Verdict = Finished(result: ProjectResult) | Failed(message: string)

  /** `origin` names the request whose job produced the outcome.  The loop never
      looks at it; it is there so that properties can speak about it. */
  datatype Outcome = Outcome(taskId: TaskId, result: ProjectResult, origin: Channel)

  datatype Answer = Answer(channel: Channel, result: ProjectResult)

  function ProjectFailure(request: Request, exitCode: int, message: string): ProjectResult {
    ProjectResult(request.taskId, exitCode, "", message, 0, 0)
  }

  function ResultOf(request: Request, verdict: Verdict): ProjectResult {
    match verdict
    case Finished(result) => result
    case Failed(message) => ProjectFailure(request, 1, message)
  }

  // ----- The event loop's own state -----

  /** `answered` logs every response handed to the transport, `dropped` every
      channel overwritten in `pending`, `orphans` every outcome that found no
      channel. */
  datatype Loop = Loop(
    pending: map<TaskId, Channel>,
    answered: seq<Answer>,
    dropped: seq<Channel>,
    orphans: seq<Outcome>)

  const IDLE := Loop(map[], [], [], [])

  function OnRequest(l: Loop, hasExecutor: bool, request: Request, channel: Channel): Loop {
    var t := request.taskId;
    if !hasExecutor then
      l.(answered := l.answered + [Answer(channel, ProjectFailure(request, REJECTED, NO_EXECUTOR))])
    else
      l.(pending := l.pending[t := channel],
         dropped := if t in l.pending then l.dropped + [l.pending[t]] else l.dropped)
  }

  function OnOutcome(l: Loop, o: Outcome): Loop {
    if o.taskId in l.pending then
      l.(pending := l.pending - {o.taskId},
         answered := l.answered + [Answer(l.pending[o.taskId], o.result)])
    else
      l.(orphans := l.orphans + [o])
  }

  /** The two arms of the loop's select that touch `pending`. */
  datatype Arm = RequestArm(request: Request, channel: Channel) | OutcomeArm(outcome: Outcome)

  function OnArm(l: Loop, hasExecutor: bool, arm: Arm): Loop {
    match arm
    case RequestArm(request, channel) => OnRequest(l, hasExecutor, request, channel)
    case OutcomeArm(outcome) => OnOutcome(l, outcome)
  }

  function OnArms(l: Loop, hasExecutor: bool, arms: seq<Arm>): Loop {
    if arms == [] then l
    else OnArm(OnArms(l, hasExecutor, arms[..|arms| - 1]), hasExecutor, arms[|arms| - 1])
  }

  class EventLoop {
    const hasExecutor: bool
    var pending: map<TaskId, Channel>
    var answered: seq<Answer>
    var spawned: seq<(TaskId, Channel)>
    ghost var dropped: seq<Channel>
    ghost var orphans: seq<Outcome>

    ghost function View(): Loop
      reads this
    {
      Loop(pending, answered, dropped, orphans)
    }

    constructor (hasExecutor: bool)
      ensures this.hasExecutor == hasExecutor
      ensures View() == IDLE && spawned == []
    {
      this.hasExecutor := hasExecutor;
      pending, answered, spawned, dropped, orphans := map[], [], [], [], [];
    }

    /** Answers at once without an executor; otherwise parks the channel and
        spawns the job. */
    method HandleProjectRequest(request: Request, channel: Channel)
      modifies this
      ensures View() == OnRequest(old(View()), hasExecutor, request, channel)
      ensures !hasExecutor ==>
                && pending == old(pending)
                && answered == old(answered)
                   + [Answer(channel, ProjectResult(request.taskId, 101, "", NO_EXECUTOR, 0, 0))]
      ensures hasExecutor ==> pending == old(pending)[request.taskId := channel] && answered == old(answered)
      ensures spawned == old(spawned) + if hasExecutor then [(request.taskId, channel)] else []
    {
      if !hasExecutor {
        answered := answered + [Answer(channel, ProjectFailure(request, REJECTED, NO_EXECUTOR))];
        return;
      }
      if request.taskId in pending {
        dropped := dropped + [pending[request.taskId]];
      }
      pending := pending[request.taskId := channel];
      spawned := spawned + [(request.taskId, channel)];
    }

    /** Answers the channel parked under the outcome's task, if there is one. */
    method HandleOutcome(outcome: Outcome)
      modifies this
      ensures View() == OnOutcome(old(View()), outcome)
      ensures pending == old(pending) - {outcome.taskId}
      ensures answered == old(answered) + if outcome.taskId in old(pending)
                then [Answer(old(pending)[outcome.taskId], outcome.result)] else []
      ensures spawned == old(spawned)
    {
      if outcome.taskId in pending {
        var channel := pending[outcome.taskId];
        pending := pending - {outcome.taskId};
        answered := answered + [Answer(channel, outcome.result)];
      } else {
        orphans := orphans + [outcome];
      }
    }

    /** The loop itself, over whatever sequence of arms the select picks. */
    method Run(arms: seq<Arm>)
      modifies this
      ensures View() == OnArms(old(View()), hasExecutor, arms)
    {
      for i := 0 to |arms|
        invariant View() == OnArms(old(View()), hasExecutor, arms[..i])
      {
        assert arms[..i + 1][..i] == arms[..i];
        match arms[i] {
          case RequestArm(request, channel) => HandleProjectRequest(request, channel);
          case OutcomeArm(outcome) => HandleOutcome(outcome);
        }
      }
      assert arms[..|arms|] == arms;
    }
  }

  // ----- The whole executor: loop, jobs and channels -----

  datatype Stage =
    | Running
    | Forwarding(result: ProjectResult) // about to send the application event
    | Offering(result: ProjectResult)   // about to send the outcome

  datatype Job = Job(origin: Channel, stage: Stage)

  /** `ran` and `panicked` are history: what the executor returned for each job, and
      which jobs died inside it. */
  datatype System = System(
    hasExecutor: bool,
    received: seq<Request>,
    node: Loop,
    jobs: seq<Job>,
    queue: seq<Outcome>,
    events: nat,
    ran: map<Channel, Verdict>,
    panicked: seq<Channel>)

  function Init(hasExecutor: bool): System {
    System(hasExecutor, [], IDLE, [], [], 0, map[], [])
  }

  datatype Step =
    | Arrive(request: Request)         // a request reaches the loop
    | OtherEvent                       // some other protocol emits an application event
    | RunEnds(k: nat, verdict: Verdict)
    | Panic(k: nat)                    // a job dies inside the executor
    | Forward(k: nat)
    | Offer(k: nat)
    | Consume                          // the application takes an event
    | Dequeue                          // the loop takes an outcome

  /** Steps that need no new input: the executor finishing what it has. */
  predicate Internal(step: Step) {
    !step.Arrive? && !step.OtherEvent? && !step.Panic?
  }

  predicate Enabled(s: System, step: Step) {
    match step
    case Arrive(_) => true
    case OtherEvent => s.events < EVENT_CAPACITY
    case RunEnds(k, _) => k < |s.jobs| && s.jobs[k].stage.Running? && s.jobs[k].origin < |s.received|
    case Panic(k) => k < |s.jobs| && s.jobs[k].stage.Running?
    case Forward(k) => k < |s.jobs| && s.jobs[k].stage.Forwarding? && s.events < EVENT_CAPACITY
    case Offer(k) =>
      k < |s.jobs| && s.jobs[k].stage.Offering? && s.jobs[k].origin < |s.received| && |s.queue| < OUTCOME_CAPACITY
    case Consume => s.events > 0
    case Dequeue => s.queue != []
  }

  function Next(s: System, step: Step): System
    requires Enabled(s, step)
  {
    match step
    case Arrive(request) =>
      var c := |s.received|;
      s.(received := s.received + [request],
         node := OnRequest(s.node, s.hasExecutor, request, c),
         jobs := if s.hasExecutor then s.jobs + [Job(c, Running)] else s.jobs)
    case OtherEvent => s.(events := s.events + 1)
    case RunEnds(k, verdict) =>
      var c := s.jobs[k].origin;
      var result := ResultOf(s.received[c], verdict);
      s.(jobs := s.jobs[k := Job(c, Forwarding(result))], ran := s.ran[c := verdict])
    case Panic(k) => s.(jobs := Without(s.jobs, k), panicked := s.panicked + [s.jobs[k].origin])
    case Forward(k) =>
      s.(jobs := s.jobs[k := Job(s.jobs[k].origin, Offering(s.jobs[k].stage.result))], events := s.events + 1)
    case Offer(k) =>
      var j := s.jobs[k];
      s.(jobs := Without(s.jobs, k),
         queue := s.queue + [Outcome(s.received[j.origin].taskId, j.stage.result, j.origin)])
    case Consume => s.(events := s.events - 1)
    case Dequeue => s.(node := OnOutcome(s.node, s.queue[0]), queue := s.queue[1..])
  }

  predicate Possible(s: System, steps: seq<Step>)
    decreases |steps|
  {
    steps == [] || (Enabled(s, steps[0]) && Possible(Next(s, steps[0]), steps[1..]))
  }

  function After(s: System, steps: seq<Step>): System
    requires Possible(s, steps)
    decreases |steps|
  {
    if steps == [] then s else After(Next(s, steps[0]), steps[1..])
  }

  /** The arrival finds its task id still parked: the insert that follows
      overwrites another request's channel. */
  predicate Collides(s: System, step: Step) {
    step.Arrive? && s.hasExecutor && step.request.taskId in s.node.pending
  }

  predicate CollisionFree(s: System, steps: seq<Step>)
    requires Possible(s, steps)
    decreases |steps|
  {
    steps == [] || (!Collides(s, steps[0]) && CollisionFree(Next(s, steps[0]), steps[1..]))
  }

  predicate PanicFree(steps: seq<Step>) {
    forall i | 0 <= i < |steps| :: !steps[i].Panic?
  }

  // ----- Conservation: no request is lost track of, in any run -----

  function Channels(answers: seq<Answer>): seq<Channel> {
    seq(|answers|, i requires 0 <= i < |answers| => answers[i].channel)
  }

  function Origins(jobs: seq<Job>): seq<Channel> {
    seq(|jobs|, i requires 0 <= i < |jobs| => jobs[i].origin)
  }

  function QueueOrigins(queue: seq<Outcome>): seq<Channel> {
    seq(|queue|, i requires 0 <= i < |queue| => queue[i].origin)
  }

  predicate Parked(s: System, c: Channel) {
    c < |s.received| && s.received[c].taskId in s.node.pending && s.node.pending[s.received[c].taskId] == c
  }

  /** In how many places channel `c` is: answered, dropped or parked. */
  function Places(s: System, c: Channel): nat {
    multiset(Channels(s.node.answered))[c] + multiset(s.node.dropped)[c] + if Parked(s, c) then 1 else 0
  }

  ghost predicate Conserved(s: System) {
    && (forall c: Channel :: Places(s, c) == if c < |s.received| then 1 else 0)
    && (forall t | t in s.node.pending ::
          s.node.pending[t] < |s.received| && s.received[s.node.pending[t]].taskId == t)
    && |s.received| == |s.node.answered| + |s.node.pending| + |s.node.dropped|
  }

  lemma AnsweredSnoc(answers: seq<Answer>, a: Answer)
    ensures multiset(Channels(answers + [a])) == multiset(Channels(answers)) + multiset{a.channel}
  {
    assert Channels(answers + [a]) == Channels(answers) + [a.channel];
  }

  lemma ConservedByArrival(s: System, step: Step)
    requires Conserved(s) && step.Arrive?
    ensures Conserved(Next(s, step))
  {
    var s', n, t := Next(s, step), |s.received|, step.request.taskId;
    forall c: Channel
      ensures Places(s', c) == if c < n + 1 then 1 else 0
    {
      assert Places(s, c) == if c < n then 1 else 0;
      if !s.hasExecutor {
        AnsweredSnoc(s.node.answered, s'.node.answered[|s.node.answered|]);
        assert c < n ==> Parked(s', c) == Parked(s, c);
      } else if c < n && s.received[c].taskId != t {
        assert Parked(s', c) == Parked(s, c);
      }
    }
  }

  lemma ConservedByDequeue(s: System)
    requires Conserved(s) && Enabled(s, Dequeue)
    ensures Conserved(Next(s, Dequeue))
  {
    var s', o := Next(s, Dequeue), s.queue[0];
    if o.taskId in s.node.pending {
      AnsweredSnoc(s.node.answered, s'.node.answered[|s.node.answered|]);
      assert s'.node.pending.Keys == s.node.pending.Keys - {o.taskId};
      forall c: Channel
        ensures Places(s', c) == if c < |s.received| then 1 else 0
      {
        assert Places(s, c) == if c < |s.received| then 1 else 0;
      }
    } else {
      forall c: Channel
        ensures Places(s', c) == Places(s, c)
      {
      }
    }
  }

  lemma ConservedByStep(s: System, step: Step)
    requires Conserved(s) && Enabled(s, step)
    ensures Conserved(Next(s, step))
  {
    match step
    case Arrive(_) => ConservedByArrival(s, step);
    case Dequeue => ConservedByDequeue(s);
    case _ =>
      forall c: Channel
        ensures Places(Next(s, step), c) == Places(s, c)
      {
      }
  }

  lemma {:induction false} ConservedFrom(s: System, steps: seq<Step>)
    requires Conserved(s) && Possible(s, steps)
    ensures Conserved(After(s, steps))
    decreases |steps|
  {
    if steps != [] {
      ConservedByStep(s, steps[0]);
      ConservedFrom(Next(s, steps[0]), steps[1..]);
    }
  }

  lemma InitConserved(hasExecutor: bool)
    ensures Conserved(Init(hasExecutor))
  {
  }

  /** In every run, colliding task ids and panicking jobs included, every request
      received so far has its channel in exactly one place (answered once,
      parked, or overwritten), and the three counts add up. */
  lemma NoRequestUntracked(hasExecutor: bool, steps: seq<Step>)
    requires Possible(Init(hasExecutor), steps)
    ensures Conserved(After(Init(hasExecutor), steps))
  {
    InitConserved(hasExecutor);
    ConservedFrom(Init(hasExecutor), steps);
  }
}
