/** What the executor promises its requesters: exactly when every request is
    answered, by which result, and how soon. */
module ProjectAnswers {
  import opened Prelude
  import opened ProjectExchange

  // ----- Invariants of every run -----

  /** Every outcome in flight belongs to a request that was received, and each
      accepted request has been settled or is still somewhere on its way. */
  predicate Accounted(s: System) {
    && (forall k | 0 <= k < |s.jobs| :: s.jobs[k].origin < |s.received|)
    && (if s.hasExecutor
        then |s.received| == |s.jobs| + |s.queue| + |s.panicked| + |s.node.answered| + |s.node.orphans|
        else s.jobs == [] && s.queue == [] && s.panicked == [] && s.node.orphans == [])
  }

  lemma {:induction false} AccountedFrom(s: System, steps: seq<Step>)
    requires Accounted(s) && Possible(s, steps)
    ensures Accounted(After(s, steps))
    decreases |steps|
  {
    if steps != [] {
      AccountedFrom(Next(s, steps[0]), steps[1..]);
    }
  }

  // ----- One job per parked channel, in collision-free runs -----

  /** The requests whose job is running, queued, or died. */
  function InFlight(s: System): multiset<Channel> {
    multiset(Origins(s.jobs)) + multiset(QueueOrigins(s.queue)) + multiset(s.panicked)
  }

  predicate CarriesOwnResult(s: System, job: Job) {
    match job.stage
    case Running => true
    case Forwarding(result) => Earned(s, job.origin, result)
    case Offering(result) => Earned(s, job.origin, result)
  }

  /** The result that the executor's verdict on `c` makes, field by field: its own if
      it finished; otherwise exit code 1 with nothing on stdout and the message on
      stderr. */
  predicate Earned(s: System, c: Channel, result: ProjectResult) {
    && c < |s.received| && c in s.ran
    && match s.ran[c]
       case Finished(own) => result == own
       case Failed(message) => result == ProjectResult(s.received[c].taskId, 1, "", message, 0, 0)
  }

  /** Each parked channel has exactly one job, and each job one parked channel;
      nothing was overwritten or orphaned; every result in flight or delivered
      is the one its own request's job produced. */
  ghost predicate OneForOne(s: System) {
    && Conserved(s)
    && s.node.dropped == [] && s.node.orphans == []
    && (forall c: Channel :: InFlight(s)[c] == if Parked(s, c) then 1 else 0)
    && (forall k | 0 <= k < |s.jobs| :: s.jobs[k].origin < |s.received| && CarriesOwnResult(s, s.jobs[k]))
    && (forall k | 0 <= k < |s.queue| :: QueuedRight(s, s.queue[k]))
    && (forall k | 0 <= k < |s.node.answered| :: AnsweredRight(s, s.node.answered[k]))
    && (!s.hasExecutor ==> s.jobs == [] && s.queue == [])
  }

  predicate QueuedRight(s: System, o: Outcome) {
    && o.origin < |s.received| && o.taskId == s.received[o.origin].taskId
    && Earned(s, o.origin, o.result)
  }

  /** The response is what the channel's own request is owed. */
  predicate AnsweredRight(s: System, a: Answer) {
    a.channel < |s.received| &&
    if s.hasExecutor then Earned(s, a.channel, a.result)
    else a.result == ProjectResult(s.received[a.channel].taskId, 101, "", NO_EXECUTOR, 0, 0)
  }

  lemma OriginsUpdate(jobs: seq<Job>, k: nat, stage: Stage)
    requires k < |jobs|
    ensures Origins(jobs[k := Job(jobs[k].origin, stage)]) == Origins(jobs)
  {
  }

  lemma OriginsWithout(jobs: seq<Job>, k: nat)
    requires k < |jobs|
    ensures multiset(Origins(jobs)) == multiset(Origins(Without(jobs, k))) + multiset{jobs[k].origin}
  {
    WithoutMultiset(Origins(jobs), k);
    assert Origins(Without(jobs, k)) == Without(Origins(jobs), k);
  }

  lemma AbsentFromQueue(queue: seq<Outcome>, c: Channel)
    requires multiset(QueueOrigins(queue))[c] == 0
    ensures forall k | 0 <= k < |queue| :: queue[k].origin != c
  {
    forall k | 0 <= k < |queue|
      ensures queue[k].origin != c
    {
      assert QueueOrigins(queue)[k] in multiset(QueueOrigins(queue));
    }
  }

  lemma AbsentFromAnswers(answers: seq<Answer>, c: Channel)
    requires multiset(Channels(answers))[c] == 0
    ensures forall k | 0 <= k < |answers| :: answers[k].channel != c
  {
    forall k | 0 <= k < |answers|
      ensures answers[k].channel != c
    {
      assert Channels(answers)[k] in multiset(Channels(answers));
    }
  }

  lemma OnlyOneAt(jobs: seq<Job>, k: nat)
    requires k < |jobs| && multiset(Origins(jobs))[jobs[k].origin] <= 1
    ensures forall j | 0 <= j < |jobs| && j != k :: jobs[j].origin != jobs[k].origin
  {
    OriginsWithout(jobs, k);
    forall j | 0 <= j < |jobs| && j != k
      ensures jobs[j].origin != jobs[k].origin
    {
      var i := if j < k then j else j - 1;
      assert Without(jobs, k)[i] == jobs[j];
      assert Origins(Without(jobs, k))[i] in multiset(Origins(Without(jobs, k)));
    }
  }

  lemma InFlightByArrival(s: System, step: Step, c: Channel)
    requires OneForOne(s) && step.Arrive? && !Collides(s, step)
    ensures InFlight(Next(s, step))[c] == if Parked(Next(s, step), c) then 1 else 0
  {
    var s', n := Next(s, step), |s.received|;
    assert InFlight(s)[c] == if Parked(s, c) then 1 else 0;
    if s.hasExecutor {
      assert Origins(s'.jobs) == Origins(s.jobs) + [n];
    }
    if c < n {
      assert s'.received[c] == s.received[c];
    }
  }

  lemma OneForOneByArrival(s: System, step: Step)
    requires OneForOne(s) && step.Arrive? && !Collides(s, step)
    ensures OneForOne(Next(s, step))
  {
    var s' := Next(s, step);
    ConservedByStep(s, step);
    forall c: Channel
      ensures InFlight(s')[c] == if Parked(s', c) then 1 else 0
    {
      InFlightByArrival(s, step, c);
    }
    assert forall k | 0 <= k < |s.jobs| :: s'.jobs[k] == s.jobs[k];
    assert forall k | 0 <= k < |s.node.answered| :: s'.node.answered[k] == s.node.answered[k];
  }

  lemma OneForOneByRunEnds(s: System, step: Step)
    requires OneForOne(s) && step.RunEnds? && Enabled(s, step)
    ensures OneForOne(Next(s, step))
  {
    var s', c := Next(s, step), s.jobs[step.k].origin;
    ConservedByStep(s, step);
    OriginsUpdate(s.jobs, step.k, s'.jobs[step.k].stage);
    assert forall d: Channel :: Parked(s', d) == Parked(s, d);
    assert Origins(s.jobs)[step.k] == c;
    assert InFlight(s)[c] == 1;
    OnlyOneAt(s.jobs, step.k);
    AbsentFromQueue(s.queue, c);
    assert Places(s, c) == 1;
    AbsentFromAnswers(s.node.answered, c);
  }

  /** A job that leaves the list hands its place in flight to `queue` or to
      `panicked`; the other jobs keep what they carry. */
  lemma JobLeaves(s: System, s': System, k: nat)
    requires OneForOne(s) && k < |s.jobs|
    requires s' == s.(jobs := Without(s.jobs, k), queue := s'.queue, panicked := s'.panicked)
    requires multiset(QueueOrigins(s'.queue)) + multiset(s'.panicked)
          == multiset(QueueOrigins(s.queue)) + multiset(s.panicked) + multiset{s.jobs[k].origin}
    ensures forall c: Channel :: InFlight(s')[c] == if Parked(s', c) then 1 else 0
    ensures forall i | 0 <= i < |s'.jobs| ::
              s'.jobs[i].origin < |s'.received| && CarriesOwnResult(s', s'.jobs[i])
  {
    OriginsWithout(s.jobs, k);
    assert InFlight(s') == multiset(Origins(s'.jobs)) + (multiset(QueueOrigins(s'.queue)) + multiset(s'.panicked));
    forall c: Channel
      ensures InFlight(s')[c] == if Parked(s', c) then 1 else 0
    {
      assert InFlight(s)[c] == if Parked(s, c) then 1 else 0;
    }
    OtherJobsKeepResults(s, s', k);
  }

  lemma OtherJobsKeepResults(s: System, s': System, k: nat)
    requires forall i | 0 <= i < |s.jobs| :: s.jobs[i].origin < |s.received| && CarriesOwnResult(s, s.jobs[i])
    requires k < |s.jobs| && s'.jobs == Without(s.jobs, k) && s'.received == s.received && s'.ran == s.ran
    ensures forall i | 0 <= i < |s'.jobs| ::
              s'.jobs[i].origin < |s'.received| && CarriesOwnResult(s', s'.jobs[i])
  {
    forall i | 0 <= i < |s'.jobs|
      ensures s'.jobs[i].origin < |s'.received| && CarriesOwnResult(s', s'.jobs[i])
    {
      assert s'.jobs[i] == s.jobs[if i < k then i else i + 1];
    }
  }

  lemma OneForOneByOffer(s: System, k: nat)
    requires OneForOne(s) && Enabled(s, Offer(k))
    ensures OneForOne(Next(s, Offer(k)))
  {
    var s', c := Next(s, Offer(k)), s.jobs[k].origin;
    ConservedByStep(s, Offer(k));
    assert CarriesOwnResult(s, s.jobs[k]);
    assert QueueOrigins(s'.queue) == QueueOrigins(s.queue) + [c];
    JobLeaves(s, s', k);
    forall i | 0 <= i < |s'.queue|
      ensures QueuedRight(s', s'.queue[i])
    {
      assert i < |s.queue| ==> QueuedRight(s, s.queue[i]);
    }
    forall i | 0 <= i < |s'.node.answered|
      ensures AnsweredRight(s', s'.node.answered[i])
    {
      assert AnsweredRight(s, s.node.answered[i]);
    }
  }

  lemma OneForOneByPanic(s: System, k: nat)
    requires OneForOne(s) && Enabled(s, Panic(k))
    ensures OneForOne(Next(s, Panic(k)))
  {
    var s' := Next(s, Panic(k));
    ConservedByStep(s, Panic(k));
    JobLeaves(s, s', k);
    assert forall i | 0 <= i < |s.queue| :: QueuedRight(s, s.queue[i]);
    assert forall i | 0 <= i < |s.node.answered| :: AnsweredRight(s, s.node.answered[i]);
  }

  /** The outcome at the head of the queue finds the channel of its own request. */
  lemma HeadIsParked(s: System)
    requires OneForOne(s) && Enabled(s, Dequeue)
    ensures Parked(s, s.queue[0].origin)
    ensures InFlight(s) == InFlight(Next(s, Dequeue)) + multiset{s.queue[0].origin}
  {
    var s', c := Next(s, Dequeue), s.queue[0].origin;
    assert QueueOrigins(s.queue) == [c] + QueueOrigins(s'.queue);
    assert InFlight(s)[c] >= 1;
  }

  lemma InFlightByDequeue(s: System, c: Channel)
    requires OneForOne(s) && Enabled(s, Dequeue)
    ensures InFlight(Next(s, Dequeue))[c] == if Parked(Next(s, Dequeue), c) then 1 else 0
  {
    HeadIsParked(s);
    assert QueuedRight(s, s.queue[0]);
    assert InFlight(s)[c] == if Parked(s, c) then 1 else 0;
  }

  lemma AnsweredByDequeue(s: System)
    requires OneForOne(s) && Enabled(s, Dequeue)
    ensures forall k | 0 <= k < |Next(s, Dequeue).node.answered| ::
              AnsweredRight(Next(s, Dequeue), Next(s, Dequeue).node.answered[k])
    ensures Next(s, Dequeue).node.orphans == []
  {
    HeadIsParked(s);
    assert QueuedRight(s, s.queue[0]);
    var s', n := Next(s, Dequeue), |s.node.answered|;
    assert s'.node.answered == s.node.answered + [Answer(s.queue[0].origin, s.queue[0].result)];
    assert forall k | 0 <= k < n :: AnsweredRight(s, s.node.answered[k]);
  }

  lemma OneForOneByDequeue(s: System)
    requires OneForOne(s) && Enabled(s, Dequeue)
    ensures OneForOne(Next(s, Dequeue))
  {
    var s' := Next(s, Dequeue);
    ConservedByStep(s, Dequeue);
    AnsweredByDequeue(s);
    forall c: Channel
      ensures InFlight(s')[c] == if Parked(s', c) then 1 else 0
    {
      InFlightByDequeue(s, c);
    }
    forall k | 0 <= k < |s'.queue|
      ensures QueuedRight(s', s'.queue[k])
    {
      assert QueuedRight(s, s.queue[k + 1]);
    }
  }

  lemma OneForOneByForward(s: System, k: nat)
    requires OneForOne(s) && Enabled(s, Forward(k))
    ensures OneForOne(Next(s, Forward(k)))
  {
    var s' := Next(s, Forward(k));
    ConservedByStep(s, Forward(k));
    OriginsUpdate(s.jobs, k, Offering(s.jobs[k].stage.result));
    forall c: Channel
      ensures InFlight(s')[c] == if Parked(s', c) then 1 else 0
    {
      assert InFlight(s)[c] == if Parked(s, c) then 1 else 0;
    }
    forall i | 0 <= i < |s'.jobs|
      ensures s'.jobs[i].origin < |s'.received| && CarriesOwnResult(s', s'.jobs[i])
    {
      assert CarriesOwnResult(s, s.jobs[i]);
    }
  }

  /** A step that touches only the application events. */
  lemma OneForOneByEvents(s: System, events: nat)
    requires OneForOne(s)
    ensures OneForOne(s.(events := events))
  {
    var s' := s.(events := events);
    forall c: Channel
      ensures Places(s', c) == Places(s, c) && InFlight(s')[c] == if Parked(s', c) then 1 else 0
    {
      assert InFlight(s)[c] == if Parked(s, c) then 1 else 0;
    }
  }

  lemma OneForOneByStep(s: System, step: Step)
    requires OneForOne(s) && Enabled(s, step) && !Collides(s, step)
    ensures OneForOne(Next(s, step))
  {
    match step
    case Arrive(_) => OneForOneByArrival(s, step);
    case RunEnds(_, _) => OneForOneByRunEnds(s, step);
    case Panic(k) => OneForOneByPanic(s, k);
    case Forward(k) => OneForOneByForward(s, k);
    case Offer(k) => OneForOneByOffer(s, k);
    case Dequeue => OneForOneByDequeue(s);
    case OtherEvent => OneForOneByEvents(s, s.events + 1);
    case Consume => OneForOneByEvents(s, s.events - 1);
  }

  lemma {:induction false} OneForOneFrom(s: System, steps: seq<Step>)
    requires OneForOne(s) && Possible(s, steps) && CollisionFree(s, steps)
    ensures OneForOne(After(s, steps))
    decreases |steps|
  {
    if steps != [] {
      OneForOneByStep(s, steps[0]);
      OneForOneFrom(Next(s, steps[0]), steps[1..]);
    }
  }

  /** Without colliding task ids, every reachable state pairs parked channels and
      jobs one for one, and no outcome ever finds its channel missing. */
  lemma OneJobPerParkedRequest(hasExecutor: bool, steps: seq<Step>)
    requires Possible(Init(hasExecutor), steps) && CollisionFree(Init(hasExecutor), steps)
    ensures OneForOne(After(Init(hasExecutor), steps))
  {
    InitConserved(hasExecutor);
    assert forall c: Channel :: !Parked(Init(hasExecutor), c);
    OneForOneFrom(Init(hasExecutor), steps);
  }

  lemma {:induction false} LossesArePermanent(s: System, steps: seq<Step>)
    requires Possible(s, steps)
    ensures After(s, steps).node.dropped == [] ==> s.node.dropped == [] && CollisionFree(s, steps)
    ensures After(s, steps).panicked == [] ==> s.panicked == [] && PanicFree(steps)
    decreases |steps|
  {
    if steps != [] {
      LossesArePermanent(Next(s, steps[0]), steps[1..]);
      forall i | 0 <= i < |steps| && After(s, steps).panicked == []
        ensures !steps[i].Panic?
      {
        assert i > 0 ==> steps[i] == steps[1..][i - 1];
      }
    }
  }

  lemma {:induction false} PanicFreeKeepsJobs(s: System, steps: seq<Step>)
    requires Possible(s, steps) && PanicFree(steps)
    ensures After(s, steps).panicked == s.panicked
    decreases |steps|
  {
    if steps != [] {
      assert !steps[0].Panic?;
      PanicFreeKeepsJobs(Next(s, steps[0]), steps[1..]);
    }
  }

  /** A channel is overwritten in some run exactly when the run has an arrival
      whose task id is still parked. */
  lemma ChannelLostIffCollision(hasExecutor: bool, steps: seq<Step>)
    requires Possible(Init(hasExecutor), steps)
    ensures After(Init(hasExecutor), steps).node.dropped == [] <==> CollisionFree(Init(hasExecutor), steps)
  {
    LossesArePermanent(Init(hasExecutor), steps);
    if CollisionFree(Init(hasExecutor), steps) {
      OneJobPerParkedRequest(hasExecutor, steps);
    }
  }

  // ----- Every parked channel has its job, collisions or not -----

  /** The job of every parked channel is still running, queued or dead, and every
      outcome in flight names the task of the request it came from. */
  ghost predicate Attended(s: System) {
    && Conserved(s)
    && (forall k | 0 <= k < |s.jobs| :: s.jobs[k].origin < |s.received|)
    && (forall k | 0 <= k < |s.queue| ::
          s.queue[k].origin < |s.received| && s.queue[k].taskId == s.received[s.queue[k].origin].taskId)
    && (forall c: Channel | Parked(s, c) :: c in InFlight(s))
  }

  lemma AttendedByArrival(s: System, step: Step)
    requires Attended(s) && step.Arrive?
    ensures Attended(Next(s, step))
  {
    var s', n := Next(s, step), |s.received|;
    ConservedByStep(s, step);
    if s.hasExecutor {
      assert Origins(s'.jobs) == Origins(s.jobs) + [n];
    }
    forall c: Channel | Parked(s', c)
      ensures c in InFlight(s')
    {
      assert c < n ==> Parked(s, c);
      assert c == n ==> s.hasExecutor;
    }
  }

  lemma AttendedByDequeue(s: System)
    requires Attended(s) && Enabled(s, Dequeue)
    ensures Attended(Next(s, Dequeue))
  {
    var s', o := Next(s, Dequeue), s.queue[0];
    ConservedByStep(s, Dequeue);
    assert QueueOrigins(s.queue) == [o.origin] + QueueOrigins(s'.queue);
    forall c: Channel | Parked(s', c)
      ensures c in InFlight(s')
    {
      assert Parked(s, c) && c != o.origin;
    }
  }

  lemma AttendedByOffer(s: System, k: nat)
    requires Attended(s) && Enabled(s, Offer(k))
    ensures Attended(Next(s, Offer(k)))
  {
    var s' := Next(s, Offer(k));
    ConservedByStep(s, Offer(k));
    OriginsWithout(s.jobs, k);
    assert QueueOrigins(s'.queue) == QueueOrigins(s.queue) + [s.jobs[k].origin];
    forall c: Channel | Parked(s', c)
      ensures c in InFlight(s')
    {
      assert Parked(s, c);
    }
  }

  lemma AttendedByPanic(s: System, k: nat)
    requires Attended(s) && Enabled(s, Panic(k))
    ensures Attended(Next(s, Panic(k)))
  {
    var s' := Next(s, Panic(k));
    ConservedByStep(s, Panic(k));
    OriginsWithout(s.jobs, k);
    forall c: Channel | Parked(s', c)
      ensures c in InFlight(s')
    {
      assert Parked(s, c);
    }
  }

  /** A step that changes no channel, and of the jobs only their stage. */
  lemma AttendedByStage(s: System, step: Step)
    requires Attended(s) && Enabled(s, step)
    requires step.RunEnds? || step.Forward? || step.Consume? || step.OtherEvent?
    ensures Attended(Next(s, step))
  {
    var s' := Next(s, step);
    ConservedByStep(s, step);
    assert Origins(s'.jobs) == Origins(s.jobs);
    forall c: Channel | Parked(s', c)
      ensures c in InFlight(s')
    {
      assert Parked(s, c);
    }
  }

  lemma {:induction false} AttendedFrom(s: System, steps: seq<Step>)
    requires Attended(s) && Possible(s, steps)
    ensures Attended(After(s, steps))
    decreases |steps|
  {
    if steps != [] {
      match steps[0] {
        case Arrive(_) => AttendedByArrival(s, steps[0]);
        case Dequeue => AttendedByDequeue(s);
        case Offer(k) => AttendedByOffer(s, k);
        case Panic(k) => AttendedByPanic(s, k);
        case _ => AttendedByStage(s, steps[0]);
      }
      AttendedFrom(Next(s, steps[0]), steps[1..]);
    }
  }

  // ----- What the answers say -----

  ghost predicate AllRejected(s: System) {
    && !s.hasExecutor && s.node.pending == map[] && s.node.dropped == [] && s.node.orphans == []
    && s.jobs == [] && s.queue == [] && |s.node.answered| == |s.received|
    && forall k | 0 <= k < |s.received| ::
         s.node.answered[k] == Answer(k, ProjectResult(s.received[k].taskId, 101, "", NO_EXECUTOR, 0, 0))
  }

  lemma {:induction false} AllRejectedFrom(s: System, steps: seq<Step>)
    requires AllRejected(s) && Possible(s, steps)
    ensures AllRejected(After(s, steps))
    decreases |steps|
  {
    if steps != [] {
      AllRejectedFrom(Next(s, steps[0]), steps[1..]);
    }
  }

  /** On a node without an executor, in every reachable state, the answers are one
      per request in the order of arrival, each with its request's task id, exit
      code 101, nothing on stdout and the rejection on stderr. */
  lemma RejectionsAreImmediate(steps: seq<Step>)
    requires Possible(Init(false), steps)
    ensures AllRejected(After(Init(false), steps))
  {
    AllRejectedFrom(Init(false), steps);
  }

  /** On a node with one, in every collision-free run, an answer carries what the
      executor returned for that very request: its own result, or the failure made
      of its message. */
  lemma AnswersAreEarned(steps: seq<Step>, k: nat)
    requires Possible(Init(true), steps) && CollisionFree(Init(true), steps)
    requires k < |After(Init(true), steps).node.answered|
    ensures
      var s := After(Init(true), steps);
      var a := s.node.answered[k];
      && a.channel < |s.received| && a.channel in s.ran
      && (s.ran[a.channel].Finished? ==> a.result == s.ran[a.channel].result)
      && (s.ran[a.channel].Failed? ==>
            && a.result.taskId == s.received[a.channel].taskId && a.result.exitCode == 1
            && a.result.stdout == "" && a.result.stderr == s.ran[a.channel].message)
  {
    OneJobPerParkedRequest(true, steps);
    SameExecutor(Init(true), steps);
    assert AnsweredRight(After(Init(true), steps), After(Init(true), steps).node.answered[k]);
  }

  ghost predicate WithinCapacity(s: System) {
    |s.queue| <= 8 && s.events <= 256
  }

  /** The two channels never hold more than their capacities. */
  lemma {:induction false} QueuesAreBounded(s: System, steps: seq<Step>)
    requires WithinCapacity(s) && Possible(s, steps)
    ensures WithinCapacity(After(s, steps))
    decreases |steps|
  {
    if steps != [] {
      QueuesAreBounded(Next(s, steps[0]), steps[1..]);
    }
  }

  // ----- When everything is answered -----

  /** The executor can do nothing more without new input. */
  ghost predicate Quiescent(s: System) {
    forall step | Internal(step) :: !Enabled(s, step)
  }

  ghost predicate AllAnswered(s: System) {
    forall c: Channel | c < |s.received| :: c in Channels(s.node.answered)
  }

  lemma QuiescentMeansEmpty(s: System)
    requires Accounted(s)
    requires s.hasExecutor || s.queue == []
    ensures Quiescent(s) <==> s.jobs == [] && s.queue == [] && s.events == 0
  {
    if Quiescent(s) {
      assert !Enabled(s, Consume) && !Enabled(s, Dequeue);
      assert !Enabled(s, RunEnds(0, Failed(""))) && !Enabled(s, Forward(0)) && !Enabled(s, Offer(0));
    }
  }

  lemma NothingParked(s: System)
    requires Conserved(s)
    ensures s.node.pending == map[] <==> forall c: Channel :: !Parked(s, c)
  {
    if s.node.pending != map[] {
      var t :| t in s.node.pending;
      assert Parked(s, s.node.pending[t]);
    }
  }

  lemma AllAnsweredMeansNoneLeft(s: System)
    requires Conserved(s)
    ensures AllAnswered(s) <==> s.node.pending == map[] && s.node.dropped == []
  {
    NothingParked(s);
    if AllAnswered(s) {
      forall c: Channel
        ensures !Parked(s, c) && c !in s.node.dropped
      {
        assert Places(s, c) == if c < |s.received| then 1 else 0;
        if c < |s.received| {
          assert c in Channels(s.node.answered);
          assert c in multiset(Channels(s.node.answered));
        }
      }
      HeadIsMember(s.node.dropped);
    } else {
      var c: Channel :| c < |s.received| && c !in Channels(s.node.answered);
      assert Places(s, c) == 1;
    }
  }

  /** Once the executor has nothing left to do, every request it ever received has
      been answered exactly when no arrival collided and no job panicked. */
  lemma AllAnsweredIffNoLoss(hasExecutor: bool, steps: seq<Step>)
    requires Possible(Init(hasExecutor), steps)
    requires Quiescent(After(Init(hasExecutor), steps))
    ensures AllAnswered(After(Init(hasExecutor), steps)) <==>
            CollisionFree(Init(hasExecutor), steps) && PanicFree(steps)
  {
    var s := After(Init(hasExecutor), steps);
    NoRequestUntracked(hasExecutor, steps);
    AccountedFrom(Init(hasExecutor), steps);
    LossesArePermanent(Init(hasExecutor), steps);
    AllAnsweredMeansNoneLeft(s);
    SameExecutor(Init(hasExecutor), steps);
    QuiescentMeansEmpty(s);
    if CollisionFree(Init(hasExecutor), steps) && PanicFree(steps) {
      OneJobPerParkedRequest(hasExecutor, steps);
      PanicFreeKeepsJobs(Init(hasExecutor), steps);
      forall c: Channel
        ensures !Parked(s, c)
      {
        assert InFlight(s)[c] == if Parked(s, c) then 1 else 0;
      }
      NothingParked(s);
    }
  }

  lemma {:induction false} SameExecutor(s: System, steps: seq<Step>)
    requires Possible(s, steps)
    ensures After(s, steps).hasExecutor == s.hasExecutor
    decreases |steps|
  {
    if steps != [] {
      SameExecutor(Next(s, steps[0]), steps[1..]);
    }
  }

  // ----- Termination: a measure every internal step lowers by one -----

  function StageWeight(stage: Stage): nat {
    match stage
    case Running => 5
    case Forwarding(_) => 4
    case Offering(_) => 2
  }

  function JobsWeight(jobs: seq<Job>): nat {
    if jobs == [] then 0 else StageWeight(jobs[0].stage) + JobsWeight(jobs[1..])
  }

  /** Internal steps left before the executor is quiescent. */
  function StepsLeft(s: System): nat {
    JobsWeight(s.jobs) + |s.queue| + s.events
  }

  lemma {:induction false} WeightSplit(a: seq<Job>, b: seq<Job>)
    ensures JobsWeight(a + b) == JobsWeight(a) + JobsWeight(b)
  {
    if a == [] {
      assert a + b == b;
    } else {
      assert (a + b)[1..] == a[1..] + b;
      WeightSplit(a[1..], b);
    }
  }

  lemma WeightCons(job: Job, jobs: seq<Job>)
    ensures JobsWeight([job] + jobs) == StageWeight(job.stage) + JobsWeight(jobs)
  {
    assert ([job] + jobs)[1..] == jobs;
  }

  lemma AroundOne(jobs: seq<Job>, k: nat)
    requires k < |jobs|
    ensures jobs == jobs[..k] + ([jobs[k]] + jobs[k + 1..])
  {
  }

  lemma WeightAt(jobs: seq<Job>, k: nat)
    requires k < |jobs|
    ensures JobsWeight(jobs) == JobsWeight(Without(jobs, k)) + StageWeight(jobs[k].stage)
  {
    var head, tail := jobs[..k], jobs[k + 1..];
    AroundOne(jobs, k);
    assert JobsWeight(jobs) == JobsWeight(head) + JobsWeight([jobs[k]] + tail) by {
      WeightSplit(head, [jobs[k]] + tail);
    }
    WeightCons(jobs[k], tail);
    WeightSplit(head, tail);
  }

  lemma InternalStepCostsOne(s: System, step: Step)
    requires Enabled(s, step) && Internal(step)
    ensures StepsLeft(Next(s, step)) == StepsLeft(s) - 1
  {
    if step.RunEnds? || step.Forward? || step.Offer? {
      var s' := Next(s, step);
      WeightAt(s.jobs, step.k);
      if !step.Offer? {
        WeightAt(s'.jobs, step.k);
        assert Without(s'.jobs, step.k) == Without(s.jobs, step.k);
      }
    }
  }

  predicate AllInternal(steps: seq<Step>) {
    forall i | 0 <= i < |steps| :: Internal(steps[i])
  }

  lemma {:induction false} InternalRunCost(s: System, steps: seq<Step>)
    requires Possible(s, steps) && AllInternal(steps)
    ensures StepsLeft(After(s, steps)) == StepsLeft(s) - |steps|
    decreases |steps|
  {
    if steps != [] {
      assert Internal(steps[0]);
      InternalStepCostsOne(s, steps[0]);
      forall i | 0 <= i < |steps[1..]|
        ensures Internal(steps[1..][i])
      {
        assert steps[1..][i] == steps[i + 1];
      }
      InternalRunCost(Next(s, steps[0]), steps[1..]);
    }
  }

  lemma {:induction false} InternalRunsNeverCollide(s: System, steps: seq<Step>)
    requires Possible(s, steps) && AllInternal(steps)
    ensures CollisionFree(s, steps) && PanicFree(steps)
    decreases |steps|
  {
    if steps != [] {
      assert Internal(steps[0]);
      forall i | 0 <= i < |steps[1..]|
        ensures Internal(steps[1..][i])
      {
        assert steps[1..][i] == steps[i + 1];
      }
      InternalRunsNeverCollide(Next(s, steps[0]), steps[1..]);
    }
    assert forall i | 0 <= i < |steps| :: Internal(steps[i]);
  }

  lemma {:induction false} PossibleChains(s: System, a: seq<Step>, b: seq<Step>)
    requires Possible(s, a) && Possible(After(s, a), b)
    ensures Possible(s, a + b) && After(s, a + b) == After(After(s, a), b)
    decreases |a|
  {
    if a == [] {
      assert a + b == b;
    } else {
      assert (a + b)[1..] == a[1..] + b;
      PossibleChains(Next(s, a[0]), a[1..], b);
    }
  }

  /** With nothing left to do, only dead jobs leave a channel parked. */
  lemma QuiescentParkedIsDead(s: System)
    requires Attended(s) && s.jobs == [] && s.queue == []
    ensures forall c: Channel | Parked(s, c) :: c in s.panicked
    ensures s.panicked == [] ==> s.node.pending == map[]
  {
    assert InFlight(s) == multiset(s.panicked);
    forall c: Channel | Parked(s, c)
      ensures c in s.panicked
    {
      assert c in InFlight(s);
    }
    NothingParked(s);
  }

  lemma InitAttended(hasExecutor: bool)
    ensures Attended(Init(hasExecutor)) && Accounted(Init(hasExecutor))
  {
    InitConserved(hasExecutor);
    assert forall c: Channel :: !Parked(Init(hasExecutor), c);
  }

  lemma DrainingEmptiesPendingFrom(s: System, rest: seq<Step>)
    requires Attended(s) && Accounted(s) && Possible(s, rest) && AllInternal(rest)
    ensures |rest| <= StepsLeft(s)
    ensures Quiescent(After(s, rest)) <==> |rest| == StepsLeft(s)
    ensures Quiescent(After(s, rest)) ==> forall c: Channel | Parked(After(s, rest), c) :: c in After(s, rest).panicked
    ensures Quiescent(After(s, rest)) && After(s, rest).panicked == [] ==> After(s, rest).node.pending == map[]
  {
    AttendedFrom(s, rest);
    AccountedFrom(s, rest);
    InternalRunCost(s, rest);
    QuiescentMeansEmpty(After(s, rest));
    if Quiescent(After(s, rest)) {
      QuiescentParkedIsDead(After(s, rest));
    }
  }

  /** From every reachable state, after collisions and panics too, every internal
      schedule stops after exactly `StepsLeft` steps, and then a channel is still
      parked only if its own job died: without a dead job nothing is pending. */
  lemma DrainingEmptiesPending(hasExecutor: bool, past: seq<Step>, rest: seq<Step>)
    requires Possible(Init(hasExecutor), past)
    requires Possible(After(Init(hasExecutor), past), rest) && AllInternal(rest)
    ensures
      var s := After(Init(hasExecutor), past);
      var s' := After(s, rest);
      && |rest| <= StepsLeft(s)
      && (Quiescent(s') <==> |rest| == StepsLeft(s))
      && (Quiescent(s') ==> forall c: Channel | Parked(s', c) :: c in s'.panicked)
      && (Quiescent(s') && s'.panicked == [] ==> s'.node.pending == map[])
  {
    InitAttended(hasExecutor);
    AttendedFrom(Init(hasExecutor), past);
    AccountedFrom(Init(hasExecutor), past);
    DrainingEmptiesPendingFrom(After(Init(hasExecutor), past), rest);
  }

  /** However the executor is scheduled from a state without losses, it stops
      after exactly `StepsLeft` internal steps, and it stops with every request
      answered by the result of its own job. */
  lemma DrainingAnswersEveryRequest(s: System, rest: seq<Step>)
    requires OneForOne(s) && Accounted(s) && s.panicked == []
    requires Possible(s, rest) && AllInternal(rest)
    ensures |rest| <= StepsLeft(s)
    ensures Quiescent(After(s, rest)) <==> |rest| == StepsLeft(s)
    ensures |rest| == StepsLeft(s) ==> AllAnswered(After(s, rest)) && After(s, rest).node.pending == map[]
    ensures forall k | 0 <= k < |After(s, rest).node.answered| ::
              AnsweredRight(After(s, rest), After(s, rest).node.answered[k])
  {
    var s' := After(s, rest);
    InternalRunCost(s, rest);
    InternalRunsNeverCollide(s, rest);
    OneForOneFrom(s, rest);
    AccountedFrom(s, rest);
    PanicFreeKeepsJobs(s, rest);
    QuiescentMeansEmpty(s');
    if s'.jobs == [] && s'.queue == [] {
      forall c: Channel
        ensures !Parked(s', c)
      {
        assert InFlight(s')[c] == if Parked(s', c) then 1 else 0;
      }
      NothingParked(s');
      AllAnsweredMeansNoneLeft(s');
    }
  }

  /** The bounded queues never deadlock the executor: from any state, one with
      overwritten or orphaned channels included, some internal schedule drains it. */
  lemma {:induction false} SomeScheduleDrains(s: System) returns (rest: seq<Step>)
    requires Accounted(s)
    ensures Possible(s, rest) && AllInternal(rest) && Quiescent(After(s, rest))
    decreases StepsLeft(s)
  {
    QuiescentMeansEmpty(s);
    if Quiescent(s) {
      rest := [];
    } else {
      var step :| Internal(step) && Enabled(s, step);
      InternalStepCostsOne(s, step);
      AccountedFrom(s, [step]);
      assert After(s, [step]) == After(Next(s, step), []);
      var more := SomeScheduleDrains(Next(s, step));
      rest := [step] + more;
      assert rest[1..] == more;
    }
  }

  /** Every reachable state is one of those. */
  lemma ReachableStatesDrain(hasExecutor: bool, past: seq<Step>) returns (rest: seq<Step>)
    requires Possible(Init(hasExecutor), past)
    ensures Possible(After(Init(hasExecutor), past), rest) && AllInternal(rest)
    ensures Quiescent(After(After(Init(hasExecutor), past), rest))
  {
    AccountedFrom(Init(hasExecutor), past);
    rest := SomeScheduleDrains(After(Init(hasExecutor), past));
  }

  // ----- The two losses, as runs -----

  lemma Snoc(s: System, steps: seq<Step>, step: Step)
    requires Possible(s, steps) && Enabled(After(s, steps), step)
    ensures Possible(s, steps + [step]) && After(s, steps + [step]) == Next(After(s, steps), step)
  {
    assert After(After(s, steps), [step]) == After(Next(After(s, steps), step), []);
    PossibleChains(s, steps, [step]);
  }

  lemma BothFinish(first: ProjectResult, second: ProjectResult) returns (steps: seq<Step>)
    ensures Possible(Init(true), steps)
    ensures After(Init(true), steps) ==
            System(true, [Request(7), Request(7)], Loop(map[7 := 1], [], [0], []),
                   [Job(0, Offering(first)), Job(1, Offering(second))], [], 0,
                   map[0 := Finished(first), 1 := Finished(second)], [])
  {
    steps := [];
    Snoc(Init(true), steps, Arrive(Request(7)));
    steps := steps + [Arrive(Request(7))];
    Snoc(Init(true), steps, Arrive(Request(7)));
    steps := steps + [Arrive(Request(7))];
    assert After(Init(true), steps).jobs == [Job(0, Running), Job(1, Running)];
    Snoc(Init(true), steps, RunEnds(0, Finished(first)));
    steps := steps + [RunEnds(0, Finished(first))];
    Snoc(Init(true), steps, RunEnds(1, Finished(second)));
    steps := steps + [RunEnds(1, Finished(second))];
    Snoc(Init(true), steps, Forward(0));
    steps := steps + [Forward(0)];
    Snoc(Init(true), steps, Forward(1));
    steps := steps + [Forward(1)];
    Snoc(Init(true), steps, Consume);
    steps := steps + [Consume];
    Snoc(Init(true), steps, Consume);
    steps := steps + [Consume];
  }

  lemma BothOffer(first: ProjectResult, second: ProjectResult) returns (steps: seq<Step>)
    ensures Possible(Init(true), steps)
    ensures After(Init(true), steps) ==
            System(true, [Request(7), Request(7)], Loop(map[7 := 1], [], [0], []), [],
                   [Outcome(7, first, 0), Outcome(7, second, 1)], 0, map[0 := Finished(first), 1 := Finished(second)],
                   [])
  {
    steps := BothFinish(first, second);
    Snoc(Init(true), steps, Offer(0));
    steps := steps + [Offer(0)];
    assert After(Init(true), steps).jobs == [Job(1, Offering(second))];
    Snoc(Init(true), steps, Offer(0));
    steps := steps + [Offer(0)];
  }

  /** Two requests with one task id: the second arrival takes over the parked
      slot, the first job's result goes to the second requester, and the first
      requester is never answered although both jobs finished. */
  lemma CollisionLosesARequest(first: ProjectResult, second: ProjectResult) returns (steps: seq<Step>)
    ensures Possible(Init(true), steps) && PanicFree(steps)
    ensures Quiescent(After(Init(true), steps))
    ensures After(Init(true), steps).node == Loop(map[], [Answer(1, first)], [0], [Outcome(7, second, 1)])
  {
    steps := BothOffer(first, second);
    Snoc(Init(true), steps, Dequeue);
    steps := steps + [Dequeue];
    assert After(Init(true), steps).queue == [Outcome(7, second, 1)];
    Snoc(Init(true), steps, Dequeue);
    steps := steps + [Dequeue];
    AccountedFrom(Init(true), steps);
    QuiescentMeansEmpty(After(Init(true), steps));
    LossesArePermanent(Init(true), steps);
  }

  /** A job that panics leaves its requester's channel parked for good. */
  lemma PanicLosesARequest(request: Request)
    ensures Possible(Init(true), [Arrive(request), Panic(0)])
    ensures
      var s := After(Init(true), [Arrive(request), Panic(0)]);
      Quiescent(s) && Parked(s, 0) && !AllAnswered(s)
  {
    Snoc(Init(true), [], Arrive(request));
    Snoc(Init(true), [Arrive(request)], Panic(0));
    assert [] + [Arrive(request)] == [Arrive(request)];
    assert [Arrive(request)] + [Panic(0)] == [Arrive(request), Panic(0)];
    var s := After(Init(true), [Arrive(request), Panic(0)]);
    AccountedFrom(Init(true), [Arrive(request), Panic(0)]);
    QuiescentMeansEmpty(s);
    assert 0 !in Channels(s.node.answered);
  }
}
