/** The master side of the project protocol: which tasks were dispatched, which
    results came back, and what a poll reports.

    `World` interleaves the client's lock sections with the clock: sending a
    task and recording it are two steps, and so are the two maps that a result
    updates. */
module ProjectClient {
  import opened Prelude
  import opened ProjectExchange

  type Peer = nat

  /** Nanoseconds on the monotonic clock. */
  type Instant = nat

  const RESULT_GRACE: Instant := 1920 * 1_000_000_000

  datatype TaskState = Dispatched | TaskFailed(message: string) | Done

  datatype Tracked = Tracked(state: TaskState, at: Instant)

  datatype Client = Client(tasks: map<TaskId, Tracked>, results: map<TaskId, ProjectResult>)

  function Elapsed(at: Instant, now: Instant): Instant {
    if now < at then 0 else now - at
  }

  function StatusOf(c: Client, t: TaskId, now: Instant): TaskState {
    if t !in c.tasks then TaskFailed("unknown task_id")
    else if c.tasks[t].state.Dispatched? && Elapsed(c.tasks[t].at, now) > RESULT_GRACE
      then TaskFailed("no result within the grace period")
    else c.tasks[t].state
  }

  function Lookup(c: Client, t: TaskId): Option<ProjectResult> {
    if t in c.results then Some(c.results[t]) else None
  }

  /** What a poll reports, given the status and the result it saw. */
  datatype Report = ReportFailed(error: string) | Completed(result: ProjectResult) | Pending

  function ReportOf(status: TaskState, found: Option<ProjectResult>): Report {
    match status
    case TaskFailed(message) => ReportFailed(message)
    case _ => if found.Some? then Completed(found.value) else Pending
  }

  datatype SubmitError = SnapshotMissing | NoPeer | SendFailed

  class ProjectTracker {
    var tasks: map<TaskId, Tracked>
    var results: map<TaskId, ProjectResult>
    var commands: seq<(Peer, TaskId)>

    ghost function View(): Client
      reads this
    {
      Client(tasks, results)
    }

    constructor ()
      ensures View() == Client(map[], map[]) && commands == []
    {
      tasks, results, commands := map[], map[], [];
    }

    /** Dispatches a packed project under the new id `t`.  The snapshot check,
        the peer lookup and the command channel are the environment's answers;
        nothing is tracked or sent unless all three succeed. */
    method SubmitLocalProject(t: TaskId, snapshotStored: bool, peer: Option<Peer>, channelOpen: bool, now: Instant)
      returns (r: Result<TaskId, SubmitError>)
      modifies this
      ensures r.Ok? <==> snapshotStored && peer.Some? && channelOpen
      ensures r.Ok? ==> r.value == t && commands == old(commands) + [(peer.value, t)]
      ensures r.Ok? ==> View() == old(View()).(tasks := old(tasks)[t := Tracked(Dispatched, now)])
      ensures r.Err? ==> View() == old(View()) && commands == old(commands)
      ensures r == Err(SnapshotMissing) <==> !snapshotStored
      ensures r == Err(NoPeer) <==> snapshotStored && peer.None?
    {
      if !snapshotStored {
        return Err(SnapshotMissing);
      }
      if peer.None? {
        return Err(NoPeer);
      }
      if !channelOpen {
        return Err(SendFailed);
      }
      commands := commands + [(peer.value, t)];
      tasks := tasks[t := Tracked(Dispatched, now)];
      return Ok(t);
    }

    method RecordResult(result: ProjectResult, now: Instant)
      modifies this`tasks, this`results
      ensures View() == StoreResultIn(WriteDoneIn(old(View()), result, now), result)
      ensures tasks == old(tasks)[result.taskId := Tracked(Done, now)]
      ensures results == old(results)[result.taskId := result]
    {
      tasks := tasks[result.taskId := Tracked(Done, now)];
      results := results[result.taskId := result];
    }

    method TaskStatus(t: TaskId, now: Instant) returns (status: TaskState)
      ensures status == StatusOf(View(), t, now)
      ensures status.TaskFailed? <==>
              t !in tasks || tasks[t].state.TaskFailed?
              || (tasks[t].state.Dispatched? && now > tasks[t].at + 1920_000_000_000)
      ensures !status.TaskFailed? ==> status == tasks[t].state
    {
      if t !in tasks {
        return TaskFailed("unknown task_id");
      }
      var tracked := tasks[t];
      if tracked.state.Dispatched? && Elapsed(tracked.at, now) > RESULT_GRACE {
        return TaskFailed("no result within the grace period");
      }
      return tracked.state;
    }

    method GetResult(t: TaskId) returns (found: Option<ProjectResult>)
      ensures found == Lookup(View(), t)
      ensures found.Some? <==> t in results
      ensures found.Some? ==> found.value == results[t]
    {
      found := if t in results then Some(results[t]) else None;
    }

    /** The handler behind a client's poll. */
    method FetchProjectResult(t: TaskId, now: Instant) returns (report: Report)
      ensures report.Completed? <==>
              t in tasks && t in results && (tasks[t].state.Dispatched? ==> Elapsed(tasks[t].at, now) <= RESULT_GRACE)
              && !tasks[t].state.TaskFailed?
      ensures report.Completed? ==> report.result == results[t]
      ensures report == ReportOf(StatusOf(View(), t, now), Lookup(View(), t))
    {
      var status := TaskStatus(t, now);
      if status.TaskFailed? {
        return ReportFailed(status.message);
      }
      var found := GetResult(t);
      match found {
        case Some(result) => report := Completed(result);
        case None => report := Pending;
      }
    }
  }

  // ----- The lock sections, interleaved -----

  function WriteDoneIn(c: Client, r: ProjectResult, now: Instant): Client {
    c.(tasks := c.tasks[r.taskId := Tracked(Done, now)])
  }

  function StoreResultIn(c: Client, r: ProjectResult): Client {
    c.(results := c.results[r.taskId := r])
  }

  /** `sent`: ids whose command left.  `unrecorded`: those whose `Dispatched`
      record is still to be written.  `storing`: results whose task is marked
      done but which are not in `results` yet. */
  datatype World = World(
    client: Client,
    now: Instant,
    sent: set<TaskId>,
    unrecorded: set<TaskId>,
    storing: multiset<ProjectResult>)

  const START := World(Client(map[], map[]), 0, {}, {}, multiset{})

  datatype Move =
    | Send(t: TaskId)             // with a fresh id
    | WriteDispatched(t: TaskId)
    | WriteDone(r: ProjectResult)
    | StoreResult(r: ProjectResult)
    | Tick(d: nat)

  predicate CanMove(w: World, m: Move) {
    match m
    case Send(t) => t !in w.sent && t !in w.client.tasks
    case WriteDispatched(t) => t in w.unrecorded
    case WriteDone(_) => true
    case StoreResult(r) => r in w.storing
    case Tick(_) => true
  }

  function MoveTo(w: World, m: Move): World
    requires CanMove(w, m)
  {
    match m
    case Send(t) => w.(sent := w.sent + {t}, unrecorded := w.unrecorded + {t})
    case WriteDispatched(t) =>
      w.(client := w.client.(tasks := w.client.tasks[t := Tracked(Dispatched, w.now)]),
         unrecorded := w.unrecorded - {t})
    case WriteDone(r) => w.(client := WriteDoneIn(w.client, r, w.now), storing := w.storing + multiset{r})
    case StoreResult(r) => w.(client := StoreResultIn(w.client, r), storing := w.storing - multiset{r})
    case Tick(d) => w.(now := w.now + d)
  }

  predicate CanFollow(w: World, moves: seq<Move>)
    decreases |moves|
  {
    moves == [] || (CanMove(w, moves[0]) && CanFollow(MoveTo(w, moves[0]), moves[1..]))
  }

  function Follow(w: World, moves: seq<Move>): World
    requires CanFollow(w, moves)
    decreases |moves|
  {
    if moves == [] then w else Follow(MoveTo(w, moves[0]), moves[1..])
  }

  /** A poll reads the status in one lock section and the result in a later one. */
  function Poll(statusRead: World, resultRead: World, t: TaskId): Report {
    ReportOf(StatusOf(statusRead.client, t, statusRead.now), Lookup(resultRead.client, t))
  }

  ghost predicate Known(w: World) {
    && w.unrecorded <= w.sent
    && w.client.results.Keys <= w.client.tasks.Keys
    && (forall r | r in w.storing :: r.taskId in w.client.tasks)
    && (forall t | t in w.client.tasks :: !w.client.tasks[t].state.TaskFailed?)
    && (forall t | t in w.client.tasks && w.client.tasks[t].state.Dispatched? :: t in w.sent && t !in w.unrecorded)
    && DoneHasResult(w)
  }

  ghost predicate DoneHasResult(w: World) {
    forall t | t in w.client.tasks && w.client.tasks[t].state.Done? && t !in w.client.results :: BeingStored(w, t)
  }

  /** A `record_result` call for `t` is between its two lock sections. */
  ghost predicate BeingStored(w: World, t: TaskId) {
    exists r | r in w.storing :: r.taskId == t
  }

  lemma DoneHasResultByMove(w: World, m: Move)
    requires DoneHasResult(w) && CanMove(w, m)
    ensures DoneHasResult(MoveTo(w, m))
  {
    var w' := MoveTo(w, m);
    forall t | t in w'.client.tasks && w'.client.tasks[t].state.Done? && t !in w'.client.results
      ensures BeingStored(w', t)
    {
      if m.WriteDone? && m.r.taskId == t {
        assert m.r in w'.storing;
      } else {
        assert BeingStored(w, t);
        var r :| r in w.storing && r.taskId == t;
        assert r in w'.storing;
      }
    }
  }

  lemma KnownByMove(w: World, m: Move)
    requires Known(w) && CanMove(w, m)
    ensures Known(MoveTo(w, m))
  {
    DoneHasResultByMove(w, m);
    match m
    case Send(t) =>
    case WriteDispatched(t) =>
    case WriteDone(r) =>
    case StoreResult(r) =>
      assert MoveTo(w, m).storing <= w.storing;
    case Tick(d) =>
  }

  lemma {:induction false} KnownFrom(w: World, moves: seq<Move>)
    requires Known(w) && CanFollow(w, moves)
    ensures Known(Follow(w, moves))
    ensures w.client.results.Keys <= Follow(w, moves).client.results.Keys
    decreases |moves|
  {
    if moves != [] {
      KnownByMove(w, moves[0]);
      KnownFrom(MoveTo(w, moves[0]), moves[1..]);
    }
  }

  // ----- Completed for ever -----

  /** Whatever happens next, every poll of `t` reports it completed. */
  ghost predicate CompletedForever(w: World, t: TaskId) {
    forall before, between ::
      CanFollow(w, before) && CanFollow(Follow(w, before), between) ==>
        Poll(Follow(w, before), Follow(Follow(w, before), between), t).Completed?
  }

  predicate Settled(w: World, t: TaskId) {
    && t in w.client.results && t in w.client.tasks && w.client.tasks[t].state.Done?
    && t !in w.unrecorded
  }

  lemma {:induction false} SettledStays(w: World, moves: seq<Move>, t: TaskId)
    requires Settled(w, t) && CanFollow(w, moves)
    ensures Settled(Follow(w, moves), t)
    decreases |moves|
  {
    if moves != [] {
      SettledStays(MoveTo(w, moves[0]), moves[1..], t);
    }
  }

  lemma OneMove(w: World, m: Move)
    requires CanMove(w, m)
    ensures CanFollow(w, [m]) && Follow(w, [m]) == MoveTo(w, m)
  {
    assert Follow(w, [m]) == Follow(MoveTo(w, m), []);
  }

  lemma TwoMoves(w: World, m: Move, n: Move)
    requires CanMove(w, m) && CanMove(MoveTo(w, m), n)
    ensures CanFollow(w, [m, n]) && Follow(w, [m, n]) == MoveTo(MoveTo(w, m), n)
  {
    OneMove(MoveTo(w, m), n);
    assert [m, n][1..] == [n];
  }

  lemma UnsettledCanFail(w: World, t: TaskId) returns (before: seq<Move>)
    requires Known(w) && !Settled(w, t)
    ensures CanFollow(w, before) && !Poll(Follow(w, before), Follow(w, before), t).Completed?
  {
    if t !in w.client.results {
      before := [];
    } else if t in w.unrecorded {
      TwoMoves(w, WriteDispatched(t), Tick(RESULT_GRACE + 1));
      before := [WriteDispatched(t), Tick(RESULT_GRACE + 1)];
    } else {
      var late := Tick(w.client.tasks[t].at + RESULT_GRACE + 1);
      OneMove(w, late);
      before := [late];
    }
  }

  /** The polls of a task report it completed for ever exactly when its result is
      stored, it is marked done, and no `Dispatched` record for it is still to
      be written. */
  lemma CompletedForeverIff(w: World, t: TaskId)
    requires Known(w)
    ensures CompletedForever(w, t) <==> Settled(w, t)
  {
    if Settled(w, t) {
      forall before, between | CanFollow(w, before) && CanFollow(Follow(w, before), between)
        ensures Poll(Follow(w, before), Follow(Follow(w, before), between), t).Completed?
      {
        SettledStays(w, before, t);
        SettledStays(Follow(w, before), between, t);
      }
    } else {
      var before := UnsettledCanFail(w, t);
      assert CanFollow(Follow(w, before), []) && Follow(Follow(w, before), []) == Follow(w, before);
    }
  }

  /** Every result for `t` arrives after the `Dispatched` record of `t` was written;
      other tasks are free to race. */
  predicate Orderly(w: World, moves: seq<Move>, t: TaskId)
    requires CanFollow(w, moves)
    decreases |moves|
  {
    moves == [] ||
    ((moves[0].WriteDone? && moves[0].r.taskId == t ==> t !in w.unrecorded) && Orderly(MoveTo(w, moves[0]), moves[1..], t))
  }

  ghost predicate ResultInOrder(w: World, t: TaskId) {
    && (t in w.client.results ==> Settled(w, t))
    && (BeingStored(w, t) ==> t in w.client.tasks && w.client.tasks[t].state.Done? && t !in w.unrecorded)
  }

  lemma ResultInOrderByMove(w: World, m: Move, t: TaskId)
    requires ResultInOrder(w, t) && CanMove(w, m)
    requires m.WriteDone? && m.r.taskId == t ==> t !in w.unrecorded
    ensures ResultInOrder(MoveTo(w, m), t)
  {
    var w' := MoveTo(w, m);
    if BeingStored(w', t) {
      var r :| r in w'.storing && r.taskId == t;
      assert r in w.storing || m == WriteDone(r);
    }
    if m.StoreResult? && m.r.taskId == t {
      assert BeingStored(w, t);
    }
  }

  lemma {:induction false} ResultInOrderFrom(w: World, moves: seq<Move>, t: TaskId)
    requires ResultInOrder(w, t) && CanFollow(w, moves) && Orderly(w, moves, t)
    ensures ResultInOrder(Follow(w, moves), t)
    decreases |moves|
  {
    if moves != [] {
      ResultInOrderByMove(w, moves[0], t);
      ResultInOrderFrom(MoveTo(w, moves[0]), moves[1..], t);
    }
  }

  /** In a run where no result of the task overtakes its dispatch record, a task that
      one poll reports completed is reported completed by every later poll. */
  lemma OnceCompletedAlwaysCompleted(past: seq<Move>, between: seq<Move>, t: TaskId)
    requires CanFollow(START, past) && CanFollow(Follow(START, past), between)
    requires Orderly(START, past, t) && Orderly(Follow(START, past), between, t)
    requires Poll(Follow(START, past), Follow(Follow(START, past), between), t).Completed?
    ensures CompletedForever(Follow(Follow(START, past), between), t)
  {
    KnownFrom(START, past);
    KnownFrom(Follow(START, past), between);
    ResultInOrderFrom(START, past, t);
    ResultInOrderFrom(Follow(START, past), between, t);
    CompletedForeverIff(Follow(Follow(START, past), between), t);
  }

  /** The race that the condition excludes: the result overtakes the dispatch
      record, the task is reported completed, and half an hour later it is
      reported failed although its result is still stored. */
  lemma LateDispatchRecordHidesResult(r: ProjectResult)
    ensures
      var t := r.taskId;
      var done := World(Client(map[t := Tracked(Done, 0)], map[t := r]), 0, {t}, {t}, multiset{});
      && CanFollow(START, [Send(t), WriteDone(r), StoreResult(r)])
      && Follow(START, [Send(t), WriteDone(r), StoreResult(r)]) == done
      && Poll(done, done, t) == Completed(r)
      && CanFollow(done, [WriteDispatched(t), Tick(RESULT_GRACE + 1)])
      && var late := Follow(done, [WriteDispatched(t), Tick(RESULT_GRACE + 1)]);
         Poll(late, late, t).ReportFailed? && late.client.results == map[t := r]
  {
    var t := r.taskId;
    var done := World(Client(map[t := Tracked(Done, 0)], map[t := r]), 0, {t}, {t}, multiset{});
    var w1 := MoveTo(START, Send(t));
    TwoMoves(w1, WriteDone(r), StoreResult(r));
    assert MoveTo(MoveTo(w1, WriteDone(r)), StoreResult(r)) == done;
    assert [Send(t), WriteDone(r), StoreResult(r)][1..] == [WriteDone(r), StoreResult(r)];
    TwoMoves(done, WriteDispatched(t), Tick(RESULT_GRACE + 1));
  }

  // ----- Pending, but not for ever -----

  /** In every reachable state, a poll finds a task pending exactly while it is
      tracked without a result and either dispatched within the grace period or
      in the window between the two locks of `record_result`. */
  lemma PendingExactly(past: seq<Move>, t: TaskId)
    requires CanFollow(START, past)
    ensures
      var w := Follow(START, past);
      Poll(w, w, t).Pending? <==>
        && t in w.client.tasks && t !in w.client.results
        && (w.client.tasks[t].state.Dispatched? ==> Elapsed(w.client.tasks[t].at, w.now) <= RESULT_GRACE)
        && (w.client.tasks[t].state.Done? ==> BeingStored(w, t))
  {
    KnownFrom(START, past);
  }

  /** A poll whose status was read past the grace period reports `Pending` only
      if a result for the task was just then being stored, even when the result
      is looked up arbitrarily later than the status. */
  lemma NeverPendingPastGrace(past: seq<Move>, between: seq<Move>, t: TaskId)
    requires CanFollow(START, past) && CanFollow(Follow(START, past), between)
    requires t in Follow(START, past).client.tasks
    requires Elapsed(Follow(START, past).client.tasks[t].at, Follow(START, past).now) > RESULT_GRACE
    requires Poll(Follow(START, past), Follow(Follow(START, past), between), t).Pending?
    ensures BeingStored(Follow(START, past), t)
  {
    KnownFrom(START, past);
    KnownFrom(Follow(START, past), between);
  }

  // ----- What a poll reports, case by case -----

  /** In every reachable state, with the clock read off in nanoseconds: a poll reports a
      task failed exactly if it was never recorded, or was dispatched more than 1920
      seconds ago and has not been marked done; otherwise completed with its stored
      result, or pending without one. */
  lemma PollExactly(past: seq<Move>, t: TaskId)
    requires CanFollow(START, past)
    ensures
      var w := Follow(START, past);
      var overdue := t !in w.client.tasks
        || (w.client.tasks[t].state.Dispatched? && w.now > w.client.tasks[t].at + 1920_000_000_000);
      && (Poll(w, w, t).ReportFailed? <==> overdue)
      && (!overdue && t in w.client.results ==> Poll(w, w, t) == Completed(w.client.results[t]))
      && (!overdue && t !in w.client.results ==> Poll(w, w, t) == Pending)
  {
    KnownFrom(START, past);
  }

  /** A record is as old as the write that made it: dispatching stamps a task with the
      time, and so does its result; ticks alone age it. */
  lemma RecordsAreStamped(w: World, m: Move, t: TaskId)
    requires CanMove(w, m)
    ensures
      var w' := MoveTo(w, m);
      && (m == WriteDispatched(t) ==> t in w'.client.tasks && w'.client.tasks[t] == Tracked(Dispatched, w.now))
      && (m.WriteDone? && m.r.taskId == t ==> t in w'.client.tasks && w'.client.tasks[t] == Tracked(Done, w.now))
      && (m.StoreResult? && m.r.taskId == t ==> t in w'.client.results && w'.client.results[t] == m.r)
      && (m != WriteDispatched(t) && !(m.WriteDone? && m.r.taskId == t) ==>
            (t in w'.client.tasks <==> t in w.client.tasks)
            && (t in w.client.tasks ==> w'.client.tasks[t] == w.client.tasks[t]))
      && (!(m.StoreResult? && m.r.taskId == t) ==>
            (t in w'.client.results <==> t in w.client.results)
            && (t in w.client.results ==> w'.client.results[t] == w.client.results[t]))
  {
  }
}
