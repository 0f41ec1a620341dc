/** How every fetch ends: from the local store when the store can serve it, with the
    delivered bytes, or with the error of what happened to it. */
module BlobFetchOutcomes {
  import opened Prelude
  import opened ObjectFormat
  import opened ObjectStore
  import opened BlobFetch
  import opened BlobFetchSafety

  // ----- A blob that the store serves is returned from it -----

  /** `c` has not checked the store yet or has returned `data` from it, and never
      opened a channel. */
  ghost predicate ServedLocally(f: Fetcher, c: CallId, hash: Hash, data: Bytes) {
    && c in f.calls && f.calls[c].hash == hash && c !in f.signals
    && (f.calls[c].progress == Starting || f.calls[c].progress == Returned(Ok(data)))
    && GetBlob(f.files, hash) == Ok(data)
  }

  lemma FilesKeepBlobs(codec: Codec, f: Fetcher, step: Step, hash: Hash)
    requires Enabled(f, step) && GetBlob(f.files, hash).Ok?
    ensures GetBlob(Next(codec, f, step).files, hash) == GetBlob(f.files, hash)
  {
    if step.Arrive? {
      PutKeepsBlobs(codec, f.files, BlobObject(step.data), step.io, hash);
    } else if step.OtherPut? {
      PutKeepsBlobs(codec, f.files, step.obj, step.io, hash);
    }
  }

  lemma ServedLocallyByStep(codec: Codec, f: Fetcher, step: Step, c: CallId, hash: Hash, data: Bytes)
    requires Tracked(f) && Enabled(f, step) && ServedLocally(f, c, hash, data)
    ensures ServedLocally(Next(codec, f, step), c, hash, data)
    ensures step == CheckStore(c) ==> Next(codec, f, step).calls[c].progress == Returned(Ok(data))
  {
    FilesKeepBlobs(codec, f, step, hash);
    OnlyRegisterOpens(codec, f, step, c);
  }

  lemma {:induction false} ServedLocallyFrom(codec: Codec, f: Fetcher, steps: seq<Step>, c: CallId, hash: Hash, data: Bytes)
    requires Tracked(f) && Possible(codec, f, steps) && ServedLocally(f, c, hash, data)
    ensures ServedLocally(After(codec, f, steps), c, hash, data)
    ensures CheckStore(c) in steps ==> After(codec, f, steps).calls[c].progress == Returned(Ok(data))
    decreases |steps|
  {
    if steps != [] {
      TrackedByStep(codec, f, steps[0]);
      ServedLocallyByStep(codec, f, steps[0], c, hash, data);
      var f' := Next(codec, f, steps[0]);
      ServedLocallyFrom(codec, f', steps[1..], c, hash, data);
      if steps[0] == CheckStore(c) {
        ReturnedStays(codec, f', steps[1..], c);
      } else if CheckStore(c) in steps {
        assert steps == [steps[0]] + steps[1..];
      }
    }
  }

  /** If the store serves a call's blob when the call begins, the call never registers
      and never gives up, whatever else happens: it returns exactly the stored bytes
      as soon as it has checked. */
  lemma StoredBlobIsReturned(codec: Codec, past: seq<Step>, c: CallId, hash: Hash, data: Bytes, rest: seq<Step>)
    requires Possible(codec, EMPTY, past) && Enabled(After(codec, EMPTY, past), Begin(c, hash))
    requires GetBlob(After(codec, EMPTY, past).files, hash) == Ok(data)
    requires Possible(codec, Next(codec, After(codec, EMPTY, past), Begin(c, hash)), rest)
    ensures
      var f := After(codec, Next(codec, After(codec, EMPTY, past), Begin(c, hash)), rest);
      && c in f.calls && c !in f.signals
      && f.calls[c] == Call(hash, if CheckStore(c) in rest then Returned(Ok(data)) else Starting)
  {
    TrackedFrom(codec, EMPTY, past);
    var f := After(codec, EMPTY, past);
    TrackedByStep(codec, f, Begin(c, hash));
    var f' := Next(codec, f, Begin(c, hash));
    assert c !in f.signals;
    ServedLocallyFrom(codec, f', rest, c, hash, data);
    if CheckStore(c) !in rest {
      StartingUntilChecked(codec, f', rest, c);
    }
  }

  lemma {:induction false} StartingUntilChecked(codec: Codec, f: Fetcher, steps: seq<Step>, c: CallId)
    requires Possible(codec, f, steps) && In(f, c, Starting) && CheckStore(c) !in steps
    ensures In(After(codec, f, steps), c, Starting)
    decreases |steps|
  {
    if steps != [] {
      assert steps == [steps[0]] + steps[1..];
      assert In(Next(codec, f, steps[0]), c, Starting);
      StartingUntilChecked(codec, Next(codec, f, steps[0]), steps[1..], c);
    }
  }

  /** One check: it returns what the store serves, and misses exactly when the store
      serves nothing. */
  lemma CheckMissesIff(codec: Codec, f: Fetcher, c: CallId)
    requires Enabled(f, CheckStore(c))
    ensures
      var progress := Next(codec, f, CheckStore(c)).calls[c].progress;
      && (progress == Missed <==> GetBlob(f.files, f.calls[c].hash).Err?)
      && (forall data :: progress == Returned(Ok(data)) <==> GetBlob(f.files, f.calls[c].hash) == Ok(data))
      && (progress == Missed || progress.Returned?)
  {
  }

  /** Past its check without having returned on the spot. */
  predicate Fetching(f: Fetcher, c: CallId) {
    c in f.calls && (f.calls[c].progress == Missed || c in f.signals)
  }

  lemma FetchingByStep(codec: Codec, f: Fetcher, step: Step, c: CallId)
    requires Tracked(f) && Enabled(f, step) && c in f.calls && step != CheckStore(c)
    ensures Fetching(Next(codec, f, step), c) <==> Fetching(f, c)
  {
    if step != Register(c) && c !in f.signals {
      OnlyRegisterOpens(codec, f, step, c);
    }
    SignalsStay(codec, f, step, c);
  }

  lemma SignalsStay(codec: Codec, f: Fetcher, step: Step, c: CallId)
    requires Enabled(f, step)
    ensures c in f.signals ==> c in Next(codec, f, step).signals
  {
  }

  lemma {:induction false} FetchingFrom(codec: Codec, f: Fetcher, steps: seq<Step>, c: CallId)
    requires Tracked(f) && Possible(codec, f, steps) && c in f.calls && f.calls[c].progress != Starting
    ensures Fetching(After(codec, f, steps), c) <==> Fetching(f, c)
    decreases |steps|
  {
    if steps != [] {
      TrackedByStep(codec, f, steps[0]);
      FetchingByStep(codec, f, steps[0], c);
      NeverStartsAgain(codec, f, steps[0], c);
      FetchingFrom(codec, Next(codec, f, steps[0]), steps[1..], c);
    }
  }

  lemma NeverStartsAgain(codec: Codec, f: Fetcher, step: Step, c: CallId)
    requires Enabled(f, step) && c in f.calls && f.calls[c].progress != Starting
    ensures c in Next(codec, f, step).calls && Next(codec, f, step).calls[c].progress != Starting
  {
  }

  /** A call goes to the network exactly when the store could not serve its blob at
      the moment of its check; otherwise it has returned what the store served. */
  lemma FetchesIffNotServed(codec: Codec, past: seq<Step>, c: CallId, rest: seq<Step>)
    requires Possible(codec, EMPTY, past) && Enabled(After(codec, EMPTY, past), CheckStore(c))
    requires Possible(codec, Next(codec, After(codec, EMPTY, past), CheckStore(c)), rest)
    ensures
      var f, f' := After(codec, EMPTY, past), After(codec, Next(codec, After(codec, EMPTY, past), CheckStore(c)), rest);
      var local := GetBlob(f.files, f.calls[c].hash);
      && (Fetching(f', c) <==> local.Err?)
      && (local.Ok? ==> c in f'.calls && f'.calls[c].progress == Returned(Ok(local.value)))
  {
    TrackedFrom(codec, EMPTY, past);
    var f := After(codec, EMPTY, past);
    var checked := Next(codec, f, CheckStore(c));
    TrackedByStep(codec, f, CheckStore(c));
    assert c !in f.signals && c !in checked.signals;
    FetchingFrom(codec, checked, rest, c);
    if GetBlob(f.files, f.calls[c].hash).Ok? {
      ReturnedStays(codec, checked, rest, c);
    }
  }

  // ----- Errors -----

  /** The step in which `c` meets the failure `e`. */
  predicate Meets(step: Step, c: CallId, e: FetchError) {
    match e
    case NoPeers => step == Ask(c, false)
    case Dropped => step == SeeClosed(c)
    case TimedOut => step == TimeOut(c)
  }

  predicate HasMet(steps: seq<Step>, c: CallId, e: FetchError) {
    exists i | 0 <= i < |steps| :: Meets(steps[i], c, e)
  }

  predicate Failing(f: Fetcher, c: CallId, e: FetchError) {
    c in f.calls && (f.calls[c].progress == GivingUp(e) || f.calls[c].progress == Returned(Err(e)))
  }

  lemma FailingByStep(codec: Codec, f: Fetcher, step: Step, c: CallId, e: FetchError)
    requires Enabled(f, step)
    ensures Failing(Next(codec, f, step), c, e) <==> Failing(f, c, e) || Meets(step, c, e)
  {
  }

  lemma {:induction false} FailingFrom(codec: Codec, f: Fetcher, steps: seq<Step>, c: CallId, e: FetchError)
    requires Possible(codec, f, steps)
    ensures Failing(After(codec, f, steps), c, e) <==> Failing(f, c, e) || HasMet(steps, c, e)
    decreases |steps|
  {
    if steps != [] {
      var f' := Next(codec, f, steps[0]);
      FailingByStep(codec, f, steps[0], c, e);
      FailingFrom(codec, f', steps[1..], c, e);
      HasMetStep(steps, c, e);
    }
  }

  lemma HasMetStep(steps: seq<Step>, c: CallId, e: FetchError)
    requires steps != []
    ensures HasMet(steps, c, e) <==> Meets(steps[0], c, e) || HasMet(steps[1..], c, e)
  {
    if HasMet(steps[1..], c, e) {
      var i :| 0 <= i < |steps[1..]| && Meets(steps[1..][i], c, e);
      assert Meets(steps[i + 1], c, e);
    }
    if HasMet(steps, c, e) && !Meets(steps[0], c, e) {
      var i :| 0 <= i < |steps| && Meets(steps[i], c, e);
      assert Meets(steps[1..][i - 1], c, e);
    }
  }

  /** A call is giving up or has returned with an error if and only if it met just that
      failure: no peer to ask, its channel closed, or its time run out. */
  lemma FailsExactlyAsMet(codec: Codec, steps: seq<Step>, c: CallId, e: FetchError)
    requires Possible(codec, EMPTY, steps)
    ensures Failing(After(codec, EMPTY, steps), c, e) <==> HasMet(steps, c, e)
  {
    FailingFrom(codec, EMPTY, steps, c, e);
  }

  // ----- Deliveries -----

  /** Without interleaving, a usable arrival sends its bytes to every call waiting for
      the hash it is labelled with and to nobody else, and forgets those waiters;
      any other arrival sends nothing and forgets nobody, and one that found nothing
      is not stored either. */
  lemma {:induction false} DeliverySendsToEveryWaiter(codec: Codec, f: Fetcher, hash: Hash, found: bool, data: Bytes, io: WriteOutcome)
    requires Tracked(f) && f.delivery.Idle?
    ensures
      var f' := Deliver(codec, f, hash, found, data, io);
      && f'.calls == f.calls && f'.delivery.Idle?
      && (!found || data == [] ==> f' == f)
      && (found && data != [] ==> f'.files == Put(codec, f.files, BlobObject(data), io))
      && (!Usable(codec, f.files, found, data, io) ==> f'.waiters == f.waiters && f'.signals == f.signals)
      && (Usable(codec, f.files, found, data, io) ==>
            && f'.waiters == f.waiters - {hash} && BlobKey(codec, data) in f'.files
            && f'.signals.Keys == f.signals.Keys
            && forall c | c in f.signals ::
                 f'.signals[c] == if c in WaitersOf(f.waiters, hash) then Sent(data) else f.signals[c])
  {
    if Usable(codec, f.files, found, data, io) {
      var taken := OnTake(OnArrive(codec, f, hash, found, data, io));
      assert forall c | c in taken.delivery.left :: c in taken.signals;
      WakeAllSends(taken);
    }
  }

  lemma {:induction false} WakeAllSends(f: Fetcher)
    requires f.delivery.Sending? && forall c | c in f.delivery.left :: c in f.signals
    ensures
      var f' := WakeAll(f);
      && f'.calls == f.calls && f'.files == f.files && f'.waiters == f.waiters && f'.delivery.Idle?
      && f'.signals.Keys == f.signals.Keys
      && forall c | c in f.signals ::
           f'.signals[c] == if c in f.delivery.left then Sent(f.delivery.data) else f.signals[c]
    decreases |f.delivery.left|
  {
    if f.delivery.left != [] {
      assert f.delivery.left == [f.delivery.left[0]] + f.delivery.left[1..];
      WakeAllSends(OnWake(f));
    }
  }

  // ----- No call hangs -----

  function StepOf(c: CallId, progress: Progress, signal: Signal): Step {
    match progress
    case Starting => CheckStore(c)
    case Missed => Register(c)
    case Asking => Ask(c, true)
    case Waiting => (match signal case Sent(_) => Receive(c) case Closed => SeeClosed(c) case Open => TimeOut(c))
    case GivingUp(_) => DropWaiters(c)
    case Returned(_) => CheckStore(c)
  }

  /** Whatever its channel holds, a call that has not returned can always make its next
      step; while it waits, its timer may also run out in any case, and it may find
      peers or none when it asks. */
  lemma NextStepIsEnabled(codec: Codec, steps: seq<Step>, c: CallId)
    requires Possible(codec, EMPTY, steps) && c in After(codec, EMPTY, steps).calls
    requires !After(codec, EMPTY, steps).calls[c].progress.Returned?
    ensures
      var f := After(codec, EMPTY, steps);
      var progress := f.calls[c].progress;
      && (progress.Waiting? ==> c in f.signals && Enabled(f, TimeOut(c)))
      && (progress.Asking? ==> Enabled(f, Ask(c, true)) && Enabled(f, Ask(c, false)))
      && Enabled(f, StepOf(c, progress, if c in f.signals then f.signals[c] else Open))
  {
    TrackedFrom(codec, EMPTY, steps);
  }

  /** Steps of its own that a call still needs at most. */
  function OwnStepsLeft(progress: Progress): nat {
    match progress
    case Starting => 5
    case Missed => 4
    case Asking => 3
    case Waiting => 2
    case GivingUp(_) => 1
    case Returned(_) => 0
  }

  predicate IsOwnStep(step: Step, c: CallId) {
    step == CheckStore(c) || step == Register(c) || step == Receive(c) || step == SeeClosed(c)
    || step == TimeOut(c) || step == DropWaiters(c) || step == Ask(c, true) || step == Ask(c, false)
  }

  /** Each step of its own brings a call closer to its return, and no other step moves
      it, so it returns after at most five. */
  lemma OwnStepsDecrease(codec: Codec, f: Fetcher, step: Step, c: CallId)
    requires Enabled(f, step) && c in f.calls
    ensures c in Next(codec, f, step).calls
    ensures IsOwnStep(step, c) ==>
              OwnStepsLeft(Next(codec, f, step).calls[c].progress) < OwnStepsLeft(f.calls[c].progress)
    ensures !IsOwnStep(step, c) ==> Next(codec, f, step).calls[c] == f.calls[c]
  {
  }
}
