/** What holds of every interleaving of fetches, arrivals and clean-ups. */
module BlobFetchSafety {
  import opened Prelude
  import opened ObjectFormat
  import opened ObjectStore
  import opened BlobFetch

  // ----- Where a waiting call's sender is -----

  predicate Live(call: Call) {
    call.progress.Asking? || call.progress.Waiting? || call.progress.GivingUp?
  }

  /** How many senders of `c` the waiters' map and the delivering step hold. */
  function Senders(f: Fetcher, c: CallId): nat
    requires c in f.calls
  {
    multiset(WaitersOf(f.waiters, f.calls[c].hash))[c] + multiset(Left(f.delivery))[c]
  }

  /** The senders that the delivering step holds. */
  function Left(d: Delivery): seq<CallId> {
    if d.Sending? then d.left else []
  }

  ghost predicate WaitersKnown(f: Fetcher) {
    forall hash, c | hash in f.waiters && c in f.waiters[hash] ::
      c in f.signals && c in f.calls && f.calls[c].hash == hash && Live(f.calls[c])
  }

  ghost predicate LeftKnown(f: Fetcher) {
    forall c | c in Left(f.delivery) :: c in f.signals && c in f.calls && f.calls[c].hash == f.delivery.hash
  }

  ghost predicate OneSender(f: Fetcher) {
    forall c | c in f.signals :: c in f.calls && Senders(f, c) == if f.signals[c].Open? then 1 else 0
  }

  ghost predicate Registered(f: Fetcher) {
    forall c | c in f.calls ::
      && (Live(f.calls[c]) ==> c in f.signals)
      && (f.calls[c].progress.Starting? || f.calls[c].progress.Missed? ==> c !in f.signals)
  }

  ghost predicate Tracked(f: Fetcher) {
    WaitersKnown(f) && LeftKnown(f) && OneSender(f) && Registered(f)
  }

  lemma OneSenderByRegister(codec: Codec, f: Fetcher, c: CallId)
    requires Tracked(f) && Enabled(f, Register(c))
    ensures OneSender(Next(codec, f, Register(c)))
  {
    var f', hash := Next(codec, f, Register(c)), f.calls[c].hash;
    var before := WaitersOf(f.waiters, hash);
    SnocMultiset(before, c);
    assert c !in before && c !in Left(f.delivery);
    assert c !in multiset(before) && c !in multiset(Left(f.delivery));
    forall d | d in f'.signals
      ensures d in f'.calls && Senders(f', d) == if f'.signals[d].Open? then 1 else 0
    {
      if d != c {
        assert Senders(f, d) == if f.signals[d].Open? then 1 else 0;
        assert WaitersOf(f'.waiters, f'.calls[d].hash) ==
               if f.calls[d].hash == hash then before + [c] else WaitersOf(f.waiters, f.calls[d].hash);
      }
    }
  }

  lemma WaitersKnownByRegister(codec: Codec, f: Fetcher, c: CallId)
    requires Tracked(f) && Enabled(f, Register(c))
    ensures WaitersKnown(Next(codec, f, Register(c)))
  {
    var f' := Next(codec, f, Register(c));
    forall h, d | h in f'.waiters && d in f'.waiters[h]
      ensures d in f'.signals && d in f'.calls && f'.calls[d].hash == h && Live(f'.calls[d])
    {
      if d != c {
        assert h in f.waiters && d in f.waiters[h];
      }
    }
  }

  lemma TrackedByRegister(codec: Codec, f: Fetcher, c: CallId)
    requires Tracked(f) && Enabled(f, Register(c))
    ensures Tracked(Next(codec, f, Register(c)))
  {
    OneSenderByRegister(codec, f, c);
    WaitersKnownByRegister(codec, f, c);
    RegisteredByRegister(codec, f, c);
  }

  lemma RegisteredByRegister(codec: Codec, f: Fetcher, c: CallId)
    requires LeftKnown(f) && Registered(f) && Enabled(f, Register(c))
    ensures LeftKnown(Next(codec, f, Register(c))) && Registered(Next(codec, f, Register(c)))
  {
  }

  lemma OneSenderByDrop(codec: Codec, f: Fetcher, c: CallId)
    requires Tracked(f) && Enabled(f, DropWaiters(c))
    ensures OneSender(Next(codec, f, DropWaiters(c)))
  {
    var f', hash := Next(codec, f, DropWaiters(c)), f.calls[c].hash;
    var dropped := WaitersOf(f.waiters, hash);
    forall d | d in f'.signals
      ensures d in f'.calls && Senders(f', d) == if f'.signals[d].Open? then 1 else 0
    {
      assert Senders(f, d) == if f.signals[d].Open? then 1 else 0;
      assert f'.calls[d].hash == f.calls[d].hash;
      assert d in dropped <==> multiset(dropped)[d] >= 1;
      assert d in dropped ==> f.calls[d].hash == hash;
    }
  }

  lemma TrackedByDrop(codec: Codec, f: Fetcher, c: CallId)
    requires Tracked(f) && Enabled(f, DropWaiters(c))
    ensures Tracked(Next(codec, f, DropWaiters(c)))
  {
    OneSenderByDrop(codec, f, c);
    RegisteredByDrop(codec, f, c);
  }

  lemma RegisteredByDrop(codec: Codec, f: Fetcher, c: CallId)
    requires WaitersKnown(f) && LeftKnown(f) && Registered(f) && Enabled(f, DropWaiters(c))
    ensures
      var f' := Next(codec, f, DropWaiters(c));
      WaitersKnown(f') && LeftKnown(f') && Registered(f')
  {
  }

  lemma TrackedByTake(codec: Codec, f: Fetcher)
    requires Tracked(f) && Enabled(f, TakeWaiters)
    ensures Tracked(Next(codec, f, TakeWaiters))
  {
    var f', hash := Next(codec, f, TakeWaiters), f.delivery.hash;
    var taken := WaitersOf(f.waiters, hash);
    forall d | d in f'.signals
      ensures d in f'.calls && Senders(f', d) == if f'.signals[d].Open? then 1 else 0
    {
      assert Senders(f, d) == if f.signals[d].Open? then 1 else 0;
      if f.calls[d].hash != hash {
        assert d !in taken;
        assert d !in multiset(taken);
      }
    }
  }

  lemma TrackedByWake(codec: Codec, f: Fetcher)
    requires Tracked(f) && Enabled(f, Wake)
    ensures Tracked(Next(codec, f, Wake))
  {
    var f', left := Next(codec, f, Wake), f.delivery.left;
    assert left == [left[0]] + left[1..];
    assert multiset(left) == multiset{left[0]} + multiset(left[1..]);
    forall d | d in f'.signals
      ensures d in f'.calls && Senders(f', d) == if f'.signals[d].Open? then 1 else 0
    {
      assert Senders(f, d) == if f.signals[d].Open? then 1 else 0;
    }
  }

  lemma OneSenderKept(f: Fetcher, f': Fetcher)
    requires OneSender(f)
    requires f'.waiters == f.waiters && f'.signals == f.signals && Left(f'.delivery) == Left(f.delivery)
    requires forall c | c in f.calls :: c in f'.calls && f'.calls[c].hash == f.calls[c].hash
    ensures OneSender(f')
  {
    forall c | c in f.signals
      ensures c in f'.calls && Senders(f', c) == Senders(f, c)
    {
    }
  }

  /** A step that only moves one call along keeps every sender where it is. */
  lemma TrackedByProgress(f: Fetcher, c: CallId, progress: Progress)
    requires Tracked(f) && c in f.calls
    requires !progress.Starting? && (progress.Missed? ==> f.calls[c].progress.Starting?)
    requires Live(Call(f.calls[c].hash, progress)) ==> Live(f.calls[c])
    requires Live(f.calls[c]) && !Live(Call(f.calls[c].hash, progress)) ==> c in f.signals && !f.signals[c].Open?
    ensures Tracked(Advance(f, c, progress))
  {
    OneSenderKept(f, Advance(f, c, progress));
    if c in f.signals && !f.signals[c].Open? {
      SentHasNoSender(f, c);
    }
    WaitersKnownByProgress(f, c, progress);
  }

  lemma SentHasNoSender(f: Fetcher, c: CallId)
    requires Tracked(f) && c in f.signals && !f.signals[c].Open?
    ensures forall hash | hash in f.waiters :: c !in f.waiters[hash]
  {
    assert Senders(f, c) == 0;
    forall hash | hash in f.waiters
      ensures c !in f.waiters[hash]
    {
      assert c in WaitersOf(f.waiters, hash) ==> c in multiset(WaitersOf(f.waiters, hash));
    }
  }

  lemma WaitersKnownByProgress(f: Fetcher, c: CallId, progress: Progress)
    requires WaitersKnown(f) && c in f.calls
    requires Live(f.calls[c]) && !Live(Call(f.calls[c].hash, progress)) ==>
               forall hash | hash in f.waiters :: c !in f.waiters[hash]
    ensures WaitersKnown(Advance(f, c, progress))
  {
  }

  lemma TrackedByBegin(f: Fetcher, c: CallId, hash: Hash)
    requires Tracked(f) && c !in f.calls
    ensures Tracked(f.(calls := f.calls[c := Call(hash, Starting)]))
  {
    OneSenderKept(f, f.(calls := f.calls[c := Call(hash, Starting)]));
  }

  /** A step that writes the store, or starts or ends a delivery, moves no sender. */
  lemma TrackedByDelivery(f: Fetcher, files: Files, delivery: Delivery)
    requires Tracked(f)
    requires delivery == f.delivery || (Left(delivery) == Left(f.delivery) == [])
    ensures Tracked(f.(files := files, delivery := delivery))
  {
    OneSenderKept(f, f.(files := files, delivery := delivery));
  }

  lemma {:induction false} TrackedByStep(codec: Codec, f: Fetcher, step: Step)
    requires Tracked(f) && Enabled(f, step)
    ensures Tracked(Next(codec, f, step))
  {
    match step
    case Begin(c, hash) => TrackedByBegin(f, c, hash);
    case CheckStore(c) => TrackedByProgress(f, c, Next(codec, f, step).calls[c].progress);
    case Register(c) => TrackedByRegister(codec, f, c);
    case Ask(c, peersKnown) => TrackedByProgress(f, c, if peersKnown then Waiting else GivingUp(NoPeers));
    case Receive(c) => TrackedByProgress(f, c, Returned(Ok(f.signals[c].data)));
    case SeeClosed(c) => TrackedByProgress(f, c, GivingUp(Dropped));
    case TimeOut(c) => TrackedByProgress(f, c, GivingUp(TimedOut));
    case DropWaiters(c) => TrackedByDrop(codec, f, c);
    case Arrive(_, _, _, _) =>
      TrackedByDelivery(f, Next(codec, f, step).files, Next(codec, f, step).delivery);
    case TakeWaiters => TrackedByTake(codec, f);
    case Wake => TrackedByWake(codec, f);
    case EndDelivery => TrackedByDelivery(f, f.files, Idle);
    case OtherPut(obj, io) => TrackedByDelivery(f, Put(codec, f.files, obj, io), f.delivery);
  }

  lemma {:induction false} TrackedFrom(codec: Codec, f: Fetcher, steps: seq<Step>)
    requires Tracked(f) && Possible(codec, f, steps)
    ensures Tracked(After(codec, f, steps))
    decreases |steps|
  {
    if steps != [] {
      TrackedByStep(codec, f, steps[0]);
      TrackedFrom(codec, Next(codec, f, steps[0]), steps[1..]);
    }
  }

  function Indicator(b: bool): nat {
    if b then 1 else 0
  }

  /** In every reachable state, a call that waits is in exactly one of four cases:
      its sender is registered, or held by the delivering step, or its value has
      been sent, or its channel is closed. */
  lemma WaitingCallIsInOneOfFourCases(codec: Codec, steps: seq<Step>, c: CallId)
    requires Possible(codec, EMPTY, steps)
    requires c in After(codec, EMPTY, steps).calls && Live(After(codec, EMPTY, steps).calls[c])
    ensures
      var f := After(codec, EMPTY, steps);
      && c in f.signals
      && Indicator(c in WaitersOf(f.waiters, f.calls[c].hash))
       + Indicator(f.delivery.Sending? && c in f.delivery.left)
       + Indicator(f.signals[c].Sent?) + Indicator(f.signals[c].Closed?) == 1
  {
    TrackedFrom(codec, EMPTY, steps);
    var f := After(codec, EMPTY, steps);
    assert Senders(f, c) == if f.signals[c].Open? then 1 else 0;
    var w := WaitersOf(f.waiters, f.calls[c].hash);
    assert c in w <==> c in multiset(w);
    if f.delivery.Sending? {
      assert c in f.delivery.left <==> c in multiset(f.delivery.left);
    }
  }

  /** No call that has returned leaves a sender behind in the waiters' map. */
  lemma NoWaiterLeaks(codec: Codec, steps: seq<Step>, c: CallId)
    requires Possible(codec, EMPTY, steps)
    requires c in After(codec, EMPTY, steps).calls && After(codec, EMPTY, steps).calls[c].progress.Returned?
    ensures forall hash | hash in After(codec, EMPTY, steps).waiters :: c !in After(codec, EMPTY, steps).waiters[hash]
  {
    TrackedFrom(codec, EMPTY, steps);
  }

  // ----- Why a call is dropped -----

  /** Of all steps, only a clean-up closes an open channel, and it closes exactly
      those registered for its own blob, whoever registered them. */
  lemma ClosesExactly(codec: Codec, f: Fetcher, step: Step, d: CallId)
    requires Tracked(f) && Enabled(f, step) && d in f.signals && f.signals[d].Open?
    ensures d in Next(codec, f, step).signals
    ensures Next(codec, f, step).signals[d].Closed? <==>
            step.DropWaiters? && d in WaitersOf(f.waiters, f.calls[step.c].hash)
  {
    if step.DropWaiters? {
      assert Next(codec, f, step).signals == CloseAll(f.signals, WaitersOf(f.waiters, f.calls[step.c].hash));
    }
  }

  /** Giving up closes the channel of every call registered for the blob, whether it
      waits already or is still sending out its requests. */
  lemma GivingUpDropsEveryWaiter(codec: Codec, steps: seq<Step>, c: CallId, d: CallId)
    requires Possible(codec, EMPTY, steps) && Enabled(After(codec, EMPTY, steps), DropWaiters(c))
    requires d in WaitersOf(After(codec, EMPTY, steps).waiters, After(codec, EMPTY, steps).calls[c].hash)
    ensures
      var f, f' := After(codec, EMPTY, steps), Next(codec, After(codec, EMPTY, steps), DropWaiters(c));
      && d in f'.signals && f'.signals[d].Closed?
      && (d != c && In(f, d, Waiting) ==> Enabled(f', SeeClosed(d)))
  {
    TrackedFrom(codec, EMPTY, steps);
    var f := After(codec, EMPTY, steps);
    assert d in multiset(WaitersOf(f.waiters, f.calls[c].hash));
    assert Senders(f, d) == if f.signals[d].Open? then 1 else 0;
    ClosesExactly(codec, f, DropWaiters(c), d);
  }

  /** `c` waits in the map, its channel open. */
  predicate Registering(f: Fetcher, c: CallId) {
    && c in f.calls && c in f.signals && f.signals[c].Open?
    && c in WaitersOf(f.waiters, f.calls[c].hash)
  }

  /** A call other than `c` cleans up after the blob that `c` waits for. */
  predicate OtherCleansUp(f: Fetcher, step: Step, c: CallId) {
    && step.DropWaiters? && step.c != c && step.c in f.calls && c in f.calls
    && f.calls[step.c].hash == f.calls[c].hash
  }

  /** A delivery takes the waiters of the blob that `c` waits for. */
  predicate DeliveryTakes(f: Fetcher, step: Step, c: CallId) {
    step.TakeWaiters? && f.delivery.Stored? && c in f.calls && f.delivery.hash == f.calls[c].hash
  }

  /** In `steps`, another call cleans up before any delivery takes the waiters. */
  predicate CleanUpComesFirst(codec: Codec, f: Fetcher, steps: seq<Step>, c: CallId)
    requires Possible(codec, f, steps)
    decreases |steps|
  {
    steps != [] &&
    (OtherCleansUp(f, steps[0], c)
     || (!DeliveryTakes(f, steps[0], c) && CleanUpComesFirst(codec, Next(codec, f, steps[0]), steps[1..], c)))
  }

  lemma StillRegistering(codec: Codec, f: Fetcher, step: Step, c: CallId)
    requires Tracked(f) && Enabled(f, step) && Registering(f, c) && step != DropWaiters(c)
    requires !OtherCleansUp(f, step, c) && !DeliveryTakes(f, step, c)
    ensures Registering(Next(codec, f, step), c)
  {
    ClosesExactly(codec, f, step, c);
    if step.Wake? {
      assert c in multiset(WaitersOf(f.waiters, f.calls[c].hash));
      assert Senders(f, c) == 1;
      assert f.delivery.left[0] in multiset(Left(f.delivery));
    }
  }

  /** Past recall: the delivery holds the sender, or has sent. */
  predicate TakenUp(f: Fetcher, c: CallId) {
    c in f.signals && (f.signals[c].Sent? || (f.signals[c].Open? && c in Left(f.delivery)))
  }

  lemma HeldIsNotRegistered(f: Fetcher, c: CallId)
    requires Tracked(f) && c in f.signals && f.signals[c].Open? && c in Left(f.delivery)
    ensures forall hash | hash in f.waiters :: c !in f.waiters[hash]
  {
    assert c in multiset(Left(f.delivery));
    assert Senders(f, c) == 1;
    forall hash | hash in f.waiters
      ensures c !in f.waiters[hash]
    {
      assert c in WaitersOf(f.waiters, hash) ==> c in multiset(WaitersOf(f.waiters, hash));
    }
  }

  lemma TakenUpByDrop(codec: Codec, f: Fetcher, d: CallId, c: CallId)
    requires Tracked(f) && Enabled(f, DropWaiters(d)) && TakenUp(f, c)
    ensures TakenUp(Next(codec, f, DropWaiters(d)), c)
  {
    if f.signals[c].Open? {
      HeldIsNotRegistered(f, c);
    }
  }

  lemma TakenUpByWake(codec: Codec, f: Fetcher, c: CallId)
    requires Enabled(f, Wake) && TakenUp(f, c)
    ensures TakenUp(Next(codec, f, Wake), c)
  {
    assert f.delivery.left == [f.delivery.left[0]] + f.delivery.left[1..];
  }

  lemma TakenUpByOther(codec: Codec, f: Fetcher, step: Step, c: CallId)
    requires Tracked(f) && Enabled(f, step) && TakenUp(f, c) && !step.DropWaiters? && !step.Wake?
    ensures TakenUp(Next(codec, f, step), c)
  {
    assert step.Register? || Next(codec, f, step).signals == f.signals;
  }

  lemma TakenUpByStep(codec: Codec, f: Fetcher, step: Step, c: CallId)
    requires Tracked(f) && Enabled(f, step) && TakenUp(f, c)
    ensures TakenUp(Next(codec, f, step), c)
  {
    if step.DropWaiters? {
      TakenUpByDrop(codec, f, step.c, c);
    } else if step.Wake? {
      TakenUpByWake(codec, f, c);
    } else {
      TakenUpByOther(codec, f, step, c);
    }
  }

  lemma {:induction false} TakenUpFrom(codec: Codec, f: Fetcher, steps: seq<Step>, c: CallId)
    requires Tracked(f) && Possible(codec, f, steps) && TakenUp(f, c)
    ensures TakenUp(After(codec, f, steps), c)
    decreases |steps|
  {
    if steps != [] {
      TrackedByStep(codec, f, steps[0]);
      TakenUpByStep(codec, f, steps[0], c);
      TakenUpFrom(codec, Next(codec, f, steps[0]), steps[1..], c);
    }
  }

  /** A closed channel stays closed, and nobody sends on it. */
  lemma ClosedByStepStays(codec: Codec, f: Fetcher, step: Step, c: CallId)
    requires Tracked(f) && Enabled(f, step) && c in f.signals && f.signals[c].Closed?
    ensures c in Next(codec, f, step).signals && Next(codec, f, step).signals[c].Closed?
  {
    if step.Wake? {
      assert Senders(f, c) == 0;
      assert f.delivery.left[0] in multiset(Left(f.delivery));
    }
  }

  lemma {:induction false} ClosedStays(codec: Codec, f: Fetcher, steps: seq<Step>, c: CallId)
    requires Tracked(f) && Possible(codec, f, steps) && c in f.signals && f.signals[c].Closed?
    ensures c in After(codec, f, steps).signals && After(codec, f, steps).signals[c].Closed?
    decreases |steps|
  {
    if steps != [] {
      TrackedByStep(codec, f, steps[0]);
      ClosedByStepStays(codec, f, steps[0], c);
      ClosedStays(codec, Next(codec, f, steps[0]), steps[1..], c);
    }
  }

  lemma {:induction false} ReturnedStays(codec: Codec, f: Fetcher, steps: seq<Step>, c: CallId)
    requires Possible(codec, f, steps) && c in f.calls && f.calls[c].progress.Returned?
    ensures c in After(codec, f, steps).calls && After(codec, f, steps).calls[c] == f.calls[c]
    decreases |steps|
  {
    if steps != [] {
      assert Next(codec, f, steps[0]).calls[c] == f.calls[c];
      ReturnedStays(codec, Next(codec, f, steps[0]), steps[1..], c);
    }
  }

  lemma TakenUpByTake(codec: Codec, f: Fetcher, step: Step, c: CallId)
    requires Tracked(f) && Enabled(f, step) && Registering(f, c) && DeliveryTakes(f, step, c)
    ensures TakenUp(Next(codec, f, step), c)
  {
  }

  lemma {:induction false} ClosedIffCleanUpFirst(codec: Codec, f: Fetcher, steps: seq<Step>, c: CallId)
    requires Tracked(f) && Possible(codec, f, steps) && Registering(f, c)
    requires In(After(codec, f, steps), c, Waiting)
    ensures c in After(codec, f, steps).signals
    ensures After(codec, f, steps).signals[c].Closed? <==> CleanUpComesFirst(codec, f, steps, c)
    decreases |steps|
  {
    if steps != [] {
      var step, f' := steps[0], Next(codec, f, steps[0]);
      TrackedByStep(codec, f, step);
      if step == DropWaiters(c) {
        ReturnedStays(codec, f', steps[1..], c);
      } else if OtherCleansUp(f, step, c) {
        ClosesExactly(codec, f, step, c);
        ClosedStays(codec, f', steps[1..], c);
      } else if DeliveryTakes(f, step, c) {
        TakenUpByTake(codec, f, step, c);
        TakenUpFrom(codec, f', steps[1..], c);
      } else {
        StillRegistering(codec, f, step, c);
        ClosedIffCleanUpFirst(codec, f', steps[1..], c);
      }
    }
  }

  lemma OnlyRegisterOpens(codec: Codec, f: Fetcher, step: Step, c: CallId)
    requires LeftKnown(f) && Enabled(f, step) && c !in f.signals && step != Register(c)
    ensures c !in Next(codec, f, step).signals
  {
  }

  lemma PrependedSplit(step: Step, steps: seq<Step>, before: seq<Step>, middle: Step, after: seq<Step>)
    requires steps != [] && steps[0] == step && steps[1..] == before + [middle] + after
    ensures steps == [step] + before + [middle] + after && ([step] + before)[1..] == before
  {
    assert steps == [step] + steps[1..];
  }

  /** Where in a run `c` registered. */
  lemma {:induction false} SplitAtRegistration(codec: Codec, f: Fetcher, steps: seq<Step>, c: CallId)
    returns (past: seq<Step>, rest: seq<Step>)
    requires Tracked(f) && Possible(codec, f, steps)
    requires c !in f.signals && c in After(codec, f, steps).signals
    ensures steps == past + [Register(c)] + rest
    ensures Possible(codec, f, past) && Enabled(After(codec, f, past), Register(c))
    ensures Possible(codec, Next(codec, After(codec, f, past), Register(c)), rest)
    ensures After(codec, Next(codec, After(codec, f, past), Register(c)), rest) == After(codec, f, steps)
    decreases |steps|
  {
    var step := steps[0];
    if step == Register(c) {
      past, rest := [], steps[1..];
      assert steps == [] + [Register(c)] + rest;
    } else {
      OnlyRegisterOpens(codec, f, step, c);
      TrackedByStep(codec, f, step);
      var before, after := SplitAtRegistration(codec, Next(codec, f, step), steps[1..], c);
      PrependedSplit(step, steps, before, Register(c), after);
      past, rest := [step] + before, after;
    }
  }

  lemma RegisterRegisters(codec: Codec, f: Fetcher, c: CallId)
    requires Enabled(f, Register(c))
    ensures Registering(Next(codec, f, Register(c)), c)
  {
  }

  /** A waiting call finds its channel closed if and only if, since it registered,
      the clean-up of another call for the same blob ran before any delivery took
      the blob's waiters.  The other call may have failed long before, or may itself
      have been dropped: its clean-up does not single out its own sender. */
  lemma FindsClosedIffCleanedUp(codec: Codec, steps: seq<Step>, c: CallId)
    returns (past: seq<Step>, rest: seq<Step>)
    requires Possible(codec, EMPTY, steps) && In(After(codec, EMPTY, steps), c, Waiting)
    ensures steps == past + [Register(c)] + rest
    ensures Possible(codec, EMPTY, past) && Enabled(After(codec, EMPTY, past), Register(c))
    ensures
      var registered := Next(codec, After(codec, EMPTY, past), Register(c));
      && Possible(codec, registered, rest)
      && (Enabled(After(codec, EMPTY, steps), SeeClosed(c)) <==> CleanUpComesFirst(codec, registered, rest, c))
  {
    TrackedFrom(codec, EMPTY, steps);
    past, rest := SplitAtRegistration(codec, EMPTY, steps, c);
    TrackedFrom(codec, EMPTY, past);
    var f := After(codec, EMPTY, past);
    TrackedByStep(codec, f, Register(c));
    RegisterRegisters(codec, f, c);
    ClosedIffCleanUpFirst(codec, Next(codec, f, Register(c)), rest, c);
  }

  // ----- The bytes a call returns -----

  /** Every usable arrival so far carried the blob it was labelled with. */
  predicate Honest(codec: Codec, step: Step) {
    step.Arrive? && step.found && step.data != [] ==> BlobKey(codec, step.data) == step.hash
  }

  predicate AllHonest(codec: Codec, steps: seq<Step>) {
    forall i | 0 <= i < |steps| :: Honest(codec, steps[i])
  }

  predicate Returns(f: Fetcher, c: CallId) {
    c in f.calls && f.calls[c].progress.Returned? && f.calls[c].progress.result.Ok?
  }

  ghost predicate OkMatches(codec: Codec, f: Fetcher) {
    forall c | Returns(f, c) :: BlobKey(codec, f.calls[c].progress.result.value) == f.calls[c].hash
  }

  ghost predicate BytesMatch(codec: Codec, f: Fetcher) {
    && WellKeyed(codec, f.files) && OkMatches(codec, f)
    && (!f.delivery.Idle? ==> BlobKey(codec, f.delivery.data) == f.delivery.hash)
    && (forall c | c in f.signals && f.signals[c].Sent? ::
          c in f.calls && BlobKey(codec, f.signals[c].data) == f.calls[c].hash)
  }

  predicate IsCallStep(step: Step) {
    !step.Arrive? && !step.TakeWaiters? && !step.Wake? && !step.EndDelivery? && !step.OtherPut?
  }

  /** A call step changes neither the store nor what is being delivered, and sends
      nothing. */
  lemma CallSendsNothing(codec: Codec, f: Fetcher, step: Step)
    requires Enabled(f, step) && IsCallStep(step)
    ensures
      var f' := Next(codec, f, step);
      && f'.files == f.files && f'.delivery == f.delivery
      && (forall c | c in f'.signals && f'.signals[c].Sent? :: c in f.signals && f'.signals[c] == f.signals[c])
      && (forall c | c in f.calls :: c in f'.calls && f'.calls[c].hash == f.calls[c].hash)
  {
    if step.DropWaiters? {
      var dropped := WaitersOf(f.waiters, f.calls[step.c].hash);
      assert Next(codec, f, step).signals == CloseAll(f.signals, dropped);
    } else {
      assert step.Register? || Next(codec, f, step).signals == f.signals;
    }
  }

  /** A call that returns takes its bytes from the store or from its channel. */
  lemma CallTakesBytes(codec: Codec, f: Fetcher, step: Step, c: CallId)
    requires Enabled(f, step) && IsCallStep(step) && Returns(Next(codec, f, step), c)
    ensures c in f.calls && TookFrom(f, f.calls[c], Next(codec, f, step).calls[c], c)
  {
  }

  predicate TookFrom(f: Fetcher, before: Call, after: Call, c: CallId)
    requires after.progress.Returned? && after.progress.result.Ok?
  {
    var data := after.progress.result.value;
    after == before || GetBlob(f.files, before.hash) == Ok(data) || (c in f.signals && f.signals[c] == Sent(data))
  }

  /** A delivery or store step moves no call; what it sends is what is being
      delivered, and a delivery starts only with a usable arrival. */
  lemma DeliveryMovesBytes(codec: Codec, f: Fetcher, step: Step)
    requires Tracked(f) && Enabled(f, step) && !IsCallStep(step)
    ensures
      var f' := Next(codec, f, step);
      && f'.calls == f.calls
      && (forall c | c in f'.signals && f'.signals[c].Sent? ::
            (c in f.signals && f'.signals[c] == f.signals[c]) || DeliveredTo(f, c, f'.signals[c].data))
      && (f'.delivery.Idle?
          || (!f.delivery.Idle? && f'.delivery.hash == f.delivery.hash && f'.delivery.data == f.delivery.data)
          || (step.Arrive? && Usable(codec, f.files, step.found, step.data, step.io)
              && f'.delivery == Stored(step.hash, step.data)))
  {
  }

  predicate DeliveredTo(f: Fetcher, c: CallId, data: Bytes) {
    f.delivery.Sending? && c in f.calls && f.calls[c].hash == f.delivery.hash && data == f.delivery.data
  }

  lemma BytesMatchByCall(codec: Codec, f: Fetcher, step: Step)
    requires Tracked(f) && BytesMatch(codec, f) && Enabled(f, step) && IsCallStep(step)
    ensures BytesMatch(codec, Next(codec, f, step))
  {
    var f' := Next(codec, f, step);
    CallSendsNothing(codec, f, step);
    forall c | Returns(f', c)
      ensures BlobKey(codec, f'.calls[c].progress.result.value) == f'.calls[c].hash
    {
      CallTakesBytes(codec, f, step, c);
      if f'.calls[c] == f.calls[c] {
        assert Returns(f, c);
      }
    }
  }

  lemma WellKeyedByStep(codec: Codec, f: Fetcher, step: Step)
    requires Enabled(f, step) && WellKeyed(codec, f.files)
    ensures WellKeyed(codec, Next(codec, f, step).files)
  {
  }

  lemma BytesMatchByStore(codec: Codec, f: Fetcher, step: Step)
    requires Tracked(f) && BytesMatch(codec, f) && Enabled(f, step) && !IsCallStep(step) && Honest(codec, step)
    ensures BytesMatch(codec, Next(codec, f, step))
  {
    WellKeyedByStep(codec, f, step);
    DeliveryMovesBytes(codec, f, step);
    assert forall c | Returns(Next(codec, f, step), c) :: Returns(f, c);
  }

  lemma {:induction false} BytesMatchFrom(codec: Codec, f: Fetcher, steps: seq<Step>)
    requires Tracked(f) && BytesMatch(codec, f) && Possible(codec, f, steps) && AllHonest(codec, steps)
    ensures BytesMatch(codec, After(codec, f, steps))
    decreases |steps|
  {
    if steps != [] {
      var step := steps[0];
      assert Honest(codec, step);
      TrackedByStep(codec, f, step);
      if IsCallStep(step) {
        BytesMatchByCall(codec, f, step);
      } else {
        BytesMatchByStore(codec, f, step);
      }
      forall i | 0 <= i < |steps[1..]|
        ensures Honest(codec, steps[1..][i])
      {
        assert steps[1..][i] == steps[i + 1];
      }
      BytesMatchFrom(codec, Next(codec, f, step), steps[1..]);
    }
  }

  /** The responses the environment may send. */
  predicate Admits(allowed: (Hash, Bytes) -> bool, steps: seq<Step>) {
    forall i | 0 <= i < |steps| :: steps[i].Arrive? && steps[i].found ==> allowed(steps[i].hash, steps[i].data)
  }

  lemma {:induction false} Snoc(codec: Codec, f: Fetcher, steps: seq<Step>, step: Step)
    requires Possible(codec, f, steps) && Enabled(After(codec, f, steps), step)
    ensures Possible(codec, f, steps + [step])
    ensures After(codec, f, steps + [step]) == Next(codec, After(codec, f, steps), step)
    decreases |steps|
  {
    if steps == [] {
      assert [step][1..] == [];
    } else {
      assert (steps + [step])[1..] == steps[1..] + [step];
      Snoc(codec, Next(codec, f, steps[0]), steps[1..], step);
    }
  }

  /** One mislabelled response is enough for a call to return the wrong bytes. */
  lemma {:induction false} MislabelledBytesAreReturned(codec: Codec, hash: Hash, data: Bytes) returns (steps: seq<Step>)
    requires data != []
    ensures Possible(codec, EMPTY, steps)
    ensures forall i | 0 <= i < |steps| && steps[i].Arrive? :: steps[i].hash == hash && steps[i].data == data
    ensures
      var f := After(codec, EMPTY, steps);
      0 in f.calls && f.calls[0] == Call(hash, Returned(Ok(data)))
  {
    steps := [];
    Snoc(codec, EMPTY, steps, Begin(0, hash));
    steps := steps + [Begin(0, hash)];
    Snoc(codec, EMPTY, steps, CheckStore(0));
    steps := steps + [CheckStore(0)];
    Snoc(codec, EMPTY, steps, Register(0));
    steps := steps + [Register(0)];
    Snoc(codec, EMPTY, steps, Ask(0, true));
    steps := steps + [Ask(0, true)];
    Snoc(codec, EMPTY, steps, Arrive(hash, true, data, Written));
    steps := steps + [Arrive(hash, true, data, Written)];
    Snoc(codec, EMPTY, steps, TakeWaiters);
    steps := steps + [TakeWaiters];
    assert After(codec, EMPTY, steps).delivery == Sending(hash, data, [0]);
    Snoc(codec, EMPTY, steps, Wake);
    steps := steps + [Wake];
    Snoc(codec, EMPTY, steps, Receive(0));
    steps := steps + [Receive(0)];
  }

  /** For any set of responses the peers may send: every `Ok(bytes)` of every run
      carries the hash that was asked for exactly when every non-empty response
      in the set does. */
  lemma OkMatchesIffResponsesDo(codec: Codec, allowed: (Hash, Bytes) -> bool)
    ensures (forall hash, data | allowed(hash, data) && data != [] :: BlobKey(codec, data) == hash) <==>
            (forall steps | Possible(codec, EMPTY, steps) && Admits(allowed, steps) ::
               OkMatches(codec, After(codec, EMPTY, steps)))
  {
    if forall hash, data | allowed(hash, data) && data != [] :: BlobKey(codec, data) == hash {
      forall steps | Possible(codec, EMPTY, steps) && Admits(allowed, steps)
        ensures OkMatches(codec, After(codec, EMPTY, steps))
      {
        BytesMatchFrom(codec, EMPTY, steps);
      }
    } else {
      var hash, data :| allowed(hash, data) && data != [] && BlobKey(codec, data) != hash;
      var steps := MislabelledBytesAreReturned(codec, hash, data);
      assert Returns(After(codec, EMPTY, steps), 0);
      assert Admits(allowed, steps);
    }
  }

  // ----- The store already has what a call returns -----

  /** Whatever is on its way to a caller, or was returned to one, has a file. */
  ghost predicate InStore(f: Fetcher) {
    && (!f.delivery.Idle? ==> f.delivery.hash in f.files)
    && (forall c | c in f.signals && f.signals[c].Sent? :: c in f.calls && f.calls[c].hash in f.files)
    && (forall c | Returns(f, c) :: f.calls[c].hash in f.files)
  }

  lemma InStoreByCall(codec: Codec, f: Fetcher, step: Step)
    requires Tracked(f) && InStore(f) && Enabled(f, step) && IsCallStep(step)
    ensures InStore(Next(codec, f, step))
  {
    var f' := Next(codec, f, step);
    CallSendsNothing(codec, f, step);
    forall c | Returns(f', c)
      ensures f'.calls[c].hash in f'.files
    {
      CallTakesBytes(codec, f, step, c);
      if f'.calls[c] == f.calls[c] {
        assert Returns(f, c);
      }
    }
  }

  /** Files stay, and an honest usable arrival has one under its hash. */
  lemma FilesByStep(codec: Codec, f: Fetcher, step: Step)
    requires Enabled(f, step) && !IsCallStep(step) && Honest(codec, step)
    ensures f.files.Keys <= Next(codec, f, step).files.Keys
    ensures step.Arrive? && Usable(codec, f.files, step.found, step.data, step.io) ==>
              step.hash in Next(codec, f, step).files
  {
  }

  lemma InStoreByStore(codec: Codec, f: Fetcher, step: Step)
    requires Tracked(f) && InStore(f) && Enabled(f, step) && !IsCallStep(step) && Honest(codec, step)
    ensures InStore(Next(codec, f, step))
  {
    FilesByStep(codec, f, step);
    DeliveryMovesBytes(codec, f, step);
    assert forall c | Returns(Next(codec, f, step), c) :: Returns(f, c);
  }

  lemma {:induction false} InStoreFrom(codec: Codec, f: Fetcher, steps: seq<Step>)
    requires Tracked(f) && InStore(f) && Possible(codec, f, steps) && AllHonest(codec, steps)
    ensures InStore(After(codec, f, steps))
    decreases |steps|
  {
    if steps != [] {
      var step := steps[0];
      assert Honest(codec, step);
      TrackedByStep(codec, f, step);
      if IsCallStep(step) {
        InStoreByCall(codec, f, step);
      } else {
        InStoreByStore(codec, f, step);
      }
      forall i | 0 <= i < |steps[1..]|
        ensures Honest(codec, steps[1..][i])
      {
        assert steps[1..][i] == steps[i + 1];
      }
      InStoreFrom(codec, Next(codec, f, step), steps[1..]);
    }
  }

  /** Storing precedes waking, so with honest responses a file sits under the hash
      of every call that returned `Ok(bytes)`; from then on the store serves those
      bytes if and only if that file is neither torn nor a tag. */
  lemma ReturnedBytesAreServedIff(codec: Codec, steps: seq<Step>, c: CallId)
    requires Possible(codec, EMPTY, steps) && AllHonest(codec, steps)
    requires Returns(After(codec, EMPTY, steps), c)
    requires
      var f := After(codec, EMPTY, steps);
      NoCollision(codec, f.files, BlobObject(f.calls[c].progress.result.value))
    ensures
      var f := After(codec, EMPTY, steps);
      var hash, bytes := f.calls[c].hash, f.calls[c].progress.result.value;
      && hash in f.files
      && (GetBlob(f.files, hash) == Ok(bytes) <==> f.files[hash].Whole? && !f.files[hash].obj.TagObject?)
  {
    InStoreFrom(codec, EMPTY, steps);
    BytesMatchFrom(codec, EMPTY, steps);
    var f := After(codec, EMPTY, steps);
    var hash, bytes := f.calls[c].hash, f.calls[c].progress.result.value;
    if f.files[hash].Whole? {
      SamePreimage(codec, f.files[hash].obj, BlobObject(bytes));
    }
  }

  /** Until its waiters are taken, a fetch whose first response tore the file and
      whose second was stored without being written. */
  lemma TornThenSkipped(codec: Codec, data: Bytes) returns (steps: seq<Step>)
    requires data != []
    ensures Possible(codec, EMPTY, steps) && AllHonest(codec, steps)
    ensures
      var hash := BlobKey(codec, data);
      After(codec, EMPTY, steps) ==
      Fetcher(map[hash := Torn], map[hash := [0]], map[0 := Call(hash, Waiting)], map[0 := Open], Stored(hash, data))
  {
    var hash := BlobKey(codec, data);
    steps := [];
    Snoc(codec, EMPTY, steps, Begin(0, hash));
    steps := steps + [Begin(0, hash)];
    Snoc(codec, EMPTY, steps, CheckStore(0));
    steps := steps + [CheckStore(0)];
    assert After(codec, EMPTY, steps) == Fetcher(map[], map[], map[0 := Call(hash, Missed)], map[], Idle);
    Snoc(codec, EMPTY, steps, Register(0));
    steps := steps + [Register(0)];
    assert WaitersOf(EMPTY.waiters, hash) + [0] == [0];
    assert After(codec, EMPTY, steps) ==
           Fetcher(map[], map[hash := [0]], map[0 := Call(hash, Asking)], map[0 := Open], Idle);
    Snoc(codec, EMPTY, steps, Ask(0, true));
    steps := steps + [Ask(0, true)];
    Snoc(codec, EMPTY, steps, Arrive(hash, true, data, CutShort));
    steps := steps + [Arrive(hash, true, data, CutShort)];
    assert After(codec, EMPTY, steps) ==
           Fetcher(map[hash := Torn], map[hash := [0]], map[0 := Call(hash, Waiting)], map[0 := Open], Idle);
    Snoc(codec, EMPTY, steps, Arrive(hash, true, data, Written));
    steps := steps + [Arrive(hash, true, data, Written)];
  }

  /** The run that breaks it: two honest responses, the first of which could not be
      written whole.  The write of the second is skipped and reported as a success;
      the call returns the right bytes, and the store cannot serve them. */
  lemma TornSlotHidesReturnedBytes(codec: Codec, data: Bytes) returns (steps: seq<Step>)
    requires data != []
    ensures Possible(codec, EMPTY, steps) && AllHonest(codec, steps)
    ensures
      var f, hash := After(codec, EMPTY, steps), BlobKey(codec, data);
      && 0 in f.calls && f.calls[0] == Call(hash, Returned(Ok(data)))
      && GetBlob(f.files, hash) == Err(Unreadable)
  {
    steps := TornThenSkipped(codec, data);
    Snoc(codec, EMPTY, steps, TakeWaiters);
    steps := steps + [TakeWaiters];
    assert After(codec, EMPTY, steps).delivery == Sending(BlobKey(codec, data), data, [0]);
    Snoc(codec, EMPTY, steps, Wake);
    steps := steps + [Wake];
    Snoc(codec, EMPTY, steps, Receive(0));
    steps := steps + [Receive(0)];
  }

  // ----- The fetcher's method as a run of steps -----

  lemma {:induction false} WakeAllIsARun(codec: Codec, f: Fetcher) returns (steps: seq<Step>)
    requires f.delivery.Sending?
    ensures Possible(codec, f, steps) && After(codec, f, steps) == WakeAll(f)
    decreases |f.delivery.left|
  {
    if f.delivery.left == [] {
      steps := [EndDelivery];
      assert steps[1..] == [];
    } else {
      var rest := WakeAllIsARun(codec, OnWake(f));
      steps := [Wake] + rest;
      assert steps[1..] == rest;
    }
  }

  /** `OnBlobReceived` without interleaving is one of the runs that the theorems
      above speak about. */
  lemma DeliverIsARun(codec: Codec, f: Fetcher, hash: Hash, found: bool, data: Bytes, io: WriteOutcome)
    returns (steps: seq<Step>)
    requires f.delivery.Idle?
    ensures Possible(codec, f, steps)
    ensures After(codec, f, steps) == Deliver(codec, f, hash, found, data, io)
  {
    var arrive := Arrive(hash, found, data, io);
    var f' := Next(codec, f, arrive);
    if f'.delivery.Idle? {
      steps := [arrive];
      assert steps[1..] == [];
    } else {
      var rest := WakeAllIsARun(codec, OnTake(f'));
      steps := [arrive] + ([TakeWaiters] + rest);
      assert steps[1..] == [TakeWaiters] + rest && ([TakeWaiters] + rest)[1..] == rest;
      assert After(codec, f', [TakeWaiters] + rest) == After(codec, OnTake(f'), rest);
    }
  }
}
