/** Pulling a missing blob from peers: any number of `ensure_blob` calls check the
    store, register waiters, ask, and then race against arrivals, their own
    timeouts and each other's clean-up.  The steps below are the lock sections
    and polls of the code, interleaved freely.  Arrivals are handled one at a
    time, by the one task that owns the swarm's events. */
module BlobFetch {
  import opened Prelude
  import opened ObjectFormat
  import opened ObjectStore

  type CallId = nat

  datatype FetchError = NoPeers | Dropped | TimedOut

  datatype Progress =
    | Starting
    | Missed                        // not in the store; nothing registered yet
    | Asking                        // registered; sending out the requests
    | Waiting
    | GivingUp(reason: FetchError)  // about to take the waiters' lock
    | Returned(result: Result<Bytes, FetchError>)

  datatype Call = Call(hash: Hash, progress: Progress)

  /** The one-shot channel of a registered call. */
  datatype Signal = Open | Sent(data: Bytes) | Closed

  /** `on_blob_received`, between its steps. */
  datatype Delivery =
    | Idle
    | Stored(hash: Hash, data: Bytes)
    | Sending(hash: Hash, data: Bytes, left: seq<CallId>)

  datatype Fetcher = Fetcher(
    files: Files,
    waiters: map<Hash, seq<CallId>>,
    calls: map<CallId, Call>,
    signals: map<CallId, Signal>,
    delivery: Delivery)

  const EMPTY := Fetcher(map[], map[], map[], map[], Idle)

  datatype Step =
    | Begin(c: CallId, hash: Hash)
    | CheckStore(c: CallId)
    | Register(c: CallId)
    | Ask(c: CallId, peersKnown: bool)
    | Receive(c: CallId)
    | SeeClosed(c: CallId)
    | TimeOut(c: CallId)            // the timer is polled after the channel: a value may just have been sent
    | DropWaiters(c: CallId)        // the clean-up of a call that gives up
    | Arrive(hash: Hash, found: bool, data: Bytes, io: WriteOutcome)
    | TakeWaiters
    | Wake
    | EndDelivery
    | OtherPut(obj: Object, io: WriteOutcome) // any other user of the store

  function WaitersOf(waiters: map<Hash, seq<CallId>>, hash: Hash): seq<CallId> {
    if hash in waiters then waiters[hash] else []
  }

  predicate In(f: Fetcher, c: CallId, progress: Progress) {
    c in f.calls && f.calls[c].progress == progress
  }

  predicate Enabled(f: Fetcher, step: Step) {
    match step
    case Begin(c, _) => c !in f.calls
    case CheckStore(c) => In(f, c, Starting)
    case Register(c) => In(f, c, Missed)
    case Ask(c, _) => In(f, c, Asking)
    case Receive(c) => In(f, c, Waiting) && c in f.signals && f.signals[c].Sent?
    case SeeClosed(c) => In(f, c, Waiting) && c in f.signals && f.signals[c].Closed?
    case TimeOut(c) => In(f, c, Waiting)
    case DropWaiters(c) => c in f.calls && f.calls[c].progress.GivingUp?
    case Arrive(_, _, _, _) => f.delivery.Idle?
    case TakeWaiters => f.delivery.Stored?
    case Wake => f.delivery.Sending? && f.delivery.left != []
    case EndDelivery => f.delivery.Sending? && f.delivery.left == []
    case OtherPut(_, _) => true
  }

  function Advance(f: Fetcher, c: CallId, progress: Progress): Fetcher
    requires c in f.calls
  {
    f.(calls := f.calls[c := f.calls[c].(progress := progress)])
  }

  /** Dropping a sender closes its channel unless a value was sent before. */
  function CloseAll(signals: map<CallId, Signal>, dropped: seq<CallId>): map<CallId, Signal> {
    map c | c in signals :: if c in dropped && signals[c].Open? then Closed else signals[c]
  }

  /** The received bytes are usable: something was found and it could be stored. */
  predicate Usable(codec: Codec, files: Files, found: bool, data: Bytes, io: WriteOutcome) {
    found && data != [] && WriteSucceeds(files, BlobKey(codec, data), io)
  }

  function OnArrive(codec: Codec, f: Fetcher, hash: Hash, found: bool, data: Bytes, io: WriteOutcome): Fetcher {
    if !found || data == [] then f
    else
      var stored := f.(files := Put(codec, f.files, BlobObject(data), io));
      if Usable(codec, f.files, found, data, io) then stored.(delivery := Stored(hash, data)) else stored
  }

  function OnTake(f: Fetcher): Fetcher
    requires f.delivery.Stored?
  {
    var d := f.delivery;
    f.(waiters := f.waiters - {d.hash}, delivery := Sending(d.hash, d.data, WaitersOf(f.waiters, d.hash)))
  }

  function OnWake(f: Fetcher): Fetcher
    requires f.delivery.Sending? && f.delivery.left != []
  {
    var d := f.delivery;
    f.(signals := f.signals[d.left[0] := Sent(d.data)], delivery := d.(left := d.left[1..]))
  }

  function Next(codec: Codec, f: Fetcher, step: Step): Fetcher
    requires Enabled(f, step)
  {
    match step
    case Begin(c, hash) => f.(calls := f.calls[c := Call(hash, Starting)])
    case CheckStore(c) =>
      var local := GetBlob(f.files, f.calls[c].hash);
      Advance(f, c, if local.Ok? then Returned(Ok(local.value)) else Missed)
    case Register(c) =>
      var hash := f.calls[c].hash;
      Advance(f, c, Asking).(waiters := f.waiters[hash := WaitersOf(f.waiters, hash) + [c]],
                             signals := f.signals[c := Open])
    case Ask(c, peersKnown) => Advance(f, c, if peersKnown then Waiting else GivingUp(NoPeers))
    case Receive(c) => Advance(f, c, Returned(Ok(f.signals[c].data)))
    case SeeClosed(c) => Advance(f, c, GivingUp(Dropped))
    case TimeOut(c) => Advance(f, c, GivingUp(TimedOut))
    case DropWaiters(c) =>
      var hash := f.calls[c].hash;
      Advance(f, c, Returned(Err(f.calls[c].progress.reason)))
        .(waiters := f.waiters - {hash}, signals := CloseAll(f.signals, WaitersOf(f.waiters, hash)))
    case Arrive(hash, found, data, io) => OnArrive(codec, f, hash, found, data, io)
    case TakeWaiters => OnTake(f)
    case Wake => OnWake(f)
    case EndDelivery => f.(delivery := Idle)
    case OtherPut(obj, io) => f.(files := Put(codec, f.files, obj, io))
  }

  predicate Possible(codec: Codec, f: Fetcher, steps: seq<Step>)
    decreases |steps|
  {
    steps == [] || (Enabled(f, steps[0]) && Possible(codec, Next(codec, f, steps[0]), steps[1..]))
  }

  function After(codec: Codec, f: Fetcher, steps: seq<Step>): Fetcher
    requires Possible(codec, f, steps)
    decreases |steps|
  {
    if steps == [] then f else After(codec, Next(codec, f, steps[0]), steps[1..])
  }

  // ----- The fetcher's own methods -----

  /** Everything a usable arrival does when nothing interleaves with it. */
  function Deliver(codec: Codec, f: Fetcher, hash: Hash, found: bool, data: Bytes, io: WriteOutcome): Fetcher
    requires f.delivery.Idle?
  {
    var f' := OnArrive(codec, f, hash, found, data, io);
    if f'.delivery.Idle? then f' else WakeAll(OnTake(f'))
  }

  function WakeAll(f: Fetcher): Fetcher
    requires f.delivery.Sending?
    decreases |f.delivery.left|
  {
    if f.delivery.left == [] then f.(delivery := Idle) else WakeAll(OnWake(f))
  }

  class BlobFetcher {
    const store: LocalObjectStore
    var waiters: map<Hash, seq<CallId>>
    var signals: map<CallId, Signal>
    ghost var calls: map<CallId, Call>

    ghost function View(): Fetcher
      reads this, store
    {
      Fetcher(store.files, waiters, calls, signals, Idle)
    }

    constructor (store: LocalObjectStore)
      ensures this.store == store
      ensures View() == EMPTY.(files := store.files)
    {
      this.store := store;
      waiters, signals, calls := map[], map[], map[];
    }

    /** Stores an arriving blob, then wakes everyone registered for it. */
    method OnBlobReceived(hash: Hash, found: bool, data: Bytes, io: WriteOutcome) returns (usable: bool)
      modifies this, store
      ensures View() == Deliver(store.codec, old(View()), hash, found, data, io)
      ensures usable == Usable(store.codec, old(store.files), found, data, io)
      ensures !found || data == [] ==> store.files == old(store.files)
      ensures !usable ==> waiters == old(waiters) && signals == old(signals)
    {
      if !found || data == [] {
        return false;
      }
      var stored := store.PutBlob(data, io);
      if stored.Err? {
        return false;
      }
      var woken := WaitersOf(waiters, hash);
      waiters := waiters - {hash};
      ghost var taken := OnTake(OnArrive(store.codec, old(View()), hash, found, data, io));
      assert taken == View().(delivery := Sending(hash, data, woken));
      for i := 0 to |woken|
        invariant store.files == taken.files && waiters == taken.waiters && calls == taken.calls
        invariant WakeAll(taken) == WakeAll(View().(delivery := Sending(hash, data, woken[i..])))
      {
        assert woken[i..][1..] == woken[i + 1..];
        signals := signals[woken[i] := Sent(data)];
      }
      assert woken[|woken|..] == [];
      return true;
    }

    /** Forgets every waiter of `hash`, whoever registered it. */
    method DropWaiter(hash: Hash)
      modifies this`waiters, this`signals
      ensures waiters == old(waiters) - {hash}
      ensures signals == CloseAll(old(signals), WaitersOf(old(waiters), hash))
      ensures forall c | c in old(signals) ::
                c in signals && (signals[c].Closed? <==>
                  old(signals)[c].Closed? || (old(signals)[c].Open? && hash in old(waiters) && c in old(waiters)[hash]))
    {
      signals := CloseAll(signals, WaitersOf(waiters, hash));
      waiters := waiters - {hash};
    }
  }
}
