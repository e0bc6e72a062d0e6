/** The two-process protocol of `cogni_os/tensor_service.py` as a state machine.

    Three actors share the two queues: the thread that holds the state lock
    (submitting), the thread that holds the receive lock (receiving), and the
    worker.  The two locks are different, so every queue operation and every
    look at `_pending` or `_completed` is a step of its own. */
module TensorProtocol {
  import opened Basics
  import opened TensorMachine

  // ------------------------------------------------------------------
  // The wire: both queues and the worker
  // ------------------------------------------------------------------

  datatype Phase = Ready | Answering(reply: Response) | Exited

  datatype Wire = Wire(
    capacity: nat,
    nextId: int,
    requestQueue: seq<Request>,
    responseQueue: seq<Response>,
    worker: Worker,
    phase: Phase,
    log: seq<Request>  // every request queued so far
  )

  function PutOn(w: Wire, r: Request): Wire {
    w.(nextId := w.nextId + 1, requestQueue := w.requestQueue + [r], log := w.log + [r])
  }

  function Take(w: Wire): Wire
    requires w.requestQueue != []
  {
    var r := w.requestQueue[0];
    w.(requestQueue := w.requestQueue[1..], worker := After(w.worker, r), phase := Answering(Respond(w.worker, r)))
  }

  function Send(w: Wire): Wire
    requires w.phase.Answering?
  {
    w.(responseQueue := w.responseQueue + [w.phase.reply], phase := if w.worker.stopped then Exited else Ready)
  }

  function Pop(w: Wire): Wire
    requires w.responseQueue != []
  {
    w.(responseQueue := w.responseQueue[1..])
  }

  function Taken(w: Wire): int { |w.log| - |w.requestQueue| }
  function Sent(w: Wire): int { Taken(w) - if w.phase.Answering? then 1 else 0 }
  function Received(w: Wire): int { Sent(w) - |w.responseQueue| }

  /** The queues carry the requests and the sequential answers in the order of the ids. */
  ghost predicate Fifo(w: Wire) {
    && w.nextId == |w.log| + 1
    && (forall i :: 0 <= i < |w.log| ==> w.log[i].id == i + 1)
    && 0 <= Received(w)
    && 0 <= Taken(w) && w.requestQueue == w.log[Taken(w)..]
    && w.worker == WorkerAfter(w.log, Taken(w))
    && (w.phase.Answering? ==> Taken(w) >= 1 && w.phase.reply == Answer(w.log, Taken(w)))
    && (w.phase.Ready? ==> !w.worker.stopped)
    && (w.phase.Exited? ==> w.worker.stopped)
    && (forall i :: 0 <= i < |w.responseQueue| ==> w.responseQueue[i] == Answer(w.log, Received(w) + 1 + i))
  }

  lemma LogGrows(log: seq<Request>, r: Request)
    ensures forall k: nat | k <= |log| :: WorkerAfter(log + [r], k) == WorkerAfter(log, k)
    ensures forall k: nat | 1 <= k <= |log| :: Answer(log + [r], k) == Answer(log, k)
  {
    forall k: nat | k <= |log| ensures WorkerAfter(log + [r], k) == WorkerAfter(log, k) {
      WorkerAfterPrefix(log, r, k);
    }
  }

  lemma PutKeepsFifo(w: Wire, r: Request)
    requires Fifo(w) && r.id == w.nextId
    ensures Fifo(PutOn(w, r))
    ensures Received(PutOn(w, r)) == Received(w)
  {
    LogGrows(w.log, r);
  }

  lemma TakeKeepsFifo(w: Wire)
    requires Fifo(w) && w.requestQueue != [] && w.phase.Ready?
    ensures Fifo(Take(w))
    ensures Received(Take(w)) == Received(w)
  {
  }

  lemma SendKeepsFifo(w: Wire)
    requires Fifo(w) && w.phase.Answering?
    ensures Fifo(Send(w))
    ensures Received(Send(w)) == Received(w)
  {
  }

  /** The next response is the sequential answer to the next id. */
  lemma PopKeepsFifo(w: Wire)
    requires Fifo(w) && w.responseQueue != []
    ensures Fifo(Pop(w))
    ensures Received(Pop(w)) == Received(w) + 1 <= |w.log|
    ensures w.responseQueue[0] == Answer(w.log, Received(w) + 1)
    ensures w.responseQueue[0].id == Received(w) + 1
  {
  }

  // ------------------------------------------------------------------
  // The parent process
  // ------------------------------------------------------------------

  /** Where the thread inside `_submit_code` is. */
  datatype Submitter =
    | SubmitIdle
    | Draining                     // at the top of `_drain_available`
    | DrainHand(reply: Response)   // holds a drained response
    | Admitted                     // passed the capacity check
    | Window(id: int)              // request queued, not yet entered in `_pending`

  /** Where the thread inside `receive` is. */
  datatype Receiver =
    | ReceiveIdle
    | Look(id: int)                  // top of the loop
    | Took(id: int, reply: Response) // popped from `_completed`, not yet from `_pending`
    | Waiting(id: int)
    | Expired(id: int)               // deadline passed, id seen in `_pending`, not yet marked
    | Hand(id: int, reply: Response) // holds a response read from the wire

  datatype State = State(
    maxOutstanding: nat,
    wire: Wire,
    pending: map<int, bool>,
    completed: map<int, Response>,
    submitter: Submitter,
    receiver: Receiver,
    delivered: map<int, Response>,  // what `receive` returned, by id
    dropped: set<int>,              // answers discarded after a timeout
    rejected: set<int>              // answers that met no pending id
  )

  datatype Event =
    | SubmitBegin
    | DrainGet
    | DrainDispatch
    | DrainEnd
    | Put(op: int, payload: Payload, outcome: Outcome)
    | Record
    | WorkerTake
    | WorkerSend
    | ReceiveBegin(id: int)
    | LookUp
    | Finish
    | Read
    | Expire
    | Mark
    | Dispatch

  function Initial(maxOutstanding: nat, capacity: nat): State {
    State(maxOutstanding, Wire(capacity, 1, [], [], Worker(false, false), Ready, []),
          map[], map[], SubmitIdle, ReceiveIdle, map[], {}, {})
  }

  predicate Enabled(s: State, e: Event) {
    match e
    case SubmitBegin => s.submitter.SubmitIdle?
    case DrainGet => s.submitter.Draining? && s.wire.responseQueue != []
    case DrainDispatch => s.submitter.DrainHand?
    case DrainEnd => s.submitter.Draining?
    case Put(_, _, _) => s.submitter.Admitted?
    case Record => s.submitter.Window?
    case WorkerTake => s.wire.phase.Ready? && s.wire.requestQueue != []
    case WorkerSend => s.wire.phase.Answering? && |s.wire.responseQueue| < s.wire.capacity
    case ReceiveBegin(_) => s.receiver.ReceiveIdle?
    case LookUp => s.receiver.Look?
    case Finish => s.receiver.Took?
    case Read => s.receiver.Waiting? && s.wire.responseQueue != []
    case Expire => s.receiver.Waiting?
    case Mark => s.receiver.Expired?
    case Dispatch => s.receiver.Hand?
  }

  function Apply(s: State, e: Event): State
    requires Enabled(s, e)
  {
    match e
    case SubmitBegin => s.(submitter := Draining)
    case DrainGet => s.(submitter := DrainHand(s.wire.responseQueue[0]), wire := Pop(s.wire))
    case DrainDispatch => ApplyDrain(s)
    case DrainEnd =>
      // "outstanding request capacity is exhausted" sends the caller away
      s.(submitter := if |s.pending| >= s.maxOutstanding then SubmitIdle else Admitted)
    case Put(op, payload, outcome) =>
      // the id is spent even when the request queue turns out to be full
      if |s.wire.requestQueue| >= s.wire.capacity
      then s.(wire := s.wire.(nextId := s.wire.nextId + 1), submitter := SubmitIdle)
      else s.(wire := PutOn(s.wire, Request(op, s.wire.nextId, payload, outcome)), submitter := Window(s.wire.nextId))
    case Record => s.(pending := s.pending[s.submitter.id := true], submitter := SubmitIdle)
    case WorkerTake => s.(wire := Take(s.wire))
    case WorkerSend => s.(wire := Send(s.wire))
    case ReceiveBegin(id) => s.(receiver := Look(id))
    case LookUp => ApplyLookUp(s)
    case Finish =>
      s.(pending := s.pending - {s.receiver.id}, receiver := ReceiveIdle,
         delivered := s.delivered[s.receiver.id := s.receiver.reply])
    case Read => s.(receiver := Hand(s.receiver.id, s.wire.responseQueue[0]), wire := Pop(s.wire))
    case Expire =>
      s.(receiver := if s.receiver.id in s.pending then Expired(s.receiver.id) else ReceiveIdle)
    case Mark => s.(pending := s.pending[s.receiver.id := false], receiver := ReceiveIdle)
    case Dispatch => ApplyDispatch(s)
  }

  /** `_drain_available` looks at one response. */
  function ApplyDrain(s: State): State
    requires s.submitter.DrainHand?
  {
    var reply := s.submitter.reply;
    var k := reply.id;
    if k !in s.pending then s.(submitter := Draining, rejected := s.rejected + {k})
    else if s.pending[k] then s.(submitter := Draining, completed := s.completed[k := reply])
    else s.(submitter := Draining, pending := s.pending - {k}, dropped := s.dropped + {k})
  }

  function ApplyLookUp(s: State): State
    requires s.receiver.Look?
  {
    var id := s.receiver.id;
    if id in s.completed
    then s.(receiver := Took(id, s.completed[id]), completed := s.completed - {id})
    else s.(receiver := Waiting(id))
  }

  /** `receive` looks at one response; an id that is not pending is a protocol error. */
  function ApplyDispatch(s: State): State
    requires s.receiver.Hand?
  {
    var reply := s.receiver.reply;
    var k := reply.id;
    if k !in s.pending then s.(receiver := ReceiveIdle, rejected := s.rejected + {k})
    else if !s.pending[k] then
      s.(pending := s.pending - {k}, dropped := s.dropped + {k}, receiver := Look(s.receiver.id))
    else if k == s.receiver.id then
      s.(pending := s.pending - {k}, delivered := s.delivered[k := reply], receiver := ReceiveIdle)
    else s.(completed := s.completed[k := reply], receiver := Look(s.receiver.id))
  }

  // ------------------------------------------------------------------
  // The invariant
  // ------------------------------------------------------------------

  predicate InWindow(s: State, k: int) {
    s.submitter.Window? && s.submitter.id == k
  }

  predicate InDrainHand(s: State, k: int) { s.submitter.DrainHand? && s.submitter.reply.id == k }
  predicate InHand(s: State, k: int) { s.receiver.Hand? && s.receiver.reply.id == k }
  predicate InTook(s: State, k: int) { s.receiver.Took? && s.receiver.id == k }
  predicate OnWire(s: State, k: int) { Received(s.wire) < k <= |s.wire.log| }

  /** In the request queue, in the worker, in the response queue, in a thread's
      hand, or kept in `_completed`. */
  predicate InFlight(s: State, k: int) {
    OnWire(s, k) || InDrainHand(s, k) || InHand(s, k) || InTook(s, k) || k in s.completed
  }

  /** A request is in at most one place. */
  ghost predicate OnePlace(s: State, k: int) {
    && !(OnWire(s, k) && (InDrainHand(s, k) || InHand(s, k) || InTook(s, k) || k in s.completed))
    && !(InDrainHand(s, k) && (InHand(s, k) || InTook(s, k) || k in s.completed))
    && !(InHand(s, k) && k in s.completed)
    && !(InTook(s, k) && k in s.completed)
  }

  /** Every request that was ever queued is in flight, delivered, dropped or
      rejected, and only one of them. */
  ghost predicate Accounted(s: State, k: int) {
    && (1 <= k <= |s.wire.log| <==> InFlight(s, k) || k in s.delivered || k in s.dropped || k in s.rejected)
    && (InFlight(s, k) ==> k !in s.delivered && k !in s.dropped && k !in s.rejected)
    && (k in s.delivered ==> k !in s.dropped && k !in s.rejected)
    && (k in s.dropped ==> k !in s.rejected)
  }

  /** `_pending` knows every id in flight, except one that is being recorded, and
      nothing that was never queued. */
  ghost predicate Known(s: State, k: int) {
    && (InFlight(s, k) && !InWindow(s, k) ==> k in s.pending)
    && (k in s.pending ==> 1 <= k <= |s.wire.log| && !InWindow(s, k))
  }

  ghost predicate Placed(s: State, k: int) {
    OnePlace(s, k) && Accounted(s, k) && Known(s, k)
  }

  ghost predicate Places(s: State) {
    forall k :: Placed(s, k)
  }

  ghost predicate IsAnswer(w: Wire, k: int, reply: Response) {
    1 <= k <= |w.log| && reply == Answer(w.log, k) && reply.id == k
  }

  /** Every answer that left the response queue is the sequential one. */
  ghost predicate Answers(s: State) {
    && (s.submitter.DrainHand? ==> IsAnswer(s.wire, s.submitter.reply.id, s.submitter.reply))
    && (s.receiver.Hand? ==> IsAnswer(s.wire, s.receiver.reply.id, s.receiver.reply))
    && (s.receiver.Took? ==> IsAnswer(s.wire, s.receiver.id, s.receiver.reply))
    && (forall k :: k in s.completed ==> IsAnswer(s.wire, k, s.completed[k]))
    && (forall k :: k in s.delivered ==> IsAnswer(s.wire, k, s.delivered[k]))
  }

  /** The request being recorded was not handed on; an id about to be marked was recorded. */
  ghost predicate Windows(s: State) {
    && (s.submitter.Window? ==>
          var w := s.submitter.id;
          1 <= w == |s.wire.log| && w !in s.completed && !InTook(s, w) && w !in s.delivered && w !in s.dropped)
    && (s.receiver.Expired? ==> 1 <= s.receiver.id <= |s.wire.log| && !InWindow(s, s.receiver.id))
  }

  ghost function Flight(s: State): set<int> {
    set k | 1 <= k <= |s.wire.log| && InFlight(s, k)
  }

  /** What is in flight fits the bound, whatever `_pending` says. */
  ghost predicate Roomy(s: State) {
    && s.maxOutstanding < s.wire.capacity
    && |Flight(s)| <= s.maxOutstanding
    && (s.submitter.Admitted? ==> |Flight(s)| < s.maxOutstanding)
  }

  /** What every interleaving keeps. */
  ghost predicate Safe(s: State) {
    Fifo(s.wire) && Places(s) && Answers(s) && Windows(s) && Roomy(s)
  }

  /** What the races lose: `_pending` is exact and bounded, and no answer is rejected. */
  ghost predicate Exact(s: State) {
    && (forall k :: k in s.pending ==> InFlight(s, k))
    && s.rejected == {}
    && |s.pending| <= s.maxOutstanding
    && (s.submitter.Admitted? || s.submitter.Window? ==> |s.pending| < s.maxOutstanding)
  }

  ghost predicate Inv(s: State) {
    Safe(s) && Exact(s)
  }

  // ------------------------------------------------------------------
  // The two races
  // ------------------------------------------------------------------

  /** The step is not the second half of a race between the two locks:
      the receiver does not handle the answer to a request that the submitter
      has queued but not yet recorded, and does not mark an id that a drain
      removed after the receiver saw it. */
  predicate Benign(s: State, e: Event) {
    && (e.Dispatch? && s.receiver.Hand? ==> !InWindow(s, s.receiver.reply.id))
    && (e.Mark? && s.receiver.Expired? ==> s.receiver.id in s.pending)
  }

  lemma InitialInv(maxOutstanding: nat, capacity: nat)
    requires maxOutstanding < capacity
    ensures Inv(Initial(maxOutstanding, capacity))
  {
    assert Flight(Initial(maxOutstanding, capacity)) == {};
  }

  // ------------------------------------------------------------------
  // Counting
  // ------------------------------------------------------------------

  lemma {:induction false} RangeSize(lo: int, hi: int, keys: set<int>)
    requires lo <= hi
    requires forall k :: lo < k <= hi ==> k in keys
    ensures hi - lo <= |keys|
    decreases hi - lo
  {
    if lo < hi {
      assert forall k :: lo < k <= hi - 1 ==> k in keys - {hi};
      RangeSize(lo, hi - 1, keys - {hi});
    }
  }

  /** Neither queue is ever full: what sits in the queues and the worker is in flight. */
  lemma QueuesNeverFill(s: State)
    requires Safe(s)
    ensures |s.wire.log| - Received(s.wire) <= |Flight(s)| <= s.maxOutstanding
    ensures |s.wire.requestQueue| + |s.wire.responseQueue| <= s.maxOutstanding < s.wire.capacity
    ensures s.submitter.Admitted? ==> |s.wire.requestQueue| < s.maxOutstanding
    ensures s.wire.phase.Answering? ==> Enabled(s, WorkerSend)
  {
    hide Places;
    hide Answers;
    hide Windows;
    RangeSize(Received(s.wire), |s.wire.log|, Flight(s));
  }

  /** When no request is being recorded, the ids in flight are pending. */
  lemma FlightIsPending(s: State)
    requires Places(s) && !s.submitter.Window?
    ensures |Flight(s)| <= |s.pending|
  {
    forall k | k in Flight(s) ensures k in s.pending.Keys { assert Placed(s, k); }
    SubsetSize(Flight(s), s.pending.Keys);
  }

  // ------------------------------------------------------------------
  // One step
  // ------------------------------------------------------------------

  /** The queues and the worker. */
  lemma WireStep(s: State, e: Event)
    requires Safe(s) && Enabled(s, e)
    ensures var t, popped := Apply(s, e).wire, if e.DrainGet? || e.Read? then 1 else 0;
      && Fifo(t) && Received(t) == Received(s.wire) + popped && t.capacity == s.wire.capacity
      && t.log == if e.Put? then s.wire.log + [Request(e.op, s.wire.nextId, e.payload, e.outcome)] else s.wire.log
    ensures e.DrainGet? || e.Read? ==> IsAnswer(s.wire, Received(s.wire) + 1, s.wire.responseQueue[0])
  {
    if e.Put? { QueuesNeverFill(s); }
    hide Places;
    hide Answers;
    hide Windows;
    hide Roomy;
    match e
    case DrainGet | Read => PopKeepsFifo(s.wire);
    case Put(op, payload, outcome) => PutKeepsFifo(s.wire, Request(op, s.wire.nextId, payload, outcome));
    case WorkerTake => TakeKeepsFifo(s.wire);
    case WorkerSend => SendKeepsFifo(s.wire);
    case _ =>
  }

  /** A new request is put in flight. */
  lemma PutPlaced(s: State, e: Event, k: int)
    requires Safe(s) && Enabled(s, e) && e.Put?
    ensures Placed(Apply(s, e), k)
    ensures InFlight(Apply(s, e), k) <==> InFlight(s, k) || k == |s.wire.log| + 1
  {
    WireStep(s, e);
    QueuesNeverFill(s);
    assert Placed(s, k) && Placed(s, s.wire.nextId);
    assert s.wire.nextId == |s.wire.log| + 1;
    hide Fifo;
    hide Answers;
    hide Received;
  }

  /** An answer is taken off the wire. */
  lemma PopPlaced(s: State, e: Event, k: int)
    requires Safe(s) && Enabled(s, e) && (e.DrainGet? || e.Read?)
    ensures Placed(Apply(s, e), k)
    ensures InFlight(Apply(s, e), k) <==> InFlight(s, k)
  {
    WireStep(s, e);
    assert Placed(s, k);
    hide Fifo;
    hide Answers;
    hide Received;
  }

  /** A drain handles the answer in its hand. */
  lemma DrainPlaced(s: State, e: Event, k: int)
    requires Safe(s) && Enabled(s, e) && e.DrainDispatch?
    ensures Placed(Apply(s, e), k)
    ensures InFlight(Apply(s, e), k) ==> InFlight(s, k)
  {
    assert Placed(s, k) && Placed(s, s.submitter.reply.id);
    hide Fifo;
    hide Answers;
    hide Received;
    hide Windows;
    hide Roomy;
  }

  /** Handling an answer does not move the other ids. */
  lemma DispatchUnmoved(s: State, e: Event, k: int)
    requires Enabled(s, e) && e.Dispatch? && k != s.receiver.reply.id
    ensures var t := Apply(s, e);
      && t.wire == s.wire && t.submitter == s.submitter
      && !InHand(t, k) && !InHand(s, k) && !InTook(t, k) && !InTook(s, k)
      && (k in t.completed <==> k in s.completed) && (k in t.pending <==> k in s.pending)
      && (k in t.delivered <==> k in s.delivered) && (k in t.dropped <==> k in s.dropped) && (k in t.rejected <==> k in s.rejected)
  {
  }

  /** It moves the id that was handled out of the hand. */
  lemma DispatchMoves(s: State, e: Event, k: int)
    requires Enabled(s, e) && e.Dispatch? && k == s.receiver.reply.id && k !in s.completed && k !in s.dropped && k !in s.delivered
    requires k !in s.rejected
    ensures var t := Apply(s, e);
      && t.wire == s.wire && t.submitter == s.submitter && !InHand(t, k) && !InTook(t, k)
      && (k in t.completed ==> k in s.pending && k in t.pending)
      && (k in t.completed <==> k !in t.delivered && k !in t.dropped && k !in t.rejected)
      && (k in t.delivered ==> k !in t.dropped && k !in t.rejected) && (k in t.dropped ==> k !in t.rejected)
      && (k in t.pending ==> k in s.pending)
  {
  }

  /** `receive` handles the answer in its hand. */
  lemma DispatchPlaced(s: State, e: Event, k: int)
    requires Safe(s) && Enabled(s, e) && e.Dispatch?
    ensures Placed(Apply(s, e), k)
    ensures InFlight(Apply(s, e), k) ==> InFlight(s, k)
  {
    assert Placed(s, k) && InHand(s, s.receiver.reply.id);
    if k == s.receiver.reply.id { DispatchMoves(s, e, k); } else { DispatchUnmoved(s, e, k); }
    hide Safe;
    hide Received;
    hide Apply;
    hide Enabled;
    hide InHand;
    hide InTook;
  }

  /** `receive` returns an answer that was kept. */
  lemma TakePlaced(s: State, e: Event, k: int)
    requires Safe(s) && Enabled(s, e) && (e.LookUp? || e.Finish?)
    ensures Placed(Apply(s, e), k)
    ensures InFlight(Apply(s, e), k) ==> InFlight(s, k)
  {
    assert Placed(s, k) && Placed(s, s.receiver.id);
    hide Fifo;
    hide Answers;
    hide Received;
  }

  /** Some steps only move the place of a thread. */
  lemma ControlPlaced(s: State, e: Event, k: int)
    requires Safe(s) && Enabled(s, e) && (e.SubmitBegin? || e.DrainEnd? || e.ReceiveBegin? || e.Expire?)
    ensures Placed(Apply(s, e), k)
    ensures InFlight(Apply(s, e), k) <==> InFlight(s, k)
  {
    assert Placed(s, k);
    hide Places;
    hide Fifo;
    hide Answers;
    hide Received;
    hide Roomy;
  }

  /** The worker moves a request from one queue to the other. */
  lemma WorkerPlaced(s: State, e: Event, k: int)
    requires Safe(s) && Enabled(s, e) && (e.WorkerTake? || e.WorkerSend?)
    ensures Placed(Apply(s, e), k)
    ensures InFlight(Apply(s, e), k) <==> InFlight(s, k)
  {
    WireStep(s, e);
    assert Placed(s, k);
    hide Places;
    hide Fifo;
    hide Answers;
    hide Windows;
    hide Received;
    hide Roomy;
    hide Take;
    hide Send;
    assert OnWire(Apply(s, e), k) <==> OnWire(s, k);
  }

  /** An id is entered in `_pending`, or marked there. */
  lemma MarkPlaced(s: State, e: Event, k: int)
    requires Safe(s) && Enabled(s, e) && (e.Record? || e.Mark?)
    ensures Placed(Apply(s, e), k)
    ensures InFlight(Apply(s, e), k) <==> InFlight(s, k)
  {
    assert Placed(s, k);
    hide Places;
    hide Fifo;
    hide Answers;
    hide Received;
    hide Roomy;
  }

  lemma PlacedStep(s: State, e: Event, k: int)
    requires Safe(s) && Enabled(s, e)
    ensures Placed(Apply(s, e), k)
    ensures InFlight(Apply(s, e), k) ==> InFlight(s, k) || (e.Put? && k == |s.wire.log| + 1)
  {
    hide Safe;
    hide Placed;
    hide InFlight;
    match e
    case Put(_, _, _) => PutPlaced(s, e, k);
    case DrainGet | Read => PopPlaced(s, e, k);
    case DrainDispatch => DrainPlaced(s, e, k);
    case Dispatch => DispatchPlaced(s, e, k);
    case LookUp | Finish => TakePlaced(s, e, k);
    case WorkerTake | WorkerSend => WorkerPlaced(s, e, k);
    case Record | Mark => MarkPlaced(s, e, k);
    case _ => ControlPlaced(s, e, k);
  }

  /** An answer stays the answer. */
  lemma AnswerStays(s: State, e: Event, k: int, reply: Response)
    requires Safe(s) && Enabled(s, e) && IsAnswer(s.wire, k, reply)
    ensures IsAnswer(Apply(s, e).wire, k, reply)
  {
    WireStep(s, e);
    hide Fifo;
    if e.Put? { LogGrows(s.wire.log, Request(e.op, s.wire.nextId, e.payload, e.outcome)); }
  }

  lemma AnswersHanded(s: State, e: Event)
    requires Safe(s) && Enabled(s, e)
    requires e.DrainGet? || e.Read? || e.LookUp? || e.Finish?
    ensures Answers(Apply(s, e))
  {
    WireStep(s, e);
    hide Places;
    hide Fifo;
    hide Windows;
    hide Roomy;
    hide Received;
  }

  lemma AnswersDispatched(s: State, e: Event)
    requires Safe(s) && Enabled(s, e)
    requires e.DrainDispatch? || e.Dispatch?
    ensures Answers(Apply(s, e))
  {
    hide Places;
    hide Fifo;
    hide Windows;
    hide Roomy;
    hide IsAnswer;
    assert e.Dispatch? ==> IsAnswer(s.wire, s.receiver.reply.id, s.receiver.reply);
  }

  lemma AnswersStep(s: State, e: Event)
    requires Safe(s) && Enabled(s, e)
    ensures Answers(Apply(s, e))
  {
    match e
    case DrainGet | Read | LookUp | Finish => AnswersHanded(s, e);
    case DrainDispatch | Dispatch => AnswersDispatched(s, e);
    case _ =>
      forall k, reply | IsAnswer(s.wire, k, reply) ensures IsAnswer(Apply(s, e).wire, k, reply) { AnswerStays(s, e, k, reply); }
      hide Places;
      hide Fifo;
      hide Windows;
      hide Roomy;
      hide IsAnswer;
      hide Take;
      hide Send;
      hide PutOn;
  }

  lemma WindowPut(s: State, e: Event)
    requires Safe(s) && Enabled(s, e) && e.Put?
    ensures Windows(Apply(s, e))
  {
    assert Placed(s, s.wire.nextId);
    QueuesNeverFill(s);
    hide Places;
    hide Answers;
    hide Roomy;
  }

  lemma WindowHandled(s: State, e: Event)
    requires Safe(s) && Enabled(s, e) && (e.Dispatch? || e.DrainDispatch? || e.LookUp? || e.Finish?)
    ensures Windows(Apply(s, e))
  {
    if s.submitter.Window? { assert Placed(s, s.submitter.id); }
    assert Windows(s);
    hide Safe;
    hide Received;
    hide InFlight;
    hide Accounted;
    hide OnePlace;
  }

  lemma WindowStays(s: State, e: Event)
    requires Safe(s) && Enabled(s, e) && !e.Put? && !e.Dispatch? && !e.DrainDispatch? && !e.LookUp? && !e.Finish?
    ensures Windows(Apply(s, e))
  {
    if s.receiver.Waiting? { assert Placed(s, s.receiver.id); }
    assert Windows(s);
    WireStep(s, e);
    hide Safe;
    hide Fifo;
    hide Received;
    hide InFlight;
    hide Accounted;
    hide OnePlace;
    hide Take;
    hide Send;
    hide Pop;
  }

  lemma WindowsStep(s: State, e: Event)
    requires Safe(s) && Enabled(s, e)
    ensures Windows(Apply(s, e))
  {
    match e
    case Put(_, _, _) => WindowPut(s, e);
    case Dispatch | DrainDispatch | LookUp | Finish => WindowHandled(s, e);
    case _ => WindowStays(s, e);
  }

  /** Nothing new is in flight but a request that was put. */
  lemma FlightStep(s: State, e: Event)
    requires Safe(s) && Enabled(s, e)
    ensures Flight(Apply(s, e)) <= Flight(s) + if e.Put? then {|s.wire.log| + 1} else {}
  {
    WireStep(s, e);
    forall k | k in Flight(Apply(s, e)) ensures k in Flight(s) + if e.Put? then {|s.wire.log| + 1} else {} { PlacedStep(s, e, k); }
  }

  /** A submission is admitted by a look at `_pending` alone. */
  lemma AdmittedByPending(s: State, e: Event)
    requires Enabled(s, e)
    ensures Apply(s, e).maxOutstanding == s.maxOutstanding
    ensures Apply(s, e).submitter.Admitted? ==> !e.Put? && (s.submitter.Admitted? || (e.DrainEnd? && |s.pending| < s.maxOutstanding))
    ensures e.Put? ==> s.submitter.Admitted?
    ensures e.DrainEnd? ==> !s.submitter.Window?
  {
  }

  lemma RoomyStep(s: State, e: Event)
    requires Safe(s) && Enabled(s, e)
    ensures Roomy(Apply(s, e))
  {
    WireStep(s, e);
    FlightStep(s, e);
    AdmittedByPending(s, e);
    if e.DrainEnd? { FlightIsPending(s); }
    SubsetSize(Flight(Apply(s, e)), Flight(s) + if e.Put? then {|s.wire.log| + 1} else {});
    hide Apply;
    hide Enabled;
    hide Places;
    hide Answers;
    hide Windows;
    hide Fifo;
    hide Flight;
    assert Roomy(s);
  }

  /** Every step of every interleaving keeps what is safe. */
  lemma StepKeepsSafe(s: State, e: Event)
    requires Safe(s) && Enabled(s, e)
    ensures Safe(Apply(s, e))
  {
    WireStep(s, e);
    forall k ensures Placed(Apply(s, e), k) { PlacedStep(s, e, k); }
    AnswersStep(s, e);
    WindowsStep(s, e);
    RoomyStep(s, e);
    hide Placed;
    hide Answers;
    hide Windows;
    hide Roomy;
    hide Fifo;
  }

  /** A race breaks the invariant at once: an id is pending without being in flight,
      or an answer is rejected. */
  lemma RaceShows(s: State, e: Event)
    requires Inv(s) && Enabled(s, e) && !Benign(s, e)
    ensures !Exact(Apply(s, e))
  {
    if e.Mark? {
      assert Placed(s, s.receiver.id);
      assert s.receiver.id in Apply(s, e).pending && !InFlight(Apply(s, e), s.receiver.id);
    } else {
      assert Placed(s, s.receiver.reply.id);
      assert s.receiver.reply.id in Apply(s, e).rejected;
    }
  }

  lemma RecordedIsInFlight(s: State, e: Event, k: int)
    requires Inv(s) && Enabled(s, e) && Benign(s, e) && (e.Record? || e.Mark?)
    ensures k in Apply(s, e).pending ==> InFlight(Apply(s, e), k)
  {
    assert Placed(s, k);
    MarkPlaced(s, e, k);
    hide Places;
    hide Fifo;
    hide Answers;
    hide Received;
    hide Roomy;
    hide InFlight;
  }

  lemma PendingStays(s: State, e: Event, k: int)
    requires Inv(s) && Enabled(s, e) && !e.Dispatch? && !e.DrainDispatch? && !e.Put? && !e.Record? && !e.Mark?
    ensures k in Apply(s, e).pending ==> InFlight(Apply(s, e), k)
  {
    WireStep(s, e);
    assert Placed(s, k);
    hide Places;
    hide Windows;
    hide Fifo;
    hide Answers;
    hide Received;
    hide Roomy;
  }

  /** A pending id stays in flight unless its answer is handled, and then it is not
      pending any more. */
  lemma HandledStays(s: State, e: Event, k: int)
    requires Inv(s) && Enabled(s, e) && Benign(s, e) && (e.Dispatch? || e.DrainDispatch?)
    ensures k in Apply(s, e).pending ==> InFlight(Apply(s, e), k)
  {
    assert Placed(s, k);
    if e.Dispatch? { assert Placed(s, s.receiver.reply.id); } else { assert Placed(s, s.submitter.reply.id); }
    hide Places;
    hide Fifo;
    hide Answers;
    hide Received;
    hide Roomy;
  }

  lemma WithoutSize(m: map<int, bool>, k: int)
    ensures |m - {k}| <= |m|
  {
    assert |m| == |m.Keys| && |m - {k}| == |(m - {k}).Keys|;
    SubsetSize((m - {k}).Keys, m.Keys);
  }

  lemma PendingShrinks(s: State, e: Event)
    requires Enabled(s, e) && (e.Dispatch? || e.DrainDispatch? || e.Finish?)
    ensures |Apply(s, e).pending| <= |s.pending|
  {
    WithoutSize(s.pending, if e.Dispatch? then s.receiver.reply.id else if e.Finish? then s.receiver.id else s.submitter.reply.id);
  }

  lemma PendingGrows(s: State, e: Event)
    requires Enabled(s, e) && (e.Record? || e.Mark?)
    ensures |Apply(s, e).pending| <= |s.pending| + if e.Mark? && s.receiver.id in s.pending then 0 else 1
  {
    var k := if e.Record? then s.submitter.id else s.receiver.id;
    var m := s.pending[k := e.Record?];
    assert |m| == |m.Keys| && m.Keys == s.pending.Keys + {k};
  }

  lemma PendingSize(s: State, e: Event)
    requires Enabled(s, e)
    ensures |Apply(s, e).pending| <= |s.pending| + if e.Record? || (e.Mark? && s.receiver.id !in s.pending) then 1 else 0
  {
    match e
    case Dispatch | DrainDispatch | Finish => PendingShrinks(s, e);
    case Record | Mark => PendingGrows(s, e);
    case _ =>
      assert Apply(s, e).pending == s.pending by {
        hide Take;
        hide Send;
        hide Pop;
        hide PutOn;
      }
  }

  lemma PendingIsBounded(s: State, e: Event)
    requires Inv(s) && Enabled(s, e) && Benign(s, e)
    ensures var t := Apply(s, e); t.rejected == {} && |t.pending| <= t.maxOutstanding
    ensures var t := Apply(s, e); t.submitter.Admitted? || t.submitter.Window? ==> |t.pending| < t.maxOutstanding
  {
    UnknownIdIffWindow(s);
    PendingSize(s, e);
    hide Safe;
    hide Take;
    hide Send;
    hide Pop;
  }

  lemma ExactStays(s: State, e: Event)
    requires Inv(s) && Enabled(s, e) && Benign(s, e)
    ensures Exact(Apply(s, e))
  {
    PendingIsBounded(s, e);
    forall k ensures k in Apply(s, e).pending ==> InFlight(Apply(s, e), k) {
      if e.Put? {
        PutPlaced(s, e, k);
      } else if e.Dispatch? || e.DrainDispatch? {
        HandledStays(s, e, k);
      } else if e.Record? || e.Mark? {
        RecordedIsInFlight(s, e, k);
      } else {
        PendingStays(s, e, k);
      }
    }
    hide Safe;
    hide InFlight;
    hide Benign;
    hide ApplyDrain;
    hide ApplyLookUp;
    hide ApplyDispatch;
  }

  /** A step keeps the invariant exactly when it is not the second half of a race. */
  lemma StepKeepsInvIffBenign(s: State, e: Event)
    requires Inv(s) && Enabled(s, e)
    ensures Inv(Apply(s, e)) <==> Benign(s, e)
  {
    StepKeepsSafe(s, e);
    if Benign(s, e) { ExactStays(s, e); } else { RaceShows(s, e); }
  }

  /** `receive` meets an unknown request id exactly when it handles the answer to
      a request whose submitter has not recorded it yet; a drain never meets one. */
  lemma UnknownIdIffWindow(s: State)
    requires Safe(s)
    ensures s.receiver.Hand? ==> (s.receiver.reply.id !in s.pending <==> InWindow(s, s.receiver.reply.id))
    ensures s.submitter.DrainHand? ==> s.submitter.reply.id in s.pending
  {
    if s.receiver.Hand? { assert Placed(s, s.receiver.reply.id); }
    if s.submitter.DrainHand? { assert Placed(s, s.submitter.reply.id); }
  }

  /** What a caller can rely on between any two steps. */
  lemma CompletedIsPending(s: State)
    requires Safe(s)
    ensures s.completed.Keys <= s.pending.Keys
    ensures s.submitter.SubmitIdle? ==> forall k :: InFlight(s, k) ==> k in s.pending
  {
    forall k | k in s.completed ensures k in s.pending { assert Placed(s, k); }
    forall k
      ensures s.submitter.SubmitIdle? && InFlight(s, k) ==> k in s.pending
    {
      assert Placed(s, k);
    }
  }

  /** Without a race, `_pending` is what is in flight, and nothing else. */
  lemma PendingIsInFlight(s: State)
    requires Inv(s)
    ensures s.submitter.SubmitIdle? ==> forall k :: k in s.pending <==> InFlight(s, k)
    ensures |s.pending| <= s.maxOutstanding
  {
    CompletedIsPending(s);
  }

  // ------------------------------------------------------------------
  // Runs
  // ------------------------------------------------------------------

  ghost predicate Feasible(s: State, events: seq<Event>)
    decreases |events|
  {
    events != [] ==> Enabled(s, events[0]) && Feasible(Apply(s, events[0]), events[1..])
  }

  function Run(s: State, events: seq<Event>): State
    requires Feasible(s, events)
    decreases |events|
  {
    if events == [] then s else Run(Apply(s, events[0]), events[1..])
  }

  /** Every interleaving keeps what is safe, races included. */
  lemma {:induction false} EveryRunIsSafe(s: State, events: seq<Event>)
    requires Safe(s) && Feasible(s, events)
    ensures Safe(Run(s, events))
    decreases |events|
  {
    if events != [] {
      StepKeepsSafe(s, events[0]);
      EveryRunIsSafe(Apply(s, events[0]), events[1..]);
    }
  }

  /** Refinement, over every interleaving: what `receive` returned for request k is
      what the sequential machine answers to request k after requests 1 to k - 1;
      every request is in flight, delivered, dropped or rejected, and only one of
      these; neither queue is full when something is put on it; completed answers
      belong to pending ids; and an id is unknown to `receive` exactly while its
      submitter has yet to record it. */
  lemma DeliveredIsSequential(maxOutstanding: nat, capacity: nat, events: seq<Event>)
    requires maxOutstanding < capacity
    requires Feasible(Initial(maxOutstanding, capacity), events)
    ensures var s := Run(Initial(maxOutstanding, capacity), events);
      && (forall k :: k in s.delivered ==> 1 <= k <= |s.wire.log| && s.delivered[k] == Answer(s.wire.log, k))
      && (forall k :: Accounted(s, k))
      && |s.wire.requestQueue| + |s.wire.responseQueue| <= maxOutstanding < s.wire.capacity
      && s.completed.Keys <= s.pending.Keys
      && (s.receiver.Hand? ==> (s.receiver.reply.id !in s.pending <==> InWindow(s, s.receiver.reply.id)))
      && (s.submitter.DrainHand? ==> s.submitter.reply.id in s.pending)
  {
    var s0 := Initial(maxOutstanding, capacity);
    InitialInv(maxOutstanding, capacity);
    EveryRunIsSafe(s0, events);
    RunKeepsBounds(s0, events);
    SafeMeans(Run(s0, events));
    hide Safe;
    hide Run;
    hide Feasible;
    hide Accounted;
  }

  lemma SafeMeans(s: State)
    requires Safe(s)
    ensures forall k :: k in s.delivered ==> 1 <= k <= |s.wire.log| && s.delivered[k] == Answer(s.wire.log, k)
    ensures forall k :: Accounted(s, k)
    ensures |s.wire.requestQueue| + |s.wire.responseQueue| <= s.maxOutstanding < s.wire.capacity
    ensures s.completed.Keys <= s.pending.Keys
    ensures s.receiver.Hand? ==> (s.receiver.reply.id !in s.pending <==> InWindow(s, s.receiver.reply.id))
    ensures s.submitter.DrainHand? ==> s.submitter.reply.id in s.pending
  {
    QueuesNeverFill(s);
    CompletedIsPending(s);
    UnknownIdIffWindow(s);
    forall k ensures Accounted(s, k) { assert Placed(s, k); }
    forall k | k in s.delivered ensures IsAnswer(s.wire, k, s.delivered[k]) { }
    hide Places;
    hide Fifo;
    hide Answers;
    hide Windows;
    hide Roomy;
    hide Accounted;
  }

  lemma {:induction false} RunKeepsBounds(s: State, events: seq<Event>)
    requires Feasible(s, events)
    ensures Run(s, events).maxOutstanding == s.maxOutstanding
    decreases |events|
  {
    if events != [] { RunKeepsBounds(Apply(s, events[0]), events[1..]); }
  }

  ghost predicate BenignRun(s: State, events: seq<Event>)
    requires Feasible(s, events)
    decreases |events|
  {
    events != [] ==> Benign(s, events[0]) && BenignRun(Apply(s, events[0]), events[1..])
  }

  /** Every interleaving without a race also keeps `_pending` exact. */
  lemma {:induction false} BenignRunsKeepInv(s: State, events: seq<Event>)
    requires Inv(s) && Feasible(s, events) && BenignRun(s, events)
    ensures Inv(Run(s, events))
    decreases |events|
  {
    if events != [] {
      StepKeepsInvIffBenign(s, events[0]);
      BenignRunsKeepInv(Apply(s, events[0]), events[1..]);
    }
  }

  /** `submit` and `receive` do not overlap. */
  predicate Apart(s: State) {
    s.submitter.SubmitIdle? || s.receiver.ReceiveIdle?
  }

  ghost predicate ApartRun(s: State, events: seq<Event>)
    requires Feasible(s, events)
    decreases |events|
  {
    Apart(s) && (events != [] ==> ApartRun(Apply(s, events[0]), events[1..]))
  }

  lemma ApartIsBenign(s: State, e: Event)
    requires Inv(s) && Enabled(s, e) && Apart(s) && Apart(Apply(s, e))
    requires s.receiver.Expired? ==> s.receiver.id in s.pending
    ensures Benign(s, e)
    ensures Apply(s, e).receiver.Expired? ==> Apply(s, e).receiver.id in Apply(s, e).pending
  {
    hide Inv;
  }

  /** Callers that do not overlap `submit` with `receive` meet neither race. */
  lemma {:induction false} ApartRunsAreBenign(s: State, events: seq<Event>)
    requires Inv(s) && Feasible(s, events) && ApartRun(s, events)
    requires s.receiver.Expired? ==> s.receiver.id in s.pending
    ensures BenignRun(s, events)
    decreases |events|
  {
    if events != [] {
      var s' := Apply(s, events[0]);
      ApartIsBenign(s, events[0]);
      StepKeepsInvIffBenign(s, events[0]);
      ApartRunsAreBenign(s', events[1..]);
      hide Inv;
      hide Apart;
      hide Benign;
      hide Enabled;
      hide Apply;
    }
  }

  // ------------------------------------------------------------------
  // Requests that were given up
  // ------------------------------------------------------------------

  /** The request was marked as no longer wanted before its answer was kept, or its
      answer has been dropped. */
  predicate GivenUp(s: State, k: int) {
    (k in s.pending && !s.pending[k] && k !in s.completed && !InTook(s, k) && k !in s.delivered) || k in s.dropped
  }

  lemma StepKeepsGivenUp(s: State, e: Event, k: int)
    requires Safe(s) && Enabled(s, e) && GivenUp(s, k)
    ensures GivenUp(Apply(s, e), k)
  {
    assert Placed(s, k);
    hide Safe;
  }

  /** Whatever the threads do, such a request is never answered to anyone: not even to
      a second `receive` of the same id. */
  lemma {:induction false} GivenUpIsNeverDelivered(s: State, events: seq<Event>, k: int)
    requires Safe(s) && Feasible(s, events) && GivenUp(s, k)
    ensures GivenUp(Run(s, events), k) && k !in Run(s, events).delivered && k !in Run(s, events).completed
    decreases |events|
  {
    if events == [] {
      assert Placed(s, k);
    } else {
      StepKeepsSafe(s, events[0]);
      StepKeepsGivenUp(s, events[0], k);
      hide Safe;
      hide Enabled;
      hide Apply;
      hide GivenUp;
      GivenUpIsNeverDelivered(Apply(s, events[0]), events[1..], k);
    }
  }

  // ------------------------------------------------------------------
  // The races happen
  // ------------------------------------------------------------------

  /** The run exists and ends there. */
  ghost predicate Leads(s: State, events: seq<Event>, t: State) {
    Feasible(s, events) && Run(s, events) == t
  }

  lemma First(s: State, e: Event, rest: seq<Event>, t: State)
    requires Enabled(s, e) && Leads(Apply(s, e), rest, t)
    ensures Leads(s, [e] + rest, t)
  {
    assert ([e] + rest)[1..] == rest;
  }

  lemma {:induction false} Join(s: State, a: seq<Event>, t: State, b: seq<Event>, u: State)
    requires Leads(s, a, t) && Leads(t, b, u)
    ensures Leads(s, a + b, u)
    decreases |a|
  {
    if a == [] {
      assert a + b == b;
    } else {
      Join(Apply(s, a[0]), a[1..], t, b, u);
      assert a + b == [a[0]] + (a[1..] + b);
      First(s, a[0], a[1..] + b, u);
    }
  }

  lemma One(s: State, e: Event)
    requires Enabled(s, e)
    ensures Leads(s, [e], Apply(s, e))
  {
    assert Leads(Apply(s, e), [], Apply(s, e));
    First(s, e, [], Apply(s, e));
    assert [e] + [] == [e];
  }

  lemma Snoc(s: State, events: seq<Event>, t: State, e: Event)
    requires Leads(s, events, t) && Enabled(t, e)
    ensures Leads(s, events + [e], Apply(t, e))
  {
    One(t, e);
    Join(s, events, t, [e], Apply(t, e));
  }

  /** One more step of a run. */
  lemma Advance(start: State, events: seq<Event>, s: State, e: Event)
    requires Leads(start, events, s) && Safe(s) && Enabled(s, e)
    ensures Leads(start, events + [e], Apply(s, e)) && Safe(Apply(s, e))
  {
    StepKeepsSafe(s, e);
    Snoc(start, events, s, e);
  }

  lemma DeliveredAnswer(s: State, k: int)
    requires Safe(s) && k in s.delivered
    ensures 1 <= k <= |s.wire.log| && s.delivered[k] == Answer(s.wire.log, k)
  {
    assert IsAnswer(s.wire, k, s.delivered[k]);
  }
}
