/** The two ends of `cogni_os/tensor_service.py` in the form of the source: the
    worker loop and the parent's dictionaries, tied to the protocol machine. */
module TensorService {
  import opened TensorMachine
  import opened TensorProtocol

  class TensorWorker {
    var paused: bool

    constructor ()
      ensures !paused
    {
      paused := false;
    }

    /** One pass of the worker loop over a decoded request. */
    method Serve(request: Request) returns (reply: Response, exits: bool)
      modifies this
      ensures reply == Respond(Worker(old(paused), false), request)
      ensures Worker(paused, exits) == After(Worker(old(paused), false), request)
    {
      exits := false;
      if IsControl(request.op) && request.payload.numel != 0 {
        reply := Response(request.op, request.id, EMPTY, InvalidPayload);
      } else if request.op == PAUSE {
        paused := true;
        reply := Response(request.op, request.id, EMPTY, Ok);
      } else if request.op == RESUME {
        paused := false;
        reply := Response(request.op, request.id, EMPTY, Ok);
      } else if request.op == STOP {
        reply := Response(request.op, request.id, EMPTY, Ok);
        exits := true;
      } else if request.op == INFER {
        if paused {
          reply := Response(request.op, request.id, EMPTY, Paused);
        } else if request.payload.numel == 0 || !request.payload.finite {
          reply := Response(request.op, request.id, EMPTY, InvalidPayload);
        } else {
          match request.outcome {
            case Raises => reply := Response(request.op, request.id, EMPTY, WorkerException);
            case NoTensor => reply := Response(request.op, request.id, EMPTY, InvalidPayload);
            case Output(result) =>
              reply := if result.finite
                then Response(request.op, request.id, result, Ok)
                else Response(request.op, request.id, EMPTY, InvalidPayload);
          }
        }
      } else {
        reply := Response(request.op, request.id, EMPTY, InvalidOpcode);
      }
    }

    /** The loop: answers a backlog in order until `STOP` or until it is used up. */
    method Run(backlog: seq<Request>) returns (replies: seq<Response>, stopped: bool)
      requires !paused
      modifies this
      ensures |replies| <= |backlog|
      ensures forall k :: 1 <= k <= |replies| ==> replies[k - 1] == Answer(backlog, k)
      ensures Worker(paused, stopped) == WorkerAfter(backlog, |replies|)
      ensures !stopped ==> |replies| == |backlog|
      // in terms of the backlog alone: it exits at the first accepted `STOP`, and pauses as switched
      ensures stopped <==> exists i :: 1 <= i <= |replies| && IsStop(backlog, i)
      ensures forall i :: 1 <= i < |replies| ==> !IsStop(backlog, i)
      ensures forall i :: 0 <= i < |replies| ==> (replies[i].status == Paused <==> backlog[i].op == INFER && PausedAt(backlog, i))
    {
      replies, stopped := [], false;
      var next := 0;
      while next < |backlog| && !stopped
        invariant next == |replies| <= |backlog|
        invariant Worker(paused, stopped) == WorkerAfter(backlog, next)
        invariant forall k :: 1 <= k <= next ==> replies[k - 1] == Answer(backlog, k)
        invariant next > 0 ==> !WorkerAfter(backlog, next - 1).stopped
        decreases |backlog| - next
      {
        var reply;
        reply, stopped := Serve(backlog[next]);
        replies := replies + [reply];
        next := next + 1;
      }
      StoppedIff(backlog, next);
      if next > 0 { StoppedIff(backlog, next - 1); }
      forall i | 0 <= i < next ensures replies[i].status == Paused <==> backlog[i].op == INFER && PausedAt(backlog, i) {
        assert replies[i + 1 - 1] == Answer(backlog, i + 1);
        InferAnswer(backlog, i + 1);
      }
    }
  }

  datatype Submission = Accepted(id: int) | CapacityExhausted | QueueFull

  datatype Receipt = Received(reply: Response) | TimedOut | UnknownId | NotOutstanding

  /** A step of another thread that submits, or of the worker. */
  predicate IsOther(e: Event) {
    e.SubmitBegin? || e.DrainGet? || e.DrainDispatch? || e.DrainEnd? || e.Put? || e.Record? || e.WorkerTake? || e.WorkerSend?
  }

  /** A step of another thread that receives, or of the worker. */
  predicate IsBeside(e: Event) {
    e.ReceiveBegin? || e.LookUp? || e.Finish? || e.Read? || e.Expire? || e.Mark? || e.Dispatch? || e.WorkerTake? || e.WorkerSend?
  }

  /** Nothing that was kept is gone or changed. */
  ghost predicate Retains(before: map<int, Response>, after: map<int, Response>) {
    forall k :: k in before ==> k in after && after[k] == before[k]
  }

  /** At one of the steps `e` of the run there was no response to read. */
  ghost predicate FoundEmpty(start: State, events: seq<Event>, e: Event) {
    exists n, s: State :: 0 <= n < |events| && events[n] == e && Leads(start, events[..n], s) && s.wire.responseQueue == []
  }

  lemma EmptyThere(start: State, before: seq<Event>, s: State, e: Event, events: seq<Event>)
    requires Leads(start, before, s) && s.wire.responseQueue == [] && before + [e] <= events
    ensures FoundEmpty(start, events, e)
  {
    assert events[..|before|] == before && events[|before|] == e;
    hide Leads;
  }

  /** How far the requests on the wire are from being received. */
  function Backlog(w: Wire): nat {
    3 * |w.requestQueue| + 2 * (if w.phase.Answering? then 1 else 0) + |w.responseQueue|
  }

  class TensorService {
    const maxOutstanding: nat
    const queueCapacity: nat
    var nextRequestId: int
    var pending: map<int, bool>
    var completed: map<int, Response>
    var requestQueue: seq<Request>
    var responseQueue: seq<Response>
    // The other process, and the history.
    var worker: Worker
    var phase: Phase
    var log: seq<Request>
    var delivered: map<int, Response>
    var dropped: set<int>
    var rejected: set<int>

    /** The service while its two threads are at the given places. */
    function At(submitter: Submitter, receiver: Receiver): State
      reads this
    {
      State(maxOutstanding,
            Wire(queueCapacity, nextRequestId, requestQueue, responseQueue, worker, phase, log),
            pending, completed, submitter, receiver, delivered, dropped, rejected)
    }

    /** The service between calls. */
    ghost function Idle(): State
      reads this
    {
      At(SubmitIdle, ReceiveIdle)
    }

    constructor (maxOutstanding: nat, queueCapacity: nat)
      requires queueCapacity >= 2 && 1 <= maxOutstanding < queueCapacity
      ensures Idle() == Initial(maxOutstanding, queueCapacity)
      ensures Inv(Idle())
    {
      this.maxOutstanding, this.queueCapacity := maxOutstanding, queueCapacity;
      nextRequestId, pending, completed := 1, map[], map[];
      requestQueue, responseQueue := [], [];
      worker, phase, log, delivered, dropped, rejected := Worker(false, false), Ready, [], map[], {}, {};
      new;
      InitialInv(maxOutstanding, queueCapacity);
    }

    function Line(): Wire
      reads this
    {
      Wire(queueCapacity, nextRequestId, requestQueue, responseQueue, worker, phase, log)
    }

    /** The fields as other threads left them. */
    method Become(next: State)
      requires next.maxOutstanding == maxOutstanding && next.wire.capacity == queueCapacity
      modifies this
      ensures At(next.submitter, next.receiver) == next && Line() == next.wire
    {
      pending, completed := next.pending, next.completed;
      delivered, dropped, rejected := next.delivered, next.dropped, next.rejected;
      nextRequestId, requestQueue, responseQueue := next.wire.nextId, next.wire.requestQueue, next.wire.responseQueue;
      worker, phase, log := next.wire.worker, next.wire.phase, next.wire.log;
    }

    /** One step that is not the submitter's. */
    method BesideStep(e: Event, place: Submitter, receiver0: Receiver, ghost start: State, ghost before: seq<Event>)
      returns (receiver: Receiver)
      requires Safe(At(place, receiver0)) && Leads(start, before, At(place, receiver0))
      requires IsBeside(e) && Enabled(At(place, receiver0), e)
      modifies this
      ensures Safe(At(place, receiver)) && Leads(start, before + [e], At(place, receiver))
      ensures log == old(log) && nextRequestId == old(nextRequestId) && Backlog(Line()) <= old(Backlog(Line()))
    {
      hide Leads;
      Advance(start, before, At(place, receiver0), e);
      hide Safe;
      BesideLeave(At(place, receiver0), e);
      hide Enabled;
      hide Backlog;
      var next := Apply(At(place, receiver0), e);
      hide Apply;
      Become(next);
      receiver := next.receiver;
    }

    /** Whatever a receiving thread and the worker do while the submitter rests. */
    method Beside(place: Submitter, receiver0: Receiver, ghost start: State, ghost before: seq<Event>)
      returns (receiver: Receiver, ghost events: seq<Event>)
      requires Safe(At(place, receiver0)) && Leads(start, before, At(place, receiver0))
      modifies this
      ensures Safe(At(place, receiver)) && Leads(start, events, At(place, receiver))
      ensures log == old(log) && nextRequestId == old(nextRequestId) && Backlog(Line()) <= old(Backlog(Line())) && before <= events
    {
      hide Safe;
      hide Leads;
      hide Enabled;
      hide Backlog;
      receiver, events := receiver0, before;
      var steps: nat := *;
      while steps > 0
        invariant Safe(At(place, receiver)) && Leads(start, events, At(place, receiver))
        invariant log == old(log) && nextRequestId == old(nextRequestId) && Backlog(Line()) <= old(Backlog(Line())) && before <= events
        decreases steps
      {
        var e: Event := *;
        if IsBeside(e) && Enabled(At(place, receiver), e) {
          receiver := BesideStep(e, place, receiver, start, events);
          events := events + [e];
        }
        steps := steps - 1;
      }
    }

    /** One response is taken off the queue. */
    method TakeOne(receiver: Receiver, ghost start: State, ghost before: seq<Event>) returns (reply: Response)
      requires Safe(At(Draining, receiver)) && Leads(start, before, At(Draining, receiver))
      requires responseQueue != []
      modifies this
      ensures Safe(At(DrainHand(reply), receiver)) && Leads(start, before + [DrainGet], At(DrainHand(reply), receiver))
      ensures log == old(log) && nextRequestId == old(nextRequestId) && Backlog(Line()) < old(Backlog(Line()))
    {
      hide Safe;
      hide Leads;
      Advance(start, before, At(Draining, receiver), DrainGet);
      reply := responseQueue[0];
      responseQueue := responseQueue[1..];
    }

    /** And looked at. */
    method SortOne(reply: Response, receiver: Receiver, ghost start: State, ghost before: seq<Event>)
      requires Safe(At(DrainHand(reply), receiver)) && Leads(start, before, At(DrainHand(reply), receiver))
      modifies this
      ensures Safe(At(Draining, receiver)) && Leads(start, before + [DrainDispatch], At(Draining, receiver))
      ensures log == old(log) && nextRequestId == old(nextRequestId) && Line() == old(Line())
    {
      hide Safe;
      hide Leads;
      ghost var held := At(DrainHand(reply), receiver);
      Advance(start, before, held, DrainDispatch);
      if reply.id in pending {
        if pending[reply.id] {
          completed := completed[reply.id := reply];
        } else {
          pending := pending - {reply.id};
          dropped := dropped + {reply.id};
        }
      } else {
        rejected := rejected + {reply.id};
      }
      assert At(Draining, receiver) == Apply(held, DrainDispatch);
    }

    /** Empties the response queue, while a receiving thread and the worker are at work. */
    method DrainAvailable(receiver0: Receiver, ghost start: State, ghost before: seq<Event>)
      returns (receiver: Receiver, ghost events: seq<Event>)
      requires Safe(At(Draining, receiver0)) && Leads(start, before, At(Draining, receiver0))
      modifies this
      ensures Safe(At(Draining, receiver)) && Leads(start, events, At(Draining, receiver))
      ensures responseQueue == [] && before <= events
      ensures nextRequestId == old(nextRequestId) && log == old(log)
    {
      hide Safe;
      hide Leads;
      hide Backlog;
      receiver, events := Beside(Draining, receiver0, start, before);
      while responseQueue != []
        invariant Safe(At(Draining, receiver)) && Leads(start, events, At(Draining, receiver)) && before <= events
        invariant nextRequestId == old(nextRequestId) && log == old(log)
        decreases Backlog(Line())
      {
        var reply := TakeOne(receiver, start, events);
        receiver, events := Beside(DrainHand(reply), receiver, start, events + [DrainGet]);
        SortOne(reply, receiver, start, events);
        receiver, events := Beside(Draining, receiver, start, events + [DrainDispatch]);
      }
    }

    /** The put of `_submit_code`. */
    method Enqueue(op: int, payload: Payload, outcome: Outcome, receiver: Receiver, ghost start: State, ghost before: seq<Event>)
      returns (id: int, full: bool)
      requires Safe(At(Admitted, receiver)) && Leads(start, before, At(Admitted, receiver))
      modifies this
      ensures !full && id == old(nextRequestId)
      ensures Safe(At(Window(id), receiver)) && Leads(start, before + [Put(op, payload, outcome)], At(Window(id), receiver))
      ensures log == old(log) + [Request(op, id, payload, outcome)]
    {
      QueuesNeverFill(At(Admitted, receiver));
      Advance(start, before, At(Admitted, receiver), Put(op, payload, outcome));
      ghost var next := Apply(At(Admitted, receiver), Put(op, payload, outcome));
      hide Safe;
      hide Leads;
      hide Enabled;
      id := nextRequestId;
      nextRequestId := nextRequestId + 1;
      full := |requestQueue| >= queueCapacity;
      if !full {
        requestQueue := requestQueue + [Request(op, id, payload, outcome)];
        log := log + [Request(op, id, payload, outcome)];
      }
      assert At(Window(id), receiver) == next;
    }

    /** The capacity check of `_submit_code`. */
    method CheckCapacity(receiver: Receiver, ghost start: State, ghost before: seq<Event>) returns (room: bool)
      requires Safe(At(Draining, receiver)) && Leads(start, before, At(Draining, receiver))
      ensures var place := if room then Admitted else SubmitIdle;
        Safe(At(place, receiver)) && Leads(start, before + [DrainEnd], At(place, receiver))
      ensures room <==> |pending| < maxOutstanding
    {
      Advance(start, before, At(Draining, receiver), DrainEnd);
      hide Safe;
      hide Leads;
      room := |pending| < maxOutstanding;
    }

    /** The record of `_submit_code`. */
    method Note(id: int, receiver: Receiver, ghost start: State, ghost before: seq<Event>)
      requires Safe(At(Window(id), receiver)) && Leads(start, before, At(Window(id), receiver))
      modifies this
      ensures Safe(At(SubmitIdle, receiver)) && Leads(start, before + [Record], At(SubmitIdle, receiver))
      ensures log == old(log) && id in pending && pending[id]
    {
      Advance(start, before, At(Window(id), receiver), Record);
      hide Safe;
      hide Leads;
      pending := pending[id := true];
    }

    /** The capacity check, the put and the record, with others at work in between. */
    method Admit(op: int, payload: Payload, outcome: Outcome, receiver0: Receiver, ghost start: State, ghost before: seq<Event>)
      returns (result: Submission, receiver: Receiver, ghost events: seq<Event>)
      requires Safe(At(Draining, receiver0)) && Leads(start, before, At(Draining, receiver0)) && responseQueue == []
      modifies this
      ensures Safe(At(SubmitIdle, receiver)) && Leads(start, events, At(SubmitIdle, receiver))
      ensures result != QueueFull && FoundEmpty(start, events, DrainEnd)
      ensures result.Accepted? ==>
        && result.id == old(nextRequestId)
        && log == old(log) + [Request(op, result.id, payload, outcome)]
        && result.id in pending && pending[result.id]
      ensures result.CapacityExhausted? ==> log == old(log) && |pending| >= maxOutstanding
    {
      hide Safe;
      hide Leads;
      hide Backlog;
      hide FoundEmpty;
      receiver := receiver0;
      ghost var drained := At(Draining, receiver0);
      var room := CheckCapacity(receiver, start, before);
      events := before + [DrainEnd];
      EmptyThere(start, before, drained, DrainEnd, events);
      if !room { return CapacityExhausted, receiver, events; }
      receiver, events := Beside(Admitted, receiver, start, events);
      var id, full := Enqueue(op, payload, outcome, receiver, start, events);
      events := events + [Put(op, payload, outcome)];
      if full {
        EmptyThere(start, before, drained, DrainEnd, events);
        return QueueFull, receiver, events;
      }
      receiver, events := Beside(Window(id), receiver, start, events);
      Note(id, receiver, start, events);
      events := events + [Record];
      EmptyThere(start, before, drained, DrainEnd, events);
      result := Accepted(id);
    }

    /** `_submit_code`, with a receiving thread and the worker at work between its steps:
        a request gets the next id, or is refused because `maxOutstanding` are pending,
        and the request queue is never found full. */
    method SubmitCode(op: int, payload: Payload, outcome: Outcome, receiver0: Receiver)
      returns (result: Submission, receiver: Receiver, ghost events: seq<Event>)
      requires Safe(At(SubmitIdle, receiver0))
      modifies this
      ensures Safe(At(SubmitIdle, receiver))
      ensures Leads(old(At(SubmitIdle, receiver0)), events, At(SubmitIdle, receiver))
      // the response queue was emptied before the pending ids were counted
      ensures FoundEmpty(old(At(SubmitIdle, receiver0)), events, DrainEnd)
      ensures result != QueueFull
      ensures result.Accepted? ==>
        && result.id == old(nextRequestId)
        && log == old(log) + [Request(op, result.id, payload, outcome)]
        && result.id in pending && pending[result.id]
      ensures result.CapacityExhausted? ==> log == old(log) && |pending| >= maxOutstanding
    {
      ghost var start := At(SubmitIdle, receiver0);
      assert Leads(start, [], start);
      Advance(start, [], start, SubmitBegin);
      assert At(Draining, receiver0) == Apply(start, SubmitBegin);
      hide Safe;
      hide Leads;
      hide Apply;
      hide FoundEmpty;
      receiver, events := DrainAvailable(receiver0, start, [] + [SubmitBegin]);
      result, receiver, events := Admit(op, payload, outcome, receiver, start, events);
    }

    /** The other process, while the threads of the parent are anywhere: it takes a
        request, or sends an answer (which always finds room), or rests. */
    method WorkerTurn(place: Submitter, ghost start: State, ghost before: seq<Event>, ghost receiver: Receiver)
      returns (moved: bool, ghost events: seq<Event>)
      requires Safe(At(place, receiver)) && Leads(start, before, At(place, receiver))
      modifies this
      ensures Safe(At(place, receiver)) && Leads(start, events, At(place, receiver))
      ensures log == old(log) && pending == old(pending) && completed == old(completed)
      ensures moved <==> old(phase).Answering? || (old(phase).Ready? && old(requestQueue) != [])
    {
      hide Safe;
      hide Leads;
      moved, events := false, before;
      match phase {
        case Ready =>
          if requestQueue != [] {
            Advance(start, before, At(place, receiver), WorkerTake);
            events := before + [WorkerTake];
            var request := requestQueue[0];
            requestQueue, phase := requestQueue[1..], Answering(Respond(worker, request));
            worker := After(worker, request);
            moved := true;
          }
        case Answering(reply) =>
          QueuesNeverFill(At(place, receiver));
          Advance(start, before, At(place, receiver), WorkerSend);
          events := before + [WorkerSend];
          responseQueue, phase := responseQueue + [reply], if worker.stopped then Exited else Ready;
          moved := true;
        case Exited =>
      }
    }

    /** One step that is not the receiver's. */
    method OtherStep(e: Event, place0: Submitter, receiver: Receiver, ghost start: State, ghost before: seq<Event>)
      returns (place: Submitter)
      requires Safe(At(place0, receiver)) && Leads(start, before, At(place0, receiver))
      requires IsOther(e) && Enabled(At(place0, receiver), e)
      modifies this
      ensures Safe(At(place, receiver)) && Leads(start, before + [e], At(place, receiver))
      ensures old(log) <= log && delivered == old(delivered) && rejected == old(rejected) && Retains(old(completed), completed)
    {
      hide Leads;
      Advance(start, before, At(place0, receiver), e);
      OthersLeave(At(place0, receiver), e);
      hide Safe;
      hide Enabled;
      var next := Apply(At(place0, receiver), e);
      hide Apply;
      Become(next);
      place := next.submitter;
    }

    /** Whatever a submitting thread and the worker do while the receiver rests. */
    method Others(place0: Submitter, receiver: Receiver, ghost start: State, ghost before: seq<Event>)
      returns (place: Submitter, ghost events: seq<Event>)
      requires Safe(At(place0, receiver)) && Leads(start, before, At(place0, receiver))
      modifies this
      ensures Safe(At(place, receiver)) && Leads(start, events, At(place, receiver))
      ensures old(log) <= log && delivered == old(delivered) && rejected == old(rejected) && Retains(old(completed), completed)
      ensures before <= events && multiset(events)[Read] == multiset(before)[Read]
    {
      hide Safe;
      hide Leads;
      hide Enabled;
      place, events := place0, before;
      var steps: nat := *;
      while steps > 0
        invariant Safe(At(place, receiver)) && Leads(start, events, At(place, receiver))
        invariant old(log) <= log && delivered == old(delivered) && rejected == old(rejected) && Retains(old(completed), completed)
        invariant before <= events && multiset(events)[Read] == multiset(before)[Read]
        decreases steps
      {
        var e: Event := *;
        if IsOther(e) && Enabled(At(place, receiver), e) {
          place := OtherStep(e, place, receiver, start, events);
          events := events + [e];
        }
        steps := steps - 1;
      }
    }

    /** The deadline passed: the id is marked as no longer wanted, if it is pending. */
    method GiveUp(id: int, place0: Submitter, ghost start: State, ghost before: seq<Event>)
      returns (place: Submitter, ghost events: seq<Event>)
      requires Safe(At(place0, Waiting(id))) && Leads(start, before, At(place0, Waiting(id)))
      modifies this
      ensures Safe(At(place, ReceiveIdle)) && Leads(start, events, At(place, ReceiveIdle))
      ensures id in pending ==> !pending[id]
      ensures old(log) <= log && delivered == old(delivered) && rejected == old(rejected)
      ensures before + [Expire] <= events && multiset(events)[Read] == multiset(before)[Read]
    {
      hide Safe;
      hide Leads;
      Advance(start, before, At(place0, Waiting(id)), Expire);
      events, place := before + [Expire], place0;
      if id in pending {
        place, events := Others(place, Expired(id), start, events);
        Advance(start, events, At(place, Expired(id)), Mark);
        events := events + [Mark];
        pending := pending[id := false];
      }
    }

    /** The id of the answer in hand is not pending: a protocol error. */
    method Refuse(id: int, reply: Response, place: Submitter, ghost start: State, ghost before: seq<Event>)
      requires Safe(At(place, Hand(id, reply))) && Leads(start, before, At(place, Hand(id, reply)))
      requires reply.id !in pending
      modifies this
      ensures Safe(At(place, ReceiveIdle)) && Leads(start, before + [Dispatch], At(place, ReceiveIdle))
      ensures place.Window? && rejected == old(rejected) + {place.id} && place.id !in old(rejected)
      ensures log == old(log)
    {
      ghost var held := At(place, Hand(id, reply));
      Advance(start, before, held, Dispatch);
      UnknownIdIffWindow(held);
      NotRejectedYet(held);
      hide Safe;
      hide Leads;
      rejected := rejected + {reply.id};
    }

    /** The id of the answer in hand is pending: it is dropped, returned or kept. */
    method Handle(id: int, reply: Response, place: Submitter, ghost start: State, ghost before: seq<Event>)
      returns (done: bool)
      requires Safe(At(place, Hand(id, reply))) && Leads(start, before, At(place, Hand(id, reply)))
      requires reply.id in pending
      modifies this
      ensures var receiver := if done then ReceiveIdle else Look(id);
        Safe(At(place, receiver)) && Leads(start, before + [Dispatch], At(place, receiver))
      ensures done ==> id in delivered && delivered[id] == reply
      ensures rejected == old(rejected) && log == old(log)
    {
      ghost var held := At(place, Hand(id, reply));
      Advance(start, before, held, Dispatch);
      DispatchCases(held);
      hide Safe;
      hide Leads;
      hide Apply;
      hide Enabled;
      done := pending[reply.id] && reply.id == id;
      if !pending[reply.id] {
        pending := pending - {reply.id};
        dropped := dropped + {reply.id};
      } else if reply.id == id {
        pending := pending - {reply.id};
        delivered := delivered[id := reply];
      } else {
        completed := completed[reply.id := reply];
      }
    }

    /** One response is read off the wire and handled. */
    method ReadOne(id: int, place0: Submitter, ghost start: State, ghost before: seq<Event>)
      returns (receipt: Receipt, done: bool, place: Submitter, ghost events: seq<Event>)
      requires Safe(At(place0, Waiting(id))) && Leads(start, before, At(place0, Waiting(id)))
      requires responseQueue != []
      modifies this
      ensures var receiver := if done then ReceiveIdle else Look(id);
        Safe(At(place, receiver)) && Leads(start, events, At(place, receiver))
      ensures done && receipt != UnknownId ==> receipt.Received? && id in delivered && delivered[id] == receipt.reply
      ensures done && receipt == UnknownId ==> place.Window? && rejected == old(rejected) + {place.id} && place.id !in old(rejected)
      ensures !(done && receipt == UnknownId) ==> rejected == old(rejected)
      ensures old(log) <= log && multiset(events)[Read] == multiset(before)[Read] + 1
    {
      hide Safe;
      hide Leads;
      Advance(start, before, At(place0, Waiting(id)), Read);
      var reply := responseQueue[0];
      responseQueue := responseQueue[1..];
      assert At(place0, Hand(id, reply)) == old(Apply(At(place0, Waiting(id)), Read));
      hide Apply;
      hide Enabled;
      place, events := Others(place0, Hand(id, reply), start, before + [Read]);
      if reply.id !in pending {
        Refuse(id, reply, place, start, events);
        return UnknownId, true, place, events + [Dispatch];
      }
      done := Handle(id, reply, place, start, events);
      receipt, events := if done then Received(reply) else TimedOut, events + [Dispatch];
    }

    /** The answer was already kept: it is taken out of `_completed`. */
    method TakeOut(id: int, place: Submitter, ghost start: State, ghost before: seq<Event>) returns (reply: Response)
      requires Safe(At(place, Look(id))) && Leads(start, before, At(place, Look(id)))
      requires id in completed
      modifies this
      ensures Safe(At(place, Took(id, reply))) && Leads(start, before + [LookUp], At(place, Took(id, reply)))
      ensures log == old(log) && rejected == old(rejected)
    {
      Advance(start, before, At(place, Look(id)), LookUp);
      hide Safe;
      hide Leads;
      reply := completed[id];
      completed := completed - {id};
    }

    /** And then its id is taken out of `_pending`. */
    method TakeCompleted(id: int, place0: Submitter, ghost start: State, ghost before: seq<Event>)
      returns (reply: Response, place: Submitter, ghost events: seq<Event>)
      requires Safe(At(place0, Look(id))) && Leads(start, before, At(place0, Look(id)))
      requires id in completed
      modifies this
      ensures Safe(At(place, ReceiveIdle)) && Leads(start, events, At(place, ReceiveIdle))
      ensures 1 <= id <= |log| && reply == Answer(log, id) && id !in pending
      ensures old(log) <= log && rejected == old(rejected)
    {
      hide Safe;
      hide Leads;
      reply := TakeOut(id, place0, start, before);
      place, events := Others(place0, Took(id, reply), start, before + [LookUp]);
      Advance(start, events, At(place, Took(id, reply)), Finish);
      events := events + [Finish];
      pending := pending - {id};
      delivered := delivered[id := reply];
      DeliveredAnswer(At(place, ReceiveIdle), id);
    }

    /** The first check of `receive`, before it takes its lock: two looks, and others in between. */
    method Outstanding(id: int, place0: Submitter, ghost start: State, ghost before: seq<Event>)
      returns (known: bool, place: Submitter, ghost events: seq<Event>)
      requires Safe(At(place0, ReceiveIdle)) && Leads(start, before, At(place0, ReceiveIdle))
      modifies this
      ensures Safe(At(place, ReceiveIdle)) && Leads(start, events, At(place, ReceiveIdle))
      ensures old(log) <= log && rejected == old(rejected)
      ensures known <==> old(id in pending) || id in completed
      ensures Retains(old(completed), completed) && multiset(events)[Read] == multiset(before)[Read]
    {
      place, events := place0, before;
      known := id in pending;
      if !known {
        place, events := Others(place, ReceiveIdle, start, events);
        known := id in completed;
      }
    }

    /** One pass of the loop of `receive` after nothing was found in `_completed`. */
    method Wait(id: int, expired: bool, place0: Submitter, ghost start: State, ghost before: seq<Event>)
      returns (receipt: Receipt, done: bool, place: Submitter, ghost events: seq<Event>)
      requires Safe(At(place0, Look(id))) && Leads(start, before, At(place0, Look(id))) && id !in completed
      modifies this
      ensures var receiver := if done then ReceiveIdle else Look(id);
        Safe(At(place, receiver)) && Leads(start, events, At(place, receiver))
      ensures done ==> receipt != NotOutstanding && (receipt.Received? ==> 1 <= id <= |log| && receipt.reply == Answer(log, id))
      ensures done && receipt.TimedOut? ==> (id in pending ==> !pending[id])
      ensures done && receipt == UnknownId ==> place.Window? && rejected == old(rejected) + {place.id} && place.id !in old(rejected)
      ensures !(done && receipt == UnknownId) ==> rejected == old(rejected)
      ensures expired ==> done
      ensures done && receipt.TimedOut? ==> expired || FoundEmpty(start, events, Expire)
      ensures multiset(events)[Read] == multiset(before)[Read] + if done && receipt.TimedOut? then 0 else 1
      ensures old(log) <= log
    {
      hide Leads;
      hide Safe;
      hide FoundEmpty;
      Advance(start, before, At(place0, Look(id)), LookUp);
      place, events := Others(place0, Waiting(id), start, before + [LookUp]);
      if expired || responseQueue == [] {
        ghost var seen, s, empty := events, At(place, Waiting(id)), responseQueue == [];
        place, events := GiveUp(id, place, start, events);
        if empty { EmptyThere(start, seen, s, Expire, events); }
        return TimedOut, true, place, events;
      }
      receipt, done, place, events := ReadOne(id, place, start, events);
      if done && receipt.Received? { DeliveredAnswer(At(place, ReceiveIdle), id); }
    }

    /** `receive`, with a submitting thread and the worker at work between its steps:
        it returns the sequential answer to the request, or gives the request up, or
        raises because the answer in its hand belongs to a request that the other
        thread has put but not yet recorded. `patience` is what the deadline leaves. */
    method Receive(id: int, patience: nat, place0: Submitter) returns (receipt: Receipt, place: Submitter, ghost events: seq<Event>)
      requires Safe(At(place0, ReceiveIdle))
      modifies this
      ensures Safe(At(place, ReceiveIdle)) && Leads(old(At(place0, ReceiveIdle)), events, At(place, ReceiveIdle))
      ensures old(log) <= log
      ensures receipt.Received? ==> 1 <= id <= |log| && receipt.reply == Answer(log, id)
      ensures receipt.TimedOut? ==> (id in pending ==> !pending[id])
      // it gives up only after it found the queue empty, or after as many responses as the deadline leaves
      ensures receipt.TimedOut? ==> FoundEmpty(old(At(place0, ReceiveIdle)), events, Expire) || multiset(events)[Read] == patience
      ensures receipt == UnknownId ==> place.Window? && rejected == old(rejected) + {place.id} && place.id !in old(rejected)
      ensures receipt != UnknownId ==> rejected == old(rejected)
      // an id is turned away only if both looks missed it; an answer that is kept is returned
      ensures receipt == NotOutstanding ==> !old(id in pending) && id !in completed
      ensures old(id in pending) ==> receipt != NotOutstanding
      ensures old(id in completed) ==> receipt.Received?
    {
      ghost var start := At(place0, ReceiveIdle);
      assert Leads(start, [], start);
      CompletedIsPending(start);
      hide Leads;
      hide Safe;
      hide FoundEmpty;
      var known;
      known, place, events := Outstanding(id, place0, start, []);
      if !known { return NotOutstanding, place, events; }
      Advance(start, events, At(place, ReceiveIdle), ReceiveBegin(id));
      receipt, place, events := Await(id, patience, place, start, events + [ReceiveBegin(id)]);
    }

    /** The loop of `receive`. */
    method Await(id: int, patience: nat, place0: Submitter, ghost start: State, ghost before: seq<Event>)
      returns (receipt: Receipt, place: Submitter, ghost events: seq<Event>)
      requires Safe(At(place0, Look(id))) && Leads(start, before, At(place0, Look(id)))
      modifies this
      ensures Safe(At(place, ReceiveIdle)) && Leads(start, events, At(place, ReceiveIdle))
      ensures old(log) <= log
      ensures receipt.Received? ==> 1 <= id <= |log| && receipt.reply == Answer(log, id)
      ensures receipt.TimedOut? ==> (id in pending ==> !pending[id])
      ensures receipt.TimedOut? ==> FoundEmpty(start, events, Expire) || multiset(events)[Read] == multiset(before)[Read] + patience
      ensures receipt == UnknownId ==> place.Window? && rejected == old(rejected) + {place.id} && place.id !in old(rejected)
      ensures receipt != UnknownId ==> rejected == old(rejected)
      ensures receipt != NotOutstanding && (old(id in completed) ==> receipt.Received?)
    {
      hide Leads;
      hide Safe;
      hide Apply;
      hide Enabled;
      hide FoundEmpty;
      var left := patience;
      place, events := Others(place0, Look(id), start, before);
      while id !in completed
        invariant Safe(At(place, Look(id))) && Leads(start, events, At(place, Look(id)))
        invariant old(log) <= log && rejected == old(rejected) && (old(id in completed) ==> id in completed)
        invariant 0 <= left <= patience && multiset(events)[Read] == multiset(before)[Read] + patience - left
        decreases left
      {
        var done;
        receipt, done, place, events := Wait(id, left == 0, place, start, events);
        if done { return; }
        left := left - 1;
        place, events := Others(place, Look(id), start, events);
      }
      var reply;
      reply, place, events := TakeCompleted(id, place, start, events);
      receipt := Received(reply);
    }
  }

  /** What the receiver can rely on while others move. */
  lemma OthersLeave(s: State, e: Event)
    requires Safe(s) && Enabled(s, e) && IsOther(e)
    ensures var t := Apply(s, e);
      && t.receiver == s.receiver && t.maxOutstanding == s.maxOutstanding && t.wire.capacity == s.wire.capacity
      && s.wire.log <= t.wire.log && t.delivered == s.delivered && t.rejected == s.rejected && Retains(s.completed, t.completed)
  {
    UnknownIdIffWindow(s);
    if e.DrainDispatch? { assert Placed(s, s.submitter.reply.id); }
    hide Safe;
    hide Enabled;
    match e
    case DrainDispatch =>
    case _ =>
  }

  /** What the submitter can rely on while others move. */
  lemma BesideLeave(s: State, e: Event)
    requires Enabled(s, e) && IsBeside(e)
    ensures var t := Apply(s, e);
      && t.submitter == s.submitter && t.maxOutstanding == s.maxOutstanding && t.wire.capacity == s.wire.capacity
      && t.wire.log == s.wire.log && t.wire.nextId == s.wire.nextId && Backlog(t.wire) <= Backlog(s.wire)
  {
    if !e.WorkerTake? && !e.WorkerSend? && !e.Read? { assert Apply(s, e).wire == s.wire; }
  }

  /** What handling the answer in hand comes to. */
  lemma DispatchCases(s: State)
    requires s.receiver.Hand?
    ensures var t, k := Apply(s, Dispatch), s.receiver.reply.id;
      if k !in s.pending then t == s.(receiver := ReceiveIdle, rejected := s.rejected + {k})
      else if !s.pending[k] then t == s.(pending := s.pending - {k}, dropped := s.dropped + {k}, receiver := Look(s.receiver.id))
      else if k == s.receiver.id then
        t == s.(pending := s.pending - {k}, delivered := s.delivered[k := s.receiver.reply], receiver := ReceiveIdle)
      else t == s.(completed := s.completed[k := s.receiver.reply], receiver := Look(s.receiver.id))
  {
  }

  /** An answer in the hand of `receive` was not rejected before. */
  lemma NotRejectedYet(s: State)
    requires Safe(s) && s.receiver.Hand?
    ensures s.receiver.reply.id !in s.rejected
  {
    assert Placed(s, s.receiver.reply.id);
  }
}
