/** Concrete runs of the protocol of `cogni_os/tensor_service.py` in which the two
    locks race: each starts from the fresh service. */
module TensorRaces {
  import opened TensorMachine
  import opened TensorProtocol

  lemma Two(s: State, a: Event, b: Event)
    requires Enabled(s, a) && Enabled(Apply(s, a), b)
    ensures Leads(s, [a, b], Apply(Apply(s, a), b))
  {
    var s1 := Apply(s, a); var s2 := Apply(s1, b);
    hide Apply;
    hide Enabled;
    One(s1, b);
    First(s, a, [b], s2);
    assert [a] + [b] == [a, b];
  }

  /** Four events at a time. */
  lemma Four(s: State, a: Event, b: Event, c: Event, d: Event)
    requires Enabled(s, a) && Enabled(Apply(s, a), b)
    requires var s2 := Apply(Apply(s, a), b); Enabled(s2, c) && Enabled(Apply(s2, c), d)
    ensures Leads(s, [a, b, c, d], Apply(Apply(Apply(Apply(s, a), b), c), d))
  {
    hide Apply;
    hide Enabled;
    var s2 := Apply(Apply(s, a), b);
    Two(s, a, b);
    Two(s2, c, d);
    hide Leads;
    Join(s, [a, b], s2, [c, d], Apply(Apply(s2, c), d));
    assert [a, b] + [c, d] == [a, b, c, d];
  }

  const ONE := Payload(1, true, 7)
  const FIRST := Request(INFER, 1, ONE, Output(ONE))
  const ANSWER := Response(INFER, 1, ONE, Ok)

  /** Request 1 was recorded, one thread waits for it, and its answer is in the response queue. */
  function Base(maxOutstanding: nat, capacity: nat): State {
    State(maxOutstanding, Wire(capacity, 2, [], [ANSWER], Worker(false, false), Ready, [FIRST]),
          map[1 := true], map[], SubmitIdle, Waiting(1), map[], {}, {})
  }

  /** Request 1 was put and recorded. */
  function Queued(maxOutstanding: nat, capacity: nat): State {
    State(maxOutstanding, Wire(capacity, 2, [FIRST], [], Worker(false, false), Ready, [FIRST]),
          map[1 := true], map[], SubmitIdle, ReceiveIdle, map[], {}, {})
  }

  lemma QueuedIsReached(maxOutstanding: nat, capacity: nat)
    requires 1 <= maxOutstanding < capacity
    ensures Leads(Initial(maxOutstanding, capacity), [SubmitBegin, DrainEnd, PUT, Record], Queued(maxOutstanding, capacity))
  {
    assert [] + [FIRST] == [FIRST];
    Four(Initial(maxOutstanding, capacity), SubmitBegin, DrainEnd, PUT, Record);
  }

  lemma BaseIsReached(maxOutstanding: nat, capacity: nat)
    requires 1 <= maxOutstanding < capacity
    ensures Leads(Queued(maxOutstanding, capacity), [ReceiveBegin(1), LookUp, WorkerTake, WorkerSend], Base(maxOutstanding, capacity))
  {
    Four(Queued(maxOutstanding, capacity), ReceiveBegin(1), LookUp, WorkerTake, WorkerSend);
  }

  lemma BaseIsReachable(maxOutstanding: nat, capacity: nat) returns (events: seq<Event>)
    requires 1 <= maxOutstanding < capacity
    ensures Leads(Initial(maxOutstanding, capacity), events, Base(maxOutstanding, capacity))
  {
    QueuedIsReached(maxOutstanding, capacity);
    BaseIsReached(maxOutstanding, capacity);
    hide Leads;
    Join(Initial(maxOutstanding, capacity), [SubmitBegin, DrainEnd, PUT, Record], Queued(maxOutstanding, capacity),
         [ReceiveBegin(1), LookUp, WorkerTake, WorkerSend], Base(maxOutstanding, capacity));
    events := [SubmitBegin, DrainEnd, PUT, Record] + [ReceiveBegin(1), LookUp, WorkerTake, WorkerSend];
  }

  const PUT := Put(INFER, ONE, Output(ONE))

  /** A submission drained answer 1 away from the waiting thread. */
  const DRAINED: State :=
    State(2, Wire(3, 2, [], [], Worker(false, false), Ready, [FIRST]),
          map[1 := true], map[1 := ANSWER], Admitted, Waiting(1), map[], {}, {})

  lemma ReachDrained()
    ensures Leads(Base(2, 3), [SubmitBegin, DrainGet, DrainDispatch, DrainEnd], DRAINED)
  {
    Four(Base(2, 3), SubmitBegin, DrainGet, DrainDispatch, DrainEnd);
  }

  lemma ReachUnknown() returns (s: State)
    ensures Leads(DRAINED, [PUT, WorkerTake, WorkerSend, Read], s)
    ensures s.receiver.Hand? && s.receiver.reply.id !in s.pending && s.receiver.id == 1 && 1 in s.completed
  {
    Four(DRAINED, PUT, WorkerTake, WorkerSend, Read);
    s := Apply(Apply(Apply(Apply(DRAINED, PUT), WorkerTake), WorkerSend), Read);
  }

  /** One thread waits for request 1 while another submits: the drain inside the
      submission takes answer 1 away, and the answer to the new request arrives
      before the submission has recorded its id. */
  lemma UnknownIdIsReachable() returns (events: seq<Event>, s: State)
    ensures Leads(Initial(2, 3), events, s)
    ensures s.receiver.Hand? && s.receiver.reply.id !in s.pending && s.receiver.id == 1 && 1 in s.completed
  {
    var before := BaseIsReachable(2, 3);
    ReachDrained();
    s := ReachUnknown();
    hide Leads;
    Join(Initial(2, 3), before, Base(2, 3), [SubmitBegin, DrainGet, DrainDispatch, DrainEnd], DRAINED);
    events := before + [SubmitBegin, DrainGet, DrainDispatch, DrainEnd];
    Join(Initial(2, 3), events, DRAINED, [PUT, WorkerTake, WorkerSend, Read], s);
    events := events + [PUT, WorkerTake, WorkerSend, Read];
  }

  /** A second thread waits for a request that was given up. */
  const RETRIED: State :=
    State(1, Wire(2, 2, [], [ANSWER], Worker(false, false), Ready, [FIRST]),
          map[1 := false], map[], SubmitIdle, Waiting(1), map[], {}, {})

  lemma ReachRetried()
    ensures Leads(Base(1, 2), [Expire, Mark, ReceiveBegin(1), LookUp], RETRIED)
  {
    Four(Base(1, 2), Expire, Mark, ReceiveBegin(1), LookUp);
  }

  /** Its id was seen, and then drained away. */
  const VANISHED: State :=
    State(1, Wire(2, 2, [], [], Worker(false, false), Ready, [FIRST]),
          map[], map[], Draining, Expired(1), map[], {1}, {})

  lemma ReachVanished()
    ensures Leads(RETRIED, [Expire, SubmitBegin, DrainGet, DrainDispatch], VANISHED)
  {
    Four(RETRIED, Expire, SubmitBegin, DrainGet, DrainDispatch);
    assert map[1 := false] - {1} == map[];
  }

  /** The mark brings it back. */
  lemma ReachLost() returns (s: State)
    ensures Leads(VANISHED, [Mark], s)
    ensures s.pending == map[1 := false] && !InFlight(s, 1) && s.receiver.ReceiveIdle?
    ensures s.submitter.Draining? && Apply(s, DrainEnd).submitter.SubmitIdle?
  {
    One(VANISHED, Mark);
    s := Apply(VANISHED, Mark);
  }

  /** A second wait for a timed-out request sees its id, a drain removes the id,
      and the mark puts it back: with one slot, nothing is outstanding and yet no
      submission is admitted. */
  lemma LostSlotIsReachable() returns (events: seq<Event>, s: State)
    ensures Leads(Initial(1, 2), events, s)
    ensures s.pending == map[1 := false] && !InFlight(s, 1) && s.receiver.ReceiveIdle?
    ensures s.submitter.Draining? && Apply(s, DrainEnd).submitter.SubmitIdle?
  {
    var before := BaseIsReachable(1, 2);
    ReachRetried();
    ReachVanished();
    s := ReachLost();
    hide Leads;
    Join(Initial(1, 2), before, Base(1, 2), [Expire, Mark, ReceiveBegin(1), LookUp], RETRIED);
    events := before + [Expire, Mark, ReceiveBegin(1), LookUp];
    Join(Initial(1, 2), events, RETRIED, [Expire, SubmitBegin, DrainGet, DrainDispatch], VANISHED);
    events := events + [Expire, SubmitBegin, DrainGet, DrainDispatch];
    Join(Initial(1, 2), events, VANISHED, [Mark], s);
    events := events + [Mark];
  }

  /** The waiting thread's deadline passed while a submission drained its answer. */
  const KEPT: State :=
    State(2, Wire(3, 2, [], [], Worker(false, false), Ready, [FIRST]),
          map[1 := true], map[1 := ANSWER], Draining, Expired(1), map[], {}, {})

  lemma ReachKept()
    ensures Leads(Base(2, 3), [Expire, SubmitBegin, DrainGet, DrainDispatch], KEPT)
  {
    Four(Base(2, 3), Expire, SubmitBegin, DrainGet, DrainDispatch);
  }

  /** An abandoned request may have its answer waiting in `_completed`: completed
      does not mean still wanted. */
  lemma AbandonedAnswerIsReachable() returns (events: seq<Event>, s: State)
    ensures Leads(Initial(2, 3), events, s)
    ensures 1 in s.completed && s.pending == map[1 := false]
  {
    var before := BaseIsReachable(2, 3);
    ReachKept();
    s := Apply(KEPT, Mark);
    One(KEPT, Mark);
    hide Leads;
    Join(Initial(2, 3), before, Base(2, 3), [Expire, SubmitBegin, DrainGet, DrainDispatch], KEPT);
    events := before + [Expire, SubmitBegin, DrainGet, DrainDispatch];
    Join(Initial(2, 3), events, KEPT, [Mark], s);
    events := events + [Mark];
  }
}
