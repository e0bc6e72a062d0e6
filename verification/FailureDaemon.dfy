/** `FailureCaptureDaemon` of `cogni_flow/daemon.py`: producers, a writer thread and
    lifecycle calls, one locked region or queue operation at a time. */
module FailureDaemon {
  import opened Basics

  datatype Failure = Failure(trace: string, timestamp: int)

  type ThreadId = nat

  /** Where a writer thread is in its loop; an item in hand belongs to an epoch. */
  datatype Writer = Waiting | Holding(item: Failure, epoch: ThreadId) | Saved(item: Failure) | Dead

  /** What became of the failures of one epoch, from one start to the next: admitted
      and written in this order, and how many could not be written. */
  datatype Epoch = Epoch(accepted: seq<Failure>, saved: seq<Failure>, lost: nat)

  /** The fields of the daemon, the writer threads, and the stop calls under way
      (each remembers the thread that it joins). An epoch has the name of the
      thread that its start created; `epoch` is the latest. */
  datatype State = State(
    accepting: bool, stopRequested: bool, thread: Option<ThreadId>, error: bool,
    queue: seq<Failure>, submitted: nat, recorded: nat, rejected: nat,
    busy: bool,  // a `submit` holds the lock between its put and its count
    writers: map<ThreadId, Writer>, stops: map<nat, ThreadId>,
    epoch: ThreadId, epochs: map<ThreadId, Epoch>, failed: nat,
    discarded: nat)  // still queued when a start replaced the queue

  datatype Event =
    | Start(id: ThreadId)
    | StopBegin(call: nat)
    | StopEnd(call: nat)
    | StopTimeout(call: nat)
    | Put(item: Failure)
    | Count
    | Refuse
    | Get(id: ThreadId)
    | Save(id: ThreadId)
    | Fail(id: ThreadId)
    | Record(id: ThreadId)
    | Exit(id: ThreadId)

  const INITIAL: State := State(false, false, None, false, [], 0, 0, 0, false, map[], map[], 0, map[], 0, 0)

  /** The epoch of a thread. */
  function Of(s: State, id: ThreadId): Epoch {
    if id in s.epochs then s.epochs[id] else Epoch([], [], 0)
  }

  predicate Alive(s: State, id: ThreadId) {
    id in s.writers && !s.writers[id].Dead?
  }

  predicate InstalledAlive(s: State) {
    s.thread.Some? && Alive(s, s.thread.value)
  }

  /** What the code lets happen; `capacity` bounds the queue. */
  predicate Enabled(s: State, e: Event, capacity: nat) {
    match e
    case Start(id) => !s.busy && id !in s.writers
    case StopBegin(call) => !s.busy && call !in s.stops
    case StopEnd(call) => !s.busy && call in s.stops && !Alive(s, s.stops[call])
    case StopTimeout(call) => call in s.stops
    case Put(_) => !s.busy && s.accepting && !s.error && |s.queue| < capacity
    case Count => s.busy
    case Refuse => !s.busy && s.accepting && (s.error || |s.queue| >= capacity)
    case Get(id) => id in s.writers && s.writers[id] == Waiting && s.queue != []
    case Save(id) => id in s.writers && s.writers[id].Holding?
    case Fail(id) => !s.busy && id in s.writers && s.writers[id].Holding?
    case Record(id) => !s.busy && id in s.writers && s.writers[id].Saved?
    case Exit(id) => id in s.writers && s.writers[id] == Waiting && s.stopRequested && s.queue == []
  }

  function Apply(s: State, e: Event, capacity: nat): State
    requires Enabled(s, e, capacity)
  {
    match e
    case Start(id) =>
      if s.accepting || InstalledAlive(s) then s
      else s.(queue := [], stopRequested := false, error := false, accepting := true, thread := Some(id),
              writers := s.writers[id := Waiting], epoch := id, epochs := s.epochs[id := Epoch([], [], 0)],
              discarded := s.discarded + |s.queue|)
    case StopBegin(call) =>
      if s.thread.None? then s.(accepting := false)
      else s.(accepting := false, stopRequested := true, stops := s.stops[call := s.thread.value])
    case StopEnd(call) => s.(thread := None, stops := s.stops - {call})
    case StopTimeout(call) => s.(stops := s.stops - {call})
    case Put(item) =>
      var e := Of(s, s.epoch);
      s.(queue := s.queue + [item], busy := true, epochs := s.epochs[s.epoch := e.(accepted := e.accepted + [item])])
    case Count => s.(submitted := s.submitted + 1, busy := false)
    case Refuse => s.(rejected := s.rejected + 1)
    case Get(id) => s.(queue := s.queue[1..], writers := s.writers[id := Holding(s.queue[0], s.epoch)])
    case Save(id) =>
      var item, k := s.writers[id].item, s.writers[id].epoch;
      s.(writers := s.writers[id := Saved(item)], epochs := s.epochs[k := Of(s, k).(saved := Of(s, k).saved + [item])])
    case Fail(id) =>
      var k := s.writers[id].epoch;
      s.(writers := s.writers[id := Waiting], error := true, failed := s.failed + 1,
         epochs := s.epochs[k := Of(s, k).(lost := Of(s, k).lost + 1)])
    case Record(id) => s.(writers := s.writers[id := Waiting], recorded := s.recorded + 1)
    case Exit(id) => s.(writers := s.writers[id := Dead])
  }

  // ------------------------------------------------------------------
  // The invariant
  // ------------------------------------------------------------------

  /** Where the installed writer is; a missing one counts as dead. */
  function Installed(s: State): Writer {
    if s.thread.Some? && s.thread.value in s.writers then s.writers[s.thread.value] else Dead
  }

  function InHand(w: Writer): seq<Failure> {
    if w.Holding? then [w.item] else []
  }

  function Pending(w: Writer): nat {
    if w.Holding? || w.Saved? then 1 else 0
  }

  /** At most the installed writer is alive, it is the writer of the latest epoch,
      and only a living one is fed. */
  ghost predicate OneWriter(s: State) {
    && (forall id: ThreadId :: Alive(s, id) ==> s.thread == Some(id))
    && (s.thread.Some? ==> s.thread.value in s.writers && s.thread.value == s.epoch)
    && (s.accepting ==> InstalledAlive(s) && !s.stopRequested)
    && (!InstalledAlive(s) ==> s.queue == [])
    && (Installed(s).Holding? ==> Installed(s).epoch == s.epoch)
    && (forall call :: call in s.stops ==> s.stops[call] in s.writers)
  }

  /** What the epoch still has to write. */
  function Rest(s: State, id: ThreadId): seq<Failure> {
    if id == s.epoch then InHand(Installed(s)) + s.queue else []
  }

  /** Every failure of an epoch is written, lost in a write, in the writer's hand or
      queued; and without a loss, in the order of submission. */
  ghost predicate InOrder(s: State, id: ThreadId) {
    var e := Of(s, id);
    && |e.accepted| == |e.saved| + e.lost + |Rest(s, id)|
    && (e.lost == 0 ==> e.accepted == e.saved + Rest(s, id))
  }

  /** The reported error is that of the latest epoch. */
  ghost predicate Reported(s: State) {
    s.error <==> Of(s, s.epoch).lost > 0
  }

  /** The lifetime counters add up. */
  ghost predicate Counted(s: State) {
    && s.submitted + (if s.busy then 1 else 0) == s.recorded + s.failed + Pending(Installed(s)) + |s.queue|
    && (s.busy ==> Pending(Installed(s)) + |s.queue| >= 1)
    && s.discarded == 0
  }

  ghost predicate Inv(s: State) {
    OneWriter(s) && (forall id: ThreadId :: InOrder(s, id)) && Reported(s) && Counted(s)
  }

  /** A stop may finish only while no living writer is installed: its own is dead,
      so a living one belongs to a later start. */
  predicate Benign(s: State, e: Event) {
    e.StopEnd? ==> !InstalledAlive(s)
  }

  /** No start came after the beginning of the stop. */
  predicate Own(s: State, call: nat) {
    call in s.stops && s.stops[call] == s.epoch
  }

  lemma InitialInv()
    ensures Inv(INITIAL)
  {
  }

  lemma LifecycleKeepsInv(s: State, e: Event, capacity: nat)
    requires Inv(s) && Enabled(s, e, capacity) && Benign(s, e)
    requires e.Start? || e.StopBegin? || e.StopEnd? || e.StopTimeout?
    ensures Inv(Apply(s, e, capacity))
  {
    var t := Apply(s, e, capacity);
    forall id: ThreadId ensures InOrder(t, id) { assert InOrder(s, id); }
  }

  lemma ProducerKeepsInv(s: State, e: Event, capacity: nat)
    requires Inv(s) && Enabled(s, e, capacity)
    requires e.Put? || e.Count? || e.Refuse?
    ensures Inv(Apply(s, e, capacity))
  {
    var t := Apply(s, e, capacity);
    assert Installed(t) == Installed(s);
    forall id: ThreadId ensures InOrder(t, id) {
      assert InOrder(s, id);
      if e.Put? && id == s.epoch {
        assert Rest(t, id) == Rest(s, id) + [e.item];
        assert Of(s, id).saved + (Rest(s, id) + [e.item]) == Of(s, id).saved + Rest(s, id) + [e.item];
      }
    }
  }

  lemma GetKeepsOrder(s: State, e: Event, capacity: nat, id: ThreadId)
    requires Inv(s) && Enabled(s, e, capacity) && (e.Get? || e.Record? || e.Exit?)
    ensures InOrder(Apply(s, e, capacity), id)
  {
    assert Alive(s, e.id) && s.thread == Some(e.id) && InOrder(s, id);
    assert Rest(Apply(s, e, capacity), id) == Rest(s, id);
  }

  lemma WriteKeepsOrder(s: State, e: Event, capacity: nat, id: ThreadId)
    requires Inv(s) && Enabled(s, e, capacity) && (e.Save? || e.Fail?)
    ensures InOrder(Apply(s, e, capacity), id)
  {
    var t, item := Apply(s, e, capacity), s.writers[e.id].item;
    assert Alive(s, e.id) && s.thread == Some(e.id) && InOrder(s, id);
    if id == s.epoch {
      assert Rest(s, id) == [item] + Rest(t, id);
      assert Of(s, id).saved + ([item] + Rest(t, id)) == Of(s, id).saved + [item] + Rest(t, id);
    }
  }

  lemma WriterKeepsInv(s: State, e: Event, capacity: nat)
    requires Inv(s) && Enabled(s, e, capacity)
    requires e.Get? || e.Save? || e.Fail? || e.Record? || e.Exit?
    ensures Inv(Apply(s, e, capacity))
  {
    forall id: ThreadId ensures InOrder(Apply(s, e, capacity), id) {
      if e.Save? || e.Fail? { WriteKeepsOrder(s, e, capacity, id); } else { GetKeepsOrder(s, e, capacity, id); }
    }
    assert Alive(s, e.id) && s.thread == Some(e.id);
    hide InOrder;
  }

  /** Every step keeps the invariant exactly when it is benign. */
  lemma StepKeepsInvIffBenign(s: State, e: Event, capacity: nat)
    requires Inv(s) && Enabled(s, e, capacity)
    ensures Inv(Apply(s, e, capacity)) <==> Benign(s, e)
  {
    if Benign(s, e) {
      if e.Start? || e.StopBegin? || e.StopEnd? || e.StopTimeout? { LifecycleKeepsInv(s, e, capacity); }
      else if e.Put? || e.Count? || e.Refuse? { ProducerKeepsInv(s, e, capacity); }
      else { WriterKeepsInv(s, e, capacity); }
    } else {
      var t := Apply(s, e, capacity);
      assert Alive(t, s.thread.value) && t.thread.None?;
    }
  }

  // ------------------------------------------------------------------
  // Runs
  // ------------------------------------------------------------------

  ghost predicate Run(s: State, events: seq<Event>, capacity: nat)
    decreases |events|
  {
    events == [] || (Enabled(s, events[0], capacity) && Run(Apply(s, events[0], capacity), events[1..], capacity))
  }

  ghost predicate BenignRun(s: State, events: seq<Event>, capacity: nat)
    requires Run(s, events, capacity)
    decreases |events|
  {
    events == [] || (Benign(s, events[0]) && BenignRun(Apply(s, events[0], capacity), events[1..], capacity))
  }

  ghost function After(s: State, events: seq<Event>, capacity: nat): State
    requires Run(s, events, capacity)
    decreases |events|
  {
    if events == [] then s else After(Apply(s, events[0], capacity), events[1..], capacity)
  }

  lemma {:induction false} RunKeepsInv(s: State, events: seq<Event>, capacity: nat)
    requires Inv(s) && Run(s, events, capacity) && BenignRun(s, events, capacity)
    ensures Inv(After(s, events, capacity))
    decreases |events|
  {
    if events != [] {
      StepKeepsInvIffBenign(s, events[0], capacity);
      RunKeepsInv(Apply(s, events[0], capacity), events[1..], capacity);
    }
  }

  /** After any benign run, for a stop that has joined its writer: everything that the
      epoch of this writer accepted is written, in submission order, exactly when no
      write of that epoch failed; and if no start came in between, this is exactly
      what the stop reports. */
  lemma NothingIsLost(events: seq<Event>, call: nat, capacity: nat)
    requires Run(INITIAL, events, capacity) && BenignRun(INITIAL, events, capacity)
    requires Enabled(After(INITIAL, events, capacity), StopEnd(call), capacity)
    ensures var s := After(INITIAL, events, capacity); var e := Of(s, s.stops[call]);
      && |e.saved| + e.lost == |e.accepted|
      && (e.saved == e.accepted <==> e.lost == 0)
      && (Own(s, call) ==> Benign(s, StopEnd(call)) && (s.error <==> e.lost > 0))
      && (Own(s, call) ==> (!s.error <==> e.saved == e.accepted))
  {
    InitialInv();
    RunKeepsInv(INITIAL, events, capacity);
    JoinedIsWritten(After(INITIAL, events, capacity), call, capacity);
    hide Run;
    hide After;
    hide BenignRun;
  }

  lemma JoinedIsWritten(s: State, call: nat, capacity: nat)
    requires Inv(s) && Enabled(s, StopEnd(call), capacity)
    ensures var e := Of(s, s.stops[call]);
      && |e.saved| + e.lost == |e.accepted|
      && (e.saved == e.accepted <==> e.lost == 0)
      && (Own(s, call) ==> Benign(s, StopEnd(call)) && (s.error <==> e.lost > 0))
  {
    var id := s.stops[call];
    assert InOrder(s, id) && Rest(s, id) == [];
    assert Of(s, id).saved + [] == Of(s, id).saved;
  }

  /** Once its writer is dead, a stop whose epoch lost a failure reports it unless a
      start comes first: then it returns without an error. */
  lemma StartHidesTheLoss(s: State, call: nat, id: ThreadId, capacity: nat)
    requires Inv(s) && Enabled(s, StopEnd(call), capacity) && Own(s, call) && Of(s, s.stops[call]).lost > 0
    requires Enabled(s, Start(id), capacity)
    ensures s.error
    ensures var t := Apply(s, Start(id), capacity);
      && Inv(t) && Enabled(t, StopEnd(call), capacity) && !t.error && !Own(t, call)
      && Of(t, t.stops[call]) == Of(s, s.stops[call]) && Of(t, t.stops[call]).saved != Of(t, t.stops[call]).accepted
  {
    JoinedIsWritten(s, call, capacity);
    LifecycleKeepsInv(s, Start(id), capacity);
    assert s.stops[call] in s.writers;
  }

  // ------------------------------------------------------------------
  // The counters, over every run
  // ------------------------------------------------------------------

  /** The writers that have an item, written or not, which is not counted yet. */
  function Hands(writers: map<ThreadId, Writer>): set<ThreadId> {
    set id | id in writers && Pending(writers[id]) == 1
  }

  /** Every failure that was admitted is counted as recorded or failed, is in the hands
      of some writer or queued, or was discarded by a start. */
  ghost predicate Balanced(s: State) {
    && s.submitted + (if s.busy then 1 else 0) == s.recorded + s.failed + |Hands(s.writers)| + |s.queue| + s.discarded
    && (s.busy ==> |Hands(s.writers)| + |s.queue| >= 1)
  }

  lemma HandsMove(writers: map<ThreadId, Writer>, id: ThreadId, w: Writer)
    ensures |Hands(writers[id := w])| + (if id in writers then Pending(writers[id]) else 0) == |Hands(writers)| + Pending(w)
  {
    var after := Hands(writers[id := w]);
    if Pending(w) == 1 {
      assert after == Hands(writers) + {id};
    } else {
      assert after == Hands(writers) - {id};
    }
  }

  /** Every step keeps the balance, whatever lifecycle calls overlap. */
  lemma StepKeepsBalance(s: State, e: Event, capacity: nat)
    requires Balanced(s) && Enabled(s, e, capacity)
    ensures Balanced(Apply(s, e, capacity))
  {
    hide Hands;
    hide Of;
    match e
    case Start(id) => HandsMove(s.writers, id, Waiting);
    case Get(id) => HandsMove(s.writers, id, Holding(s.queue[0], s.epoch));
    case Save(id) => HandsMove(s.writers, id, Saved(s.writers[id].item));
    case Fail(id) => HandsMove(s.writers, id, Waiting);
    case Record(id) => HandsMove(s.writers, id, Waiting);
    case Exit(id) => HandsMove(s.writers, id, Dead);
    case _ =>
  }

  lemma {:induction false} EveryRunBalances(s: State, events: seq<Event>, capacity: nat)
    requires Balanced(s) && Run(s, events, capacity)
    ensures Balanced(After(s, events, capacity))
    decreases |events|
  {
    if events != [] {
      StepKeepsBalance(s, events[0], capacity);
      EveryRunBalances(Apply(s, events[0], capacity), events[1..], capacity);
      hide Balanced;
    }
  }

  /** In every run, the counters differ by what failed, is under way or was discarded;
      recorded never exceeds submitted. */
  lemma CountersAreSafe(events: seq<Event>, capacity: nat)
    requires Run(INITIAL, events, capacity)
    ensures var s := After(INITIAL, events, capacity);
      && s.submitted + (if s.busy then 1 else 0) == s.recorded + s.failed + |Hands(s.writers)| + |s.queue| + s.discarded
      && s.recorded <= s.submitted
  {
    EveryRunBalances(INITIAL, events, capacity);
    hide Run;
    hide After;
  }

  /** The third counter, in every run: one for each refused submission. */
  lemma {:induction false} RejectedCountsRefusals(s: State, events: seq<Event>, capacity: nat)
    requires Run(s, events, capacity)
    ensures After(s, events, capacity).rejected == s.rejected + multiset(events)[Refuse]
    decreases |events|
  {
    if events != [] {
      assert events == [events[0]] + events[1..];
      RejectedCountsRefusals(Apply(s, events[0], capacity), events[1..], capacity);
    }
  }

  /** Without a race nothing is discarded, and only one writer has an item. */
  lemma BenignDiscardsNothing(events: seq<Event>, capacity: nat)
    requires Run(INITIAL, events, capacity) && BenignRun(INITIAL, events, capacity)
    ensures var s := After(INITIAL, events, capacity); s.discarded == 0 && |Hands(s.writers)| <= 1
  {
    InitialInv();
    RunKeepsInv(INITIAL, events, capacity);
    var s := After(INITIAL, events, capacity);
    forall id | id in Hands(s.writers) ensures id == s.epoch { assert Alive(s, id); }
    SubsetSize(Hands(s.writers), {s.epoch});
    hide Run;
    hide After;
    hide BenignRun;
    hide InOrder;
  }

  // ------------------------------------------------------------------
  // A stop that joins nothing
  // ------------------------------------------------------------------

  /** While no thread is installed, the latest epoch has come to its end, and it is
      complete exactly when no writer error is noted. */
  lemma IdleIsWritten(s: State)
    requires Inv(s) && s.thread.None?
    ensures var e := Of(s, s.epoch);
      s.queue == [] && |e.saved| + e.lost == |e.accepted| && (e.saved == e.accepted <==> !s.error)
  {
    assert InOrder(s, s.epoch) && Rest(s, s.epoch) == [];
    assert Of(s, s.epoch).saved + [] == Of(s, s.epoch).saved;
  }

  /** A stop that finds no thread returns without an error. After any benign run, the
      latest epoch is complete then exactly when no writer error is noted. */
  lemma UnjoinedStopIff(events: seq<Event>, capacity: nat)
    requires Run(INITIAL, events, capacity) && BenignRun(INITIAL, events, capacity)
    requires After(INITIAL, events, capacity).thread.None?
    ensures var s := After(INITIAL, events, capacity); var e := Of(s, s.epoch);
      s.queue == [] && |e.saved| + e.lost == |e.accepted| && (e.saved == e.accepted <==> !s.error)
  {
    InitialInv();
    RunKeepsInv(INITIAL, events, capacity);
    IdleIsWritten(After(INITIAL, events, capacity));
    hide Run;
    hide After;
    hide BenignRun;
  }

  // ------------------------------------------------------------------
  // Lifecycle calls that do not overlap
  // ------------------------------------------------------------------

  /** When lifecycle calls do not overlap, every run is benign: at most one stop is
      under way, and no start comes in between. */
  ghost predicate Apart(s: State, events: seq<Event>, capacity: nat)
    requires Run(s, events, capacity)
    decreases |events|
  {
    events == [] || (
      && ((events[0].Start? || events[0].StopBegin?) ==> s.stops == map[])
      && Apart(Apply(s, events[0], capacity), events[1..], capacity))
  }

  /** No start came after the beginning of any stop under way. */
  ghost predicate AllOwn(s: State) {
    forall call :: call in s.stops ==> Own(s, call)
  }

  lemma ApartStep(s: State, e: Event, capacity: nat)
    requires Inv(s) && AllOwn(s) && Enabled(s, e, capacity)
    requires e.Start? || e.StopBegin? ==> s.stops == map[]
    ensures Benign(s, e) && AllOwn(Apply(s, e, capacity))
  {
    hide InOrder;
    hide Reported;
    hide Counted;
  }

  /** Then every step is benign, and what `NothingIsLost` says of a stop of its own
      epoch holds of every stop that joins a thread. */
  lemma {:induction false} ApartRunsAreBenign(s: State, events: seq<Event>, capacity: nat)
    requires Inv(s) && AllOwn(s) && Run(s, events, capacity) && Apart(s, events, capacity)
    ensures BenignRun(s, events, capacity) && AllOwn(After(s, events, capacity))
    decreases |events|
  {
    if events != [] {
      var e := events[0];
      ApartStep(s, e, capacity);
      StepKeepsInvIffBenign(s, e, capacity);
      ApartRunsAreBenign(Apply(s, e, capacity), events[1..], capacity);
      hide Inv;
      hide AllOwn;
    }
  }

  lemma {:induction false} RunJoin(s: State, a: seq<Event>, b: seq<Event>, capacity: nat)
    requires Run(s, a, capacity) && Run(After(s, a, capacity), b, capacity)
    ensures Run(s, a + b, capacity) && After(s, a + b, capacity) == After(After(s, a, capacity), b, capacity)
    decreases |a|
  {
    if a == [] {
      assert a + b == b;
    } else {
      assert (a + b)[1..] == a[1..] + b;
      RunJoin(Apply(s, a[0], capacity), a[1..], b, capacity);
    }
  }

  const NONE := Epoch([], [], 0)

  /** The first writer has ended, its stop has not finished, and a second writer runs. */
  const OVERLAP: State :=
    State(true, false, Some(2), false, [], 0, 0, 0, false, map[1 := Dead, 2 := Waiting], map[1 := 1], 2, map[1 := NONE, 2 := NONE], 0, 0)

  lemma OverlapIsReachable()
    ensures Run(INITIAL, [Start(1), StopBegin(1), Exit(1), Start(2)], 1)
    ensures After(INITIAL, [Start(1), StopBegin(1), Exit(1), Start(2)], 1) == OVERLAP
  {
    var events := [Start(1), StopBegin(1), Exit(1), Start(2)];
    var s1 := Apply(INITIAL, Start(1), 1);
    var s2 := Apply(s1, StopBegin(1), 1);
    var s3 := Apply(s2, Exit(1), 1);
    var s4 := Apply(s3, Start(2), 1);
    assert s4.writers == map[1 := Dead, 2 := Waiting] && s4.epochs == map[1 := NONE, 2 := NONE];
    assert s4 == OVERLAP;
    RunIs(s3, events[3..], 1);
    RunIs(s2, events[2..], 1);
    RunIs(s1, events[1..], 1);
    RunIs(INITIAL, events, 1);
  }

  lemma OverlapEnds(item: Failure)
    ensures var events := [StopEnd(1), Put(item), Count, StopBegin(2)];
      && Run(OVERLAP, events, 1)
      && var s := After(OVERLAP, events, 1);
      && s.thread.None? && !s.accepting && !s.error && s.stops == map[] && Alive(s, 2) && !s.stopRequested
      && s.queue == [item] && Of(s, 2) == Epoch([item], [], 0)
  {
    var events := [StopEnd(1), Put(item), Count, StopBegin(2)];
    var s1 := Apply(OVERLAP, StopEnd(1), 1);
    var s2 := Apply(s1, Put(item), 1);
    var s3 := Apply(s2, Count, 1);
    RunIs(s3, events[3..], 1);
    RunIs(s2, events[2..], 1);
    RunIs(s1, events[1..], 1);
    RunIs(OVERLAP, events, 1);
  }

  /** Overlapping lifecycle calls: a stop that has joined its writer finishes after
      the next start, and forgets the new writer. The next stop then returns at once
      although an accepted failure is still in the queue. */
  lemma OverlapLosesTheWriter(item: Failure)
    ensures
      var events := [Start(1), StopBegin(1), Exit(1), Start(2)] + [StopEnd(1), Put(item), Count, StopBegin(2)];
      && Run(INITIAL, events, 1)
      && var s := After(INITIAL, events, 1);
      && s.thread.None? && !s.accepting && !s.error && s.stops == map[]
      && Alive(s, 2) && !s.stopRequested
      && s.queue == [item] && Of(s, 2) == Epoch([item], [], 0)
  {
    OverlapIsReachable();
    OverlapEnds(item);
    hide Run;
    hide After;
    RunJoin(INITIAL, [Start(1), StopBegin(1), Exit(1), Start(2)], [StopEnd(1), Put(item), Count, StopBegin(2)], 1);
  }

  /** The first epoch lost its only failure, its writer has ended, and its stop has
      not finished. */
  function Lost(item: Failure): State {
    State(false, true, Some(1), true, [], 1, 0, 0, false, map[1 := Dead], map[1 := 1], 1, map[1 := Epoch([item], [], 1)], 1, 0)
  }

  /** The first writer has its first failure in hand. */
  function Taken(item: Failure): State {
    State(true, false, Some(1), false, [], 1, 0, 0, false, map[1 := Holding(item, 1)], map[], 1, map[1 := Epoch([item], [], 0)], 0, 0)
  }

  lemma TakenIsReached(item: Failure)
    ensures var events := [Start(1), Put(item), Count, Get(1)];
      Run(INITIAL, events, 1) && After(INITIAL, events, 1) == Taken(item)
  {
    var events := [Start(1), Put(item), Count, Get(1)];
    var s1 := Apply(INITIAL, Start(1), 1);
    assert s1.epochs == map[1 := NONE] && s1.writers == map[1 := Waiting];
    var s2 := Apply(s1, Put(item), 1);
    assert [] + [item] == [item] && s2.queue == [item];
    assert s2.epochs == map[1 := Epoch([item], [], 0)];
    var s3 := Apply(s2, Count, 1);
    var s4 := Apply(s3, Get(1), 1);
    assert s4.writers == map[1 := Holding(item, 1)] && s4.queue == [];
    assert s4 == Taken(item);
    RunIs(s3, events[3..], 1);
    RunIs(s2, events[2..], 1);
    RunIs(s1, events[1..], 1);
    RunIs(INITIAL, events, 1);
  }

  lemma LostIsReached(item: Failure)
    ensures var events := [Fail(1), StopBegin(1), Exit(1)];
      Run(Taken(item), events, 1) && After(Taken(item), events, 1) == Lost(item)
  {
    var events := [Fail(1), StopBegin(1), Exit(1)];
    var s1 := Apply(Taken(item), Fail(1), 1);
    assert s1.epochs == map[1 := Epoch([item], [], 1)] && s1.writers == map[1 := Waiting];
    var s2 := Apply(s1, StopBegin(1), 1);
    assert s2.stops == map[1 := 1];
    var s3 := Apply(s2, Exit(1), 1);
    assert s3.writers == map[1 := Dead];
    assert s3 == Lost(item);
    RunIs(s2, events[2..], 1);
    RunIs(s1, events[1..], 1);
    RunIs(Taken(item), events, 1);
  }

  lemma LostIsHidden(item: Failure)
    ensures var events := [Start(2), StopBegin(2), Exit(2)];
      && Run(Lost(item), events, 1)
      && var s := After(Lost(item), events, 1);
      && Enabled(s, StopEnd(1), 1) && Benign(s, StopEnd(1)) && s.stops[1] == 1
      && !s.error && s.failed == 1 && s.recorded == 0 && Of(s, 1) == Epoch([item], [], 1)
  {
    var events := [Start(2), StopBegin(2), Exit(2)];
    var s1 := Apply(Lost(item), Start(2), 1);
    var s2 := Apply(s1, StopBegin(2), 1);
    var s3 := Apply(s2, Exit(2), 1);
    RunIs(s2, events[2..], 1);
    RunIs(s1, events[1..], 1);
    RunIs(Lost(item), events, 1);
  }

  /** A start between the two regions of a stop: the stop returns without an error
      although the failure that its epoch accepted was never written. */
  lemma OverlapHidesTheLoss(item: Failure)
    ensures
      var events := [Start(1), Put(item), Count, Get(1)] + ([Fail(1), StopBegin(1), Exit(1)] + [Start(2), StopBegin(2), Exit(2)]);
      && Run(INITIAL, events, 1) && BenignRun(INITIAL, events, 1)
      && var s := After(INITIAL, events, 1);
      && Enabled(s, StopEnd(1), 1) && Benign(s, StopEnd(1)) && s.stops[1] == 1
      && !s.error && s.failed == 1 && s.recorded == 0 && Of(s, 1) == Epoch([item], [], 1)
  {
    TakenIsReached(item);
    LostIsReached(item);
    LostIsHidden(item);
    var a, b, c := [Start(1), Put(item), Count, Get(1)], [Fail(1), StopBegin(1), Exit(1)], [Start(2), StopBegin(2), Exit(2)];
    hide Run;
    hide After;
    hide BenignRun;
    RunJoin(Taken(item), b, c, 1);
    RunJoin(INITIAL, a, b + c, 1);
    NoStopEndsIsBenign(INITIAL, a + (b + c), 1);
  }

  lemma SecondStopIsReached(item: Failure)
    ensures var events := [StopEnd(1), StopBegin(2)];
      && Run(Lost(item), events, 1) && BenignRun(Lost(item), events, 1) && Apart(Lost(item), events, 1)
      && var s := After(Lost(item), events, 1);
      s.thread.None? && s.stops == map[] && s.error && Of(s, 1) == Epoch([item], [], 1) && s.epoch == 1
  {
    var events := [StopEnd(1), StopBegin(2)];
    var s1 := Apply(Lost(item), StopEnd(1), 1);
    assert s1.stops == map[];
    RunIs(s1, events[1..], 1);
    RunIs(Lost(item), events, 1);
  }

  /** Without any overlap: the stop that joins the writer reports the loss, and a
      second stop finds no thread and returns without an error, although the failure
      that the epoch accepted was never written. */
  lemma SecondStopIsSilent(item: Failure)
    ensures
      var before := [Start(1), Put(item), Count, Get(1)] + [Fail(1), StopBegin(1), Exit(1)];
      && Run(INITIAL, before, 1) && After(INITIAL, before, 1) == Lost(item)
      && var events := before + [StopEnd(1), StopBegin(2)];
      && Run(INITIAL, events, 1) && BenignRun(INITIAL, events, 1) && Apart(INITIAL, events, 1)
      && var s := After(INITIAL, events, 1);
      s.thread.None? && s.stops == map[] && s.error && Of(s, 1) == Epoch([item], [], 1) && s.epoch == 1
  {
    TakenIsReached(item);
    LostIsReached(item);
    SecondStopIsReached(item);
    var a, b, c := [Start(1), Put(item), Count, Get(1)], [Fail(1), StopBegin(1), Exit(1)], [StopEnd(1), StopBegin(2)];
    TakenIsApart(item);
    LostIsApart(item);
    NoStopEndsIsBenign(INITIAL, a, 1);
    NoStopEndsIsBenign(Taken(item), b, 1);
    hide Run;
    hide After;
    hide BenignRun;
    hide Apart;
    RunJoin(INITIAL, a, b, 1);
    ApartJoin(INITIAL, a, b, 1);
    RunJoin(INITIAL, a + b, c, 1);
    ApartJoin(INITIAL, a + b, c, 1);
  }

  lemma TakenIsApart(item: Failure)
    requires Run(INITIAL, [Start(1), Put(item), Count, Get(1)], 1)
    ensures Apart(INITIAL, [Start(1), Put(item), Count, Get(1)], 1)
  {
    var events := [Start(1), Put(item), Count, Get(1)];
    assert INITIAL.stops == map[] && events[1..] == [Put(item), Count, Get(1)];
    NoLifecycleIsApart(Apply(INITIAL, Start(1), 1), events[1..], 1);
  }

  lemma LostIsApart(item: Failure)
    requires Run(Taken(item), [Fail(1), StopBegin(1), Exit(1)], 1)
    ensures Apart(Taken(item), [Fail(1), StopBegin(1), Exit(1)], 1)
  {
    var events := [Fail(1), StopBegin(1), Exit(1)];
    var s1 := Apply(Taken(item), Fail(1), 1);
    assert s1.stops == map[] && events[1..][1..] == [Exit(1)];
    NoLifecycleIsApart(Apply(s1, StopBegin(1), 1), events[1..][1..], 1);
  }

  lemma {:induction false} NoLifecycleIsApart(s: State, events: seq<Event>, capacity: nat)
    requires Run(s, events, capacity) && forall i :: 0 <= i < |events| ==> !events[i].Start? && !events[i].StopBegin?
    ensures Apart(s, events, capacity)
    decreases |events|
  {
    if events != [] { NoLifecycleIsApart(Apply(s, events[0], capacity), events[1..], capacity); }
  }

  lemma {:induction false} ApartJoin(s: State, a: seq<Event>, b: seq<Event>, capacity: nat)
    requires Run(s, a, capacity) && Run(After(s, a, capacity), b, capacity) && Run(s, a + b, capacity)
    requires Apart(s, a, capacity) && Apart(After(s, a, capacity), b, capacity)
    requires BenignRun(s, a, capacity) && BenignRun(After(s, a, capacity), b, capacity)
    ensures Apart(s, a + b, capacity) && BenignRun(s, a + b, capacity)
    decreases |a|
  {
    if a == [] {
      assert a + b == b;
    } else {
      assert (a + b)[1..] == a[1..] + b;
      ApartJoin(Apply(s, a[0], capacity), a[1..], b, capacity);
    }
  }

  lemma {:induction false} NoStopEndsIsBenign(s: State, events: seq<Event>, capacity: nat)
    requires Run(s, events, capacity) && forall i :: 0 <= i < |events| ==> !events[i].StopEnd?
    ensures BenignRun(s, events, capacity)
    decreases |events|
  {
    if events != [] { NoStopEndsIsBenign(Apply(s, events[0], capacity), events[1..], capacity); }
  }

  lemma RunIs(s: State, events: seq<Event>, capacity: nat)
    requires events != [] && Enabled(s, events[0], capacity) && Run(Apply(s, events[0], capacity), events[1..], capacity)
    ensures Run(s, events, capacity)
    ensures After(s, events, capacity) == After(Apply(s, events[0], capacity), events[1..], capacity)
  {
  }

  // ------------------------------------------------------------------
  // The daemon itself: each method is one locked region, or one turn of the writer
  // ------------------------------------------------------------------

  datatype Submission = Admitted | NotRunning | Unhealthy | Overflow

  datatype Stopping = NothingToJoin | Joining(id: ThreadId)

  class FailureCaptureDaemon {
    const capacity: nat
    var accepting: bool
    var stopRequested: bool
    var thread: Option<ThreadId>
    var writerError: bool
    var queue: seq<Failure>
    var submitted: nat
    var recorded: nat
    var rejected: nat
    /** The threads of the process and the stop calls under way. */
    var writers: map<ThreadId, Writer>
    var stops: map<nat, ThreadId>
    ghost var epoch: ThreadId
    ghost var epochs: map<ThreadId, Epoch>
    ghost var failed: nat
    ghost var discarded: nat

    ghost function View(): State
      reads this
    {
      State(accepting, stopRequested, thread, writerError, queue, submitted, recorded, rejected, false, writers, stops, epoch, epochs, failed, discarded)
    }

    constructor (capacity: nat)
      requires capacity >= 1
      ensures View() == INITIAL && this.capacity == capacity
    {
      this.capacity := capacity;
      accepting, stopRequested, thread, writerError, queue := false, false, None, false, [];
      submitted, recorded, rejected, writers, stops := 0, 0, 0, map[], map[];
      epoch, epochs, failed, discarded := 0, map[], 0, 0;
    }

    /** The locked region of `start`; `id` is the new thread. */
    method Start(id: ThreadId) returns (ok: bool)
      requires id !in writers
      modifies this
      ensures View() == Apply(old(View()), Event.Start(id), capacity)
      // it is refused exactly while an old writer still runs; a new epoch begins empty and healthy
      ensures ok == accepting && (!ok <==> !old(accepting) && old(InstalledAlive(View())))
      ensures !ok || old(accepting) ==> View() == old(View())
      ensures ok && !old(accepting) ==> queue == [] && !stopRequested && !writerError && thread == Some(id) && writers == old(writers)[id := Waiting]
      ensures submitted == old(submitted) && recorded == old(recorded) && rejected == old(rejected)
    {
      if accepting { return true; }
      if thread.Some? && thread.value in writers && !writers[thread.value].Dead? { return false; }
      Launch(id);
      ok := true;
    }

    /** A new queue, a new thread and a new epoch. */
    method Launch(id: ThreadId)
      requires id !in writers && !accepting && !InstalledAlive(View())
      modifies this
      ensures View() == Apply(old(View()), Event.Start(id), capacity) && accepting
    {
      StartIs(View(), id, capacity);
      hide Apply;
      hide Enabled;
      hide InstalledAlive;
      discarded := discarded + |queue|;
      queue, stopRequested, writerError, accepting := [], false, false, true;
      thread, writers := Some(id), writers[id := Waiting];
      epoch, epochs := id, epochs[id := Epoch([], [], 0)];
    }

    /** The first locked region of `stop`. A stop that finds no thread returns at
        once without an error; the latest epoch is complete then exactly when no
        writer error is noted. */
    method BeginStop(call: nat) returns (next: Stopping)
      requires call !in stops
      modifies this
      ensures View() == Apply(old(View()), StopBegin(call), capacity)
      ensures next == if old(thread).Some? then Joining(old(thread).value) else NothingToJoin
      ensures !accepting && queue == old(queue) && thread == old(thread) && (next.Joining? ==> stopRequested)
      ensures old(Inv(View())) && next == NothingToJoin ==>
        var e := Of(View(), epoch);
        queue == [] && |e.saved| + e.lost == |e.accepted| && (e.saved == e.accepted <==> !writerError)
    {
      ghost var s := View();
      if Inv(s) && thread.None? { IdleIsWritten(s); }
      hide Inv;
      accepting := false;
      if thread.None? { return NothingToJoin; }
      stopRequested := true;
      stops := stops[call := thread.value];
      next := Joining(thread.value);
    }

    /** The second locked region of `stop`, once the joined thread has ended. The
        failures of its epoch are all written exactly when none was lost, and the
        stop says so if no start came in between. */
    method FinishStop(call: nat) returns (ok: bool)
      requires call in stops && !Alive(View(), stops[call])
      modifies this
      ensures View() == Apply(old(View()), StopEnd(call), capacity)
      ensures thread.None? && call !in stops && (ok <==> !old(writerError))
      ensures old(Inv(View()) && Benign(View(), StopEnd(call))) ==> Inv(View())
      ensures old(Inv(View())) ==> var e := Of(View(), old(stops)[call]);
        && |e.saved| + e.lost == |e.accepted| && (e.saved == e.accepted <==> e.lost == 0)
        && (old(Own(View(), call)) ==> Inv(View()) && (ok <==> e.saved == e.accepted))
    {
      ghost var s := View();
      if Inv(s) {
        StepKeepsInvIffBenign(s, StopEnd(call), capacity);
        JoinedIsWritten(s, call, capacity);
      }
      hide Inv;
      thread, stops := None, stops - {call};
      ok := !writerError;
      assert View() == Apply(s, StopEnd(call), capacity);
    }

    /** `submit`: the put and the count happen under one lock. */
    method Submit(item: Failure) returns (result: Submission)
      modifies this
      ensures old(Inv(View())) ==> Inv(View())
      ensures result == if !old(accepting) then NotRunning else if old(writerError) then Unhealthy
                        else if |old(queue)| >= capacity then Overflow else Admitted
      // an admitted failure is queued last and counted; a refused one is counted as rejected
      ensures queue == if result == Admitted then old(queue) + [item] else old(queue)
      ensures submitted == old(submitted) + if result == Admitted then 1 else 0
      ensures rejected == old(rejected) + if result == Unhealthy || result == Overflow then 1 else 0
      ensures result == Admitted ==> Of(View(), epoch).accepted == Of(old(View()), old(epoch)).accepted + [item]
      ensures result == Admitted ==> View() == Apply(Apply(old(View()), Put(item), capacity), Count, capacity)
      ensures result == Unhealthy || result == Overflow ==> View() == Apply(old(View()), Refuse, capacity)
      ensures result == NotRunning ==> View() == old(View())
    {
      if !accepting { return NotRunning; }
      if writerError || |queue| >= capacity {
        result := if writerError then Unhealthy else Overflow;
        Reject();
        return;
      }
      Admit(item);
      result := Admitted;
    }

    method Reject()
      requires Enabled(View(), Refuse, capacity)
      modifies this
      ensures View() == Apply(old(View()), Refuse, capacity)
      ensures old(Inv(View())) ==> Inv(View())
    {
      if Inv(View()) { ProducerKeepsInv(View(), Refuse, capacity); }
      hide Inv;
      rejected := rejected + 1;
    }

    method Admit(item: Failure)
      requires Enabled(View(), Put(item), capacity)
      modifies this
      ensures View() == Apply(Apply(old(View()), Put(item), capacity), Count, capacity)
      ensures old(Inv(View())) ==> Inv(View())
    {
      ghost var s := View();
      if Inv(s) {
        ProducerKeepsInv(s, Put(item), capacity);
        ProducerKeepsInv(Apply(s, Put(item), capacity), Count, capacity);
      }
      hide Inv;
      queue := queue + [item];
      epochs := epochs[epoch := Of(s, epoch).(accepted := Of(s, epoch).accepted + [item])];
      submitted := submitted + 1;
    }

    /** One turn of the writer loop; whether the log takes the item is up to the log. */
    method WriterTurn(id: ThreadId) returns (wrote: bool)
      requires id in writers && writers[id] == Waiting
      modifies this
      ensures View() == Turn(old(View()), id, wrote)
      ensures TookOldest(old(View()), View(), id, wrote)
      ensures old(Inv(View())) ==> Inv(View())
      ensures old(Balanced(View())) ==> Balanced(View())
    {
      wrote := *;
      if Inv(View()) { TurnKeepsInv(View(), id, wrote, capacity); }
      if Balanced(View()) { TurnKeepsBalance(View(), id, wrote, capacity); }
      TurnTakesOldest(View(), id, wrote);
      hide Inv;
      hide Balanced;
      hide TookOldest;
      if queue == [] {
        if stopRequested { writers := writers[id := Dead]; }
      } else if wrote {
        Write();
      } else {
        Lose();
      }
    }

    /** The oldest failure is written. */
    method Write()
      requires queue != []
      modifies this
      ensures View() == Written(old(View()), true)
    {
      ghost var e := Of(View(), epoch);
      epochs := epochs[epoch := e.(saved := e.saved + [queue[0]])];
      queue := queue[1..];
      recorded := recorded + 1;
    }

    /** The log refuses the oldest failure. */
    method Lose()
      requires queue != []
      modifies this
      ensures View() == Written(old(View()), false)
    {
      ghost var e := Of(View(), epoch);
      epochs, failed := epochs[epoch := e.(lost := e.lost + 1)], failed + 1;
      queue := queue[1..];
      writerError := true;
    }
  }

  lemma StartIs(s: State, id: ThreadId, capacity: nat)
    requires Enabled(s, Event.Start(id), capacity) && !s.accepting && !InstalledAlive(s)
    ensures Apply(s, Event.Start(id), capacity) ==
      State(true, false, Some(id), false, [], s.submitted, s.recorded, s.rejected, s.busy, s.writers[id := Waiting], s.stops,
            id, s.epochs[id := Epoch([], [], 0)], s.failed, s.discarded + |s.queue|)
  {
  }

  function Written(s: State, wrote: bool): State
    requires s.queue != []
  {
    var e := Of(s, s.epoch);
    if wrote
    then s.(queue := s.queue[1..], epochs := s.epochs[s.epoch := e.(saved := e.saved + [s.queue[0]])], recorded := s.recorded + 1)
    else s.(queue := s.queue[1..], epochs := s.epochs[s.epoch := e.(lost := e.lost + 1)], error := true, failed := s.failed + 1)
  }

  /** What one undisturbed turn of the writer loop does. */
  function Turn(s: State, id: ThreadId, wrote: bool): State {
    if s.queue != [] then Written(s, wrote)
    else if s.stopRequested then s.(writers := s.writers[id := Dead])
    else s
  }

  /** First in, first out; a write that fails makes the daemon unhealthy, and only an
      empty queue lets the writer go. */
  ghost predicate TookOldest(s: State, t: State, id: ThreadId, wrote: bool) {
    if s.queue == [] then t.queue == [] && (Alive(t, id) <==> Alive(s, id) && !s.stopRequested)
    else
      && s.queue == [s.queue[0]] + t.queue && (t.error <==> s.error || !wrote) && t.writers == s.writers
      && Of(t, t.epoch).saved == Of(s, s.epoch).saved + (if wrote then [s.queue[0]] else [])
      && t.recorded == s.recorded + (if wrote then 1 else 0)
  }

  lemma TurnTakesOldest(s: State, id: ThreadId, wrote: bool)
    requires id in s.writers && s.writers[id] == Waiting
    ensures TookOldest(s, Turn(s, id, wrote), id, wrote)
  {
    assert Of(s, s.epoch).saved + [] == Of(s, s.epoch).saved;
  }

  /** A turn is a sequence of writer steps. */
  lemma SavesOne(s: State, id: ThreadId, capacity: nat)
    requires !s.busy && id in s.writers && s.writers[id] == Waiting && s.queue != []
    ensures Enabled(s, Get(id), capacity)
    ensures var s1 := Apply(s, Get(id), capacity); Enabled(s1, Event.Save(id), capacity)
    ensures var s2 := Apply(Apply(s, Get(id), capacity), Event.Save(id), capacity);
      Enabled(s2, Event.Record(id), capacity) && Apply(s2, Event.Record(id), capacity) == Turn(s, id, true)
  {
    var s2 := Apply(Apply(s, Get(id), capacity), Event.Save(id), capacity);
    assert Apply(s2, Event.Record(id), capacity).writers == s.writers;
  }

  lemma FailsOne(s: State, id: ThreadId, capacity: nat)
    requires !s.busy && id in s.writers && s.writers[id] == Waiting && s.queue != []
    ensures Enabled(s, Get(id), capacity)
    ensures var s1 := Apply(s, Get(id), capacity);
      Enabled(s1, Event.Fail(id), capacity) && Apply(s1, Event.Fail(id), capacity) == Turn(s, id, false)
  {
    assert Apply(Apply(s, Get(id), capacity), Event.Fail(id), capacity).writers == s.writers;
  }

  lemma TurnKeepsInv(s: State, id: ThreadId, wrote: bool, capacity: nat)
    requires Inv(s) && !s.busy && id in s.writers && s.writers[id] == Waiting
    ensures Inv(Turn(s, id, wrote))
  {
    hide Inv;
    if s.queue == [] {
      if s.stopRequested { WriterKeepsInv(s, Exit(id), capacity); }
    } else {
      if wrote { SavesOne(s, id, capacity); } else { FailsOne(s, id, capacity); }
      WriterKeepsInv(s, Get(id), capacity);
      var s1 := Apply(s, Get(id), capacity);
      if wrote {
        WriterKeepsInv(s1, Event.Save(id), capacity);
        WriterKeepsInv(Apply(s1, Event.Save(id), capacity), Event.Record(id), capacity);
      } else {
        WriterKeepsInv(s1, Event.Fail(id), capacity);
      }
      hide Apply;
    }
  }

  lemma TurnKeepsBalance(s: State, id: ThreadId, wrote: bool, capacity: nat)
    requires Balanced(s) && !s.busy && id in s.writers && s.writers[id] == Waiting
    ensures Balanced(Turn(s, id, wrote))
  {
    hide Balanced;
    if s.queue == [] {
      if s.stopRequested { StepKeepsBalance(s, Exit(id), capacity); }
    } else {
      if wrote { SavesOne(s, id, capacity); } else { FailsOne(s, id, capacity); }
      StepKeepsBalance(s, Get(id), capacity);
      var s1 := Apply(s, Get(id), capacity);
      if wrote {
        StepKeepsBalance(s1, Event.Save(id), capacity);
        StepKeepsBalance(Apply(s1, Event.Save(id), capacity), Event.Record(id), capacity);
      } else {
        StepKeepsBalance(s1, Event.Fail(id), capacity);
      }
      hide Apply;
    }
  }
}
