/** The event checks of `JobManager._run_job` in `cogni_demo/server.py`: what the
    dequeued worker events must have been for a job to succeed. */
module JobEvents {
  import opened Basics

  const PHASES: seq<string> := ["verifying", "loading_model", "building_runtime", "running_inference", "postcheck"]

  /** A terminal event carries metrics, which the server may still refuse. */
  datatype Kind = Phase(stage: string) | Terminal(metrics: int, valid: bool)

  datatype WorkerEvent = WorkerEvent(sequence: int, progress: int, kind: Kind)

  /** One turn of the loop: nothing came, the deadline passed, or a message. */
  datatype Turn = Idle | Overdue | Problem | Received(event: WorkerEvent)

  datatype Status = Ready | Starting | Running | Cancelling | Cancelled | Failed | Succeeded

  /** What ends a job without success. */
  datatype Error = NoError | WorkerExit | WorkerProtocol | ServerFailure

  /** The events among the turns, in order. */
  function Events(turns: seq<Turn>): seq<WorkerEvent> {
    if turns == [] then []
    else Events(turns[..|turns| - 1]) + (if turns[|turns| - 1].Received? then [turns[|turns| - 1].event] else [])
  }

  ghost predicate Undisturbed(turns: seq<Turn>) {
    forall i :: 0 <= i < |turns| ==> turns[i].Idle? || turns[i].Received?
  }

  /** The least progress that the event may report. */
  function Floor(events: seq<WorkerEvent>, i: nat): int
    requires i <= |events|
  {
    if i == 0 then -1 else events[i - 1].progress
  }

  /** Numbered from one without gaps, with progress that never falls, the phases in
      their order, and after the last phase only results. */
  ghost predicate Orderly(events: seq<WorkerEvent>) {
    && (forall i :: 0 <= i < |events| ==> events[i].sequence == i + 1)
    && (forall i :: 0 <= i < |events| ==> events[i].progress >= Floor(events, i))
    && (forall i :: 0 <= i < |events| ==> if i < |PHASES| then events[i].kind == Phase(PHASES[i]) else events[i].kind.Terminal?)
  }

  /** The five phases and one result. */
  ghost predicate Complete(turns: seq<Turn>) {
    && Undisturbed(turns) && Orderly(Events(turns)) && |Events(turns)| == |PHASES| + 1
    && Events(turns)[|PHASES|].kind.valid
  }

  /** No result among the messages carries metrics that the server refuses. */
  ghost predicate NoneRefused(turns: seq<Turn>) {
    forall i :: 0 <= i < |turns| && turns[i].Received? && turns[i].event.kind.Terminal? ==> turns[i].event.kind.valid
  }

  /** A complete run, written out: these six events in this order, and no others. */
  lemma CompleteWrittenOut(turns: seq<Turn>)
    ensures Complete(turns) <==>
      var events := Events(turns);
      && Undisturbed(turns) && |events| == 6
      && events[0].kind == Phase("verifying") && events[1].kind == Phase("loading_model") && events[2].kind == Phase("building_runtime")
      && events[3].kind == Phase("running_inference") && events[4].kind == Phase("postcheck")
      && events[5].kind.Terminal? && events[5].kind.valid
      && (forall i :: 0 <= i < 6 ==> events[i].sequence == i + 1)
      && -1 <= events[0].progress && forall i :: 1 <= i < 6 ==> events[i - 1].progress <= events[i].progress
  {
    var events := Events(turns);
    if |events| == 6 { assert forall i :: 1 <= i < 6 ==> Floor(events, i) == events[i - 1].progress; }
    hide Events;
    hide Undisturbed;
  }

  /** The local variables of the loop. */
  datatype Check = Check(next: nat, phase: nat, progress: int, terminals: nat, failed: bool, metrics: Option<int>)

  const FRESH: Check := Check(1, 0, -1, 0, false, None)

  /** Without a failure so far, the events were orderly, and the variables say which
      ones are still to come. */
  ghost predicate Follows(c: Check, turns: seq<Turn>) {
    var events := Events(turns);
    && (!c.failed <==> Undisturbed(turns) && Orderly(events))
    && (!c.failed ==>
          && c.next == |events| + 1
          && c.phase == (if |events| <= |PHASES| then |events| else |PHASES|)
          && c.terminals == |events| - c.phase
          && c.progress == Floor(events, |events|)
          && (c.terminals == 0 ==> c.metrics.None?)
          && (c.terminals > 0 ==> c.metrics.Some? && events[|events| - 1].kind == Terminal(c.metrics.value, true)))
  }

  lemma EventsSnoc(turns: seq<Turn>, t: Turn)
    ensures Events(turns + [t]) == if t.Received? then Events(turns) + [t.event] else Events(turns)
    ensures Undisturbed(turns + [t]) <==> Undisturbed(turns) && (t.Idle? || t.Received?)
  {
    assert (turns + [t])[..|turns|] == turns;
    if Undisturbed(turns + [t]) {
      assert forall i :: 0 <= i < |turns| ==> turns[i] == (turns + [t])[i];
      assert (turns + [t])[|turns|] == t;
    }
  }

  lemma OrderlySnoc(events: seq<WorkerEvent>, e: WorkerEvent)
    ensures Orderly(events + [e]) <==>
      && Orderly(events) && e.sequence == |events| + 1
      && e.progress >= Floor(events, |events|)
      && (if |events| < |PHASES| then e.kind == Phase(PHASES[|events|]) else e.kind.Terminal?)
  {
    var more := events + [e];
    assert more[|events|] == e;
    assert forall i :: 0 <= i < |events| ==> more[i] == events[i];
    assert forall i :: 0 <= i <= |events| ==> Floor(more, i) == Floor(events, i);
  }

  /** A turn that is not a good event makes the failure final. */
  lemma FailsForGood(c: Check, turns: seq<Turn>, t: Turn, d: Check)
    requires Follows(c, turns) && d.failed
    requires c.failed || !(t.Idle? || t.Received?) || (t.Received? && !Orderly(Events(turns) + [t.event]))
    ensures Follows(d, turns + [t])
  {
    EventsSnoc(turns, t);
    if t.Received? { OrderlySnoc(Events(turns), t.event); }
  }

  class JobManager {
    var status: Status
    var stage: string
    var progress: int
    var sequence: nat
    var error: Error
    var activeJob: Option<nat>
    var metrics: Option<int>

    constructor ()
      ensures status == Ready && activeJob.None? && error == NoError && sequence == 0
    {
      status, stage, progress, sequence, error, activeJob, metrics := Ready, "ready", 100, 0, NoError, None, None;
    }

    /** `_transition_locked`. */
    method Transition(next: Status, at: string, amount: int, problem: Error, clear: bool)
      modifies this
      ensures status == next && stage == at && error == problem && sequence == old(sequence) + 1
      ensures 0 <= progress <= 100 && (0 <= amount <= 100 ==> progress == amount)
      ensures activeJob == (if clear then None else old(activeJob)) && metrics == old(metrics)
    {
      status, stage, error := next, at, problem;
      progress := if amount < 0 then 0 else if amount > 100 then 100 else amount;
      if clear { activeJob := None; }
      sequence := sequence + 1;
    }

    /** `_finish_job`. */
    method Finish(job: nat, next: Status, at: string, amount: int, problem: Error)
      modifies this
      ensures metrics == old(metrics)
      ensures old(activeJob) == Some(job) ==> status == next && error == problem && activeJob.None? && sequence == old(sequence) + 1
      ensures old(activeJob) == Some(job) ==> stage == at && (0 <= amount <= 100 ==> progress == amount)
      ensures old(activeJob) != Some(job) ==> status == old(status) && error == old(error) && activeJob == old(activeJob)
      ensures old(activeJob) != Some(job) ==> stage == old(stage) && progress == old(progress) && sequence == old(sequence)
    {
      if activeJob == Some(job) { Transition(next, at, amount, problem, true); }
    }

    /** The loop body for one event; `raised` when the metrics are refused. */
    method Examine(c: Check, e: WorkerEvent, job: nat, ghost turns: seq<Turn>) returns (d: Check, raised: bool)
      requires Follows(c, turns)
      modifies this
      ensures raised ==> e.kind.Terminal? && !e.kind.valid
      ensures !raised ==> Follows(d, turns + [Received(e)])
      ensures activeJob == old(activeJob) && metrics == old(metrics)
    {
      raised, d := false, c;
      EventsSnoc(turns, Received(e));
      OrderlySnoc(Events(turns), e);
      if e.sequence != c.next { d := d.(failed := true); return; }
      d := d.(next := d.next + 1);
      if e.progress < c.progress { d := d.(failed := true); return; }
      d := d.(progress := e.progress);
      match e.kind
      case Phase(at) =>
        if c.phase >= |PHASES| || at != PHASES[c.phase] { d := d.(failed := true); return; }
        d := d.(phase := d.phase + 1);
        if activeJob == Some(job) { Transition(Running, at, e.progress, NoError, false); }
      case Terminal(found, valid) =>
        d := d.(terminals := d.terminals + 1);
        if c.phase != |PHASES| { d := d.(failed := true); return; }
        if !valid { raised := true; return; }
        d := d.(metrics := Some(found));
    }

    /** The message loop. */
    method Collect(turns: seq<Turn>, job: nat) returns (c: Check, raised: bool)
      modifies this
      ensures !raised ==> Follows(c, turns)
      ensures raised ==> exists i :: 0 <= i < |turns| && turns[i].Received? && turns[i].event.kind.Terminal? && !turns[i].event.kind.valid
      ensures activeJob == old(activeJob) && metrics == old(metrics)
    {
      c, raised := FRESH, false;
      hide Orderly;
      hide Undisturbed;
      assert Follows(c, turns[..0]) by { EmptyFollows(); assert turns[..0] == []; }
      hide Follows;
      for k := 0 to |turns|
        invariant Follows(c, turns[..k]) && activeJob == old(activeJob) && metrics == old(metrics)
      {
        assert turns[..k + 1] == turns[..k] + [turns[k]];
        match turns[k]
        case Received(e) =>
          c, raised := Examine(c, e, job, turns[..k]);
          if raised { return; }
        case Idle =>
          IdleFollows(c, turns[..k]);
        case _ =>
          FailsForGood(c, turns[..k], turns[k], c.(failed := true));
          c := c.(failed := true);
      }
      assert turns[..|turns|] == turns;
    }

    /** `_run_job` from the start of the worker: the outcome of the job. `launched` is
        false when starting the worker raised. */
    method RunJob(job: nat, launched: bool, turns: seq<Turn>, cancelled: bool, returnCode: int)
      requires activeJob == Some(job)
      modifies this
      ensures activeJob.None?
      // success means exactly this, and nothing else is success
      ensures status == Succeeded <==> launched && !cancelled && returnCode == 0 && Complete(turns)
      ensures status == Succeeded ==> error == NoError && stage == "complete" && progress == 100
      ensures status == Succeeded ==> metrics == Some(Events(turns)[|PHASES|].kind.metrics)
      ensures status != Succeeded ==> metrics == old(metrics)
      // and the others are told apart
      ensures status == Cancelled <==> cancelled
      ensures status != Succeeded && status != Cancelled ==> status == Failed && error != NoError
      ensures !launched && !cancelled ==> error == ServerFailure
      ensures launched && !cancelled && NoneRefused(turns) ==>
        error == if returnCode != 0 then WorkerExit else if Complete(turns) then NoError else WorkerProtocol
      ensures error == WorkerExit ==> launched && !cancelled && returnCode != 0
      ensures error == WorkerProtocol ==> launched && !cancelled && returnCode == 0 && !Complete(turns)
    {
      var c, raised := FRESH, true;
      if launched {
        Transition(Running, "worker_started", 1, NoError, false);
        c, raised := Collect(turns, job);
        if raised { RefusedIsIncomplete(turns); } else { CompleteIff(c, turns); }
      }
      hide Complete;
      hide Follows;
      if cancelled {
        Finish(job, Cancelled, "cancelled", progress, NoError);
      } else if raised {
        Finish(job, Failed, "server_failed", progress, ServerFailure);
      } else if returnCode != 0 {
        Finish(job, Failed, "worker_failed", progress, WorkerExit);
      } else if c.failed || c.terminals != 1 || c.metrics.None? {
        Finish(job, Failed, "protocol_failed", progress, WorkerProtocol);
      } else {
        metrics := c.metrics;
        Finish(job, Succeeded, "complete", 100, NoError);
      }
    }
  }

  lemma EmptyFollows()
    ensures Follows(FRESH, [])
  {
  }

  lemma IdleFollows(c: Check, turns: seq<Turn>)
    requires Follows(c, turns)
    ensures Follows(c, turns + [Idle])
  {
    EventsSnoc(turns, Idle);
  }

  /** At the end of the loop, no failure and one result is exactly completeness. */
  lemma CompleteIff(c: Check, turns: seq<Turn>)
    requires Follows(c, turns)
    ensures !c.failed && c.terminals == 1 && c.metrics.Some? <==> Complete(turns)
    ensures Complete(turns) ==> c.metrics == Some(Events(turns)[|PHASES|].kind.metrics)
  {
  }

  /** Refused metrics in any event leave the run incomplete. */
  lemma RefusedIsIncomplete(turns: seq<Turn>)
    requires exists i :: 0 <= i < |turns| && turns[i].Received? && turns[i].event.kind.Terminal? && !turns[i].event.kind.valid
    ensures !Complete(turns)
  {
    var i :| 0 <= i < |turns| && turns[i].Received? && turns[i].event.kind.Terminal? && !turns[i].event.kind.valid;
    EventIsListed(turns, i);
    var j :| 0 <= j < |Events(turns)| && Events(turns)[j] == turns[i].event;
    assert Orderly(Events(turns)) && |Events(turns)| == |PHASES| + 1 ==> j == |PHASES|;
  }

  lemma {:induction false} EventIsListed(turns: seq<Turn>, i: nat)
    requires i < |turns| && turns[i].Received?
    ensures turns[i].event in Events(turns)
  {
    var n := |turns| - 1;
    if i < n {
      EventIsListed(turns[..n], i);
      var j :| 0 <= j < |Events(turns[..n])| && Events(turns[..n])[j] == turns[i].event;
      assert Events(turns)[j] == turns[i].event;
    } else {
      assert Events(turns)[|Events(turns[..n])|] == turns[i].event;
    }
  }
}
