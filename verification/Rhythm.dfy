/** The day/night mode machine of `cogni_flow/rhythm.py`: a table of legal mode
    changes, two lifetime counters, and the locked regions that move them. */
module Rhythm {

  datatype Mode =
    | Inference | Draining | Checkpointing | Evolution
    | Validating | Promoting | RollingBack | SafeMode

  datatype Transition = Transition(source: Mode, target: Mode)

  /** The transition table. */
  predicate Allowed(source: Mode, target: Mode) {
    match source
    case Inference => target == Draining || target == SafeMode
    case Draining => target == Checkpointing || target == Inference || target == SafeMode
    case Checkpointing => target == Evolution || target == RollingBack || target == SafeMode
    case Evolution => target == Validating || target == Inference || target == SafeMode
    case Validating => target == Promoting || target == Evolution || target == RollingBack
    case Promoting => target == Inference || target == RollingBack
    case RollingBack => target == Evolution || target == Inference || target == SafeMode
    case SafeMode => target == Inference
  }

  /** The fields of the controller as one value. */
  datatype Controller = Controller(mode: Mode, requests: int, tasks: int, history: seq<Transition>) {

    predicate CanMove(target: Mode) {
      && Allowed(mode, target)
      && (target == Checkpointing ==> requests == 0)
      && (target == Inference ==> tasks == 0)
    }

    /** One attempted mode change; a refused one raises and changes nothing. */
    function Move(target: Mode): Controller {
      if CanMove(target)
      then this.(mode := target, history := history + [Transition(mode, target)])
      else this
    }

    predicate CanOpenTask() {
      mode == Evolution || mode == Validating || mode == Promoting
    }

    /** First locked region of `enter_evolution`. */
    function RequestNight(): Controller {
      if !CanMove(Draining) then this
      else if requests != 0 then Move(Draining).Move(Inference)
      else Move(Draining).Move(Checkpointing)
    }

    /** Locked region that runs when the checkpoint callback raises. */
    function CheckpointFailed(): Controller {
      if CanMove(RollingBack) then Move(RollingBack).Move(Inference) else this
    }

    function Resume(): Controller {
      if mode == Evolution || mode == Promoting then Move(Inference) else this
    }
  }

  // ------------------------------------------------------------------
  // Interleavings: any number of threads, one locked region at a time.
  // ------------------------------------------------------------------

  /** The controller together with the slots that are open, by thread. */
  datatype World = World(c: Controller, openRequests: multiset<int>, openTasks: multiset<int>)

  datatype Event =
    | MoveTo(target: Mode)
    | OpenRequest(thread: int)
    | CloseRequest(thread: int)
    | OpenTask(thread: int)
    | CloseTask(thread: int)
    | RequestNight
    | CheckpointDone
    | CheckpointFailed
    | Resume

  const START: World := World(Controller(Inference, 0, 0, []), multiset{}, multiset{})

  function Step(w: World, e: Event): World {
    match e
    case MoveTo(t) => w.(c := w.c.Move(t))
    case OpenRequest(i) =>
      if w.c.mode == Inference
      then w.(c := w.c.(requests := w.c.requests + 1), openRequests := w.openRequests + multiset{i})
      else w
    case CloseRequest(i) =>
      if i in w.openRequests
      then w.(c := w.c.(requests := w.c.requests - 1), openRequests := w.openRequests - multiset{i})
      else w
    case OpenTask(i) =>
      if w.c.CanOpenTask()
      then w.(c := w.c.(tasks := w.c.tasks + 1), openTasks := w.openTasks + multiset{i})
      else w
    case CloseTask(i) =>
      if i in w.openTasks
      then w.(c := w.c.(tasks := w.c.tasks - 1), openTasks := w.openTasks - multiset{i})
      else w
    case RequestNight => w.(c := w.c.RequestNight())
    case CheckpointDone => w.(c := w.c.Move(Evolution))
    case CheckpointFailed => w.(c := w.c.CheckpointFailed())
    case Resume => w.(c := w.c.Resume())
  }

  function Run(w: World, events: seq<Event>): World
    decreases |events|
  {
    if events == [] then w else Run(Step(w, events[0]), events[1..])
  }

  /** A history is a walk of the table that leads from `Inference` to `mode`. */
  ghost predicate Walk(history: seq<Transition>, mode: Mode) {
    && (forall i :: 0 <= i < |history| ==> Allowed(history[i].source, history[i].target))
    && (forall i :: 0 < i < |history| ==> history[i - 1].target == history[i].source)
    && (history == [] ==> mode == Inference)
    && (history != [] ==> history[0].source == Inference && history[|history| - 1].target == mode)
  }

  /** Day and night exclude each other. */
  ghost predicate Exclusive(c: Controller) {
    && c.requests >= 0 && c.tasks >= 0
    && !(c.requests > 0 && c.tasks > 0)
    && (c.requests > 0 ==> c.mode == Inference || c.mode == Draining || c.mode == SafeMode)
    && (c.tasks > 0 ==>
          c.mode == Evolution || c.mode == Validating || c.mode == Promoting || c.mode == RollingBack || c.mode == SafeMode)
  }

  ghost predicate Inv(w: World) {
    && Exclusive(w.c)
    && w.c.requests == |w.openRequests|
    && w.c.tasks == |w.openTasks|
    && Walk(w.c.history, w.c.mode)
  }

  lemma MoveKeeps(c: Controller, target: Mode)
    requires Exclusive(c) && Walk(c.history, c.mode)
    ensures Exclusive(c.Move(target)) && Walk(c.Move(target).history, c.Move(target).mode)
  {
  }

  lemma NightKeeps(c: Controller)
    requires Exclusive(c) && Walk(c.history, c.mode)
    ensures Exclusive(c.RequestNight()) && Walk(c.RequestNight().history, c.RequestNight().mode)
    ensures Exclusive(c.CheckpointFailed()) && Walk(c.CheckpointFailed().history, c.CheckpointFailed().mode)
  {
    MoveKeeps(c, Draining);
    MoveKeeps(c.Move(Draining), Inference);
    MoveKeeps(c.Move(Draining), Checkpointing);
    MoveKeeps(c, RollingBack);
    MoveKeeps(c.Move(RollingBack), Inference);
  }

  lemma SlotKeepsInv(w: World, e: Event)
    requires Inv(w)
    requires e.OpenRequest? || e.CloseRequest? || e.OpenTask? || e.CloseTask?
    ensures Inv(Step(w, e))
  {
  }

  lemma StepKeepsInv(w: World, e: Event)
    requires Inv(w)
    ensures Inv(Step(w, e))
  {
    match e
    case MoveTo(t) => MoveKeeps(w.c, t);
    case RequestNight => NightKeeps(w.c);
    case CheckpointDone => MoveKeeps(w.c, Evolution);
    case CheckpointFailed => NightKeeps(w.c);
    case Resume => MoveKeeps(w.c, Inference);
    case _ => SlotKeepsInv(w, e);
  }

  /** Day/night exclusion holds after every interleaving of every number of threads. */
  lemma {:induction false} EveryRunExclusive(w: World, events: seq<Event>)
    requires Inv(w)
    ensures Inv(Run(w, events))
    decreases |events|
  {
    if events != [] {
      StepKeepsInv(w, events[0]);
      EveryRunExclusive(Step(w, events[0]), events[1..]);
    }
  }

  lemma EveryReachableExclusive(events: seq<Event>)
    ensures Inv(Run(START, events))
  {
    EveryRunExclusive(START, events);
  }

  /** The thread's slot is open before every step of the run and after it. */
  ghost predicate HoldsTaskThroughout(w: World, events: seq<Event>, thread: int)
    decreases |events|
  {
    && thread in w.openTasks
    && (events != [] ==> HoldsTaskThroughout(Step(w, events[0]), events[1..], thread))
  }

  /** While one thread keeps an evolution slot open, whatever the others do, no
      inference request starts and the mode never returns to `Inference`. */
  lemma {:induction false} TaskBlocksInference(w: World, events: seq<Event>, thread: int)
    requires Inv(w) && HoldsTaskThroughout(w, events, thread)
    ensures Run(w, events).openRequests <= w.openRequests
    ensures Run(w, events).c.mode != Inference
    decreases |events|
  {
    assert |w.openTasks| > 0 by { assert w.openTasks[thread] > 0; assert w.openTasks != multiset{}; }
    if events != [] {
      StepKeepsInv(w, events[0]);
      TaskBlocksInference(Step(w, events[0]), events[1..], thread);
    }
  }

  /** Every step into a mode comes from where it must: a promotion follows a validation
      inside EVOLUTION, and EVOLUTION is reached from INFERENCE through a checkpoint that
      follows a drain. */
  ghost predicate OrderlyAt(history: seq<Transition>, i: nat)
    requires i < |history|
  {
    && (history[i].target == Promoting ==> i > 0 && history[i - 1] == Transition(Evolution, Validating))
    && (history[i].target == Checkpointing ==> i > 0 && history[i - 1] == Transition(Inference, Draining))
    && (history[i] == Transition(Checkpointing, Evolution) ==>
          i > 1 && history[i - 1] == Transition(Draining, Checkpointing) && history[i - 2] == Transition(Inference, Draining))
    && (history[i].source == Inference ==> history[i].target == Draining || history[i].target == SafeMode)
    && (history[i].source == SafeMode ==> history[i].target == Inference)
  }

  ghost predicate Orderly(history: seq<Transition>) {
    forall i :: 0 <= i < |history| ==> OrderlyAt(history, i)
  }

  lemma EveryHistoryIsOrderly(events: seq<Event>)
    ensures Orderly(Run(START, events).c.history)
  {
    EveryReachableExclusive(events);
    WalkIsOrderly(Run(START, events).c.history, Run(START, events).c.mode);
    hide Run;
  }

  lemma WalkIsOrderly(history: seq<Transition>, mode: Mode)
    requires Walk(history, mode)
    ensures Orderly(history)
  {
    forall i | 0 <= i < |history| ensures OrderlyAt(history, i) {
      assert Allowed(history[i].source, history[i].target);
      if i > 0 {
        assert history[i - 1].target == history[i].source && Allowed(history[i - 1].source, history[i - 1].target);
      }
      if i > 1 {
        assert history[i - 2].target == history[i - 1].source && Allowed(history[i - 2].source, history[i - 2].target);
      }
    }
  }

  /** The mode changes along a path of modes. */
  function Legs(source: Mode, targets: seq<Mode>): seq<Transition>
  {
    seq(|targets|, i requires 0 <= i < |targets| => Transition(if i == 0 then source else targets[i - 1], targets[i]))
  }

  function Arrival(source: Mode, targets: seq<Mode>): Mode {
    if targets == [] then source else targets[|targets| - 1]
  }

  /** The controller went along the path, every change of it recorded; the counters stayed. */
  ghost predicate Travelled(c: Controller, d: Controller, targets: seq<Mode>) {
    && d.mode == Arrival(c.mode, targets)
    && d.history == c.history + Legs(c.mode, targets)
    && d.requests == c.requests && d.tasks == c.tasks
  }

  lemma TravelledNowhere(c: Controller)
    ensures Travelled(c, c, [])
  {
  }

  lemma TravelledThen(c: Controller, d: Controller, e: Controller, p: seq<Mode>, q: seq<Mode>)
    requires Travelled(c, d, p) && Travelled(d, e, q)
    ensures Travelled(c, e, p + q)
    ensures p == [] ==> p + q == q
    ensures |p| == 1 && |q| == 1 ==> p + q == [p[0], q[0]]
  {
    assert Legs(c.mode, p + q) == Legs(c.mode, p) + Legs(d.mode, q);
  }

  /** The path of a request for the night: open requests and a failed checkpoint lead
      back to INFERENCE, an interrupted one stops halfway, and no other mode is left. */
  function NightPath(c: Controller, checkpoint: Ending): seq<Mode> {
    if c.mode != Inference then []
    else if c.requests != 0 then [Draining, Inference]
    else match checkpoint
         case Returned => [Draining, Checkpointing, Evolution]
         case Raised => [Draining, Checkpointing, RollingBack, Inference]
         case Interrupted => [Draining, Checkpointing]
  }

  // ------------------------------------------------------------------
  // The controller itself.
  // ------------------------------------------------------------------

  class RhythmController {
    var mode: Mode
    var activeRequests: int
    var activeEvolutionTasks: int
    var history: seq<Transition>
    /** Number of mode changes that were refused. */
    ghost var refused: nat

    ghost function View(): Controller
      reads this
    {
      Controller(mode, activeRequests, activeEvolutionTasks, history)
    }

    /** What a well-behaved stretch leaves alone. */
    ghost function Counters(): (int, int, nat)
      reads this
    {
      (activeRequests, activeEvolutionTasks, refused)
    }

    constructor ()
      ensures View() == START.c && refused == 0
    {
      mode, activeRequests, activeEvolutionTasks, history := Inference, 0, 0, [];
      refused := 0;
    }

    method TransitionTo(target: Mode) returns (ok: bool)
      modifies this
      ensures ok == old(View().CanMove(target))
      ensures View() == old(View().Move(target))
      ensures Travelled(old(View()), View(), if ok then [target] else [])
      ensures refused == old(refused) + (if ok then 0 else 1)
    {
      ok := Allowed(mode, target)
        && (target == Checkpointing ==> activeRequests == 0)
        && (target == Inference ==> activeEvolutionTasks == 0);
      if ok {
        history := history + [Transition(mode, target)];
        mode := target;
      } else {
        refused := refused + 1;
      }
    }

    method OpenInferenceSlot() returns (ok: bool)
      modifies this
      ensures ok == old(mode == Inference)
      ensures View() == old(Step(World(View(), multiset{}, multiset{}), OpenRequest(0)).c)
      ensures View() == old(View()).(requests := old(activeRequests) + if ok then 1 else 0)
      ensures refused == old(refused)
    {
      ok := mode == Inference;
      if ok { activeRequests := activeRequests + 1; }
    }

    method CloseInferenceSlot()
      modifies this
      ensures View() == old(View()).(requests := old(activeRequests) - 1)
      ensures refused == old(refused)
    {
      activeRequests := activeRequests - 1;
    }

    method OpenEvolutionSlot() returns (ok: bool)
      modifies this
      ensures ok == old(View().CanOpenTask())
      ensures View() == if ok then old(View()).(tasks := old(activeEvolutionTasks) + 1) else old(View())
      ensures refused == old(refused)
    {
      ok := mode == Evolution || mode == Validating || mode == Promoting;
      if ok { activeEvolutionTasks := activeEvolutionTasks + 1; }
    }

    method CloseEvolutionSlot()
      modifies this
      ensures View() == old(View()).(tasks := old(activeEvolutionTasks) - 1)
      ensures refused == old(refused)
    {
      activeEvolutionTasks := activeEvolutionTasks - 1;
    }

    /** How the checkpoint callback ends. `Interrupted` is an exception that is
        not an ordinary `Exception`: the handler does not see it. */
    method EnterEvolution(checkpoint: Ending) returns (ok: bool)
      modifies this
      ensures ok <==> old(mode) == Inference && activeRequests == 0 && checkpoint == Returned
      ensures View() == old(
        var c := View().RequestNight();
        if c.mode != Checkpointing || !View().CanMove(Draining) then c
        else match checkpoint
             case Returned => c.Move(Evolution)
             case Raised => c.CheckpointFailed()
             case Interrupted => c)
      ensures activeRequests == old(activeRequests) && activeEvolutionTasks == old(activeEvolutionTasks)
      ensures old(Exclusive(View())) ==> Travelled(old(View()), View(), NightPath(old(View()), checkpoint))
      ensures old(Exclusive(View())) ==> refused == old(refused) + (if old(mode) == Inference then 0 else 1)
      ensures ok ==> mode == Evolution && refused == old(refused)
      ensures old(Exclusive(View())) ==> Exclusive(View())
    {
      ok := TransitionTo(Draining);
      if !ok { return; }
      if activeRequests != 0 {
        var _ := TransitionTo(Inference);
        return false;
      }
      ok := TransitionTo(Checkpointing);
      match checkpoint
      case Returned =>
        ok := TransitionTo(Evolution);
      case Raised =>
        ok := TransitionTo(RollingBack);
        var _ := TransitionTo(Inference);
        ok := false;
      case Interrupted =>
        ok := false;
    }

    method ResumeInference() returns (ok: bool)
      modifies this
      ensures ok == old((mode == Evolution || mode == Promoting) && activeEvolutionTasks == 0)
      ensures View() == old(View().Resume())
      ensures Travelled(old(View()), View(), if ok then [Inference] else [])
      ensures refused == old(refused) + (if old(mode == Evolution || mode == Promoting) && !ok then 1 else 0)
    {
      if mode != Evolution && mode != Promoting { return false; }
      ok := TransitionTo(Inference);
    }
  }

  /** How a callback of the outside world ends. */
  datatype Ending = Returned | Raised | Interrupted
}
