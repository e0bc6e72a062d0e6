/** The sequential machine that `cogni_os/tensor_service.py` promises to be: one
    worker with a `paused` flag that answers requests in the order of their ids. */
module TensorMachine {

  const INFER := 1
  const PAUSE := 2
  const RESUME := 3
  const STOP := 4

  datatype Status = Ok | Paused | InvalidPayload | InvalidOpcode | WorkerException

  datatype Payload = Payload(numel: nat, finite: bool, data: int)

  const EMPTY := Payload(0, true, 0)

  /** What the module does when it is run on a request: an oracle. */
  datatype Outcome = Output(result: Payload) | NoTensor | Raises

  datatype Request = Request(op: int, id: int, payload: Payload, outcome: Outcome)

  datatype Response = Response(op: int, id: int, result: Payload, status: Status)

  datatype Worker = Worker(paused: bool, stopped: bool)

  predicate IsControl(op: int) {
    op == PAUSE || op == RESUME || op == STOP
  }

  predicate BadControl(r: Request) {
    IsControl(r.op) && r.payload.numel != 0
  }

  /** The flag after the request. */
  function After(w: Worker, r: Request): Worker {
    if BadControl(r) then w
    else if r.op == PAUSE then w.(paused := true)
    else if r.op == RESUME then w.(paused := false)
    else if r.op == STOP then w.(stopped := true)
    else w
  }

  /** The answer to the request. */
  function Respond(w: Worker, r: Request): Response {
    var reply := (result: Payload, status: Status) => Response(r.op, r.id, result, status);
    if BadControl(r) then reply(EMPTY, InvalidPayload)
    else if IsControl(r.op) then reply(EMPTY, Ok)
    else if r.op == INFER then
      if w.paused then reply(EMPTY, Paused)
      else if r.payload.numel == 0 || !r.payload.finite then reply(EMPTY, InvalidPayload)
      else match r.outcome
           case Raises => reply(EMPTY, WorkerException)
           case NoTensor => reply(EMPTY, InvalidPayload)
           case Output(result) => if result.finite then reply(result, Ok) else reply(EMPTY, InvalidPayload)
    else reply(EMPTY, InvalidOpcode)
  }

  /** The machine after the first `k` requests. */
  function WorkerAfter(log: seq<Request>, k: nat): Worker
    requires k <= |log|
  {
    if k == 0 then Worker(false, false) else After(WorkerAfter(log, k - 1), log[k - 1])
  }

  /** What the sequential machine answers to request number `k`. */
  function Answer(log: seq<Request>, k: nat): Response
    requires 1 <= k <= |log|
  {
    Respond(WorkerAfter(log, k - 1), log[k - 1])
  }

  lemma {:induction false} WorkerAfterPrefix(log: seq<Request>, r: Request, k: nat)
    requires k <= |log|
    ensures WorkerAfter(log + [r], k) == WorkerAfter(log, k)
  {
    if k > 0 { WorkerAfterPrefix(log, r, k - 1); }
  }

  /** Later requests do not change earlier answers. */
  lemma AnswerPrefix(log: seq<Request>, r: Request, k: nat)
    requires 1 <= k <= |log|
    ensures Answer(log + [r], k) == Answer(log, k)
  {
    WorkerAfterPrefix(log, r, k - 1);
  }

  /** Request `i` is a `PAUSE` or `RESUME` that the worker accepts. */
  predicate IsSwitch(log: seq<Request>, i: int)
    requires 1 <= i <= |log|
  {
    (log[i - 1].op == PAUSE || log[i - 1].op == RESUME) && log[i - 1].payload.numel == 0
  }

  /** Request `j` is the last accepted switch among the first `k`. */
  ghost predicate LastSwitch(log: seq<Request>, k: nat, j: int)
    requires k <= |log|
  {
    && 1 <= j <= k
    && IsSwitch(log, j)
    && forall i :: j < i <= k ==> !IsSwitch(log, i)
  }

  /** The last accepted switch among the first `k` requests is a `PAUSE`. */
  ghost predicate PausedAt(log: seq<Request>, k: nat)
    requires k <= |log|
  {
    exists j :: LastSwitch(log, k, j) && log[j - 1].op == PAUSE
  }

  /** The flag is decided by the most recent accepted switch alone. */
  lemma {:induction false} PausedIsLastSwitch(log: seq<Request>, k: nat)
    requires k <= |log|
    ensures WorkerAfter(log, k).paused <==> PausedAt(log, k)
  {
    if k > 0 {
      PausedIsLastSwitch(log, k - 1);
      if IsSwitch(log, k) {
        assert LastSwitch(log, k, k);
        assert forall j :: LastSwitch(log, k, j) ==> j == k;
      } else {
        assert !BadControl(log[k - 1]) ==> log[k - 1].op != PAUSE && log[k - 1].op != RESUME;
        assert forall j {:trigger LastSwitch(log, k, j)} {:trigger LastSwitch(log, k - 1, j)} ::
            LastSwitch(log, k, j) <==> LastSwitch(log, k - 1, j);
      }
    }
  }

  /** Request number `k` is for the module: an `INFER` outside a pause, with a finite
      payload that is not empty. */
  ghost predicate ReachesModule(log: seq<Request>, k: nat)
    requires 1 <= k <= |log|
  {
    log[k - 1].op == INFER && !PausedAt(log, k - 1) && log[k - 1].payload.numel > 0 && log[k - 1].payload.finite
  }

  /** An `INFER` is answered by `Paused` exactly if the last accepted switch before it is
      a `PAUSE`; the module's finite output, and nothing else, comes back as a result. */
  lemma InferAnswer(log: seq<Request>, k: nat)
    requires 1 <= k <= |log|
    ensures var r, a := log[k - 1], Answer(log, k);
      && a.op == r.op && a.id == r.id
      && (a.status == Paused <==> r.op == INFER && PausedAt(log, k - 1))
      && (a.result == EMPTY || (ReachesModule(log, k) && r.outcome == Output(a.result)))
      && (ReachesModule(log, k) && r.outcome.Output? && r.outcome.result.finite ==> a.status == Ok && a.result == r.outcome.result)
      && a.result.finite
  {
    PausedIsLastSwitch(log, k - 1);
    hide WorkerAfter;
    hide PausedAt;
  }

  /** When the other statuses are answered. */
  lemma StatusIff(log: seq<Request>, k: nat)
    requires 1 <= k <= |log|
    ensures var r, status := log[k - 1], Answer(log, k).status;
      && (status == InvalidOpcode <==> r.op != INFER && r.op != PAUSE && r.op != RESUME && r.op != STOP)
      && (status == WorkerException <==> ReachesModule(log, k) && r.outcome == Raises)
      && (status == InvalidPayload <==>
            || ((r.op == PAUSE || r.op == RESUME || r.op == STOP) && r.payload.numel > 0)
            || (r.op == INFER && !PausedAt(log, k - 1) && (r.payload.numel == 0 || !r.payload.finite))
            || (ReachesModule(log, k) && (r.outcome == NoTensor || (r.outcome.Output? && !r.outcome.result.finite))))
      && (status == Ok <==>
            || ((r.op == PAUSE || r.op == RESUME || r.op == STOP) && r.payload.numel == 0)
            || (ReachesModule(log, k) && r.outcome.Output? && r.outcome.result.finite))
  {
    PausedIsLastSwitch(log, k - 1);
    hide WorkerAfter;
    hide PausedAt;
  }

  /** Request `i` is a `STOP` that the worker accepts. */
  predicate IsStop(log: seq<Request>, i: int)
    requires 1 <= i <= |log|
  {
    log[i - 1].op == STOP && log[i - 1].payload.numel == 0
  }

  /** The worker is to exit from the first accepted `STOP` on. */
  lemma {:induction false} StoppedIff(log: seq<Request>, k: nat)
    requires k <= |log|
    ensures WorkerAfter(log, k).stopped <==> exists i :: 1 <= i <= k && IsStop(log, i)
  {
    if k > 0 {
      StoppedIff(log, k - 1);
      if IsStop(log, k) { assert WorkerAfter(log, k).stopped; }
    }
  }
}
