/** `ProductionSelfHarness.start` of `cogni_flow/production.py`, and a whole
    lifetime of a machine: start, nights, a crash at any disk step, start again. */
module Startup {
  import opened Basics
  import opened Disk
  import opened Journal
  import opened BackupJournal
  import opened Rhythm
  import opened Promotion
  import opened NightCycle

  datatype Boot = Running | Refused

  class ProductionSelfHarness {
    const rhythm: RhythmController
    const journal: BackupJournal
    const fs: FileSystem

    constructor (harness: SelfHarness)
      ensures rhythm == harness.patcher.rhythm && journal == harness.patcher.journal && fs == journal.fs
    {
      rhythm, journal, fs := harness.patcher.rhythm, harness.patcher.journal, harness.patcher.journal.fs;
    }

    ghost predicate Ready()
      reads this, journal, journal.fs
    {
      fs == journal.fs && journal.Ready()
    }

    /** Daytime, and nobody is asking. */
    ghost predicate AtRest()
      reads this, rhythm
    {
      rhythm.mode == Inference && rhythm.activeRequests == 0 && rhythm.activeEvolutionTasks == 0
    }

    /** Recovery under an evolution slot; `audit` is how its audit write ends. */
    method Recover(audit: Ending) returns (ok: bool, ghost order: seq<Id>)
      requires Ready() && rhythm.mode == Evolution && rhythm.activeEvolutionTasks == 0
      modifies rhythm, fs
      ensures Ready() && Kept(old(fs.trace), fs.trace, journal.limits) && Quiet(old(fs.trace), fs.trace, journal.limits)
      ensures rhythm.activeEvolutionTasks == 0 && rhythm.refused == old(rhythm.refused)
      ensures rhythm.activeRequests == old(rhythm.activeRequests)
      ensures rhythm.mode == Inference || rhythm.mode == SafeMode
      ensures rhythm.mode == Inference ==> NonePrepared(fs.View()) && (ok <==> audit == Returned)
      ensures rhythm.mode == Inference && old(Sound(fs.View(), journal.limits)) ==> fs.live == old(Settled(fs.View()))
      ensures ok ==> rhythm.mode == Inference
      ensures fs.reliable && old(Sound(fs.View(), journal.limits)) ==> rhythm.mode == Inference
      ensures Travelled(old(rhythm.View()), rhythm.View(), [if rhythm.mode == Inference then Inference else SafeMode])
      ensures rhythm.mode == Inference ==> AllRecovered(order, old(fs.View()), fs.View())
      ensures fs.reliable ==> Listing(order, old(fs.meta)) && (rhythm.mode == Inference <==> Recoverable(order, old(fs.View())))
    {
      hide Kept;
      hide Quiet;
      hide Backed;
      hide Sound;
      hide Settled;
      hide NonePrepared;
      hide Listing;
      hide Recoverable;
      var _ := rhythm.OpenEvolutionSlot();
      ok, order := journal.RecoverIncomplete();
      rhythm.CloseEvolutionSlot();
      if ok {
        assert NonePrepared(fs.View());
        var _ := rhythm.ResumeInference();
        ok := audit == Returned;
      } else {
        var _ := rhythm.TransitionTo(SafeMode);
      }
    }

    /** Whether a record is still prepared. */
    method AnyPrepared() returns (ok: bool, prepared: bool)
      requires Ready()
      ensures ok ==> (prepared <==> !NonePrepared(fs.View()))
      ensures fs.reliable ==> ok
      ensures ok && !prepared ==> fs.live == Settled(fs.View())
    {
      if NonePrepared(fs.View()) { NothingToRecover(fs.View()); }
      hide Backed;
      hide Settled;
      var ids;
      ok, ids := journal.Records();
      prepared := exists i :: 0 <= i < |ids| && ids[i] in fs.meta && fs.meta[ids[i]].status == Prepared;
    }

    /** The part of `start` for a journal with open records. */
    method Restart(checkpoint: Ending, audit: Ending) returns (boot: Boot, ghost order: seq<Id>)
      requires Ready() && Exclusive(rhythm.View()) && !NonePrepared(fs.View())
      modifies rhythm, fs
      ensures Ready() && Kept(old(fs.trace), fs.trace, journal.limits) && Quiet(old(fs.trace), fs.trace, journal.limits)
      ensures rhythm.activeEvolutionTasks == old(rhythm.activeEvolutionTasks)
      ensures boot == Running ==> NonePrepared(fs.View())
      ensures boot == Running ==> rhythm.mode == old(rhythm.mode) && rhythm.activeRequests == old(rhythm.activeRequests)
      ensures boot == Running && old(Sound(fs.View(), journal.limits)) ==> fs.live == old(Settled(fs.View()))
      ensures Booted(old(rhythm.View()), old(fs.View()), rhythm.View(), fs.View(), checkpoint, audit, boot, order, fs.reliable)
      ensures boot == Refused && fs.View() != old(fs.View()) ==> rhythm.mode == SafeMode || NonePrepared(fs.View())
      ensures fs.reliable && old(Sound(fs.View(), journal.limits)) && old(AtRest()) && checkpoint == Returned && audit == Returned ==> boot == Running
    {
      ghost var from, d, t := rhythm.View(), fs.View(), fs.trace;
      Nothing(t, journal.limits);
      hide Kept;
      hide Quiet;
      hide Backed;
      hide Sound;
      hide Settled;
      hide NonePrepared;
      hide Recoverable;
      hide Listing;
      hide AllRecovered;
      hide Travelled;
      hide Booted;
      order := [];
      var entered := rhythm.EnterEvolution(checkpoint);
      if !entered {
        BarredIsBooted(from, d, rhythm.View(), checkpoint, audit, order, fs.reliable);
        return Refused, order;
      }
      ghost var midway := rhythm.View();
      var ok;
      ok, order := Recover(audit);
      boot := if ok then Running else Refused;
      RecoveredIsBooted(from, d, midway, rhythm.View(), fs.View(), checkpoint, audit, ok, order, fs.reliable);
    }

    /** `start`, as far as the journal and the mode go. */
    method Start(checkpoint: Ending, audit: Ending) returns (boot: Boot, ghost order: seq<Id>)
      requires Ready() && Exclusive(rhythm.View())
      modifies rhythm, fs
      ensures Ready() && Kept(old(fs.trace), fs.trace, journal.limits) && Quiet(old(fs.trace), fs.trace, journal.limits)
      ensures rhythm.activeEvolutionTasks == old(rhythm.activeEvolutionTasks)
      ensures boot == Running ==> NonePrepared(fs.View())
      ensures boot == Running ==> rhythm.mode == old(rhythm.mode) && rhythm.activeRequests == old(rhythm.activeRequests)
      ensures boot == Running && old(Sound(fs.View(), journal.limits)) ==> fs.live == old(Settled(fs.View()))
      ensures Booted(old(rhythm.View()), old(fs.View()), rhythm.View(), fs.View(), checkpoint, audit, boot, order, fs.reliable)
      // whatever fails, a night with an open record is never left behind as a day
      ensures boot == Refused && fs.View() != old(fs.View()) ==> rhythm.mode == SafeMode || NonePrepared(fs.View())
      ensures fs.reliable && old(Sound(fs.View(), journal.limits)) && old(AtRest()) && checkpoint == Returned && audit == Returned ==> boot == Running
    {
      Nothing(fs.trace, journal.limits);
      hide Kept;
      hide Quiet;
      hide Backed;
      hide Sound;
      hide Settled;
      hide NonePrepared;
      hide Recoverable;
      hide Listing;
      hide AllRecovered;
      hide Travelled;
      order := [];
      var ok, prepared := AnyPrepared();
      if !ok { return Refused, order; }
      if prepared {
        boot, order := Restart(checkpoint, audit);
      } else {
        boot := Running;
      }
    }
  }

  /** The five ways of a start. On a working disk exactly one of them is open: nothing to
      do, no way into the night, recovery and back to the day, or into safe mode. */
  ghost predicate Booted(from: Controller, d: Disk, to: Controller, e: Disk, checkpoint: Ending, audit: Ending, boot: Boot,
                         order: seq<Id>, reliable: bool)
  {
    || (boot == Refused && to == from && e == d && !reliable)
    || (boot == Running && to == from && e == d && NonePrepared(d))
    || (!NonePrepared(d) && boot == Refused && e == d
        && !CanEnter(from, checkpoint) && Travelled(from, to, NightPath(from, checkpoint)))
    || (!NonePrepared(d) && CanEnter(from, checkpoint) && AllRecovered(order, d, e)
        && Travelled(from, to, [Draining, Checkpointing, Mode.Evolution, Inference]) && (boot == Running <==> audit == Returned))
    || (!NonePrepared(d) && CanEnter(from, checkpoint) && boot == Refused
        && Travelled(from, to, [Draining, Checkpointing, Mode.Evolution, SafeMode])
        && (reliable ==> Listing(order, d.meta) && !Recoverable(order, d)))
  }

  lemma BarredIsBooted(from: Controller, d: Disk, to: Controller, checkpoint: Ending, audit: Ending, order: seq<Id>, reliable: bool)
    requires !NonePrepared(d) && !CanEnter(from, checkpoint) && Travelled(from, to, NightPath(from, checkpoint))
    ensures Booted(from, d, to, d, checkpoint, audit, Refused, order, reliable)
  {
    hide NonePrepared;
    hide Travelled;
  }

  lemma RecoveredIsBooted(from: Controller, d: Disk, midway: Controller, to: Controller, e: Disk, checkpoint: Ending, audit: Ending, ok: bool,
                          order: seq<Id>, reliable: bool)
    requires !NonePrepared(d) && CanEnter(from, checkpoint) && Travelled(from, midway, NightPath(from, checkpoint))
    requires Travelled(midway, to, [if to.mode == Inference then Inference else SafeMode])
    requires if to.mode == Inference then AllRecovered(order, d, e) && (ok <==> audit == Returned) else !ok
    requires reliable ==> Listing(order, d.meta) && (to.mode == Inference <==> Recoverable(order, d))
    ensures Booted(from, d, to, e, checkpoint, audit, if ok then Running else Refused, order, reliable)
  {
    TravelledThen(from, midway, to, NightPath(from, checkpoint), [if to.mode == Inference then Inference else SafeMode]);
    hide NonePrepared;
    hide Travelled;
    hide AllRecovered;
    hide Listing;
    hide Recoverable;
  }

  predicate CanEnter(from: Controller, checkpoint: Ending) {
    from.mode == Inference && from.requests == 0 && checkpoint == Returned
  }

  // ------------------------------------------------------------------
  // A lifetime
  // ------------------------------------------------------------------

  /** The power fails in stage `at` of a session, `steps` disk steps after the stage began. */
  datatype Cut = Cut(at: nat, steps: nat)

  /** One session of the machine: how its start goes, what its nights bring, and
      where it is cut off. */
  datatype Session = Session(checkpoint: Ending, audit: Ending, reliable: bool, nights: seq<Night>, cut: Option<Cut>)

  /** What a stage is: a start; or a night, the mode and counters that it found, what it
      came to, and the proposal that it may have installed. `to` is what it left. */
  datatype Course =
    | AStart(running: bool, to: Controller)
    | ANight(night: Night, from: Controller, exit: Exit, p: Proposal, to: Controller)

  /** The traces at the beginning and at the end of a stage, and the disk that is left of it. */
  datatype Stage = Stage(before: seq<Disk>, after: seq<Disk>, end: Disk, setup: Setup, course: Course)

  /** What starts and nights guarantee. */
  ghost predicate Possible(s: Stage) {
    && s.before != [] && s.before <= s.after
    && (exists n :: |s.before| - 1 <= n < |s.after| && s.after[n] == s.end)
    && match s.course
       case AStart(running, to) => Started(s.setup, s.before, s.after, running, to)
       case ANight(night, from, exit, p, to) => Slept(s.setup, s.before, s.after, night, from, exit, p, to)
  }

  /** A start changes nothing that recovery would deliver; if it succeeds, nothing is
      open any more and what had to be delivered is live. */
  ghost predicate Started(setup: Setup, a: seq<Disk>, b: seq<Disk>, running: bool, to: Controller) {
    && a != [] && b != [] && Kept(a, b, setup.lim) && Quiet(a, b, setup.lim)
    && (running ==> NonePrepared(b[|b| - 1]) && to.mode == Inference && to.requests == 0 && to.tasks == 0)
    && (running && Sound(a[|a| - 1], setup.lim) ==> b[|b| - 1].live == Settled(a[|a| - 1]))
  }

  /** Where the power fails in a stage, as a place in the trace: after so many disk steps,
      or at the end of the stage if it has fewer or the power does not fail in it. */
  function CutPlace(session: Session, i: nat, begin: nat, size: nat): (n: nat)
    requires begin < size
    ensures begin <= n < size
  {
    if session.cut.Some? && session.cut.value.at == i && begin + session.cut.value.steps < size
    then begin + session.cut.value.steps
    else size - 1
  }

  /** The stage left the disk at this place. */
  ghost predicate Ends(session: Session, i: nat, s: Stage) {
    0 < |s.before| <= |s.after| && s.end == s.after[CutPlace(session, i, |s.before| - 1, |s.after|)]
  }

  /** Stage `i` begins on `disks[i]`; the disk at its end is where the next one begins. */
  ghost predicate Lived(disks: seq<Disk>, stages: seq<Stage>, lim: Limits) {
    && |disks| == |stages| + 1
    && forall i {:trigger stages[i]} :: 0 <= i < |stages| ==> Leads(disks[i], stages[i], disks[i + 1], lim)
  }

  ghost predicate Leads(d: Disk, s: Stage, e: Disk, lim: Limits) {
    Possible(s) && s.setup.lim == lim && s.before[|s.before| - 1] == d && s.end == e
  }

  /** No night of these stages has a candidate for a file on which a promotion is open. */
  ghost predicate AllClear(stages: seq<Stage>) {
    forall i :: 0 <= i < |stages| ==> ClearStage(stages[i])
  }

  ghost predicate ClearStage(s: Stage) {
    s.course.ANight? && s.before != [] ==> Clear(s.before[|s.before| - 1], s.course.night.clusters)
  }

  /** The stage is no night with an exception inside its `try` on a disk whose steps may fail. */
  predicate Mild(s: Stage) {
    s.course.ANight? && s.course.exit.RaisedInside? ==> s.setup.reliable
  }

  predicate Smooth(stages: seq<Stage>) {
    forall i :: 0 <= i < |stages| ==> Mild(stages[i])
  }

  /** The files stayed, or one of them took the content of a candidate of this night. */
  ghost predicate Evolved(a: map<Path, Bytes>, b: map<Path, Bytes>, s: Stage) {
    a == b || (s.course.ANight? && Named(s.course.p, s.course.night.clusters) && b == a[s.course.p.path := s.course.p.replacement])
  }

  /** One stage, at whatever disk it was cut off. */
  lemma StageEvolves(s: Stage)
    requires Possible(s) && ClearStage(s) && Sound(s.before[|s.before| - 1], s.setup.lim)
    ensures Sound(s.end, s.setup.lim)
    ensures Evolved(Settled(s.before[|s.before| - 1]), Settled(s.end), s)
  {
    hide Backed;
    hide Decided;
    hide Settled;
    hide Named;
    hide Clear;
    hide OneFile;
    hide NoneOpened;
    var n :| |s.before| - 1 <= n < |s.after| && s.after[n] == s.end;
    if n == |s.before| - 1 { assert s.end == s.before[n]; }
  }

  /** The stages `stages` take the machine from `d` to `e`, and those of session `k`
      are `stages[starts[k]..starts[k + 1]]`: a start, and then its nights in order. */
  ghost predicate Sessions(starts: seq<nat>, stages: seq<Stage>, sessions: seq<Session>) {
    && |starts| == |sessions| + 1 && starts[0] == 0 && starts[|sessions|] == |stages|
    && forall k :: 0 <= k < |sessions| ==> Part(starts, stages, sessions, k)
  }

  ghost predicate Part(starts: seq<nat>, stages: seq<Stage>, sessions: seq<Session>, k: int)
    requires 0 <= k < |sessions| && |starts| == |sessions| + 1
  {
    starts[k] <= starts[k + 1] <= |stages| && Follows(stages[starts[k]..starts[k + 1]], sessions[k])
  }

  /** The beginning of a session: a start, and if it succeeds the nights in order, each
      with the mode and counters that the stage before it left; the power fails in none
      but the last. */
  ghost predicate Going(stages: seq<Stage>, session: Session) {
    && 1 <= |stages| <= 1 + |session.nights|
    && stages[0].course.AStart? && (|stages| > 1 ==> stages[0].course.running)
    && (forall i :: 1 <= i < |stages| ==> stages[i].course.ANight? && stages[i].course.night == session.nights[i - 1])
    && (forall i :: 1 <= i < |stages| ==> stages[i].course.from == stages[i - 1].course.to)
    && (forall i :: 0 <= i < |stages| ==> Ends(session, i, stages[i]))
    && (forall i :: 0 <= i < |stages| - 1 ==> Cutless(session, i))
    && (forall i :: 0 <= i < |stages| ==> stages[i].setup.reliable == session.reliable)
    && (forall i :: 0 <= i < |stages| && Smooth(stages[..i]) ==> ClearStage(stages[i]))
  }

  /** A whole session: all its nights, unless the start is refused or the power fails;
      from a sound disk and with nothing raising, the start is not refused. */
  ghost predicate Follows(stages: seq<Stage>, session: Session) {
    && Going(stages, session)
    && (|stages| < 1 + |session.nights| ==> !stages[0].course.running || !Cutless(session, |stages| - 1))
    && (session.reliable && session.checkpoint == Returned && session.audit == Returned && FromSound(stages[0]) ==> stages[0].course.running)
  }

  ghost predicate FromSound(s: Stage) {
    s.before != [] && Sound(s.before[|s.before| - 1], s.setup.lim)
  }

  predicate Cutless(session: Session, i: int) {
    session.cut.Some? ==> session.cut.value.at != i
  }

  lemma KeptGrows(a: seq<Disk>, b: seq<Disk>, lim: Limits)
    requires Kept(a, b, lim)
    ensures a != [] && a <= b
  {
  }

  lemma SleptKeeps(setup: Setup, a: seq<Disk>, b: seq<Disk>, night: Night, from: Controller, exit: Exit, p: Proposal, to: Controller)
    requires Slept(setup, a, b, night, from, exit, p, to)
    ensures a != [] && b != [] && Kept(a, b, setup.lim)
    ensures (exit.RaisedInside? ==> setup.reliable) && NonePrepared(a[|a| - 1]) ==> NonePrepared(b[|b| - 1])
  {
  }

  /** With nothing open, every night is clear. */
  lemma NothingOpenIsClear(d: Disk, clusters: seq<Cluster>)
    requires NonePrepared(d)
    ensures Clear(d, clusters)
  {
  }

  /** A backed disk stays backed wherever a stage is cut off. */
  lemma CutIsBacked(a: seq<Disk>, b: seq<Disk>, e: Disk, lim: Limits)
    requires Kept(a, b, lim) && Backed(a[|a| - 1], lim)
    requires exists n :: |a| - 1 <= n < |b| && b[n] == e
    ensures Backed(e, lim)
  {
    var n :| |a| - 1 <= n < |b| && b[n] == e;
    if n == |a| - 1 { assert b[n] == a[n]; }
  }

  /** One night as a stage. */
  method RunNight(harness: SelfHarness, session: Session, i: nat) returns (e: Disk, ghost stage: Stage)
    requires harness.Ready() && Exclusive(harness.rhythm.View()) && 1 <= i <= |session.nights|
    modifies harness.rhythm, harness.fs
    ensures harness.Ready() && Exclusive(harness.rhythm.View())
    ensures Possible(stage) && stage.course.ANight? && stage.course.night == session.nights[i - 1] && stage.setup == harness.Setting()
    ensures stage.course.from == old(harness.rhythm.View()) && stage.course.to == harness.rhythm.View()
    ensures stage.before == old(harness.fs.trace) && stage.after == harness.fs.trace && stage.end == e
    ensures Ends(session, i, stage) && (Cutless(session, i) ==> e == harness.fs.View())
    ensures Mild(stage) && old(NonePrepared(harness.fs.View())) ==> NonePrepared(harness.fs.View())
  {
    hide Kept;
    hide Quiet;
    hide Backed;
    hide Slept;
    hide NonePrepared;
    ghost var before, c := harness.fs.trace, harness.rhythm.View();
    var begin := |harness.fs.trace| - 1;
    var exit;
    ghost var p;
    exit, p := harness.RunNightCycle(session.nights[i - 1]);
    SleptKeeps(harness.Setting(), before, harness.fs.trace, session.nights[i - 1], c, exit, p, harness.rhythm.View());
    KeptGrows(before, harness.fs.trace, harness.patcher.journal.limits);
    e := harness.fs.trace[CutPlace(session, i, begin, |harness.fs.trace|)];
    stage := Stage(before, harness.fs.trace, e, harness.Setting(), ANight(session.nights[i - 1], c, exit, p, harness.rhythm.View()));
  }

  /** The start of a session as a stage. */
  method RunStart(harness: SelfHarness, session: Session) returns (boot: Boot, e: Disk, ghost stage: Stage)
    requires harness.Ready() && harness.rhythm.View() == Rhythm.START.c
    modifies harness.rhythm, harness.fs
    ensures harness.Ready() && (boot == Running ==> Exclusive(harness.rhythm.View()))
    ensures Possible(stage) && stage.course == AStart(boot == Running, harness.rhythm.View()) && stage.setup == harness.Setting()
    ensures stage.before == old(harness.fs.trace) && stage.after == harness.fs.trace && stage.end == e
    ensures Ends(session, 0, stage) && (Cutless(session, 0) ==> e == harness.fs.View())
    ensures boot == Running ==> NonePrepared(harness.fs.View())
    ensures harness.fs.reliable && old(Sound(harness.fs.View(), harness.patcher.journal.limits)) && session.checkpoint == Returned && session.audit == Returned ==>
      boot == Running
  {
    hide Kept;
    hide Quiet;
    hide Backed;
    hide Sound;
    hide Settled;
    hide NonePrepared;
    ghost var before := harness.fs.trace;
    var begin := |harness.fs.trace| - 1;
    var production := new ProductionSelfHarness(harness);
    ghost var order;
    boot, order := production.Start(session.checkpoint, session.audit);
    KeptGrows(before, harness.fs.trace, harness.patcher.journal.limits);
    e := harness.fs.trace[CutPlace(session, 0, begin, |harness.fs.trace|)];
    stage := Stage(before, harness.fs.trace, e, harness.Setting(), AStart(boot == Running, harness.rhythm.View()));
  }

  /** A machine that comes up on a disk. */
  method PowerOn(d: Disk, lim: Limits, proposalOnly: bool, reliable: bool) returns (harness: SelfHarness)
    requires Backed(d, lim)
    ensures fresh(harness) && fresh(harness.fs) && fresh(harness.rhythm) && harness.Ready()
    ensures harness.fs.View() == d && harness.fs.trace == [d] && harness.rhythm.View() == Rhythm.START.c
    ensures harness.Setting() == Setup(lim, proposalOnly, reliable)
  {
    var fs := new FileSystem(d, reliable);
    var journal := new BackupJournal(fs, lim);
    var rhythm := new RhythmController();
    var patcher := new JournaledHarnessPatcher(rhythm, journal);
    harness := new SelfHarness(patcher, proposalOnly);
  }

  lemma LivedStart(d: Disk, stage: Stage, lim: Limits)
    requires Possible(stage) && stage.setup.lim == lim && stage.before == [d]
    ensures Lived([d, stage.end], [stage], lim)
  {
  }

  lemma LivedSnoc(disks: seq<Disk>, stages: seq<Stage>, stage: Stage, lim: Limits)
    requires Lived(disks, stages, lim) && Possible(stage) && stage.setup.lim == lim
    requires stage.before[|stage.before| - 1] == disks[|stages|]
    ensures Lived(disks + [stage.end], stages + [stage], lim)
  {
    hide Possible;
  }

  lemma GoingSnoc(stages: seq<Stage>, stage: Stage, session: Session)
    requires Going(stages, session) && |stages| <= |session.nights| && stages[0].course.running && Cutless(session, |stages| - 1)
    requires stage.course.ANight? && stage.course.night == session.nights[|stages| - 1] && stage.setup.reliable == session.reliable
    requires Ends(session, |stages|, stage) && stage.course.from == stages[|stages| - 1].course.to
    requires Smooth(stages) ==> ClearStage(stage)
    ensures Going(stages + [stage], session)
  {
    hide Ends;
    hide ClearStage;
    hide Mild;
    forall i | 0 <= i < |stages + [stage]| && Smooth((stages + [stage])[..i]) ensures ClearStage((stages + [stage])[i]) {
      assert (stages + [stage])[..i] == stages[..i];
      if i == |stages| { assert stages[..i] == stages; }
    }
  }

  lemma GoingStart(stage: Stage, session: Session)
    requires stage.course.AStart? && Ends(session, 0, stage) && stage.setup.reliable == session.reliable
    ensures Going([stage], session)
  {
    hide Ends;
  }

  /** Every stage leaves a backed disk. */
  lemma {:induction false} LivedIsBacked(disks: seq<Disk>, stages: seq<Stage>, lim: Limits, n: nat)
    requires Lived(disks, stages, lim) && Backed(disks[0], lim) && n <= |stages|
    ensures Backed(disks[n], lim)
  {
    if n > 0 {
      LivedIsBacked(disks, stages, lim, n - 1);
      StageIsBacked(stages[n - 1], lim);
    }
    hide Possible;
    hide Backed;
  }

  lemma StageIsBacked(s: Stage, lim: Limits)
    requires Possible(s) && s.setup.lim == lim && Backed(s.before[|s.before| - 1], lim)
    ensures Backed(s.end, lim)
  {
    CutIsBacked(s.before, s.after, s.end, lim);
    hide Quiet;
    hide CrashSafe;
  }

  /** What holds between two stages of a session: the stages so far, and the machine. */
  ghost predicate Between(disks: seq<Disk>, stages: seq<Stage>, session: Session, k: nat, setup: Setup, now: Disk, trace: seq<Disk>, at: Controller) {
    && |stages| == k + 1 && k <= |session.nights|
    && Lived(disks, stages, setup.lim) && Going(stages, session)
    && setup.reliable == session.reliable && trace != [] && trace[|trace| - 1] == now
    && stages[0].course.running && stages[k].course.to == at
    && (Cutless(session, k) ==> disks[k + 1] == now)
    && (Smooth(stages) ==> NonePrepared(now))
  }

  lemma SmoothSnoc(stages: seq<Stage>, stage: Stage)
    ensures Smooth(stages + [stage]) ==> Smooth(stages) && Mild(stage)
  {
    hide Mild;
    if Smooth(stages + [stage]) {
      assert (stages + [stage])[|stages|] == stage;
      forall i | 0 <= i < |stages| ensures Mild(stages[i]) { assert (stages + [stage])[i] == stages[i]; }
    }
  }

  lemma BetweenSnoc(disks: seq<Disk>, stages: seq<Stage>, session: Session, k: nat, setup: Setup, now: Disk, trace: seq<Disk>, at: Controller, stage: Stage, next: Disk)
    requires Between(disks, stages, session, k, setup, now, trace, at) && k < |session.nights| && Cutless(session, k)
    requires Possible(stage) && stage.setup == setup && stage.before == trace && stage.after != [] && stage.after[|stage.after| - 1] == next
    requires stage.course.ANight? && stage.course.night == session.nights[k]
    requires Ends(session, k + 1, stage) && stage.course.from == at
    requires Mild(stage) && NonePrepared(now) ==> NonePrepared(next)
    ensures Between(disks + [stage.end], stages + [stage], session, k + 1, setup, next, stage.after, stage.course.to)
  {
    hide Lived;
    hide Going;
    hide NonePrepared;
    hide Possible;
    BetweenMeans(disks, stages, session, k, setup, now, trace, at);
    if Smooth(stages) { NothingOpenIsClear(now, stage.course.night.clusters); }
    assert Smooth(stages) ==> ClearStage(stage);
    SmoothSnoc(stages, stage);
    assert Cutless(session, k + 1) ==> stage.end == next;
    hide ClearStage;
    hide Mild;
    hide Smooth;
    hide Ends;
    LivedSnoc(disks, stages, stage, setup.lim);
    GoingSnoc(stages, stage, session);
    assert (disks + [stage.end])[k + 2] == stage.end;
  }

  lemma BetweenStart(d: Disk, stage: Stage, session: Session, setup: Setup, now: Disk, at: Controller)
    requires Possible(stage) && stage.setup == setup && stage.before == [d] && stage.after != [] && stage.after[|stage.after| - 1] == now
    requires stage.course == AStart(true, at) && Ends(session, 0, stage)
    requires setup.reliable == session.reliable && NonePrepared(now)
    ensures Between([d, stage.end], [stage], session, 0, setup, now, stage.after, at)
  {
    LivedStart(d, stage, setup.lim);
    GoingStart(stage, session);
    hide Lived;
    hide Going;
    hide Possible;
    hide NonePrepared;
  }

  lemma BetweenMeans(disks: seq<Disk>, stages: seq<Stage>, session: Session, k: nat, setup: Setup, now: Disk, trace: seq<Disk>, at: Controller)
    requires Between(disks, stages, session, k, setup, now, trace, at)
    ensures |stages| == k + 1 <= 1 + |session.nights| && |disks| == k + 2
    ensures Lived(disks, stages, setup.lim) && Going(stages, session) && stages[0].course.AStart? && stages[0].course.running
  {
    hide Possible;
    hide AllClear;
    hide NonePrepared;
  }

  /** One more night. */
  method NextNight(harness: SelfHarness, session: Session, k: nat, ghost disks0: seq<Disk>, ghost stages0: seq<Stage>)
    returns (e: Disk, ghost disks: seq<Disk>, ghost stages: seq<Stage>)
    requires harness.Ready() && Exclusive(harness.rhythm.View())
    requires Between(disks0, stages0, session, k, harness.Setting(), harness.fs.View(), harness.fs.trace, harness.rhythm.View())
    requires k < |session.nights| && Cutless(session, k)
    modifies harness.rhythm, harness.fs
    ensures harness.Ready() && Exclusive(harness.rhythm.View())
    ensures Between(disks, stages, session, k + 1, harness.Setting(), harness.fs.View(), harness.fs.trace, harness.rhythm.View())
    ensures disks == disks0 + [e] && |stages0| > 0 && stages0 <= stages
  {
    hide Between;
    hide Possible;
    hide Ends;
    hide Lived;
    hide Going;
    hide NonePrepared;
    hide Mild;
    hide Cutless;
    hide Backed;
    ghost var now, trace, setup, at := harness.fs.View(), harness.fs.trace, harness.Setting(), harness.rhythm.View();
    BetweenMeans(disks0, stages0, session, k, setup, now, trace, at);
    ghost var night;
    e, night := RunNight(harness, session, k + 1);
    disks, stages := disks0 + [e], stages0 + [night];
    harness.patcher.LastIsView();
    BetweenSnoc(disks0, stages0, session, k, setup, now, trace, at, night, harness.fs.View());
  }

  /** The nights of a session, up to its end or to the failure of the power. */
  method RunNights(harness: SelfHarness, session: Session, e0: Disk, ghost disks0: seq<Disk>, ghost stages0: seq<Stage>)
    returns (e: Disk, ghost stages: seq<Stage>, ghost disks: seq<Disk>, k: nat)
    requires harness.Ready() && Exclusive(harness.rhythm.View())
    requires Between(disks0, stages0, session, 0, harness.Setting(), harness.fs.View(), harness.fs.trace, harness.rhythm.View()) && disks0[1] == e0
    modifies harness.rhythm, harness.fs
    ensures disks0 <= disks && stages0 <= stages && |disks| > 0 && disks[|disks| - 1] == e
    ensures Between(disks, stages, session, k, harness.Setting(), harness.fs.View(), harness.fs.trace, harness.rhythm.View()) && (k == |session.nights| || !Cutless(session, k))
  {
    hide Between;
    hide Lived;
    hide Going;
    hide Cutless;
    hide Backed;
    hide Exclusive;
    e, stages, disks := e0, stages0, disks0;
    BetweenMeans(disks, stages, session, 0, harness.Setting(), harness.fs.View(), harness.fs.trace, harness.rhythm.View());
    k := 0;
    while k < |session.nights| && Cutless(session, k)
      invariant k <= |session.nights| && harness.Ready() && Exclusive(harness.rhythm.View())
      invariant Between(disks, stages, session, k, harness.Setting(), harness.fs.View(), harness.fs.trace, harness.rhythm.View())
      invariant stages0 <= stages && disks0 <= disks && |disks| > 0 && disks[|disks| - 1] == e
    {
      e, disks, stages := NextNight(harness, session, k, disks, stages);
      k := k + 1;
    }
  }

  /** The stages of a session whose nights were run. */
  lemma BetweenFollows(disks: seq<Disk>, stages: seq<Stage>, session: Session, k: nat, setup: Setup, now: Disk, trace: seq<Disk>, at: Controller)
    requires Between(disks, stages, session, k, setup, now, trace, at) && (k == |session.nights| || !Cutless(session, k))
    ensures Follows(stages, session) && Lived(disks, stages, setup.lim)
  {
    BetweenMeans(disks, stages, session, k, setup, now, trace, at);
    hide Going;
    hide Lived;
    hide FromSound;
  }

  /** One session, up to its end or to the failure of the power. */
  method RunSession(d: Disk, lim: Limits, proposalOnly: bool, session: Session)
    returns (e: Disk, ghost stages: seq<Stage>, ghost disks: seq<Disk>)
    requires Backed(d, lim)
    ensures Lived(disks, stages, lim) && disks[0] == d && disks[|stages|] == e && Backed(e, lim)
    ensures Follows(stages, session)
  {
    hide Backed;
    hide Possible;
    hide Ends;
    hide Between;
    hide Sound;
    hide NonePrepared;
    var harness := PowerOn(d, lim, proposalOnly, session.reliable);
    var boot;
    ghost var stage;
    boot, e, stage := RunStart(harness, session);
    stages, disks := [stage], [d, e];
    if boot == Running {
      BetweenStart(d, stage, session, harness.Setting(), harness.fs.View(), harness.rhythm.View());
      var k;
      e, stages, disks, k := RunNights(harness, session, e, disks, stages);
      BetweenMeans(disks, stages, session, k, harness.Setting(), harness.fs.View(), harness.fs.trace, harness.rhythm.View());
      BetweenFollows(disks, stages, session, k, harness.Setting(), harness.fs.View(), harness.fs.trace, harness.rhythm.View());
    } else {
      LivedStart(d, stage, lim);
      RefusedFollows(stage, session, d);
    }
    LivedIsBacked(disks, stages, lim, |stages|);
  }

  lemma RefusedFollows(stage: Stage, session: Session, d: Disk)
    requires stage.course.AStart? && !stage.course.running && stage.before == [d] && Ends(session, 0, stage)
    requires stage.setup.reliable == session.reliable
    requires !(session.reliable && Sound(d, stage.setup.lim) && session.checkpoint == Returned && session.audit == Returned)
    ensures Follows([stage], session)
  {
    GoingStart(stage, session);
  }

  /** A whole lifetime: one session after the other, each cut off at whatever disk step.
      `starts` says where the stages of each session begin. */
  method Lifetime(d: Disk, lim: Limits, proposalOnly: bool, sessions: seq<Session>)
    returns (e: Disk, ghost stages: seq<Stage>, ghost disks: seq<Disk>, ghost starts: seq<nat>)
    requires Backed(d, lim)
    ensures Lived(disks, stages, lim) && disks[0] == d && disks[|stages|] == e
    ensures Sessions(starts, stages, sessions)
    ensures AllClear(stages) && Sound(d, lim) ==> Evolution(disks, stages, lim)
    ensures Smooth(stages) ==> AllClear(stages)
  {
    e, stages, disks, starts := d, [], [d], [0];
    hide Backed;
    hide Possible;
    hide Follows;
    hide AllClear;
    var k := 0;
    while k < |sessions|
      invariant k <= |sessions| && Backed(e, lim)
      invariant Lived(disks, stages, lim) && disks[0] == d && disks[|stages|] == e
      invariant Sessions(starts, stages, sessions[..k])
    {
      ghost var more, path;
      e, more, path := RunSession(e, lim, proposalOnly, sessions[k]);
      LivedJoin(disks, stages, path, more, lim);
      SessionsSnoc(starts, stages, sessions[..k], more, sessions[k]);
      disks, stages := disks + path[1..], stages + more;
      starts := starts + [|stages|];
      k := k + 1;
      assert sessions[..k] == sessions[..k - 1] + [sessions[k - 1]];
    }
    assert sessions[..k] == sessions;
    if AllClear(stages) && Sound(d, lim) { LifetimeEvolves(disks, stages, lim); }
    if Smooth(stages) { SmoothIsClear(starts, stages, sessions); }
  }

  /** Every disk at the end of a stage is sound, and what recovery delivers evolves by
      at most one candidate of that stage's night. */
  ghost predicate Evolution(disks: seq<Disk>, stages: seq<Stage>, lim: Limits)
    requires |disks| == |stages| + 1
  {
    forall n {:trigger stages[n]} :: 0 <= n < |stages| ==> Evolves(disks[n], stages[n], disks[n + 1], lim)
  }

  ghost predicate Evolves(d: Disk, s: Stage, e: Disk, lim: Limits) {
    Sound(d, lim) && Sound(e, lim) && Evolved(Settled(d), Settled(e), s)
  }

  /** The law of every sequence of stages in which no night meets an open promotion. */
  lemma {:induction false} EveryLifetimeEvolves(disks: seq<Disk>, stages: seq<Stage>, lim: Limits, n: nat)
    requires Lived(disks, stages, lim) && AllClear(stages) && Sound(disks[0], lim) && n < |stages|
    ensures Evolves(disks[n], stages[n], disks[n + 1], lim)
  {
    hide Sound;
    hide Possible;
    hide ClearStage;
    hide Evolved;
    hide Settled;
    if n > 0 { EveryLifetimeEvolves(disks, stages, lim, n - 1); }
    StageEvolves(stages[n]);
  }

  lemma LifetimeEvolves(disks: seq<Disk>, stages: seq<Stage>, lim: Limits)
    requires Lived(disks, stages, lim) && AllClear(stages) && Sound(disks[0], lim)
    ensures Evolution(disks, stages, lim)
  {
    forall n {:trigger stages[n]} | 0 <= n < |stages| ensures Evolves(disks[n], stages[n], disks[n + 1], lim) {
      EveryLifetimeEvolves(disks, stages, lim, n);
    }
    hide Evolves;
    hide Leads;
    hide AllClear;
  }

  /** The disks of two stretches, the second starting where the first one ends. */
  lemma JoinedAt(disks: seq<Disk>, path: seq<Disk>, i: nat)
    requires disks != [] && path != [] && path[0] == disks[|disks| - 1] && i < |disks| + |path| - 1
    ensures (disks + path[1..])[i] == if i < |disks| then disks[i] else path[i + 1 - |disks|]
    ensures i >= |disks| - 1 ==> (disks + path[1..])[i] == path[i + 1 - |disks|]
  {
  }

  lemma LivedJoin(disks: seq<Disk>, stages: seq<Stage>, path: seq<Disk>, more: seq<Stage>, lim: Limits)
    requires Lived(disks, stages, lim) && Lived(path, more, lim) && path[0] == disks[|stages|]
    ensures Lived(disks + path[1..], stages + more, lim)
  {
    var all, to := stages + more, disks + path[1..];
    hide Leads;
    forall i {:trigger all[i]} | 0 <= i < |all| ensures Leads(to[i], all[i], to[i + 1], lim) {
      JoinedAt(disks, path, i);
      JoinedAt(disks, path, i + 1);
      if i < |stages| {
        assert all[i] == stages[i];
      } else {
        assert all[i] == more[i - |stages|];
      }
    }
  }

  lemma SliceOfFront(a: seq<Stage>, b: seq<Stage>, i: nat, j: nat)
    requires i <= j <= |a|
    ensures (a + b)[i..j] == a[i..j]
  {
  }

  lemma SessionsSnoc(starts: seq<nat>, stages: seq<Stage>, sessions: seq<Session>, more: seq<Stage>, session: Session)
    requires Sessions(starts, stages, sessions) && Follows(more, session)
    ensures Sessions(starts + [|stages + more|], stages + more, sessions + [session])
  {
    var to, all, every := starts + [|stages + more|], stages + more, sessions + [session];
    forall k | 0 <= k < |every| ensures Part(to, all, every, k) {
      if k < |sessions| {
        assert Part(starts, stages, sessions, k);
        assert to[k] == starts[k] && to[k + 1] == starts[k + 1] && every[k] == sessions[k];
        SliceOfFront(stages, more, starts[k], starts[k + 1]);
      } else {
        assert all[|stages|..|all|] == more;
      }
    }
    hide Follows;
  }

  /** A record can be left open on a candidate's file only by a night that ended in an
      exception on a disk whose steps may fail. */
  lemma SmoothIsClear(starts: seq<nat>, stages: seq<Stage>, sessions: seq<Session>)
    requires Sessions(starts, stages, sessions) && Smooth(stages)
    ensures AllClear(stages)
  {
    hide Mild;
    hide ClearStage;
    forall i | 0 <= i < |stages| ensures ClearStage(stages[i]) {
      var k := SessionOf(starts, stages, sessions, i, |sessions|);
      assert Part(starts, stages, sessions, k);
      var part, n := stages[starts[k]..starts[k + 1]], i - starts[k];
      assert Going(part, sessions[k]) && part[n] == stages[i];
      forall j | 0 <= j < n ensures Mild(part[..n][j]) { assert part[..n][j] == stages[starts[k] + j]; }
    }
  }

  lemma {:induction false} SessionOf(starts: seq<nat>, stages: seq<Stage>, sessions: seq<Session>, i: nat, n: nat) returns (k: nat)
    requires Sessions(starts, stages, sessions) && n <= |sessions| && i < starts[n]
    ensures k < |sessions| && starts[k] <= i < starts[k + 1]
  {
    assert n > 0;
    if starts[n - 1] <= i { k := n - 1; } else { k := SessionOf(starts, stages, sessions, i, n - 1); }
  }
}
