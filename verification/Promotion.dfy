/** `JournaledHarnessPatcher.validate_and_promote` of `cogni_flow/production.py`,
    with every exit: promoted, declined, or an exception from any of its steps. */
module Promotion {
  import opened Disk
  import opened Journal
  import opened BackupJournal
  import opened Rhythm

  datatype Proposal = Proposal(path: Path, base: Digest, replacement: Bytes)

  /** How the sandbox judges a staged project. */
  datatype Verdict = Passes | Fails | Breaks

  /** Everything the outside world decides during one promotion. */
  datatype Trial = Trial(policy: bool, regression: Verdict, health: Verdict, id: Id, now: int)

  datatype Outcome = Promoted | Declined | Threw

  /** What a gate of the sandbox leads to. */
  function Gate(v: Verdict): Outcome {
    match v
    case Passes => Promoted
    case Fails => Declined
    case Breaks => Threw
  }

  /** What a working disk makes of a candidate that passed the regression tests: the
      journal takes its record, and then the health check decides. */
  ghost function DueInstalled(d: Disk, lim: Limits, p: Proposal, before: Bytes, trial: Trial): Outcome {
    if Fits(d, lim, p.path, before, p.replacement) then Gate(trial.health) else Threw
  }

  ghost function DueStaged(d: Disk, lim: Limits, p: Proposal, before: Bytes, trial: Trial): Outcome {
    if trial.regression == Passes then DueInstalled(d, lim, p, before, trial) else Gate(trial.regression)
  }

  /** Policy and base digest take the proposal. */
  ghost predicate Staged(d: Disk, p: Proposal, trial: Trial) {
    trial.policy && p.path in d.live && Sha256(d.live[p.path]) == p.base
  }

  /** The mode in which an exception leaves EVOLUTION: it stays VALIDATING if the
      regression gate itself broke; safe mode needs a failing disk. */
  ghost predicate Halts(d: Disk, p: Proposal, trial: Trial, mode: Mode, reliable: bool) {
    && (|| mode == Evolution
        || (mode == Validating && trial.regression == Breaks)
        || (mode == SafeMode && trial.regression == Passes && !reliable))
    && (reliable ==> (mode == Validating <==> Staged(d, p, trial) && trial.regression == Breaks))
  }

  /** The same for a staged proposal. */
  ghost predicate HaltsIn(regression: Verdict, mode: Mode, reliable: bool) {
    if regression == Breaks then mode == Validating
    else mode == Evolution || (mode == SafeMode && regression == Passes && !reliable)
  }

  /** What a working disk makes of a proposal: it is promoted if policy, base digest and
      journal take it and both gates pass, declined if a gate fails, and breaks else. */
  ghost function Due(d: Disk, lim: Limits, p: Proposal, trial: Trial): Outcome {
    if Staged(d, p, trial)
    then DueStaged(d, lim, p, d.live[p.path], trial)
    else Threw
  }

  /** The candidate comes before the health gate. */
  ghost predicate Reaches(d: Disk, lim: Limits, p: Proposal, trial: Trial) {
    Staged(d, p, trial) && trial.regression == Passes && Fits(d, lim, p.path, d.live[p.path], p.replacement)
  }

  /** The record of a candidate that a working disk has brought through the health gate:
      committed if it passed, rolled back if it failed or the gate itself broke. */
  ghost predicate Recorded(meta: map<Id, Record>, p: Proposal, trial: Trial) {
    && trial.id in meta
    && meta[trial.id] == Record(p.path, p.base, Sha256(p.replacement), if trial.health == Passes then Committed else RolledBack, trial.now)
  }

  /** The modes after PROMOTING: every candidate that is not kept goes through the rollback. */
  function WayBack(outcome: Outcome, mode: Mode): seq<Mode> {
    if outcome == Promoted then [] else [RollingBack, mode]
  }

  /** The same just behind the health gate, before an exception is handled. */
  function Behind(outcome: Outcome, mode: Mode): seq<Mode> {
    match outcome
    case Promoted => []
    case Declined => [RollingBack, Evolution]
    case Threw => if mode == Promoting then [] else [RollingBack]
  }

  /** The modes of a promotion that passes the first checks, from EVOLUTION on. */
  function PromotionPath(regression: Verdict, outcome: Outcome, mode: Mode): seq<Mode> {
    match regression
    case Breaks => [Validating]
    case Fails => [Validating, Evolution]
    case Passes => [Validating, Promoting] + WayBack(outcome, mode)
  }

  /** The record that a promotion writes. */
  function Ticket(p: Proposal, before: Bytes, trial: Trial, status: Status): Record {
    Record(p.path, Sha256(before), Sha256(p.replacement), status, trial.now)
  }

  /** The metadata holds the promotion's record, in whatever status. */
  ghost predicate Holds(d: Disk, p: Proposal, before: Bytes, trial: Trial) {
    && trial.id in d.meta && d.meta[trial.id].(status := Prepared) == Ticket(p, before, trial, Prepared)
    && trial.id in d.backups && d.backups[trial.id] == before
  }

  /** Apart from the promotion's record, no record appears, changes or is reopened,
      and no open one disappears. */
  ghost predicate OnlyTicket(before: map<Id, Record>, after: map<Id, Record>, id: Id) {
    && (forall i :: i in after && i != id ==> i in before && after[i] == before[i])
    && (forall i :: i in before && i != id && before[i].status == Prepared ==> i in after)
  }

  class JournaledHarnessPatcher {
    const rhythm: RhythmController
    const journal: BackupJournal
    const fs: FileSystem

    constructor (rhythm: RhythmController, journal: BackupJournal)
      ensures this.rhythm == rhythm && this.journal == journal && fs == journal.fs
    {
      this.rhythm, this.journal, this.fs := rhythm, journal, journal.fs;
    }

    ghost predicate Ready()
      reads this, journal, journal.fs
    {
      fs == journal.fs && journal.Ready()
    }

    lemma LastIsView()
      requires Ready()
      ensures fs.trace != [] && fs.trace[|fs.trace| - 1] == fs.View()
    {
    }

    /** A legal mode change that needs no counter to be zero. */
    method Shift(target: Mode)
      requires Allowed(rhythm.mode, target) && target != Checkpointing && target != Inference
      modifies rhythm
      ensures rhythm.mode == target && rhythm.refused == old(rhythm.refused)
      ensures Travelled(old(rhythm.View()), rhythm.View(), [target])
      ensures rhythm.activeEvolutionTasks == old(rhythm.activeEvolutionTasks) && rhythm.activeRequests == old(rhythm.activeRequests)
    {
      var _ := rhythm.TransitionTo(target);
    }

    /** Under its prepared record: recheck, replace, recheck. */
    method Replace(p: Proposal, before: Bytes, trial: Trial) returns (ok: bool)
      requires Ready() && p.path in fs.live && fs.live[p.path] == before
      requires Holds(fs.View(), p, before, trial) && IsPrepared(fs.View(), trial.id)
      modifies fs
      ensures Ready() && Kept(old(fs.trace), fs.trace, journal.limits) && Quiet(old(fs.trace), fs.trace, journal.limits)
      ensures fs.meta == old(fs.meta) && fs.backups == old(fs.backups)
      ensures fs.live == old(fs.live) || fs.live == old(fs.live)[p.path := p.replacement]
      ensures ok ==> fs.live == old(fs.live)[p.path := p.replacement]
      ensures fs.reliable ==> ok
    {
      Nothing(fs.trace, journal.limits);
      HoldsTicket(fs.View(), p, before, trial);
      hide Kept;
      hide Quiet;
      hide Backed;
      var live;
      ok, live := fs.ReadLive(p.path);
      if !ok || Sha256(live) != Sha256(before) { return false; }
      ok := journal.WriteTarget(trial.id, p.replacement);
      if !ok { return; }
      ok, live := fs.ReadLive(p.path);
      ok := ok && Sha256(live) == Sha256(p.replacement);
    }

    /** The start of the guarded part: prepare, and then replace. */
    method Install(p: Proposal, before: Bytes, trial: Trial) returns (ok: bool, prepared: bool)
      requires Ready() && p.path in fs.live && fs.live[p.path] == before
      modifies fs
      ensures Ready() && Kept(old(fs.trace), fs.trace, journal.limits)
      ensures old(NoneOpen(fs.View(), p.path)) ==> Quiet(old(fs.trace), fs.trace, journal.limits)
      ensures Installed(old(fs.View()), fs.View(), journal.limits, ok, prepared, p, before, trial, fs.reliable)
    {
      ghost var d0 := fs.View();
      ghost var t0 := fs.trace;
      ghost var calm := NoneOpen(fs.View(), p.path);
      hide Kept;
      hide Quiet;
      hide Backed;
      hide NoneOpen;
      hide Spared;
      hide OldestGone;
      hide Fits;
      prepared := journal.Prepare(trial.id, p.path, before, p.replacement, trial.now);
      ok := false;
      ghost var d1 := fs.View();
      TicketIn(d0, d1, prepared, p, before, trial);
      hide OnlyTicket;
      hide Installed;
      hide Holds;
      if !prepared {
        InstalledIs(d0, d1, d1, journal.limits, ok, prepared, p, before, trial, fs.reliable);
        return;
      }
      ghost var t1 := fs.trace;
      ok := Replace(p, before, trial);
      InstalledIs(d0, d1, fs.View(), journal.limits, ok, prepared, p, before, trial, fs.reliable);
      ThenKept(t0, t1, fs.trace, journal.limits);
      if calm { ThenQuiet(t0, t1, fs.trace, journal.limits); }
    }

    /** The candidate is healthy: its record is committed. */
    method Accept(p: Proposal, before: Bytes, trial: Trial) returns (outcome: Outcome)
      requires Ready() && Holds(fs.View(), p, before, trial) && IsPrepared(fs.View(), trial.id)
      requires p.path in fs.live && fs.live[p.path] == p.replacement
      modifies fs
      ensures Ready() && Kept(old(fs.trace), fs.trace, journal.limits)
      ensures Crashable(old(fs.trace), fs.trace, journal.limits, old(Settled(fs.View()))[p.path := p.replacement])
      ensures Holds(fs.View(), p, before, trial) && OnlyTicket(old(fs.meta), fs.meta, trial.id)
      ensures fs.live == old(fs.live)
      ensures outcome != Declined
      ensures outcome == Promoted ==> fs.meta[trial.id].status == Committed
      ensures fs.meta[trial.id].status == Prepared || fs.meta[trial.id].status == Committed
      ensures fs.reliable ==> outcome == Promoted
    {
      hide Kept;
      hide Crashable;
      hide Backed;
      hide Settled;
      var ok := journal.Commit(trial.id);
      outcome := if ok then Promoted else Threw;
    }

    /** The candidate is unhealthy: the backup is put back. */
    method Reject(p: Proposal, before: Bytes, trial: Trial) returns (outcome: Outcome)
      requires Ready() && Holds(fs.View(), p, before, trial) && IsPrepared(fs.View(), trial.id)
      requires p.path in fs.live && fs.live[p.path] == p.replacement
      requires rhythm.mode == Promoting
      modifies rhythm, fs
      ensures Ready() && Kept(old(fs.trace), fs.trace, journal.limits) && Quiet(old(fs.trace), fs.trace, journal.limits)
      ensures Holds(fs.View(), p, before, trial) && OnlyTicket(old(fs.meta), fs.meta, trial.id)
      ensures rhythm.refused == old(rhythm.refused) && rhythm.activeEvolutionTasks == old(rhythm.activeEvolutionTasks)
      ensures rhythm.activeRequests == old(rhythm.activeRequests)
      ensures outcome != Promoted
      ensures outcome == Declined ==> fs.live == old(fs.live)[p.path := before] && rhythm.mode == Evolution
      ensures outcome == Declined ==> fs.meta[trial.id].status == RolledBack
      ensures outcome == Threw ==> rhythm.mode == RollingBack
      ensures fs.live == old(fs.live) || fs.live == old(fs.live)[p.path := before]
      ensures fs.meta[trial.id].status == Prepared || (fs.meta[trial.id].status == RolledBack && fs.live == old(fs.live)[p.path := before])
      ensures fs.reliable ==> outcome == Declined
      ensures Travelled(old(rhythm.View()), rhythm.View(), if outcome == Declined then [RollingBack, Evolution] else [RollingBack])
    {
      hide Kept;
      hide Quiet;
      hide Backed;
      Shift(RollingBack);
      var ok := journal.Rollback(trial.id, RolledBack);
      if !ok { return Threw; }
      Shift(Evolution);
      outcome := Declined;
    }

    /** The disk part of `_rollback_after_exception`: roll back, abort or refuse. */
    method RestoreBase(p: Proposal, before: Bytes, trial: Trial) returns (ok: bool)
      requires Ready() && p.path in fs.live && (fs.live[p.path] == before || fs.live[p.path] == p.replacement)
      requires Holds(fs.View(), p, before, trial)
      modifies fs
      ensures Ready() && Kept(old(fs.trace), fs.trace, journal.limits) && Quiet(old(fs.trace), fs.trace, journal.limits)
      ensures OnlyTicket(old(fs.meta), fs.meta, trial.id) && Holds(fs.View(), p, before, trial)
      ensures Undone(old(fs.View()), fs.View(), p, before, trial)
      ensures ok ==> fs.live[p.path] == before && fs.meta[trial.id].status == ClosedAs(old(fs.live[p.path]), p)
      ensures fs.reliable && old(IsPrepared(fs.View(), trial.id)) ==> ok
    {
      ghost var d := fs.View();
      Nothing(fs.trace, journal.limits);
      HoldsTicket(d, p, before, trial);
      HoldsStays(d, d, p, before, trial, RolledBack);
      hide Kept;
      hide Quiet;
      hide Backed;
      hide Holds;
      hide OnlyTicket;
      var live;
      ok, live := fs.ReadLive(p.path);
      if !ok { return; }
      if Sha256(live) == Sha256(p.replacement) {
        ok := journal.Rollback(trial.id, RolledBack);
        HoldsStays(d, fs.View(), p, before, trial, RolledBack);
      } else if Sha256(live) == Sha256(before) {
        ok := journal.MarkRestored(trial.id, Aborted);
        HoldsStays(d, fs.View(), p, before, trial, Aborted);
      } else {
        ok := false;
      }
    }

    /** The mode change that starts a rollback. */
    method StartRollback()
      requires rhythm.mode == Promoting || rhythm.mode == RollingBack
      modifies rhythm
      ensures rhythm.mode == RollingBack
      ensures rhythm.refused == old(rhythm.refused) && rhythm.activeEvolutionTasks == old(rhythm.activeEvolutionTasks)
      ensures rhythm.activeRequests == old(rhythm.activeRequests)
      ensures Travelled(old(rhythm.View()), rhythm.View(), if old(rhythm.mode) == Promoting then [RollingBack] else [])
    {
      if rhythm.mode == Promoting || rhythm.mode == Validating {
        Shift(RollingBack);
      }
    }

    /** The mode change that ends it. */
    method EndRollback(ok: bool)
      requires rhythm.mode == RollingBack
      modifies rhythm
      ensures rhythm.mode == if ok then Evolution else SafeMode
      ensures rhythm.refused == old(rhythm.refused) && rhythm.activeEvolutionTasks == old(rhythm.activeEvolutionTasks)
      ensures rhythm.activeRequests == old(rhythm.activeRequests)
      ensures Travelled(old(rhythm.View()), rhythm.View(), [if ok then Evolution else SafeMode])
    {
      if rhythm.mode == RollingBack {
        Shift(if ok then Evolution else SafeMode);
      }
    }

    /** `_rollback_after_exception`. */
    method RollbackAfterException(p: Proposal, before: Bytes, trial: Trial, prepared: bool)
      requires Ready() && p.path in fs.live && (fs.live[p.path] == before || (prepared && fs.live[p.path] == p.replacement))
      requires prepared ==> Holds(fs.View(), p, before, trial)
      requires rhythm.mode == Promoting || rhythm.mode == RollingBack
      modifies rhythm, fs
      ensures Ready() && Kept(old(fs.trace), fs.trace, journal.limits) && Quiet(old(fs.trace), fs.trace, journal.limits)
      ensures OnlyTicket(old(fs.meta), fs.meta, trial.id)
      ensures !prepared ==> fs.meta == old(fs.meta)
      ensures rhythm.refused == old(rhythm.refused) && rhythm.activeEvolutionTasks == old(rhythm.activeEvolutionTasks)
      ensures rhythm.activeRequests == old(rhythm.activeRequests)
      ensures rhythm.mode == Evolution || (rhythm.mode == SafeMode && prepared)
      ensures if prepared then Undone(old(fs.View()), fs.View(), p, before, trial) else fs.View() == old(fs.View())
      ensures rhythm.mode == Evolution ==> fs.live[p.path] == before
      ensures rhythm.mode == Evolution && prepared ==> trial.id in fs.meta && fs.meta[trial.id].status == ClosedAs(old(fs.live[p.path]), p)
      ensures fs.reliable && old(IsPrepared(fs.View(), trial.id)) ==> rhythm.mode == Evolution
      ensures Travelled(old(rhythm.View()), rhythm.View(), if old(rhythm.mode) == Promoting then [RollingBack, rhythm.mode] else [rhythm.mode])
    {
      Nothing(fs.trace, journal.limits);
      assert OnlyTicket(fs.meta, fs.meta, trial.id);
      hide Kept;
      hide Quiet;
      hide Backed;
      hide Holds;
      hide OnlyTicket;
      hide Travelled;
      ghost var from := rhythm.View();
      StartRollback();
      ghost var midway := rhythm.View();
      var ok := true;
      if prepared { ok := RestoreBase(p, before, trial); }
      EndRollback(ok);
      TravelledThen(from, midway, rhythm.View(), if from.mode == Promoting then [RollingBack] else [], [rhythm.mode]);
    }

    /** The health gate on an installed candidate. */
    method Judge(p: Proposal, before: Bytes, trial: Trial) returns (outcome: Outcome)
      requires Ready() && Holds(fs.View(), p, before, trial) && IsPrepared(fs.View(), trial.id)
      requires p.path in fs.live && fs.live[p.path] == p.replacement
      requires rhythm.mode == Promoting
      modifies rhythm, fs
      ensures Ready() && Kept(old(fs.trace), fs.trace, journal.limits)
      ensures Crashable(old(fs.trace), fs.trace, journal.limits, old(Settled(fs.View()))[p.path := p.replacement])
      ensures outcome == Declined ==> Quiet(old(fs.trace), fs.trace, journal.limits)
      ensures Holds(fs.View(), p, before, trial) && OnlyTicket(old(fs.meta), fs.meta, trial.id)
      ensures rhythm.refused == old(rhythm.refused) && rhythm.activeEvolutionTasks == old(rhythm.activeEvolutionTasks)
      ensures rhythm.activeRequests == old(rhythm.activeRequests)
      ensures outcome == Promoted ==> fs.live == old(fs.live) && rhythm.mode == Promoting
      ensures outcome == Promoted ==> trial.id in fs.meta && fs.meta[trial.id] == Ticket(p, before, trial, Committed)
      ensures outcome == Promoted ==> trial.health == Passes
      ensures outcome == Declined ==> trial.health == Fails
      ensures outcome == Declined ==> fs.live == old(fs.live)[p.path := before] && rhythm.mode == Evolution
      ensures outcome == Declined ==> trial.id in fs.meta && fs.meta[trial.id] == Ticket(p, before, trial, RolledBack)
      ensures outcome == Threw ==> rhythm.mode == Promoting || rhythm.mode == RollingBack
      ensures fs.live == old(fs.live) || fs.live == old(fs.live)[p.path := before]
      ensures outcome == Threw ==> Shaken(old(fs.live), fs.View(), p, before, trial, fs.reliable)
      ensures fs.reliable ==> outcome == Gate(trial.health)
      ensures Travelled(old(rhythm.View()), rhythm.View(), Behind(outcome, rhythm.mode))
    {
      ghost var t0, next := fs.trace, Settled(fs.View())[p.path := p.replacement];
      Nothing(t0, journal.limits);
      QuietIsCrashable(t0, t0, journal.limits, next);
      hide Kept;
      hide Quiet;
      hide Backed;
      hide Crashable;
      hide Settled;
      hide Holds;
      match trial.health {
        case Breaks => outcome := Threw;
        case Passes => outcome := Accept(p, before, trial);
        case Fails =>
          outcome := Reject(p, before, trial);
          QuietIsCrashable(t0, fs.trace, journal.limits, next);
      }
      HoldsTicket(fs.View(), p, before, trial);
    }

    /** The health gate and, if it raised, the rollback. */
    method JudgeGuarded(p: Proposal, before: Bytes, trial: Trial) returns (outcome: Outcome)
      requires Ready() && Holds(fs.View(), p, before, trial) && IsPrepared(fs.View(), trial.id)
      requires p.path in fs.live && fs.live[p.path] == p.replacement && Sha256(before) == p.base
      requires rhythm.mode == Promoting
      modifies rhythm, fs
      ensures Ready() && Kept(old(fs.trace), fs.trace, journal.limits)
      ensures Crashable(old(fs.trace), fs.trace, journal.limits, old(Settled(fs.View()))[p.path := p.replacement])
      ensures outcome == Declined ==> Quiet(old(fs.trace), fs.trace, journal.limits)
      ensures OnlyTicket(old(fs.meta), fs.meta, trial.id)
      ensures rhythm.refused == old(rhythm.refused) && rhythm.activeEvolutionTasks == old(rhythm.activeEvolutionTasks)
      ensures rhythm.activeRequests == old(rhythm.activeRequests)
      ensures Judged(old(fs.live), fs.View(), rhythm.mode, p, before, trial, outcome, fs.reliable)
      ensures Travelled(old(rhythm.View()), rhythm.View(), WayBack(outcome, rhythm.mode))
    {
      ghost var t0, next := fs.trace, Settled(fs.View())[p.path := p.replacement];
      ghost var meta0, live0 := fs.meta, fs.live;
      hide Kept;
      hide Quiet;
      hide Backed;
      hide Crashable;
      hide Settled;
      hide Holds;
      hide OnlyTicket;
      hide Shaken;
      hide Left;
      hide Travelled;
      ghost var from := rhythm.View();
      outcome := Judge(p, before, trial);
      if outcome == Threw {
        ghost var midway := rhythm.View();
        Undo(p, before, trial, t0, meta0, live0, next);
        TravelledThen(from, midway, rhythm.View(), Behind(Threw, midway.mode),
                      if midway.mode == Promoting then [RollingBack, rhythm.mode] else [rhythm.mode]);
        hide Judged;
      }
    }

    /** The gate raised: everything goes back, as far as it can. */
    method Undo(p: Proposal, before: Bytes, trial: Trial, ghost t0: seq<Disk>, ghost meta0: map<Id, Record>,
                ghost live0: map<Path, Bytes>, ghost next: map<Path, Bytes>)
      requires Ready() && Holds(fs.View(), p, before, trial) && Sha256(before) == p.base
      requires p.path in live0 && live0[p.path] == p.replacement && Shaken(live0, fs.View(), p, before, trial, fs.reliable)
      requires rhythm.mode == Promoting || rhythm.mode == RollingBack
      requires Kept(t0, fs.trace, journal.limits) && Crashable(t0, fs.trace, journal.limits, next) && OnlyTicket(meta0, fs.meta, trial.id)
      modifies rhythm, fs
      ensures Ready() && Kept(t0, fs.trace, journal.limits) && Crashable(t0, fs.trace, journal.limits, next)
      ensures OnlyTicket(meta0, fs.meta, trial.id)
      ensures rhythm.refused == old(rhythm.refused) && rhythm.activeEvolutionTasks == old(rhythm.activeEvolutionTasks)
      ensures rhythm.activeRequests == old(rhythm.activeRequests)
      ensures Judged(live0, fs.View(), rhythm.mode, p, before, trial, Threw, fs.reliable)
      ensures Travelled(old(rhythm.View()), rhythm.View(), if old(rhythm.mode) == Promoting then [RollingBack, rhythm.mode] else [rhythm.mode])
    {
      ghost var t1, d1 := fs.trace, fs.View();
      ShakenMeans(live0, d1, p, before, trial, fs.reliable);
      HoldsTicket(d1, p, before, trial);
      hide Kept;
      hide Quiet;
      hide Backed;
      hide Crashable;
      hide Holds;
      hide OnlyTicket;
      hide Shaken;
      hide Undone;
      hide Left;
      hide Judged;
      RollbackAfterException(p, before, trial, true);
      ShakenIsJudged(live0, d1, fs.View(), rhythm.mode, p, before, trial, fs.reliable);
      ThenKept(t0, t1, fs.trace, journal.limits);
      ThenSettle(t0, t1, fs.trace, journal.limits, next);
      OnlyTicketThen(meta0, d1.meta, fs.meta, trial.id);
    }

    /** The candidate could not be installed: everything goes back. */
    method Abandon(p: Proposal, before: Bytes, trial: Trial, prepared: bool, ghost base: map<Path, Bytes>)
      requires Ready() && p.path in base && base[p.path] == before && rhythm.mode == Promoting
      requires fs.live == base || (prepared && fs.live == base[p.path := p.replacement])
      requires prepared ==> Holds(fs.View(), p, before, trial) && IsPrepared(fs.View(), trial.id)
      requires Sha256(before) == p.base && (fs.reliable ==> !prepared)
      modifies rhythm, fs
      ensures Ready() && Kept(old(fs.trace), fs.trace, journal.limits) && Quiet(old(fs.trace), fs.trace, journal.limits)
      ensures OnlyTicket(old(fs.meta), fs.meta, trial.id)
      ensures rhythm.refused == old(rhythm.refused) && rhythm.activeEvolutionTasks == old(rhythm.activeEvolutionTasks)
      ensures rhythm.activeRequests == old(rhythm.activeRequests)
      ensures BaseOrSafe(base, fs.live, rhythm.mode, p)
      ensures if prepared then Left(base, fs.View(), rhythm.mode, p, trial, fs.reliable) else fs.meta == old(fs.meta)
      ensures rhythm.mode == Evolution || rhythm.mode == SafeMode
      ensures fs.reliable ==> rhythm.mode == Evolution
      ensures Travelled(old(rhythm.View()), rhythm.View(), [RollingBack, rhythm.mode])
    {
      ghost var d := fs.View();
      BackToBase(base, p, before);
      if prepared { HoldsTicket(d, p, before, trial); }
      hide Kept;
      hide Quiet;
      hide Backed;
      hide Holds;
      hide OnlyTicket;
      hide Undone;
      hide Travelled;
      hide Left;
      RollbackAfterException(p, before, trial, prepared);
      if prepared { UndoneIsLeft(base, d, fs.View(), rhythm.mode, p, before, trial, fs.reliable); }
    }

    /** The guarded part of `validate_and_promote`: every exception goes through
        the rollback. `middle` is the trace when the candidate is installed or refused. */
    method PromoteGuarded(p: Proposal, before: Bytes, trial: Trial) returns (outcome: Outcome, ghost middle: seq<Disk>)
      requires Ready() && p.path in fs.live && fs.live[p.path] == before && rhythm.mode == Promoting
      requires Sha256(before) == p.base && trial.policy && trial.regression == Passes
      modifies rhythm, fs
      ensures Ready() && Kept(old(fs.trace), middle, journal.limits) && Kept(middle, fs.trace, journal.limits) && middle != []
      ensures old(NoneOpen(fs.View(), p.path)) ==> Quiet(old(fs.trace), middle, journal.limits)
      ensures Crashable(middle, fs.trace, journal.limits, Settled(middle[|middle| - 1])[p.path := p.replacement])
      ensures outcome == Declined ==> Quiet(middle, fs.trace, journal.limits)
      ensures rhythm.refused == old(rhythm.refused) && rhythm.activeEvolutionTasks == old(rhythm.activeEvolutionTasks)
      ensures rhythm.activeRequests == old(rhythm.activeRequests)
      ensures Accounted(old(fs.View()), fs.View(), rhythm.mode, p, trial, outcome, fs.reliable)
      ensures outcome == Threw ==> rhythm.mode == Evolution || rhythm.mode == SafeMode
      ensures fs.reliable && outcome == Threw ==> rhythm.mode == Evolution
      ensures fs.reliable && trial.id !in old(fs.meta) ==> outcome == old(DueInstalled(fs.View(), journal.limits, p, before, trial))
      ensures fs.reliable && trial.id !in old(fs.meta) && old(Reaches(fs.View(), journal.limits, p, trial)) ==> Recorded(fs.meta, p, trial)
      ensures Travelled(old(rhythm.View()), rhythm.View(), WayBack(outcome, rhythm.mode))
    {
      ghost var d0, meta0 := fs.View(), fs.meta;
      BackToBase(fs.live, p, before);
      hide Kept;
      hide Quiet;
      hide Backed;
      hide Crashable;
      hide Settled;
      hide NoneOpen;
      hide Fits;
      hide Gate;
      hide Judged;
      hide Left;
      hide Holds;
      hide Accounted;
      hide Travelled;
      hide Recorded;
      var ok, prepared := Install(p, before, trial);
      middle := fs.trace;
      ghost var d1, meta1 := fs.View(), fs.meta;
      assert middle[|middle| - 1] == d1;
      assert OnlyTicket(meta0, meta1, trial.id);
      hide OnlyTicket;
      if ok {
        outcome := JudgeGuarded(p, before, trial);
        OnlyTicketThen(meta0, meta1, fs.meta, trial.id);
        JudgedIsAccounted(d0, fs.View(), rhythm.mode, p, before, trial, outcome, fs.reliable);
      } else {
        outcome := Threw;
        Abandon(p, before, trial, prepared, d0.live);
        OnlyTicketThen(meta0, meta1, fs.meta, trial.id);
        QuietIsCrashable(middle, fs.trace, journal.limits, Settled(middle[|middle| - 1])[p.path := p.replacement]);
        GuardedIsAccounted(d0, fs.View(), rhythm.mode, p, before, trial, outcome, fs.reliable);
      }
    }

    /** The guarded part as a whole: a crash at any of its disk steps recovers to
        the old files, or to the old files with the candidate. */
    method Promote(p: Proposal, before: Bytes, trial: Trial) returns (outcome: Outcome)
      requires Ready() && p.path in fs.live && fs.live[p.path] == before && rhythm.mode == Promoting
      requires Sha256(before) == p.base && trial.policy && trial.regression == Passes
      modifies rhythm, fs
      ensures Ready() && Kept(old(fs.trace), fs.trace, journal.limits)
      ensures old(NoneOpen(fs.View(), p.path)) ==>
        Crashable(old(fs.trace), fs.trace, journal.limits, old(Settled(fs.View()))[p.path := p.replacement])
      ensures old(NoneOpen(fs.View(), p.path)) && outcome == Declined ==> Quiet(old(fs.trace), fs.trace, journal.limits)
      ensures rhythm.refused == old(rhythm.refused) && rhythm.activeEvolutionTasks == old(rhythm.activeEvolutionTasks)
      ensures rhythm.activeRequests == old(rhythm.activeRequests)
      ensures Accounted(old(fs.View()), fs.View(), rhythm.mode, p, trial, outcome, fs.reliable)
      ensures outcome == Threw ==> rhythm.mode == Evolution || rhythm.mode == SafeMode
      ensures fs.reliable && outcome == Threw ==> rhythm.mode == Evolution
      ensures fs.reliable && trial.id !in old(fs.meta) ==> outcome == old(DueInstalled(fs.View(), journal.limits, p, before, trial))
      ensures fs.reliable && trial.id !in old(fs.meta) && old(Reaches(fs.View(), journal.limits, p, trial)) ==> Recorded(fs.meta, p, trial)
      ensures Travelled(old(rhythm.View()), rhythm.View(), WayBack(outcome, rhythm.mode))
    {
      ghost var t0, d0 := fs.trace, fs.View();
      hide Kept;
      hide Quiet;
      hide Backed;
      hide Crashable;
      hide Settled;
      hide NoneOpen;
      hide Accounted;
      ghost var middle;
      outcome, middle := PromoteGuarded(p, before, trial);
      ThenKept(t0, middle, fs.trace, journal.limits);
      if NoneOpen(d0, p.path) {
        ThenNext(t0, middle, fs.trace, journal.limits, p);
        if outcome == Declined { ThenQuiet(t0, middle, fs.trace, journal.limits); }
      }
    }

    /** `validate_proposal`: policy, and the base digest; a missing file counts as empty. */
    method CheckProposal(p: Proposal, trial: Trial) returns (ok: bool, before: Bytes)
      ensures ok ==> trial.policy && Sha256(if p.path in fs.live then fs.live[p.path] else []) == p.base
      ensures fs.reliable && trial.policy && Sha256(if p.path in fs.live then fs.live[p.path] else []) == p.base ==> ok
    {
      before := [];
      ok := trial.policy;
      if !ok { return; }
      if p.path in fs.live {
        ok, before := fs.ReadLive(p.path);
        if !ok { return; }
      }
      ok := Sha256(before) == p.base;
    }

    /** The checks of `validate_and_promote` before anything is staged. */
    method CheckBase(p: Proposal, trial: Trial) returns (ok: bool, before: Bytes)
      ensures ok ==> trial.policy && p.path in fs.live && before == fs.live[p.path] && Sha256(before) == p.base
      ensures fs.reliable && trial.policy && p.path in fs.live && Sha256(fs.live[p.path]) == p.base ==> ok
    {
      ok, before := CheckProposal(p, trial);
      if !ok || p.path !in fs.live { return false, before; }
      ok, before := fs.ReadLive(p.path);
      ok := ok && Sha256(before) == p.base;
    }

    /** The regression gate on a staged copy, then the guarded part. */
    method Regress(p: Proposal, before: Bytes, trial: Trial) returns (outcome: Outcome)
      requires Ready() && p.path in fs.live && fs.live[p.path] == before && rhythm.mode == Evolution
      requires Sha256(before) == p.base && trial.policy
      modifies rhythm, fs
      ensures Ready() && Kept(old(fs.trace), fs.trace, journal.limits)
      ensures old(NoneOpen(fs.View(), p.path)) ==>
        Crashable(old(fs.trace), fs.trace, journal.limits, old(Settled(fs.View()))[p.path := p.replacement])
      ensures old(NoneOpen(fs.View(), p.path)) && outcome == Declined ==> Quiet(old(fs.trace), fs.trace, journal.limits)
      ensures rhythm.refused == old(rhythm.refused) && rhythm.activeEvolutionTasks == old(rhythm.activeEvolutionTasks)
      ensures rhythm.activeRequests == old(rhythm.activeRequests)
      ensures Accounted(old(fs.View()), fs.View(), rhythm.mode, p, trial, outcome, fs.reliable)
      ensures outcome == Threw ==> HaltsIn(trial.regression, rhythm.mode, fs.reliable)
      ensures fs.reliable ==> rhythm.mode != SafeMode
      ensures fs.reliable && trial.id !in old(fs.meta) ==> outcome == old(DueStaged(fs.View(), journal.limits, p, before, trial))
      ensures fs.reliable && trial.id !in old(fs.meta) && old(Reaches(fs.View(), journal.limits, p, trial)) ==> Recorded(fs.meta, p, trial)
      ensures Travelled(old(rhythm.View()), rhythm.View(), PromotionPath(trial.regression, outcome, rhythm.mode))
    {
      Nothing(fs.trace, journal.limits);
      QuietIsCrashable(fs.trace, fs.trace, journal.limits, Settled(fs.View())[p.path := p.replacement]);
      NothingDone(fs.View(), Validating, p, trial, fs.reliable);
      hide Kept;
      hide Quiet;
      hide Backed;
      hide Crashable;
      hide Settled;
      hide NoneOpen;
      hide Accounted;
      hide Recorded;
      hide Fits;
      hide DueInstalled;
      hide Halts;
      hide Travelled;
      ghost var from := rhythm.View();
      Shift(Validating);
      ghost var validating := rhythm.View();
      match trial.regression
      case Breaks => outcome := Threw;
      case Fails =>
        Shift(Evolution);
        TravelledThen(from, validating, rhythm.View(), [Validating], [Evolution]);
        outcome := Declined;
      case Passes =>
        Shift(Promoting);
        TravelledThen(from, validating, rhythm.View(), [Validating], [Promoting]);
        ghost var promoting := rhythm.View();
        outcome := Promote(p, before, trial);
        TravelledThen(from, promoting, rhythm.View(), [Validating, Promoting], WayBack(outcome, rhythm.mode));
    }

    /** What happens inside the evolution slot. */
    method Attempt(p: Proposal, trial: Trial) returns (outcome: Outcome)
      requires Ready() && rhythm.mode == Evolution
      modifies rhythm, fs
      ensures Ready() && rhythm.Counters() == old(rhythm.Counters())
      ensures Ended(old(fs.trace), fs.trace, journal.limits, rhythm.mode, p, trial, outcome, fs.reliable)
      ensures Concluded(old(fs.View()), fs.meta, journal.limits, rhythm.mode, p, trial, outcome, fs.reliable)
      ensures Travelled(old(rhythm.View()), rhythm.View(), []) || Travelled(old(rhythm.View()), rhythm.View(), PromotionPath(trial.regression, outcome, rhythm.mode))
    {
      ghost var d, a := fs.View(), fs.trace;
      LastIsView();
      TravelledNowhere(rhythm.View());
      EndedNothing(a, journal.limits, rhythm.mode, p, trial, fs.reliable);
      hide Kept;
      hide Quiet;
      hide Backed;
      hide Crashable;
      hide Settled;
      hide NoneOpen;
      hide Accounted;
      hide DueStaged;
      hide Recorded;
      hide Fits;
      hide Ended;
      hide Travelled;
      hide PromotionPath;
      var ok, before := CheckBase(p, trial);
      ConcludedUnstaged(d, journal.limits, p, trial, fs.reliable);
      hide Concluded;
      hide Due;
      hide Reaches;
      if !ok { return Threw; }
      outcome := Regress(p, before, trial);
      LastIsView();
      ConcludedStaged(d, fs.meta, journal.limits, rhythm.mode, p, before, trial, outcome, fs.reliable);
      EndedIs(a, fs.trace, journal.limits, d, fs.View(), rhythm.mode, p, trial, outcome, fs.reliable);
    }

    /** `validate_and_promote`. */
    method ValidateAndPromote(p: Proposal, trial: Trial) returns (outcome: Outcome)
      requires Ready()
      modifies rhythm, fs
      ensures Ready() && rhythm.Counters() == old(rhythm.Counters())
      ensures Ended(old(fs.trace), fs.trace, journal.limits, rhythm.mode, p, trial, outcome, fs.reliable)
      ensures if old(rhythm.mode) == Evolution
        then Concluded(old(fs.View()), fs.meta, journal.limits, rhythm.mode, p, trial, outcome, fs.reliable)
        else outcome == Threw && rhythm.mode == old(rhythm.mode) && fs.View() == old(fs.View())
      ensures Travelled(old(rhythm.View()), rhythm.View(), [])
        || Travelled(old(rhythm.View()), rhythm.View(), PromotionPath(trial.regression, outcome, rhythm.mode))
    {
      LastIsView();
      EndedNothing(fs.trace, journal.limits, rhythm.mode, p, trial, fs.reliable);
      hide Backed;
      hide Concluded;
      hide Allowed;
      hide Ended;
      if rhythm.mode != Evolution { return Threw; }
      var _ := rhythm.OpenEvolutionSlot();
      outcome := Attempt(p, trial);
      rhythm.CloseEvolutionSlot();
    }
  }

  /** How a promotion that starts in EVOLUTION ends: an exception leaves a known mode, and
      on a working disk the outcome is the due one, with its record. */
  ghost predicate Concluded(d: Disk, meta: map<Id, Record>, lim: Limits, mode: Mode, p: Proposal, trial: Trial, outcome: Outcome, reliable: bool) {
    && (outcome == Threw ==> Halts(d, p, trial, mode, reliable))
    && (reliable ==> mode != SafeMode)
    && (reliable && trial.id !in d.meta ==> outcome == Due(d, lim, p, trial) && (Reaches(d, lim, p, trial) ==> Recorded(meta, p, trial)))
  }

  lemma ConcludedUnstaged(d: Disk, lim: Limits, p: Proposal, trial: Trial, reliable: bool)
    ensures (reliable ==> !Staged(d, p, trial)) ==> Concluded(d, d.meta, lim, Evolution, p, trial, Threw, reliable)
  {
    hide Fits;
  }

  lemma ConcludedStaged(d: Disk, meta: map<Id, Record>, lim: Limits, mode: Mode, p: Proposal, before: Bytes, trial: Trial, outcome: Outcome, reliable: bool)
    requires Staged(d, p, trial) && before == d.live[p.path]
    requires (outcome == Threw ==> HaltsIn(trial.regression, mode, reliable)) && (reliable ==> mode != SafeMode)
    requires reliable && trial.id !in d.meta ==> outcome == DueStaged(d, lim, p, before, trial)
    requires reliable && trial.id !in d.meta && Reaches(d, lim, p, trial) ==> Recorded(meta, p, trial)
    ensures Concluded(d, meta, lim, mode, p, trial, outcome, reliable)
  {
    hide Fits;
    hide DueStaged;
    hide Recorded;
  }

  /** What a promotion leaves, from the trace `a` to the trace `b`: its outcome is
      accounted for, and if no other promotion of the file was open, a crash at any
      of its disk steps recovers to the old files, or to them with the candidate. */
  ghost predicate Ended(a: seq<Disk>, b: seq<Disk>, lim: Limits, mode: Mode, p: Proposal, trial: Trial, outcome: Outcome, reliable: bool) {
    && a != [] && b != [] && Kept(a, b, lim)
    && var d := a[|a| - 1];
    && Accounted(d, b[|b| - 1], mode, p, trial, outcome, reliable)
    && (NoneOpen(d, p.path) ==> Crashable(a, b, lim, Settled(d)[p.path := p.replacement]))
    && (NoneOpen(d, p.path) && outcome == Declined ==> Quiet(a, b, lim))
  }

  lemma EndedIs(a: seq<Disk>, b: seq<Disk>, lim: Limits, d: Disk, e: Disk, mode: Mode, p: Proposal, trial: Trial, outcome: Outcome, reliable: bool)
    requires a != [] && b != [] && a[|a| - 1] == d && b[|b| - 1] == e && Kept(a, b, lim)
    requires Accounted(d, e, mode, p, trial, outcome, reliable)
    requires NoneOpen(d, p.path) ==> Crashable(a, b, lim, Settled(d)[p.path := p.replacement])
    requires NoneOpen(d, p.path) && outcome == Declined ==> Quiet(a, b, lim)
    ensures Ended(a, b, lim, mode, p, trial, outcome, reliable)
  {
    hide Kept;
    hide Quiet;
    hide Crashable;
    hide Settled;
    hide NoneOpen;
    hide Accounted;
  }

  lemma EndedNothing(a: seq<Disk>, lim: Limits, mode: Mode, p: Proposal, trial: Trial, reliable: bool)
    requires a != []
    ensures Ended(a, a, lim, mode, p, trial, Threw, reliable)
  {
    Nothing(a, lim);
    QuietIsCrashable(a, a, lim, Settled(a[|a| - 1])[p.path := p.replacement]);
    NothingDone(a[|a| - 1], mode, p, trial, reliable);
  }

  /** What each outcome means for the disk `d1` and the mode, coming from `d0`. */
  ghost predicate Accounted(d0: Disk, d1: Disk, mode: Mode, p: Proposal, trial: Trial, outcome: Outcome, reliable: bool) {
    && OnlyTicket(d0.meta, d1.meta, trial.id)
    && match outcome
       case Promoted =>
         && p.path in d0.live && Sha256(d0.live[p.path]) == p.base
         && d1.live == d0.live[p.path := p.replacement] && mode == Promoting
         && !IsPrepared(d0, trial.id) && trial.id in d1.meta
         && d1.meta[trial.id] == Record(p.path, p.base, Sha256(p.replacement), Committed, trial.now)
         && trial.policy && trial.regression == Passes && trial.health == Passes
       case Declined =>
         && d1.live == d0.live && mode == Evolution
         && trial.policy
         && (trial.regression == Fails ==> d1.meta == d0.meta)
         && (trial.regression != Fails ==>
               trial.health == Fails && trial.id in d1.meta
               && d1.meta[trial.id] == Record(p.path, p.base, Sha256(p.replacement), RolledBack, trial.now))
       case Threw =>
         && BaseOrSafe(d0.live, d1.live, mode, p)
         && (trial.id in d1.meta ==> Untouched(d0, d1, trial.id) || Left(d0.live, d1, mode, p, trial, reliable))
  }

  /** What the start of the guarded part comes to, from `d` to `e`. */
  ghost predicate Installed(d: Disk, e: Disk, lim: Limits, ok: bool, prepared: bool, p: Proposal, before: Bytes, trial: Trial, reliable: bool) {
    && OnlyTicket(d.meta, e.meta, trial.id)
    && (ok ==> prepared && e.live == d.live[p.path := p.replacement])
    && (prepared ==> Holds(e, p, before, trial) && IsPrepared(e, trial.id) && !IsPrepared(d, trial.id))
    && (e.live == d.live || (prepared && e.live == d.live[p.path := p.replacement]))
    // a record without the word of `prepare` needs a failing disk
    && (!prepared && trial.id in e.meta ==> Untouched(d, e, trial.id) || (!reliable && e.meta[trial.id] == Ticket(p, before, trial, Prepared)))
    && (prepared ==> Fits(d, lim, p.path, before, p.replacement))
    && (reliable ==> (prepared <==> ok) && (trial.id !in d.meta && Fits(d, lim, p.path, before, p.replacement) ==> ok))
  }

  lemma TicketIn(d: Disk, e: Disk, prepared: bool, p: Proposal, before: Bytes, trial: Trial)
    requires forall i :: i in e.meta ==>
      || (i in d.meta && e.meta[i] == d.meta[i])
      || (i == trial.id && e.meta[i] == Ticket(p, before, trial, Prepared))
    requires forall i :: IsPrepared(d, i) ==> i in e.meta && e.meta[i] == d.meta[i]
    requires prepared ==> trial.id in e.meta && e.meta[trial.id] == Ticket(p, before, trial, Prepared)
    requires prepared ==> trial.id in e.backups && e.backups[trial.id] == before
    ensures OnlyTicket(d.meta, e.meta, trial.id)
    ensures trial.id in e.meta ==> Untouched(d, e, trial.id) || e.meta[trial.id] == Ticket(p, before, trial, Prepared)
    ensures prepared ==> Holds(e, p, before, trial)
  {
  }

  lemma InstalledIs(d: Disk, d1: Disk, e: Disk, lim: Limits, ok: bool, prepared: bool, p: Proposal, before: Bytes, trial: Trial, reliable: bool)
    requires OnlyTicket(d.meta, d1.meta, trial.id) && d1.live == d.live && e.meta == d1.meta && e.backups == d1.backups
    requires trial.id in d1.meta ==> Untouched(d, d1, trial.id) || d1.meta[trial.id] == Ticket(p, before, trial, Prepared)
    requires prepared ==> Holds(d1, p, before, trial) && IsPrepared(d1, trial.id) && !IsPrepared(d, trial.id)
    requires prepared ==> Fits(d, lim, p.path, before, p.replacement)
    requires e.live == d.live || (prepared && e.live == d.live[p.path := p.replacement])
    requires ok ==> prepared && e.live == d.live[p.path := p.replacement]
    requires reliable && !prepared && trial.id in d1.meta ==> Untouched(d, d1, trial.id)
    requires reliable ==> (prepared <==> ok) && (trial.id !in d.meta && Fits(d, lim, p.path, before, p.replacement) ==> ok)
    ensures Installed(d, e, lim, ok, prepared, p, before, trial, reliable)
  {
    hide OnlyTicket;
    hide Fits;
  }

  lemma BackToBase(live: map<Path, Bytes>, p: Proposal, before: Bytes)
    requires p.path in live && live[p.path] == before
    ensures live[p.path := before] == live && live[p.path := p.replacement][p.path := before] == live
  {
  }

  lemma GuardedIsAccounted(d0: Disk, d1: Disk, mode: Mode, p: Proposal, before: Bytes, trial: Trial, outcome: Outcome, reliable: bool)
    requires p.path in d0.live && d0.live[p.path] == before && Sha256(before) == p.base && trial.policy && trial.regression == Passes
    requires OnlyTicket(d0.meta, d1.meta, trial.id)
    requires outcome == Promoted ==> d1.live == d0.live[p.path := p.replacement] && mode == Promoting && trial.health == Passes
    requires outcome == Promoted ==> trial.id in d1.meta && d1.meta[trial.id] == Ticket(p, before, trial, Committed) && !IsPrepared(d0, trial.id)
    requires outcome == Declined ==> d1.live == d0.live && mode == Evolution && trial.health == Fails
    requires outcome == Declined ==> trial.id in d1.meta && d1.meta[trial.id] == Ticket(p, before, trial, RolledBack)
    requires outcome == Threw ==> BaseOrSafe(d0.live, d1.live, mode, p)
    requires outcome == Threw && trial.id in d1.meta ==> Untouched(d0, d1, trial.id) || Left(d0.live, d1, mode, p, trial, reliable)
    ensures Accounted(d0, d1, mode, p, trial, outcome, reliable)
  {
  }

  /** What the health gate and its rollback leave of an installed candidate: the live
      files `live` with the candidate, or with the base bytes. */
  ghost predicate Judged(live: map<Path, Bytes>, d: Disk, mode: Mode, p: Proposal, before: Bytes, trial: Trial, outcome: Outcome, reliable: bool) {
    && (d.live == live || d.live == live[p.path := before])
    && (reliable ==> outcome == Gate(trial.health))
    && match outcome
       case Promoted =>
         && d.live == live && mode == Promoting && trial.health == Passes
         && trial.id in d.meta && d.meta[trial.id] == Ticket(p, before, trial, Committed)
       case Declined =>
         && d.live == live[p.path := before] && mode == Evolution && trial.health == Fails
         && trial.id in d.meta && d.meta[trial.id] == Ticket(p, before, trial, RolledBack)
       case Threw =>
         && (mode == Evolution || (mode == SafeMode && !reliable))
         && (mode == Evolution ==> p.path in d.live && d.live[p.path] == before)
         && (reliable ==> trial.id in d.meta && d.meta[trial.id].status == RolledBack)
         && Left(live[p.path := before], d, mode, p, trial, reliable)
  }

  /** The status that an exception leads to: rolled back where the candidate was
      live, aborted where it was not. */
  function ClosedAs(live: Bytes, p: Proposal): (status: Status) {
    if live == p.replacement then RolledBack else Aborted
  }

  /** A rollback from `d` to `e` may stop on its way: first the base bytes come back,
      then the record is closed; a closed record stays what it is. */
  ghost predicate Undone(d: Disk, e: Disk, p: Proposal, before: Bytes, trial: Trial)
    requires p.path in d.live && trial.id in d.meta
  {
    && (e.live == d.live || (IsPrepared(d, trial.id) && e.live == d.live[p.path := before]))
    && (e.meta == d.meta ||
        (IsPrepared(d, trial.id) && e.live == d.live[p.path := before]
         && e.meta == d.meta[trial.id := d.meta[trial.id].(status := ClosedAs(d.live[p.path], p))]))
  }

  /** An exception under the health gate: the record may have been closed just before. */
  ghost predicate Shaken(live: map<Path, Bytes>, d: Disk, p: Proposal, before: Bytes, trial: Trial, reliable: bool) {
    && trial.id in d.meta
    && (reliable ==> trial.health == Breaks && d.live == live && d.meta[trial.id].status == Prepared)
    && match d.meta[trial.id].status
       case Prepared => d.live == live || d.live == live[p.path := before]
       case Committed => !reliable && trial.health == Passes && d.live == live
       case RolledBack => !reliable && d.live == live[p.path := before]
       case _ => false
  }

  /** The record in which an exception leaves a promotion: open, or closed as the live
      bytes say. On a working disk it is rolled back after a broken health gate; a
      committed one is the candidate of a passed gate that could not be taken back. */
  ghost predicate Left(base: map<Path, Bytes>, d: Disk, mode: Mode, p: Proposal, trial: Trial, reliable: bool) {
    && trial.id in d.meta
    && var status := d.meta[trial.id].status;
    && d.meta[trial.id] == Record(p.path, p.base, Sha256(p.replacement), status, trial.now)
    && match status
       case Prepared => !reliable
       case Committed => !reliable && mode == SafeMode && trial.health == Passes && d.live == base[p.path := p.replacement]
       case RolledBack => d.live == base && (reliable ==> trial.health == Breaks && mode == Evolution)
       case Aborted => !reliable && d.live == base
       case RecoveredRollback => false
  }

  ghost predicate Untouched(d: Disk, e: Disk, id: Id) {
    id in d.meta && id in e.meta && e.meta[id] == d.meta[id]
  }

  lemma ShakenMeans(live: map<Path, Bytes>, d: Disk, p: Proposal, before: Bytes, trial: Trial, reliable: bool)
    requires Shaken(live, d, p, before, trial, reliable) && p.path in live && live[p.path] == p.replacement
    ensures p.path in d.live && (d.live[p.path] == before || d.live[p.path] == p.replacement)
    ensures reliable ==> IsPrepared(d, trial.id)
  {
  }

  lemma UndoneIsLeft(base: map<Path, Bytes>, d: Disk, e: Disk, mode: Mode, p: Proposal, before: Bytes, trial: Trial, reliable: bool)
    requires p.path in base && base[p.path] == before && Sha256(before) == p.base && !reliable
    requires d.live == base || d.live == base[p.path := p.replacement]
    requires IsPrepared(d, trial.id) && d.meta[trial.id] == Ticket(p, before, trial, Prepared) && Undone(d, e, p, before, trial)
    ensures Left(base, e, mode, p, trial, reliable)
  {
    BackToBase(base, p, before);
  }

  lemma ShakenIsJudged(live: map<Path, Bytes>, d: Disk, e: Disk, mode: Mode, p: Proposal, before: Bytes, trial: Trial, reliable: bool)
    requires p.path in live && live[p.path] == p.replacement && Sha256(before) == p.base
    requires Shaken(live, d, p, before, trial, reliable) && p.path in d.live && d.meta[trial.id] == Ticket(p, before, trial, d.meta[trial.id].status)
    requires Undone(d, e, p, before, trial) && (mode == Evolution || (mode == SafeMode && !reliable))
    requires mode == Evolution ==> e.live[p.path] == before && trial.id in e.meta && e.meta[trial.id].status == ClosedAs(d.live[p.path], p)
    ensures Judged(live, e, mode, p, before, trial, Threw, reliable)
  {
    assert live[p.path := before][p.path := p.replacement] == live;
  }

  /** Whatever exception ended a promotion: the after bytes are live if its new record
      says committed, and the base bytes if it says rolled back or aborted. */
  lemma RecordTellsLive(d0: Disk, d1: Disk, mode: Mode, p: Proposal, trial: Trial, outcome: Outcome, reliable: bool)
    requires Accounted(d0, d1, mode, p, trial, outcome, reliable) && trial.id in d1.meta && !Untouched(d0, d1, trial.id)
    ensures match d1.meta[trial.id].status
      case Prepared => outcome == Threw && !reliable
      case Committed => d1.live == d0.live[p.path := p.replacement] && trial.health == Passes
      case RolledBack => d1.live == d0.live && outcome != Promoted && (reliable ==> trial.health != Passes)
      case Aborted => d1.live == d0.live && outcome == Threw && !reliable
      case RecoveredRollback => false
  {
  }

  /** Seen from before the candidate was installed. */
  lemma JudgedIsAccounted(d0: Disk, d1: Disk, mode: Mode, p: Proposal, before: Bytes, trial: Trial, outcome: Outcome, reliable: bool)
    requires p.path in d0.live && d0.live[p.path] == before && Sha256(before) == p.base && trial.policy && trial.regression == Passes
    requires OnlyTicket(d0.meta, d1.meta, trial.id) && !IsPrepared(d0, trial.id)
    requires Judged(d0.live[p.path := p.replacement], d1, mode, p, before, trial, outcome, reliable)
    ensures reliable ==> Recorded(d1.meta, p, trial)
    ensures Accounted(d0, d1, mode, p, trial, outcome, reliable)
    ensures reliable ==> outcome == Gate(trial.health)
    ensures outcome == Threw ==> mode == Evolution || (mode == SafeMode && !reliable)
  {
    BackToBase(d0.live, p, before);
    hide OnlyTicket;
    hide Gate;
    GuardedIsAccounted(d0, d1, mode, p, before, trial, outcome, reliable);
  }

  lemma NothingDone(d: Disk, mode: Mode, p: Proposal, trial: Trial, reliable: bool)
    ensures Accounted(d, d, mode, p, trial, Threw, reliable)
    ensures trial.policy && trial.regression == Fails ==> Accounted(d, d, Evolution, p, trial, Declined, reliable)
  {
  }

  /** The base bytes are live, or the system is in safe mode; no other file changed. */
  ghost predicate BaseOrSafe(before: map<Path, Bytes>, after: map<Path, Bytes>, mode: Mode, p: Proposal) {
    after == before || (mode == SafeMode && after == before[p.path := p.replacement])
  }

  lemma HoldsStays(d: Disk, e: Disk, p: Proposal, before: Bytes, trial: Trial, status: Status)
    requires Holds(d, p, before, trial) && e.backups == d.backups
    requires e.meta == d.meta || e.meta == d.meta[trial.id := d.meta[trial.id].(status := status)]
    ensures Holds(e, p, before, trial) && OnlyTicket(d.meta, e.meta, trial.id)
  {
  }

  lemma HoldsTicket(d: Disk, p: Proposal, before: Bytes, trial: Trial)
    requires Holds(d, p, before, trial)
    ensures trial.id in d.backups && d.backups[trial.id] == before
    ensures trial.id in d.meta && d.meta[trial.id] == Ticket(p, before, trial, d.meta[trial.id].status)
  {
  }

  lemma OnlyTicketThen(a: map<Id, Record>, b: map<Id, Record>, c: map<Id, Record>, id: Id)
    requires OnlyTicket(a, b, id) && OnlyTicket(b, c, id)
    ensures OnlyTicket(a, c, id)
  {
  }

  /** A quiet stretch, then one that may end with the candidate. */
  lemma ThenNext(a: seq<Disk>, b: seq<Disk>, c: seq<Disk>, lim: Limits, p: Proposal)
    requires Quiet(a, b, lim) && b != [] && Crashable(b, c, lim, Settled(b[|b| - 1])[p.path := p.replacement])
    ensures Crashable(a, c, lim, Settled(a[|a| - 1])[p.path := p.replacement])
  {
    Last(a, b, lim);
    if Sound(a[|a| - 1], lim) { Then(a, b, c, lim, Settled(a[|a| - 1])[p.path := p.replacement]); }
  }

  // ------------------------------------------------------------------
  // What recovery makes of a committed file
  // ------------------------------------------------------------------

  /** Every open record on the file finds its own bytes. */
  ghost predicate RecoverableAt(ids: seq<Id>, d: Disk, path: Path) {
    forall k :: 0 <= k < |ids| && Open(d, ids[k], path) ==> Meets(ids, k, d)
  }

  /** Recovery goes through on the file and leaves its bytes as they are. */
  ghost predicate Keeps(ids: seq<Id>, d: Disk, path: Path)
    requires path in d.live
  {
    RecoverableAt(ids, d, path) && Expected(ids, |ids|, d, path) == d.live[path]
  }

  /** Record `k` is the last open one on the file. */
  ghost predicate LastOpen(ids: seq<Id>, d: Disk, path: Path, k: int) {
    0 <= k < |ids| && Open(d, ids[k], path) && forall n :: k < n < |ids| ==> !Open(d, ids[n], path)
  }

  lemma {:induction false} ExpectedIsLive(ids: seq<Id>, d: Disk, path: Path, n: nat)
    requires n <= |ids| && path in d.live && forall m :: 0 <= m < n ==> !Open(d, ids[m], path)
    ensures Expected(ids, n, d, path) == d.live[path]
  {
    if n > 0 { ExpectedIsLive(ids, d, path, n - 1); }
  }

  lemma {:induction false} ExpectedIsBackup(ids: seq<Id>, d: Disk, path: Path, k: nat, n: nat)
    requires k < n <= |ids| && path in d.live && Open(d, ids[k], path) && ids[k] in d.backups
    requires forall m :: k < m < n ==> !Open(d, ids[m], path)
    ensures Expected(ids, n, d, path) == d.backups[ids[k]]
  {
    if n > k + 1 { ExpectedIsBackup(ids, d, path, k, n - 1); }
  }

  lemma {:induction false} SomeLast(ids: seq<Id>, d: Disk, path: Path, k: nat, n: nat) returns (last: nat)
    requires k < n <= |ids| && Open(d, ids[k], path) && forall m :: n <= m < |ids| ==> !Open(d, ids[m], path)
    ensures LastOpen(ids, d, path, last)
  {
    if Open(d, ids[n - 1], path) {
      last := n - 1;
    } else {
      last := SomeLast(ids, d, path, k, n - 1);
    }
  }

  /** Recovery keeps a file as it is exactly when no record is open on it, or every
      open record finds its own bytes and the last of them puts the same bytes back. */
  lemma KeepsIff(ids: seq<Id>, d: Disk, lim: Limits, path: Path)
    requires Backed(d, lim) && Listing(ids, d.meta) && path in d.live
    ensures Keeps(ids, d, path) <==>
      || NoneOpen(d, path)
      || (RecoverableAt(ids, d, path) && exists k :: LastOpen(ids, d, path, k) && d.backups[ids[k]] == d.live[path])
    ensures (forall id :: Open(d, id, path) ==> d.backups[id] != d.live[path]) ==> (Keeps(ids, d, path) <==> NoneOpen(d, path))
  {
    if id :| Open(d, id, path) {
      var k :| 0 <= k < |ids| && ids[k] == id;
      var last := SomeLast(ids, d, path, k, |ids|);
      ExpectedIsBackup(ids, d, path, last, |ids|);
      assert forall n :: LastOpen(ids, d, path, n) ==> n == last;
    } else {
      ExpectedIsLive(ids, d, path, |ids|);
    }
    hide Listing;
    hide Expected;
    hide Meets;
  }

  /** After a promotion has committed, recovery keeps its candidate exactly when no
      other promotion of the file was open; a record whose before bytes are the
      candidate itself aside. */
  lemma CommittedIsKeptIff(d0: Disk, d1: Disk, mode: Mode, p: Proposal, trial: Trial, reliable: bool, lim: Limits, ids: seq<Id>)
    requires Accounted(d0, d1, mode, p, trial, Promoted, reliable) && Backed(d1, lim) && Listing(ids, d1.meta)
    requires forall id :: Open(d0, id, p.path) ==> d0.meta[id].before != Sha256(p.replacement)
    ensures p.path in d1.live && d1.live[p.path] == p.replacement
    ensures Keeps(ids, d1, p.path) <==> NoneOpen(d0, p.path)
  {
    forall id ensures Open(d1, id, p.path) <==> Open(d0, id, p.path) { }
    forall id | Open(d1, id, p.path) ensures d1.backups[id] != p.replacement {
      assert Open(d0, id, p.path);
    }
    KeepsIff(ids, d1, lim, p.path);
  }

  /** The oldest open record on a file finds the bytes that are live; if they are not
      its own, every recovery fails. */
  lemma StrandedIsRefused(d: Disk, id: Id, ids: seq<Id>)
    requires Listing(ids, d.meta) && IsPrepared(d, id) && d.meta[id].path in d.live
    requires !Matches(d.live[d.meta[id].path], d.meta[id])
    requires forall i :: Open(d, i, d.meta[id].path) && i != id ==> d.meta[i].created > d.meta[id].created
    ensures !Recoverable(ids, d)
  {
    var k :| 0 <= k < |ids| && ids[k] == id;
    assert forall m :: 0 <= m < k ==> ids[m] != id && d.meta[ids[m]].created <= d.meta[id].created;
    ExpectedIsLive(ids, d, d.meta[id].path, k);
    assert !Meets(ids, k, d);
  }

  /** One record is open on the file: recovery puts its backup back, if the file
      still holds the before or the after bytes of the record, and else fails. */
  lemma OneOpenDecides(d: Disk, id: Id, ids: seq<Id>, lim: Limits)
    requires Backed(d, lim) && Listing(ids, d.meta) && IsPrepared(d, id)
    requires forall i :: Open(d, i, d.meta[id].path) ==> i == id
    ensures RecoverableAt(ids, d, d.meta[id].path) <==> Matches(d.live[d.meta[id].path], d.meta[id])
    ensures Expected(ids, |ids|, d, d.meta[id].path) == d.backups[id]
    ensures Keeps(ids, d, d.meta[id].path) <==> d.backups[id] == d.live[d.meta[id].path]
  {
    var k :| 0 <= k < |ids| && ids[k] == id;
    var path := d.meta[id].path;
    assert forall m :: 0 <= m < |ids| && m != k ==> ids[m] != id;
    assert Open(d, id, path);
    ExpectedIsLive(ids, d, path, k);
    ExpectedIsBackup(ids, d, path, k, |ids|);
    assert forall m :: 0 <= m < |ids| && Open(d, ids[m], path) ==> m == k;
    hide Listing;
    hide Expected;
  }

  // ------------------------------------------------------------------
  // A record that `prepare` wrote and then failed to hand back
  // ------------------------------------------------------------------

  /** One file, an empty journal. */
  ghost function Fresh(path: Path, before: Bytes): Disk {
    Disk(map[path := before], map[], map[], {}, {})
  }

  /** `prepare` wrote its backup and its metadata, and then failed. */
  ghost function Lost(p: Proposal, before: Bytes, t: Trial): Disk {
    Fresh(p.path, before).(meta := map[t.id := Ticket(p, before, t, Prepared)], backups := map[t.id := before])
  }

  /** A second promotion of the same file was committed on top. */
  ghost function Stuck(p: Proposal, q: Proposal, before: Bytes, t: Trial, u: Trial): Disk {
    Disk(map[p.path := q.replacement],
         map[t.id := Ticket(p, before, t, Prepared), u.id := Ticket(q, before, u, Committed)],
         map[t.id := before, u.id := before], {}, {})
  }

  lemma LostIsSound(p: Proposal, before: Bytes, t: Trial, lim: Limits)
    requires lim.maxRecords >= 1 && lim.maxBackupBytes >= |before|
    ensures Sound(Fresh(p.path, before), lim) && Sound(Lost(p, before, t), lim)
    ensures Settled(Lost(p, before, t)) == Settled(Fresh(p.path, before))
  {
    var d := Fresh(p.path, before);
    var withBackup := d.(backups := map[t.id := before]);
    OrphanBackup(d, withBackup, lim);
    PrepareStep(withBackup, lim, t.id, Ticket(p, before, t, Prepared));
    assert withBackup.(meta := withBackup.meta[t.id := Ticket(p, before, t, Prepared)]) == Lost(p, before, t);
  }

  lemma StuckIsBacked(p: Proposal, q: Proposal, before: Bytes, t: Trial, u: Trial, lim: Limits)
    requires p.path == q.path && t.id != u.id && lim.maxRecords >= 2 && lim.maxBackupBytes >= |before|
    ensures Backed(Stuck(p, q, before, t, u), lim)
  {
    var d := Stuck(p, q, before, t, u);
    assert d.meta.Keys == {t.id, u.id} && |d.meta| == |d.meta.Keys|;
  }

  /** The lost record decides: its file is put back to the base, over the committed
      candidate, if the candidate is that of the lost record; it is refused if the
      candidate is another one. */
  lemma StuckIsDecided(p: Proposal, q: Proposal, before: Bytes, t: Trial, u: Trial, lim: Limits, ids: seq<Id>)
    requires p.path == q.path && t.id != u.id && lim.maxRecords >= 2 && lim.maxBackupBytes >= |before|
    requires Listing(ids, Stuck(p, q, before, t, u).meta)
    ensures var d := Stuck(p, q, before, t, u);
      && (Recoverable(ids, d) <==> q.replacement == before || q.replacement == p.replacement)
      && Expected(ids, |ids|, d, p.path) == before
      && (Keeps(ids, d, p.path) <==> q.replacement == before)
  {
    var d := Stuck(p, q, before, t, u);
    StuckIsBacked(p, q, before, t, u, lim);
    assert IsPrepared(d, t.id) && forall i :: IsPrepared(d, i) ==> i == t.id;
    OneOpenDecides(d, t.id, ids, lim);
    assert Recoverable(ids, d) <==> RecoverableAt(ids, d, p.path) by {
      hide Listing;
      hide Expected;
      hide Backed;
    }
  }

  lemma StuckSettles(p: Proposal, before: Bytes, t: Trial, u: Trial, lim: Limits)
    requires t.id != u.id && lim.maxRecords >= 2 && lim.maxBackupBytes >= |before|
    ensures var d := Stuck(p, p, before, t, u); Sound(d, lim) && Settled(d) == map[p.path := before]
  {
    var d := Stuck(p, p, before, t, u);
    StuckIsBacked(p, p, before, t, u, lim);
    assert IsPrepared(d, t.id) && forall i :: IsPrepared(d, i) ==> i == t.id;
    SettledOpen(d, lim, t.id);
  }

  lemma StuckIsAccounted(p: Proposal, q: Proposal, before: Bytes, t: Trial, u: Trial)
    requires p.path == q.path && t.id != u.id && p.base == Sha256(before) == q.base
    requires u.policy && u.regression == Passes && u.health == Passes
    ensures Accounted(Fresh(p.path, before), Lost(p, before, t), Evolution, p, t, Threw, false)
    ensures Accounted(Lost(p, before, t), Stuck(p, q, before, t, u), Promoting, q, u, Promoted, true)
  {
    assert Lost(p, before, t).live[p.path := q.replacement] == Stuck(p, q, before, t, u).live;
  }

  /** A `prepare` that fails after its metadata is in place leaves an open record
      and the mode EVOLUTION, with nothing wrong so far. When the next promotion of
      the same file commits another candidate, no later recovery succeeds. */
  lemma LostRecordBlocksRecovery(p: Proposal, q: Proposal, before: Bytes, t: Trial, u: Trial, lim: Limits)
    requires p.path == q.path && t.id != u.id && lim.maxRecords >= 2 && lim.maxBackupBytes >= |before|
    requires p.base == Sha256(before) == q.base
    requires u.policy && u.regression == Passes && u.health == Passes
    ensures Sound(Lost(p, before, t), lim) && Settled(Lost(p, before, t)) == Settled(Fresh(p.path, before))
    ensures Accounted(Fresh(p.path, before), Lost(p, before, t), Evolution, p, t, Threw, false)
    ensures Accounted(Lost(p, before, t), Stuck(p, q, before, t, u), Promoting, q, u, Promoted, true)
    ensures Backed(Stuck(p, q, before, t, u), lim)
    ensures forall ids :: Listing(ids, Stuck(p, q, before, t, u).meta) ==>
      (Recoverable(ids, Stuck(p, q, before, t, u)) <==> q.replacement == before || q.replacement == p.replacement)
  {
    LostIsSound(p, before, t, lim);
    StuckIsBacked(p, q, before, t, u, lim);
    StuckIsAccounted(p, q, before, t, u);
    hide *;
    forall ids | Listing(ids, Stuck(p, q, before, t, u).meta)
      ensures Recoverable(ids, Stuck(p, q, before, t, u)) <==> q.replacement == before || q.replacement == p.replacement
    {
      StuckIsDecided(p, q, before, t, u, lim, ids);
    }
  }

  /** When it commits the same candidate, recovery succeeds and undoes it: the
      disk is sound, the record says committed, and the base is put back. */
  lemma LostRecordUndoesCommitment(p: Proposal, before: Bytes, t: Trial, u: Trial, lim: Limits)
    requires t.id != u.id && lim.maxRecords >= 2 && lim.maxBackupBytes >= |before|
    requires p.base == Sha256(before) && u.policy && u.regression == Passes && u.health == Passes
    ensures var d := Stuck(p, p, before, t, u);
      && Accounted(Lost(p, before, t), d, Promoting, p, u, Promoted, true)
      && d.live[p.path] == p.replacement && d.meta[u.id].status == Committed
      && Sound(d, lim) && Settled(d) == map[p.path := before]
    ensures forall ids :: Listing(ids, Stuck(p, p, before, t, u).meta) ==> Recoverable(ids, Stuck(p, p, before, t, u))
  {
    StuckIsAccounted(p, p, before, t, u);
    StuckSettles(p, before, t, u, lim);
    forall ids | Listing(ids, Stuck(p, p, before, t, u).meta) ensures Recoverable(ids, Stuck(p, p, before, t, u)) {
      StuckIsDecided(p, p, before, t, u, lim, ids);
    }
    hide Sound;
    hide Settled;
    hide Accounted;
    hide Listing;
    hide Recoverable;
  }
}
