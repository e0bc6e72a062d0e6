/** `SelfHarness.run_night_cycle` of `cogni_flow/cycle.py` with all its exits: a
    normal return, and an exception before, inside or out of its `try`. */
module NightCycle {
  import opened Disk
  import opened Journal
  import opened BackupJournal
  import opened Rhythm
  import opened Promotion

  /** One candidate: the proposal, how it is judged, how its audit write ends, and
      whether an exception of the patcher is an ordinary one. */
  datatype Candidate = Candidate(proposal: Proposal, trial: Trial, audit: Ending, ordinary: bool)

  /** One cluster: what the proposer yields before it ends or raises. */
  datatype Cluster = Cluster(candidates: seq<Candidate>, proposer: Ending)

  /** Everything the outside world decides during one night. */
  datatype Night = Night(checkpoint: Ending, log: Ending, clusters: seq<Cluster>, errorAudit: Ending)

  datatype Exit =
    | Finished(promoted: bool, proposals: nat)
    | NotEntered        // `enter_evolution` raised
    | LogFailed         // the log could not be read: outside the `try`
    | RaisedInside(ordinary: bool)  // an exception raised inside the `try`

  /** How the loops ended. */
  datatype Loop = Done | Accepted(p: Proposal) | Broke(ordinary: bool)

  /** How loops end, and after how many candidates. */
  datatype Stop = Stop(loop: Loop, tried: nat)

  /** `p` is one of the candidates. */
  ghost predicate Proposed(p: Proposal, candidates: seq<Candidate>) {
    exists i :: 0 <= i < |candidates| && candidates[i].proposal == p
  }

  /** At most the one file was changed, to the bytes of the proposal. */
  ghost predicate OneFile(before: map<Path, Bytes>, after: map<Path, Bytes>, p: Proposal) {
    after == before || after == before[p.path := p.replacement]
  }

  /** A crash at any of the disk states recovers to the old files, or to them with
      the proposal's content. */
  ghost predicate CrashSafe(a: seq<Disk>, b: seq<Disk>, lim: Limits, d: Disk, p: Proposal) {
    Crashable(a, b, lim, Settled(d)[p.path := p.replacement])
  }

  /** No promotion is open on a file that one of the candidates is for. */
  ghost predicate ClearOf(d: Disk, candidates: seq<Candidate>) {
    forall i :: 0 <= i < |candidates| ==> NoneOpen(d, candidates[i].proposal.path)
  }

  ghost predicate Clear(d: Disk, clusters: seq<Cluster>) {
    forall i :: 0 <= i < |clusters| ==> ClearOf(d, clusters[i].candidates)
  }

  /** What is fixed for the whole night. */
  datatype Setup = Setup(lim: Limits, proposalOnly: bool, reliable: bool)

  /** What trying candidates came to, from the trace `a` to the trace `b`; `p` is the
      proposal that may have been installed, `clear` says that no other promotion of
      its file was open. */
  ghost predicate Tried(setup: Setup, a: seq<Disk>, b: seq<Disk>, clear: bool, p: Proposal, loop: Loop, mode: Mode) {
    && a != [] && b != [] && Kept(a, b, setup.lim)
    && var d, e := a[|a| - 1], b[|b| - 1];
    && (clear ==> CrashSafe(a, b, setup.lim, d, p))
    && OneFile(d.live, e.live, p)
    && (match loop
        case Done => mode == Evolution && e.live == d.live && NoneOpened(d, e) && (clear ==> Quiet(a, b, setup.lim))
        case Accepted(q) => q == p && mode == Promoting && e.live == d.live[p.path := p.replacement] && NoneOpened(d, e) && !setup.proposalOnly
        case Broke(_) => Halfway(setup, d, e, p, mode))
    && (setup.proposalOnly ==> b == a && mode == Evolution)
    && (setup.reliable ==> NoneOpened(d, e) && mode != SafeMode)
  }

  /** The mode in which an exception leaves the loops: the candidate is live in PROMOTING,
      and it can be live in safe mode; elsewhere the files are as they were. */
  ghost predicate Halfway(setup: Setup, d: Disk, e: Disk, p: Proposal, mode: Mode) {
    match mode
    case Evolution | Validating => e.live == d.live
    case Promoting => e.live == d.live[p.path := p.replacement] && NoneOpened(d, e)
    case SafeMode => !setup.reliable && OneFile(d.live, e.live, p)
    case _ => false
  }

  lemma TriedNothing(setup: Setup, a: seq<Disk>, clear: bool, p: Proposal)
    requires a != []
    ensures Tried(setup, a, a, clear, p, Done, Evolution)
  {
    Nothing(a, setup.lim);
    QuietIsCrashable(a, a, setup.lim, Settled(a[|a| - 1])[p.path := p.replacement]);
  }

  /** The candidates that came to nothing, and then one more. */
  lemma TriedThen(setup: Setup, a: seq<Disk>, b: seq<Disk>, c: seq<Disk>, clear: bool, p: Proposal, clearNow: bool, q: Proposal, loop: Loop, mode: Mode)
    requires Tried(setup, a, b, clear, p, Done, Evolution) && Tried(setup, b, c, clearNow, q, loop, mode) && (clear ==> clearNow)
    ensures Tried(setup, a, c, clear, q, loop, mode)
  {
    ThenKept(a, b, c, setup.lim);
    if clear {
      ThenNext(a, b, c, setup.lim, q);
      if loop == Done { ThenQuiet(a, b, c, setup.lim); }
    }
    hide Kept;
    hide Quiet;
    hide Crashable;
    hide Settled;
  }

  /** An exception after candidates that came to nothing. */
  lemma TriedBroke(setup: Setup, a: seq<Disk>, b: seq<Disk>, clear: bool, p: Proposal, ordinary: bool)
    requires Tried(setup, a, b, clear, p, Done, Evolution)
    ensures Tried(setup, a, b, clear, p, Broke(ordinary), Evolution)
  {
    hide Kept;
    hide Quiet;
    hide Crashable;
    hide Settled;
    hide NoneOpened;
  }

  /** Files stay clear while nothing new is opened. */
  lemma StaysClear(d: Disk, e: Disk, path: Path)
    requires NoneOpened(d, e) && NoneOpen(d, path)
    ensures NoneOpen(e, path)
  {
    forall id ensures !Open(e, id, path) { assert !Open(d, id, path); }
  }

  lemma StayClear(d: Disk, e: Disk, candidates: seq<Candidate>)
    requires NoneOpened(d, e) && ClearOf(d, candidates)
    ensures ClearOf(e, candidates)
  {
    forall i | 0 <= i < |candidates| ensures NoneOpen(e, candidates[i].proposal.path) {
      StaysClear(d, e, candidates[i].proposal.path);
    }
  }

  lemma TriedOpensNone(setup: Setup, a: seq<Disk>, b: seq<Disk>, clear: bool, p: Proposal, mode: Mode)
    requires Tried(setup, a, b, clear, p, Done, mode)
    ensures a != [] && b != [] && NoneOpened(a[|a| - 1], b[|b| - 1])
  {
  }

  lemma TriedEnds(setup: Setup, a: seq<Disk>, b: seq<Disk>, clear: bool, p: Proposal, loop: Loop, mode: Mode)
    requires Tried(setup, a, b, clear, p, loop, mode)
    ensures loop == Done ==> mode == Evolution
  {
  }

  /** What a promotion leaves, seen by the night. */
  lemma EndedIsTried(setup: Setup, a: seq<Disk>, b: seq<Disk>, d: Disk, meta: map<Id, Record>, p: Proposal, trial: Trial, outcome: Outcome, loop: Loop, mode: Mode)
    requires Ended(a, b, setup.lim, mode, p, trial, outcome, setup.reliable) && !setup.proposalOnly
    requires loop.Broke? || (loop == Accepted(p) && outcome == Promoted) || (loop == Done && outcome == Declined)
    requires Concluded(d, meta, setup.lim, mode, p, trial, outcome, setup.reliable)
    ensures a != [] && Tried(setup, a, b, NoneOpen(a[|a| - 1], p.path), p, loop, mode)
  {
    AccountedOpensNone(a[|a| - 1], b[|b| - 1], mode, p, trial, outcome, setup.reliable);
    hide Kept;
    hide Quiet;
    hide Crashable;
    hide Settled;
    hide NoneOpen;
    hide NoneOpened;
    hide OnlyTicket;
  }

  lemma AccountedOpensNone(d: Disk, e: Disk, mode: Mode, p: Proposal, trial: Trial, outcome: Outcome, reliable: bool)
    requires Accounted(d, e, mode, p, trial, outcome, reliable)
    ensures outcome != Threw || reliable ==> NoneOpened(d, e)
  {
  }

  // ------------------------------------------------------------------
  // What a working disk makes of a night
  // ------------------------------------------------------------------

  /** The audit write may raise after the candidate is done with. */
  function AfterAudit(c: Candidate, loop: Loop): Loop {
    if c.audit == Returned then loop else Broke(c.audit == Raised)
  }

  function AfterPromotion(c: Candidate, outcome: Outcome): Loop {
    match outcome
    case Promoted => AfterAudit(c, Accepted(c.proposal))
    case Declined => AfterAudit(c, Done)
    case Threw => Broke(c.ordinary)
  }

  ghost function CandidateDue(setup: Setup, d: Disk, c: Candidate): Loop {
    if setup.proposalOnly then
      if c.trial.policy && Sha256(if c.proposal.path in d.live then d.live[c.proposal.path] else []) == c.proposal.base
      then AfterAudit(c, Done)
      else Broke(c.ordinary)
    else AfterPromotion(c, Due(d, setup.lim, c.proposal, c.trial))
  }

  /** The cluster from candidate `k` on: the first candidate that is accepted or breaks
      decides, and else the proposer. */
  ghost function ClusterDue(setup: Setup, d: Disk, cluster: Cluster, k: nat): Stop
    requires k <= |cluster.candidates|
    decreases |cluster.candidates| - k
  {
    if k == |cluster.candidates| then Stop(if cluster.proposer == Returned then Done else Broke(cluster.proposer == Raised), k)
    else
      var loop := CandidateDue(setup, d, cluster.candidates[k]);
      if loop == Done then ClusterDue(setup, d, cluster, k + 1) else Stop(loop, k + 1)
  }

  /** The clusters from `k` on, after `count` candidates. */
  ghost function NightDue(setup: Setup, d: Disk, clusters: seq<Cluster>, k: nat, count: nat): Stop
    requires k <= |clusters|
    decreases |clusters| - k
  {
    if k == |clusters| then Stop(Done, count)
    else
      var stop := ClusterDue(setup, d, clusters[k], 0);
      if stop.loop == Done then NightDue(setup, d, clusters, k + 1, count + stop.tried) else Stop(stop.loop, count + stop.tried)
  }

  /** The candidates of the first `k` clusters, in the order in which they are tried. */
  ghost function Lined(clusters: seq<Cluster>, k: nat): seq<Candidate>
    requires k <= |clusters|
  {
    if k == 0 then [] else Lined(clusters, k - 1) + clusters[k - 1].candidates
  }

  lemma {:induction false} LinedGrows(clusters: seq<Cluster>, j: nat, k: nat)
    requires j <= k <= |clusters|
    ensures Lined(clusters, j) <= Lined(clusters, k)
  {
    if j < k { LinedGrows(clusters, j, k - 1); }
  }

  /** Exactly the first `count` candidates were tried, `p` being the last of them; all of
      them if the loops came to their end. */
  ghost predicate Counted(clusters: seq<Cluster>, count: nat, p: Proposal, loop: Loop) {
    var all := Lined(clusters, |clusters|);
    && count <= |all| && (count > 0 ==> all[count - 1].proposal == p)
    && (loop == Done ==> count == |all|) && (loop.Accepted? ==> count > 0 && loop.p == p)
  }

  /** The same within one cluster, for the candidates tried there. */
  ghost predicate CountedIn(cluster: Cluster, tried: nat, p: Proposal, loop: Loop) {
    && tried <= |cluster.candidates| && (tried > 0 ==> cluster.candidates[tried - 1].proposal == p)
    && (loop == Done ==> tried == |cluster.candidates|) && (loop.Accepted? ==> tried > 0 && loop.p == p)
  }

  /** The same while the loop over the clusters stands before cluster `k`. */
  ghost predicate Counting(clusters: seq<Cluster>, k: nat, count: nat, p: Proposal) {
    k <= |clusters| && count == |Lined(clusters, k)| && (count > 0 ==> Lined(clusters, k)[count - 1].proposal == p)
  }

  lemma CountingNext(clusters: seq<Cluster>, k: nat, count: nat, before: Proposal, tried: nat, p: Proposal, loop: Loop)
    requires Counting(clusters, k, count, before) && k < |clusters| && CountedIn(clusters[k], tried, p, loop)
    requires tried == 0 ==> p == before
    ensures loop == Done ==> Counting(clusters, k + 1, count + tried, p)
    ensures loop != Done ==> Counted(clusters, count + tried, p, loop)
  {
    var line := Lined(clusters, k + 1);
    assert line == Lined(clusters, k) + clusters[k].candidates;
    assert tried > 0 ==> line[count + tried - 1] == clusters[k].candidates[tried - 1];
    LinedGrows(clusters, k + 1, |clusters|);
  }

  lemma {:induction false} LinedIsNamed(clusters: seq<Cluster>, k: nat, n: nat)
    requires k <= |clusters| && n < |Lined(clusters, k)|
    ensures Named(Lined(clusters, k)[n].proposal, clusters)
  {
    var line := Lined(clusters, k - 1);
    if n < |line| {
      LinedIsNamed(clusters, k - 1, n);
    } else {
      assert Lined(clusters, k)[n] == clusters[k - 1].candidates[n - |line|];
      assert Proposed(clusters[k - 1].candidates[n - |line|].proposal, clusters[k - 1].candidates);
    }
  }

  lemma CountedIsNamed(clusters: seq<Cluster>, count: nat, p: Proposal, loop: Loop)
    requires Counted(clusters, count, p, loop) && count > 0
    ensures Named(p, clusters)
  {
    LinedIsNamed(clusters, |clusters|, count - 1);
  }

  /** The candidate is taken by policy and base digest; where promotions are on, it passes
      both gates, and the journal takes it. */
  ghost predicate Proven(setup: Setup, d: Disk, c: Candidate) {
    && !setup.proposalOnly && Staged(d, c.proposal, c.trial) && c.trial.regression == Passes
    && Fits(d, setup.lim, c.proposal.path, d.live[c.proposal.path], c.proposal.replacement)
    && c.trial.health == Passes && c.audit == Returned
  }

  /** The candidate is turned down by a gate, or just looked at, and the night goes on. */
  ghost predicate TurnedDown(setup: Setup, d: Disk, c: Candidate) {
    && c.audit == Returned && c.trial.policy
    && Sha256(if c.proposal.path in d.live then d.live[c.proposal.path] else []) == c.proposal.base
    && (!setup.proposalOnly ==>
          && c.proposal.path in d.live
          && (c.trial.regression == Passes ==> Fits(d, setup.lim, c.proposal.path, d.live[c.proposal.path], c.proposal.replacement))
          && (c.trial.regression == Fails || (c.trial.regression == Passes && c.trial.health == Fails)))
  }

  lemma CandidateDueIff(setup: Setup, d: Disk, c: Candidate)
    ensures CandidateDue(setup, d, c).Accepted? <==> Proven(setup, d, c)
    ensures CandidateDue(setup, d, c).Accepted? ==> CandidateDue(setup, d, c).p == c.proposal
    ensures CandidateDue(setup, d, c).Done? <==> TurnedDown(setup, d, c)
    ensures CandidateDue(setup, d, c).Broke? ==>
      var silent := c.(audit := Returned);
      var judged := Proven(setup, d, silent) || TurnedDown(setup, d, silent);
      CandidateDue(setup, d, c).ordinary == if judged then c.audit == Raised else c.ordinary
  {
    hide Fits;
  }

  ghost predicate AllDown(setup: Setup, d: Disk, line: seq<Candidate>) {
    forall i :: 0 <= i < |line| ==> TurnedDown(setup, d, line[i])
  }

  /** The first candidate that is not turned down, or a proposer that does not return. */
  ghost predicate FirstStop(setup: Setup, d: Disk, line: seq<Candidate>, loop: Loop) {
    && (forall i :: 0 <= i < |line| - 1 ==> TurnedDown(setup, d, line[i]))
    && (line != [] ==>
          var last := line[|line| - 1];
          (loop.Accepted? <==> Proven(setup, d, last)) && (loop.Accepted? ==> loop.p == last.proposal)
          && (loop.Done? ==> TurnedDown(setup, d, last)))
    && (line == [] ==> !loop.Accepted?)
  }

  lemma {:induction false} ClusterStopsFirst(setup: Setup, d: Disk, cluster: Cluster, k: nat)
    requires k <= |cluster.candidates| && forall i :: 0 <= i < k ==> TurnedDown(setup, d, cluster.candidates[i])
    ensures var stop := ClusterDue(setup, d, cluster, k);
      && stop.tried <= |cluster.candidates| && FirstStop(setup, d, cluster.candidates[..stop.tried], stop.loop)
      && (stop.loop.Done? ==> stop.tried == |cluster.candidates| && cluster.proposer == Returned)
      && (stop.loop.Broke? ==>
            || (stop.tried > 0 && !TurnedDown(setup, d, cluster.candidates[stop.tried - 1]))
            || (stop.tried == |cluster.candidates| && cluster.proposer != Returned))
    decreases |cluster.candidates| - k
  {
    if k < |cluster.candidates| {
      CandidateDueIff(setup, d, cluster.candidates[k]);
      if CandidateDue(setup, d, cluster.candidates[k]) == Done { ClusterStopsFirst(setup, d, cluster, k + 1); }
    }
    hide CandidateDue;
    hide TurnedDown;
  }

  lemma FirstStopJoins(setup: Setup, d: Disk, line: seq<Candidate>, part: seq<Candidate>, loop: Loop)
    requires AllDown(setup, d, line) && FirstStop(setup, d, part, loop)
    ensures FirstStop(setup, d, line + part, loop)
    ensures loop == Done ==> AllDown(setup, d, line + part)
  {
    var all := line + part;
    if part != [] {
      assert all[|all| - 1] == part[|part| - 1];
      assert forall i :: |line| <= i < |all| ==> all[i] == part[i - |line|];
    } else {
      assert all == line;
      assert line != [] ==> TurnedDown(setup, d, line[|line| - 1]);
    }
    hide Fits;
  }

  /** The loops end after all candidates, at one that is not turned down, or after the
      candidates of a cluster whose proposer did not return. */
  ghost predicate Stops(setup: Setup, d: Disk, clusters: seq<Cluster>, stop: Stop) {
    var all := Lined(clusters, |clusters|);
    && stop.tried <= |all| && FirstStop(setup, d, all[..stop.tried], stop.loop)
    && (stop.loop.Done? ==> stop.tried == |all| && forall i :: 0 <= i < |clusters| ==> clusters[i].proposer == Returned)
    && (stop.loop.Broke? ==>
          || (stop.tried > 0 && !TurnedDown(setup, d, all[stop.tried - 1]))
          || (exists i :: 0 <= i < |clusters| && clusters[i].proposer != Returned && stop.tried == |Lined(clusters, i + 1)|))
  }

  lemma StopsInside(setup: Setup, d: Disk, clusters: seq<Cluster>, k: nat, stop: Stop)
    requires k < |clusters| && stop == ClusterDue(setup, d, clusters[k], 0)
    requires AllDown(setup, d, Lined(clusters, k))
    ensures stop.loop != Done ==> Stops(setup, d, clusters, Stop(stop.loop, |Lined(clusters, k)| + stop.tried))
    ensures stop.loop == Done ==> clusters[k].proposer == Returned && stop.tried == |clusters[k].candidates|
    ensures stop.loop == Done ==> AllDown(setup, d, Lined(clusters, k + 1))
  {
    ClusterStopsFirst(setup, d, clusters[k], 0);
    var line, part := Lined(clusters, k), clusters[k].candidates[..stop.tried];
    FirstStopJoins(setup, d, line, part, stop.loop);
    StopInLine(clusters, k, stop.tried);
    hide ClusterDue;
    hide TurnedDown;
    hide AllDown;
    hide FirstStop;
    hide Lined;
  }

  /** Where a place in a cluster is in the whole line. */
  lemma StopInLine(clusters: seq<Cluster>, k: nat, tried: nat)
    requires k < |clusters| && tried <= |clusters[k].candidates|
    ensures var all, line := Lined(clusters, |clusters|), Lined(clusters, k);
      && |line| + tried <= |all| && all[..|line| + tried] == line + clusters[k].candidates[..tried]
      && (tried > 0 ==> all[|line| + tried - 1] == clusters[k].candidates[tried - 1])
    ensures Lined(clusters, k + 1) == Lined(clusters, k) + clusters[k].candidates
    ensures clusters[k].candidates[..|clusters[k].candidates|] == clusters[k].candidates
  {
    LinedGrows(clusters, k + 1, |clusters|);
  }

  /** A night on a working disk stops at the first candidate that proves itself, and only
      there it promotes; it comes to its end only if every candidate is turned down. */
  lemma {:induction false} NightStopsFirst(setup: Setup, d: Disk, clusters: seq<Cluster>, k: nat)
    requires k <= |clusters|
    requires AllDown(setup, d, Lined(clusters, k))
    requires forall i :: 0 <= i < k ==> clusters[i].proposer == Returned
    ensures Stops(setup, d, clusters, NightDue(setup, d, clusters, k, |Lined(clusters, k)|))
    decreases |clusters| - k
  {
    if k < |clusters| {
      var stop := ClusterDue(setup, d, clusters[k], 0);
      StopsInside(setup, d, clusters, k, stop);
      assert |Lined(clusters, k + 1)| == |Lined(clusters, k)| + |clusters[k].candidates|;
      if stop.loop == Done { NightStopsFirst(setup, d, clusters, k + 1); }
    } else {
      EndStops(setup, d, clusters);
    }
    hide ClusterDue;
    hide AllDown;
    hide Stops;
  }

  lemma EndStops(setup: Setup, d: Disk, clusters: seq<Cluster>)
    requires AllDown(setup, d, Lined(clusters, |clusters|))
    requires forall i :: 0 <= i < |clusters| ==> clusters[i].proposer == Returned
    ensures Stops(setup, d, clusters, Stop(Done, |Lined(clusters, |clusters|)|))
  {
    var all := Lined(clusters, |clusters|);
    assert all[..|all|] == all;
    assert FirstStop(setup, d, [], Done);
    FirstStopJoins(setup, d, all, [], Done);
    assert all + [] == all;
    hide TurnedDown;
    hide Proven;
    hide Lined;
  }

  /** The same from the start of a night, as `Ran` has it. */
  lemma FairNightStopsFirst(setup: Setup, d: Disk, clusters: seq<Cluster>, loop: Loop, count: nat)
    requires Fair(setup, d, clusters) && AsDue(setup, d, clusters, loop, count)
    ensures Stops(setup, d, clusters, Stop(loop, count))
  {
    NightStopsFirst(setup, d, clusters, 0);
    hide Stops;
    hide NightDue;
  }

  /** The record ids of the candidates from `k` on are new, and no id comes twice. */
  ghost predicate FreshFrom(candidates: seq<Candidate>, k: nat, used: set<Id>)
    requires k <= |candidates|
    decreases |candidates| - k
  {
    k < |candidates| ==> candidates[k].trial.id !in used && FreshFrom(candidates, k + 1, used + {candidates[k].trial.id})
  }

  ghost function UsedAfter(candidates: seq<Candidate>, k: nat, used: set<Id>): set<Id>
    requires k <= |candidates|
    decreases |candidates| - k
  {
    if k == |candidates| then used else UsedAfter(candidates, k + 1, used + {candidates[k].trial.id})
  }

  ghost predicate FreshClusters(clusters: seq<Cluster>, k: nat, used: set<Id>)
    requires k <= |clusters|
    decreases |clusters| - k
  {
    k < |clusters| ==>
      FreshFrom(clusters[k].candidates, 0, used) && FreshClusters(clusters, k + 1, UsedAfter(clusters[k].candidates, 0, used))
  }

  /** All steps of the disk work, and the journal has room for the new records of the night. */
  ghost predicate Fair(setup: Setup, d: Disk, clusters: seq<Cluster>) {
    setup.reliable && Room(d.meta, setup.lim) && FreshClusters(clusters, 0, d.meta.Keys)
  }

  /** The loops end as is due. */
  ghost predicate AsDue(setup: Setup, d: Disk, clusters: seq<Cluster>, loop: Loop, count: nat) {
    Fair(setup, d, clusters) ==> NightDue(setup, d, clusters, 0, 0) == Stop(loop, count)
  }

  /** Candidates that came to nothing left the disk `e` of `d`: what is due stays due. */
  ghost predicate Steady(setup: Setup, d: Disk, e: Disk, used: set<Id>) {
    e.live == d.live && Room(d.meta, setup.lim) && Room(e.meta, setup.lim) && e.meta.Keys <= used
  }

  lemma SteadyDue(setup: Setup, d: Disk, e: Disk, used: set<Id>, c: Candidate)
    requires Steady(setup, d, e, used)
    ensures CandidateDue(setup, e, c) == CandidateDue(setup, d, c)
  {
    hide Room;
  }

  /** One candidate came to nothing on a working disk. */
  ghost predicate Passed(setup: Setup, d: Disk, e: Disk, c: Candidate, loop: Loop) {
    && (setup.reliable && c.trial.id !in d.meta ==> loop == CandidateDue(setup, d, c))
    && (loop == Done ==> e.live == d.live && e.meta.Keys <= d.meta.Keys + {c.trial.id} && (Room(d.meta, setup.lim) ==> Room(e.meta, setup.lim)))
  }

  lemma EndedIsAccounted(a: seq<Disk>, b: seq<Disk>, lim: Limits, mode: Mode, p: Proposal, trial: Trial, outcome: Outcome, reliable: bool)
    requires Ended(a, b, lim, mode, p, trial, outcome, reliable)
    ensures a != [] && b != [] && Accounted(a[|a| - 1], b[|b| - 1], mode, p, trial, outcome, reliable)
  {
    hide Accounted;
  }

  lemma EndedIsPassed(setup: Setup, d: Disk, e: Disk, meta: map<Id, Record>, c: Candidate, outcome: Outcome, loop: Loop, mode: Mode)
    requires !setup.proposalOnly && Accounted(d, e, mode, c.proposal, c.trial, outcome, setup.reliable)
    requires Concluded(d, meta, setup.lim, mode, c.proposal, c.trial, outcome, setup.reliable)
    requires loop == AfterPromotion(c, outcome)
    ensures Passed(setup, d, e, c, loop)
  {
    hide Due;
    hide Reaches;
    hide Halts;
    hide NoneOpened;
  }

  lemma PassedSteady(setup: Setup, d: Disk, e: Disk, e2: Disk, used: set<Id>, c: Candidate, loop: Loop)
    requires setup.reliable && Steady(setup, d, e, used) && Passed(setup, e, e2, c, loop) && c.trial.id !in used
    ensures loop == CandidateDue(setup, d, c)
    ensures loop == Done ==> Steady(setup, d, e2, used + {c.trial.id})
  {
    SteadyDue(setup, d, e, used, c);
    hide CandidateDue;
    hide Room;
  }

  /** The loop over one cluster, before candidate `k`: what is due from here is what was
      due, if the disk works. */
  ghost predicate Tracks(setup: Setup, d: Disk, e: Disk, cluster: Cluster, k: nat, used0: set<Id>, used: set<Id>) {
    && k <= |cluster.candidates|
    && (setup.reliable && Room(d.meta, setup.lim) && d.meta.Keys <= used0 && FreshFrom(cluster.candidates, 0, used0) ==>
          && Steady(setup, d, e, used) && FreshFrom(cluster.candidates, k, used)
          && UsedAfter(cluster.candidates, k, used) == UsedAfter(cluster.candidates, 0, used0)
          && ClusterDue(setup, d, cluster, k) == ClusterDue(setup, d, cluster, 0))
  }

  lemma TracksNext(setup: Setup, d: Disk, e: Disk, e2: Disk, cluster: Cluster, k: nat, used0: set<Id>, used: set<Id>, loop: Loop)
    requires Tracks(setup, d, e, cluster, k, used0, used) && k < |cluster.candidates|
    requires Passed(setup, e, e2, cluster.candidates[k], loop)
    ensures loop == Done ==> Tracks(setup, d, e2, cluster, k + 1, used0, used + {cluster.candidates[k].trial.id})
    ensures loop != Done ==> ClusterPassed(setup, d, e2, cluster, used0, loop, k + 1)
  {
    if setup.reliable && Room(d.meta, setup.lim) && d.meta.Keys <= used0 && FreshFrom(cluster.candidates, 0, used0) {
      PassedSteady(setup, d, e, e2, used, cluster.candidates[k], loop);
    }
    hide CandidateDue;
    hide Room;
    hide Passed;
    hide Steady;
  }

  lemma TracksStart(setup: Setup, d: Disk, cluster: Cluster, used: set<Id>)
    ensures Tracks(setup, d, d, cluster, 0, used, used)
  {
    hide Room;
    hide FreshFrom;
  }

  lemma TracksEnd(setup: Setup, d: Disk, e: Disk, cluster: Cluster, used0: set<Id>, used: set<Id>)
    requires Tracks(setup, d, e, cluster, |cluster.candidates|, used0, used)
    ensures cluster.proposer == Returned ==> ClusterPassed(setup, d, e, cluster, used0, Done, |cluster.candidates|)
    ensures cluster.proposer != Returned ==>
      ClusterPassed(setup, d, e, cluster, used0, Broke(cluster.proposer == Raised), |cluster.candidates|)
  {
    hide Room;
    hide Steady;
  }

  lemma TracksAllStart(setup: Setup, d: Disk, clusters: seq<Cluster>)
    ensures TracksAll(setup, d, d, clusters, 0, 0, d.meta.Keys)
  {
    hide Room;
    hide FreshClusters;
    hide NightDue;
  }

  lemma TracksAllEnd(setup: Setup, d: Disk, e: Disk, clusters: seq<Cluster>, count: nat, used: set<Id>)
    requires TracksAll(setup, d, e, clusters, |clusters|, count, used)
    ensures AsDue(setup, d, clusters, Done, count)
  {
    hide Fair;
    hide Steady;
  }

  /** What a cluster came to, as the loop over the clusters sees it. */
  ghost predicate ClusterPassed(setup: Setup, d: Disk, e: Disk, cluster: Cluster, used: set<Id>, loop: Loop, tried: nat) {
    setup.reliable && Room(d.meta, setup.lim) && d.meta.Keys <= used && FreshFrom(cluster.candidates, 0, used) ==>
      && ClusterDue(setup, d, cluster, 0) == Stop(loop, tried)
      && (loop == Done ==> Steady(setup, d, e, UsedAfter(cluster.candidates, 0, used)))
  }

  lemma SteadyCluster(setup: Setup, d: Disk, e: Disk, used: set<Id>, cluster: Cluster, k: nat)
    requires Steady(setup, d, e, used) && k <= |cluster.candidates|
    ensures ClusterDue(setup, e, cluster, k) == ClusterDue(setup, d, cluster, k)
    decreases |cluster.candidates| - k
  {
    if k < |cluster.candidates| {
      SteadyDue(setup, d, e, used, cluster.candidates[k]);
      SteadyCluster(setup, d, e, used, cluster, k + 1);
    }
    hide Steady;
    hide CandidateDue;
  }

  /** The loop over the clusters, before cluster `k`. */
  ghost predicate TracksAll(setup: Setup, d: Disk, e: Disk, clusters: seq<Cluster>, k: nat, count: nat, used: set<Id>) {
    && k <= |clusters|
    && (Fair(setup, d, clusters) ==>
          && Steady(setup, d, e, used) && FreshClusters(clusters, k, used)
          && NightDue(setup, d, clusters, k, count) == NightDue(setup, d, clusters, 0, 0))
  }

  lemma TracksAllNext(setup: Setup, d: Disk, e: Disk, e2: Disk, clusters: seq<Cluster>, k: nat, count: nat, used: set<Id>, loop: Loop, tried: nat)
    requires TracksAll(setup, d, e, clusters, k, count, used) && k < |clusters|
    requires ClusterPassed(setup, e, e2, clusters[k], used, loop, tried)
    ensures loop == Done ==> TracksAll(setup, d, e2, clusters, k + 1, count + tried, UsedAfter(clusters[k].candidates, 0, used))
    ensures loop != Done ==> AsDue(setup, d, clusters, loop, count + tried)
  {
    if Fair(setup, d, clusters) { ClusterStops(setup, d, e, e2, clusters, k, count, used, loop, tried); }
    hide NightDue;
    hide FreshClusters;
    hide ClusterDue;
    hide ClusterPassed;
    hide Steady;
    hide Fair;
    hide UsedAfter;
    hide FreshFrom;
  }

  lemma ClusterStops(setup: Setup, d: Disk, e: Disk, e2: Disk, clusters: seq<Cluster>, k: nat, count: nat, used: set<Id>, loop: Loop, tried: nat)
    requires k < |clusters| && Fair(setup, d, clusters) && Steady(setup, d, e, used) && FreshClusters(clusters, k, used)
    requires ClusterPassed(setup, e, e2, clusters[k], used, loop, tried)
    ensures NightDue(setup, d, clusters, k, count) ==
      if loop == Done then NightDue(setup, d, clusters, k + 1, count + tried) else Stop(loop, count + tried)
    ensures FreshClusters(clusters, k + 1, UsedAfter(clusters[k].candidates, 0, used))
    ensures loop == Done ==> Steady(setup, d, e2, UsedAfter(clusters[k].candidates, 0, used))
  {
    SteadyCluster(setup, d, e, used, clusters[k], 0);
    hide ClusterDue;
    hide Room;
    hide UsedAfter;
    hide FreshFrom;
  }

  class SelfHarness {
    const rhythm: RhythmController
    const patcher: JournaledHarnessPatcher
    const fs: FileSystem
    const proposalOnly: bool

    constructor (patcher: JournaledHarnessPatcher, proposalOnly: bool)
      ensures this.patcher == patcher && rhythm == patcher.rhythm && fs == patcher.fs && this.proposalOnly == proposalOnly
    {
      this.patcher, this.proposalOnly, rhythm, fs := patcher, proposalOnly, patcher.rhythm, patcher.fs;
    }

    ghost predicate Ready()
      reads this, patcher, patcher.journal, patcher.journal.fs
    {
      fs == patcher.fs && rhythm == patcher.rhythm && patcher.Ready()
    }

    ghost function Setting(): Setup {
      Setup(patcher.journal.limits, proposalOnly, fs.reliable)
    }

    /** One candidate that is promoted if it proves itself. */
    method Promote(c: Candidate) returns (loop: Loop)
      requires Ready() && rhythm.mode == Evolution && !proposalOnly
      modifies rhythm, fs
      ensures Ready() && rhythm.Counters() == old(rhythm.Counters())
      ensures Tried(Setting(), old(fs.trace), fs.trace, old(NoneOpen(fs.View(), c.proposal.path)), c.proposal, loop, rhythm.mode)
      ensures Passed(Setting(), old(fs.View()), fs.View(), c, loop)
    {
      ghost var a, d := fs.trace, fs.View();
      assert a != [] && a[|a| - 1] == d;
      hide Ended;
      hide Tried;
      hide Passed;
      hide NoneOpen;
      hide Concluded;
      var outcome := patcher.ValidateAndPromote(c.proposal, c.trial);
      loop := if outcome == Threw then Broke(c.ordinary)
              else if c.audit != Returned then Broke(c.audit == Raised)
              else if outcome == Promoted then Accepted(c.proposal)
              else Done;
      assert loop == AfterPromotion(c, outcome);
      hide Travelled;
      hide AfterPromotion;
      EndedIsTried(Setting(), a, fs.trace, d, fs.meta, c.proposal, c.trial, outcome, loop, rhythm.mode);
      patcher.LastIsView();
      EndedIsAccounted(a, fs.trace, patcher.journal.limits, rhythm.mode, c.proposal, c.trial, outcome, fs.reliable);
      hide Accounted;
      EndedIsPassed(Setting(), d, fs.View(), fs.meta, c, outcome, loop, rhythm.mode);
    }

    /** One candidate of the inner loop. */
    method TryCandidate(c: Candidate) returns (loop: Loop)
      requires Ready() && rhythm.mode == Evolution
      modifies rhythm, fs
      ensures Ready() && rhythm.Counters() == old(rhythm.Counters())
      ensures Tried(Setting(), old(fs.trace), fs.trace, old(NoneOpen(fs.View(), c.proposal.path)), c.proposal, loop, rhythm.mode)
      ensures Passed(Setting(), old(fs.View()), fs.View(), c, loop)
    {
      if !proposalOnly {
        loop := Promote(c);
        return;
      }
      ghost var clear := NoneOpen(fs.View(), c.proposal.path);
      TriedNothing(Setting(), fs.trace, clear, c.proposal);
      hide Tried;
      hide Room;
      var ok, _ := patcher.CheckProposal(c.proposal, c.trial);
      loop := if !ok then Broke(c.ordinary) else if c.audit == Returned then Done else Broke(c.audit == Raised);
      if loop.Broke? { TriedBroke(Setting(), fs.trace, fs.trace, clear, c.proposal, loop.ordinary); }
    }

    /** The loop over one cluster: stops at the first accepted candidate or exception. */
    method TryCluster(cluster: Cluster, ghost used0: set<Id>) returns (loop: Loop, count: nat, ghost p: Proposal)
      requires Ready() && rhythm.mode == Evolution
      modifies rhythm, fs
      ensures Ready() && rhythm.Counters() == old(rhythm.Counters())
      ensures Tried(Setting(), old(fs.trace), fs.trace, old(ClearOf(fs.View(), cluster.candidates)), p, loop, rhythm.mode)
      ensures CountedIn(cluster, count, p, loop)
      ensures count == 0 ==> fs.trace == old(fs.trace) && rhythm.mode == Evolution
      ensures loop == Done ==> cluster.proposer == Returned
      ensures ClusterPassed(Setting(), old(fs.View()), fs.View(), cluster, used0, loop, count)
    {
      ghost var d, a, clear := fs.View(), fs.trace, ClearOf(fs.View(), cluster.candidates);
      ghost var used := used0;
      loop, count, p := Done, 0, Proposal("", Sha256([]), []);
      TriedNothing(Setting(), a, clear, p);
      TracksStart(Setting(), d, cluster, used0);
      hide Tried;
      hide Tracks;
      hide ClusterPassed;
      hide Setting;
      hide Ready;
      hide NoneOpened;
      while count < |cluster.candidates|
        invariant 0 <= count <= |cluster.candidates| && loop == Done
        invariant Ready() && rhythm.mode == Evolution && rhythm.Counters() == old(rhythm.Counters())
        invariant Tried(Setting(), a, fs.trace, clear, p, Done, Evolution)
        invariant Tracks(Setting(), d, fs.View(), cluster, count, used0, used)
        invariant if count > 0 then cluster.candidates[count - 1].proposal == p else fs.trace == a
      {
        loop, p, used := TryNext(cluster, count, d, a, clear, p, used0, used);
        count := count + 1;
        if loop != Done { return; }
      }
      TracksEnd(Setting(), d, fs.View(), cluster, used0, used);
      if cluster.proposer != Returned {
        loop := Broke(cluster.proposer == Raised);
        TriedBroke(Setting(), a, fs.trace, clear, p, loop.ordinary);
      }
    }

    /** One turn of that loop. */
    method TryNext(cluster: Cluster, k: nat, ghost d: Disk, ghost a: seq<Disk>, ghost clear: bool, ghost before: Proposal,
                   ghost used0: set<Id>, ghost used: set<Id>)
      returns (loop: Loop, ghost p: Proposal, ghost more: set<Id>)
      requires Ready() && rhythm.mode == Evolution && k < |cluster.candidates|
      requires a != [] && a[|a| - 1] == d && (clear ==> ClearOf(d, cluster.candidates))
      requires Tried(Setting(), a, fs.trace, clear, before, Done, Evolution)
      requires Tracks(Setting(), d, fs.View(), cluster, k, used0, used)
      modifies rhythm, fs
      ensures Ready() && rhythm.Counters() == old(rhythm.Counters())
      ensures Tried(Setting(), a, fs.trace, clear, p, loop, rhythm.mode)
      ensures loop == Done ==> rhythm.mode == Evolution
      ensures loop == Done ==> Tracks(Setting(), d, fs.View(), cluster, k + 1, used0, more)
      ensures loop != Done ==> ClusterPassed(Setting(), d, fs.View(), cluster, used0, loop, k + 1)
      ensures p == cluster.candidates[k].proposal && (loop.Accepted? ==> loop.p == p)
    {
      ghost var e, b := fs.View(), fs.trace;
      TriedOpensNone(Setting(), a, b, clear, before, Evolution);
      assert b[|b| - 1] == e;
      if clear { StayClear(d, e, cluster.candidates); }
      p := cluster.candidates[k].proposal;
      more := used + {cluster.candidates[k].trial.id};
      ghost var now := NoneOpen(e, p.path);
      hide NoneOpen;
      hide NoneOpened;
      hide Passed;
      hide Tracks;
      hide Tried;
      loop := TryCandidate(cluster.candidates[k]);
      TriedThen(Setting(), a, b, fs.trace, clear, before, now, p, loop, rhythm.mode);
      TriedEnds(Setting(), a, fs.trace, clear, p, loop, rhythm.mode);
      TracksNext(Setting(), d, e, fs.View(), cluster, k, used0, used, loop);
    }

    /** The loop over the clusters. */
    method TryAll(clusters: seq<Cluster>) returns (loop: Loop, count: nat, ghost p: Proposal)
      requires Ready() && rhythm.mode == Evolution
      modifies rhythm, fs
      ensures Ready() && rhythm.Counters() == old(rhythm.Counters())
      ensures Tried(Setting(), old(fs.trace), fs.trace, old(Clear(fs.View(), clusters)), p, loop, rhythm.mode)
      ensures Counted(clusters, count, p, loop) && (count == 0 ==> fs.trace == old(fs.trace))
      ensures AsDue(Setting(), old(fs.View()), clusters, loop, count)
    {
      ghost var d, a := fs.View(), fs.trace;
      ghost var clear := Clear(d, clusters);
      assert a != [] && a[|a| - 1] == d;
      p := Proposal("", Sha256([]), []);
      TriedNothing(Setting(), a, clear, p);
      TracksAllStart(Setting(), d, clusters);
      hide Tried;
      hide TracksAll;
      hide AsDue;
      ghost var used;
      loop, count, p, used := TryClusters(clusters, d, a, clear, p, d.meta.Keys);
      if loop == Done { TracksAllEnd(Setting(), d, fs.View(), clusters, count, used); }
    }

    method TryClusters(clusters: seq<Cluster>, ghost d: Disk, ghost a: seq<Disk>, ghost clear: bool, ghost p0: Proposal, ghost used0: set<Id>)
      returns (loop: Loop, count: nat, ghost p: Proposal, ghost used: set<Id>)
      requires Ready() && rhythm.mode == Evolution && fs.trace == a
      requires a != [] && a[|a| - 1] == d && (clear ==> Clear(d, clusters))
      requires Tried(Setting(), a, fs.trace, clear, p0, Done, Evolution) && Counting(clusters, 0, 0, p0)
      requires TracksAll(Setting(), d, fs.View(), clusters, 0, 0, used0)
      modifies rhythm, fs
      ensures Ready() && rhythm.Counters() == old(rhythm.Counters())
      ensures Tried(Setting(), a, fs.trace, clear, p, loop, rhythm.mode)
      ensures Counted(clusters, count, p, loop) && (count == 0 ==> fs.trace == a)
      ensures if loop == Done then TracksAll(Setting(), d, fs.View(), clusters, |clusters|, count, used) else AsDue(Setting(), d, clusters, loop, count)
    {
      hide Tried;
      hide TracksAll;
      hide AsDue;
      hide Clear;
      hide Lined;
      hide Setting;
      hide Ready;
      loop, count, p, used := Done, 0, p0, used0;
      var k := 0;
      while k < |clusters|
        invariant 0 <= k <= |clusters| && loop == Done
        invariant Ready() && rhythm.mode == Evolution && rhythm.Counters() == old(rhythm.Counters())
        invariant Tried(Setting(), a, fs.trace, clear, p, Done, Evolution)
        invariant TracksAll(Setting(), d, fs.View(), clusters, k, count, used)
        invariant Counting(clusters, k, count, p) && (count == 0 ==> fs.trace == a)
      {
        var tried;
        loop, tried, p, used := TryNextCluster(clusters, k, count, d, a, clear, p, used);
        count := count + tried;
        if loop != Done { return; }
        k := k + 1;
      }
    }

    /** One turn of that loop. */
    method TryNextCluster(clusters: seq<Cluster>, k: nat, ghost count: nat, ghost d: Disk, ghost a: seq<Disk>, ghost clear: bool, ghost before: Proposal,
                          ghost used: set<Id>)
      returns (loop: Loop, tried: nat, ghost p: Proposal, ghost more: set<Id>)
      requires Ready() && rhythm.mode == Evolution && k < |clusters|
      requires a != [] && a[|a| - 1] == d && (clear ==> Clear(d, clusters))
      requires Tried(Setting(), a, fs.trace, clear, before, Done, Evolution)
      requires TracksAll(Setting(), d, fs.View(), clusters, k, count, used) && Counting(clusters, k, count, before)
      modifies rhythm, fs
      ensures Ready() && rhythm.Counters() == old(rhythm.Counters())
      ensures Tried(Setting(), a, fs.trace, clear, p, loop, rhythm.mode)
      ensures loop == Done ==> rhythm.mode == Evolution
      ensures loop == Done ==> TracksAll(Setting(), d, fs.View(), clusters, k + 1, count + tried, more)
      ensures loop != Done ==> AsDue(Setting(), d, clusters, loop, count + tried)
      ensures if loop == Done then Counting(clusters, k + 1, count + tried, p) else Counted(clusters, count + tried, p, loop)
      ensures tried == 0 ==> fs.trace == old(fs.trace)
    {
      ghost var e, b := fs.View(), fs.trace;
      TriedOpensNone(Setting(), a, b, clear, before, Evolution);
      assert b[|b| - 1] == e;
      if clear { StayClear(d, e, clusters[k].candidates); }
      ghost var now := ClearOf(e, clusters[k].candidates);
      more := UsedAfter(clusters[k].candidates, 0, used);
      hide ClearOf;
      hide NoneOpened;
      hide TracksAll;
      hide ClusterPassed;
      hide AsDue;
      hide Counting;
      hide Counted;
      hide Tried;
      ghost var q;
      loop, tried, q := TryCluster(clusters[k], used);
      p := if tried > 0 then q else before;
      if tried > 0 {
        TriedThen(Setting(), a, b, fs.trace, clear, before, now, p, loop, rhythm.mode);
      } else if loop.Broke? {
        TriedBroke(Setting(), a, b, clear, before, loop.ordinary);
      }
      TriedEnds(Setting(), a, fs.trace, clear, p, loop, rhythm.mode);
      TracksAllNext(Setting(), d, e, fs.View(), clusters, k, count, used, loop, tried);
      CountingNext(clusters, k, count, before, tried, p, loop);
    }

    /** The handler of `run_night_cycle`; nothing happens when its own audit write raises. */
    method Handle(audit: Ending)
      requires rhythm.activeEvolutionTasks == 0
      modifies rhythm
      ensures rhythm.Counters() == old(rhythm.Counters())
      ensures Travelled(old(rhythm.View()), rhythm.View(), if audit == Returned then DayPath(old(rhythm.mode)) else [])
    {
      if audit != Returned { return; }
      if rhythm.mode == Validating || rhythm.mode == Promoting {
        var _ := rhythm.TransitionTo(RollingBack);
        var _ := rhythm.TransitionTo(Inference);
      } else if rhythm.mode == Evolution {
        var _ := rhythm.ResumeInference();
      } else if rhythm.mode == RollingBack {
        var _ := rhythm.TransitionTo(Inference);
      }
    }

    /** After the loops: resume the day, or handle the exception. */
    method Leave(loop: Loop, count: nat, audit: Ending) returns (exit: Exit)
      requires rhythm.activeEvolutionTasks == 0
      requires loop.Broke? || rhythm.mode == Evolution || rhythm.mode == Promoting
      modifies rhythm
      ensures rhythm.Counters() == old(rhythm.Counters())
      ensures exit == if loop.Broke? then RaisedInside(loop.ordinary) else Finished(loop.Accepted?, count)
      ensures Travelled(old(rhythm.View()), rhythm.View(), HomePath(loop, audit, old(rhythm.mode)))
    {
      match loop
      case Broke(ordinary) =>
        exit := RaisedInside(ordinary);
        if ordinary { Handle(audit); }
      case _ =>
        var _ := rhythm.ResumeInference();
        exit := Finished(loop.Accepted?, count);
    }

    /** The part of `run_night_cycle` inside the `try`. */
    method TryNight(night: Night) returns (exit: Exit, ghost p: Proposal)
      requires Ready() && rhythm.mode == Evolution && rhythm.activeEvolutionTasks == 0
      modifies rhythm, fs
      ensures Ready() && rhythm.Counters() == old(rhythm.Counters())
      ensures exit.Finished? || exit.RaisedInside?
      ensures Ran(Setting(), old(fs.trace), fs.trace, night, exit, p, rhythm.mode)
    {
      ghost var d, a, clear := fs.View(), fs.trace, Clear(fs.View(), night.clusters);
      assert a != [] && a[|a| - 1] == d;
      hide Clear;
      hide Tried;
      hide Ran;
      hide AsDue;
      hide Counted;
      hide Arrival;
      hide HomePath;
      hide Legs;
      var _ := rhythm.OpenEvolutionSlot();
      var loop, count;
      loop, count, p := TryAll(night.clusters);
      rhythm.CloseEvolutionSlot();
      var mode := rhythm.mode;
      TriedModes(Setting(), a, fs.trace, clear, p, loop, mode);
      exit := Leave(loop, count, night.errorAudit);
      TriedIsRan(Setting(), a, fs.trace, night, p, loop, count, mode, exit, rhythm.mode);
    }

    /** `run_night_cycle`. `p` is the proposal that may have been installed. */
    method RunNightCycle(night: Night) returns (exit: Exit, ghost p: Proposal)
      requires Ready() && Exclusive(rhythm.View())
      modifies rhythm, fs
      ensures Ready() && Exclusive(rhythm.View())
      ensures Slept(Setting(), old(fs.trace), fs.trace, night, old(rhythm.View()), exit, p, rhythm.View())
      // the night requests no mode change that is refused once it has started
      ensures exit != NotEntered ==> rhythm.refused == old(rhythm.refused)
    {
      ghost var from, a, setup := rhythm.View(), fs.trace, Setting();
      patcher.LastIsView();
      p := Proposal("", Sha256([]), []);
      TriedNothing(setup, a, Clear(fs.View(), night.clusters), p);
      NothingRan(setup, a, night, p);
      hide Ran;
      hide Tried;
      hide Slept;
      var entered := Enter(night);
      if !entered || night.log != Returned {
        exit := if entered then LogFailed else NotEntered;
        RanIsSlept(setup, a, a, night, from, exit, p, rhythm.View());
        return;
      }
      exit, p := TryNight(night);
      RanIsSlept(setup, a, fs.trace, night, from, exit, p, rhythm.View());
    }

    /** `enter_evolution`, as the night sees it. */
    method Enter(night: Night) returns (entered: bool)
      requires Exclusive(rhythm.View())
      modifies rhythm
      ensures entered <==> Entered(old(rhythm.View()), night)
      ensures Exclusive(rhythm.View()) && Travelled(old(rhythm.View()), rhythm.View(), NightPath(old(rhythm.View()), night.checkpoint))
      ensures entered ==> rhythm.mode == Evolution && rhythm.refused == old(rhythm.refused) && rhythm.activeEvolutionTasks == 0
    {
      entered := rhythm.EnterEvolution(night.checkpoint);
    }
  }

  /** The night is entered. */
  predicate Entered(from: Controller, night: Night) {
    from.mode == Inference && from.requests == 0 && night.checkpoint == Returned
  }

  /** What a night guarantees, from the trace `a` to the trace `b` and from the mode and
      counters `from` to those in `to`, however it ended. */
  ghost predicate Slept(setup: Setup, a: seq<Disk>, b: seq<Disk>, night: Night, from: Controller, exit: Exit, p: Proposal, to: Controller) {
    && Ran(setup, a, b, night, exit, p, to.mode)
    && to.requests == from.requests && to.tasks == from.tasks
    // the night is entered, and its log is read, exactly when nothing stands against it
    && (exit == NotEntered <==> !Entered(from, night))
    && (exit == LogFailed <==> Entered(from, night) && night.log != Returned)
    // a night that is not entered, or whose log is not read, leaves the modes of that path
    && (exit == NotEntered || exit == LogFailed ==> Travelled(from, to, NightPath(from, night.checkpoint)))
    && (exit.Finished? ==> to.tasks == 0)
  }

  /** The part of this that is about the files. */
  ghost predicate Ran(setup: Setup, a: seq<Disk>, b: seq<Disk>, night: Night, exit: Exit, p: Proposal, mode: Mode) {
    && a != [] && b != [] && Kept(a, b, setup.lim)
    && var d, e := a[|a| - 1], b[|b| - 1];
    // a crash anywhere in the night recovers to the old files, or to them with one candidate
    && (Clear(d, night.clusters) ==> CrashSafe(a, b, setup.lim, d, p))
    // at most one live file changes, to a proposed content; none in proposal-only mode
    && OneFile(d.live, e.live, p)
    && (b == a || Named(p, night.clusters))
    && (setup.proposalOnly ==> b == a)
    // an open record is left behind only by an exception, and only where file steps fail
    && (exit.Finished? || setup.reliable ==> NoneOpened(d, e))
    && match exit
       case Finished(promoted, proposals) =>
         && mode == Inference && e.live == (if promoted then d.live[p.path := p.replacement] else d.live) && (promoted ==> !setup.proposalOnly)
         && Counted(night.clusters, proposals, p, if promoted then Accepted(p) else Done)
         && AsDue(setup, d, night.clusters, if promoted then Accepted(p) else Done, proposals)
       case RaisedInside(ordinary) =>
         && (if ordinary && night.errorAudit == Returned
             then mode == Inference || (mode == SafeMode && !setup.reliable)
             else Halfway(setup, d, e, p, mode))
         && (Fair(setup, d, night.clusters) ==> NightDue(setup, d, night.clusters, 0, 0).loop == Broke(ordinary))
       case _ => b == a
  }

  lemma RanIsSlept(setup: Setup, a: seq<Disk>, b: seq<Disk>, night: Night, from: Controller, exit: Exit, p: Proposal, to: Controller)
    requires Ran(setup, a, b, night, exit, p, to.mode) && to.requests == from.requests && to.tasks == from.tasks
    requires exit == NotEntered <==> !Entered(from, night)
    requires exit == LogFailed <==> Entered(from, night) && night.log != Returned
    requires exit == NotEntered || exit == LogFailed ==> Travelled(from, to, NightPath(from, night.checkpoint))
    requires exit != NotEntered ==> to.tasks == 0
    ensures Slept(setup, a, b, night, from, exit, p, to)
  {
    hide Ran;
  }

  lemma NothingRan(setup: Setup, a: seq<Disk>, night: Night, p: Proposal)
    requires a != [] && Tried(setup, a, a, Clear(a[|a| - 1], night.clusters), p, Done, Evolution)
    ensures forall mode :: Ran(setup, a, a, night, NotEntered, p, mode) && Ran(setup, a, a, night, LogFailed, p, mode)
  {
  }

  lemma TriedModes(setup: Setup, a: seq<Disk>, b: seq<Disk>, clear: bool, p: Proposal, loop: Loop, mode: Mode)
    requires Tried(setup, a, b, clear, p, loop, mode)
    ensures loop.Broke? || mode == Evolution || mode == Promoting
    ensures mode == SafeMode ==> loop.Broke? && !setup.reliable
  {
  }

  lemma TriedIsRan(setup: Setup, a: seq<Disk>, b: seq<Disk>, night: Night, p: Proposal, loop: Loop, count: nat, before: Mode, exit: Exit, mode: Mode)
    requires a != [] && AsDue(setup, a[|a| - 1], night.clusters, loop, count)
    requires Tried(setup, a, b, Clear(a[|a| - 1], night.clusters), p, loop, before)
    requires Counted(night.clusters, count, p, loop) && (count == 0 ==> b == a)
    requires exit == if loop.Broke? then RaisedInside(loop.ordinary) else Finished(loop.Accepted?, count)
    requires mode == Arrival(before, HomePath(loop, night.errorAudit, before))
    ensures Ran(setup, a, b, night, exit, p, mode)
  {
    if count > 0 { CountedIsNamed(night.clusters, count, p, loop); }
    hide Lined;
    hide Kept;
    hide Quiet;
    hide CrashSafe;
    hide Clear;
    hide Named;
    hide NoneOpened;
    hide Fair;
    hide NightDue;
  }

  /** The way back to the day after an exception; there is none out of safe mode. */
  function DayPath(mode: Mode): seq<Mode> {
    match mode
    case Validating | Promoting => [RollingBack, Inference]
    case Evolution | RollingBack => [Inference]
    case _ => []
  }

  /** The way on after the loops: the handler sees an ordinary exception only, and does
      nothing when its own audit write raises. */
  function HomePath(loop: Loop, audit: Ending, mode: Mode): seq<Mode> {
    if !loop.Broke? then [Inference] else if loop.ordinary && audit == Returned then DayPath(mode) else []
  }

  /** `p` is one of the candidates of one of the clusters. */
  ghost predicate Named(p: Proposal, clusters: seq<Cluster>) {
    exists i :: 0 <= i < |clusters| && Proposed(p, clusters[i].candidates)
  }
}
