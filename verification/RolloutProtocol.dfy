/**
 The rollout state machine over whole runs: rollouts, reconcile passes, device
 reports, resumes and cancels of any number of deploys, in any order.
 */
module RolloutProtocol {
  import opened Optional
  import opened DeployModel
  import opened BatchRules
  import opened DeploySpec

  /** The store, and what happened so far: to whom each deploy sent a command, and which deploys were resumed. */
  datatype Sys = Sys(db: Db, attempted: map<DeployId, set<DeviceId>>, resumed: set<DeployId>)

  const EMPTY := Sys(Db(map[], map[]), map[], {})

  datatype Step =
    | Rollout(d: DeployId, driver: string, version: string, sequence: int, devices: seq<DeviceId>, down: set<DeviceId>,
              now: Time)
    | Reconcile(d: DeployId, found: bool, down: set<DeviceId>, now: Time)
    | Tagged(d: DeployId, device: DeviceId, sequence: int, status: Status, now: Time)
    | Untagged(d: DeployId, device: DeviceId, status: Status, now: Time)
    | Resume(d: DeployId, now: Time)
    | Cancel(d: DeployId)

  predicate Reportable(status: Status) { status.Succeeded? || status.Failed? || status.Downloading? }

  /** A step that is possible: reconcile takes the deploys that are listed as active. */
  ghost predicate Enabled(s: Sys, l: Step) {
    match l
    case Rollout(d, _, _, _, devices, _, _) =>
      d !in s.db.deploys && devices != [] && forall i, j :: 0 <= i < j < |devices| ==> devices[i] != devices[j]
    case Reconcile(d, found, _, _) =>
      && d in s.db.deploys && s.db.deploys[d].state.InProgress?
      && (found ==> d in s.db.targets && forall t :: t in s.db.targets[d] ==> t.sequence != 0)
    case Tagged(d, device, sequence, status, _) =>
      sequence > 0 && Reportable(status) && Picks(s.db, device, sequence, status, d)
    case Untagged(d, device, status, _) => Reportable(status) && IsLatest(s.db, device, d)
    case Resume(d, _) => d in s.db.deploys && s.db.deploys[d].state.Paused?
    case Cancel(d) => d in s.db.deploys && (s.db.deploys[d].state.InProgress? || s.db.deploys[d].state.Paused?)
  }

  function Members(ds: seq<DeviceId>): set<DeviceId> { set x | x in ds }

  function AttemptedOf(s: Sys, d: DeployId): set<DeviceId> { if d in s.attempted then s.attempted[d] else {} }

  function Next(s: Sys, o: DeployModel.Options, l: Step): Sys
    requires l.Rollout? || (l.d in s.db.deploys && l.d in s.db.targets)
  {
    var d := l.d;
    match l
    case Rollout(_, driver, version, sequence, devices, down, now) =>
      s.(db := RolledOut(s.db, o, d, driver, version, sequence, devices, down, now),
         attempted := s.attempted[d := Members(RolloutSent(devices, o, sequence))])
    case Reconcile(_, found, down, now) =>
      s.(db := Reconciled(s.db, o, d, found, down, now),
         attempted := s.attempted[d :=
           AttemptedOf(s, d) + Members(ReconcilePass(s.db.targets[d], o, found, down, now).sent)])
    case Tagged(_, device, sequence, status, now) =>
      s.(db := s.db.(targets := s.db.targets[d := AdvanceMatch(s.db.targets[d], device, sequence, status, now)]))
    case Untagged(_, device, status, now) =>
      s.(db := s.db.(targets := s.db.targets[d := Advance(s.db.targets[d], device, status, now)]))
    case Resume(_, now) => s.(db := Resumed(s.db, d, now), resumed := s.resumed + {d})
    case Cancel(_) => s.(db := CancelledDb(s.db, d))
  }

  /** The state after a sequence of steps from the empty store, if each was possible in turn. */
  ghost function Exec(o: DeployModel.Options, ls: seq<Step>): Option<Sys> {
    if ls == [] then Some(EMPTY)
    else match Exec(o, ls[..|ls| - 1])
      case None => None
      case Some(s) =>
        var l := ls[|ls| - 1];
        if Enabled(s, l) && (l.Rollout? || (l.d in s.db.deploys && l.d in s.db.targets))
        then Some(Next(s, o, l)) else None
  }

  // ---------------------------------------------------------------- one deploy at a time

  /** Terminal rows stay as they are. */
  predicate Settling(ts: seq<Target>, us: seq<Target>) {
    SameTargets(ts, us) && forall i :: 0 <= i < |ts| && ts[i].status.Terminal() ==> us[i] == ts[i]
  }

  /** What a report can do to the rows of one deploy. */
  predicate ReportedRows(ts: seq<Target>, us: seq<Target>) {
    Settling(ts, us) && forall i :: 0 <= i < |ts| && us[i].status.Triggered? ==> us[i] == ts[i]
  }

  /** A command to the device of row i is due only when every earlier batch has settled within the threshold. */
  ghost predicate GateOpen(ts: seq<Target>, i: nat, threshold: int)
    requires i < |ts|
  {
    PassedBelow(ts, ts[i].batch, threshold)
  }

  ghost predicate Gate(ts: seq<Target>, threshold: int) {
    forall i: nat :: i < |ts| && ts[i].status.Triggered? ==> GateOpen(ts, i, threshold)
  }

  /** Reconcile stopped at batch b: the ones before passed, b itself is settled and over the threshold. */
  ghost predicate StoppedAt(ts: seq<Target>, b: int, threshold: int) {
    PassedBelow(ts, b, threshold) && BatchTripped(InBatch(ts, b), threshold)
  }

  ghost predicate AllPassed(ts: seq<Target>, threshold: int) { forall b :: Passed(ts, b, threshold) }

  /** What the state of a deploy promises about its rows. */
  ghost predicate StateMeans(state: State, ts: seq<Target>, threshold: int) {
    && (state.Paused? ==> exists b :: StoppedAt(ts, b, threshold))
    && (state.Completed? ==> AllPassed(ts, threshold))
  }

  lemma {:induction false} FrozenGroup(ts: seq<Target>, us: seq<Target>, b: int)
    requires Settling(ts, us) && AllTerminal(InBatch(ts, b))
    ensures InBatch(us, b) == InBatch(ts, b)
  {
    if ts != [] {
      var n := |ts| - 1;
      assert forall i :: 0 <= i < |InBatch(ts[..n], b)| ==> InBatch(ts[..n], b)[i] == InBatch(ts, b)[i];
      FrozenGroup(ts[..n], us[..n], b);
      if ts[n].batch == b {
        assert InBatch(ts, b)[|InBatch(ts[..n], b)|] == ts[n];
      }
    }
  }

  /** Whatever passed stays passed, and a batch that stopped the deploy keeps stopping it. */
  lemma PassedStays(ts: seq<Target>, us: seq<Target>, threshold: int)
    requires Settling(ts, us)
    ensures forall b :: Passed(ts, b, threshold) ==> Passed(us, b, threshold)
    ensures forall b :: PassedBelow(ts, b, threshold) ==> PassedBelow(us, b, threshold)
    ensures forall b :: StoppedAt(ts, b, threshold) ==> StoppedAt(us, b, threshold)
  {
    forall b | AllTerminal(InBatch(ts, b)) ensures InBatch(us, b) == InBatch(ts, b) { FrozenGroup(ts, us, b); }
  }

  lemma StaysMeant(state: State, ts: seq<Target>, us: seq<Target>, threshold: int)
    requires Settling(ts, us) && StateMeans(state, ts, threshold)
    ensures StateMeans(state, us, threshold)
  {
    PassedStays(ts, us, threshold);
    if state.Paused? {
      var b :| StoppedAt(ts, b, threshold);
      assert StoppedAt(us, b, threshold);
    }
  }

  lemma ReportKeepsGate(ts: seq<Target>, us: seq<Target>, threshold: int)
    requires ReportedRows(ts, us) && Gate(ts, threshold)
    ensures Gate(us, threshold)
  {
    PassedStays(ts, us, threshold);
    forall i: nat | i < |us| && us[i].status.Triggered? ensures GateOpen(us, i, threshold) {
      assert GateOpen(ts, i, threshold);
    }
  }

  lemma SweepSettles(ts: seq<Target>, o: DeployModel.Options, now: Time)
    ensures ReportedRows(ts, MarkLost(ts, now, o.targetTimeout))
  {
  }

  lemma PromotionSettles(ts: seq<Target>, b: int, down: set<DeviceId>, now: Time)
    ensures Settling(ts, PromoteRows(ts, b, down, now))
  {
  }

  lemma StopIsMeant(ts: seq<Target>, b: int, threshold: int)
    requires StoppedAt(ts, b, threshold)
    ensures StateMeans(Paused, ts, threshold)
  {
  }

  lemma DecisionKeeps(lost: seq<Target>, threshold: int, found: bool, down: set<DeviceId>, now: Time)
    requires Gate(lost, threshold)
    ensures var pass := DecidePass(lost, threshold, found, down, now);
            && Settling(lost, pass.targets)
            && Gate(pass.targets, threshold)
            && StateMeans(if pass.state.Some? then pass.state.value else InProgress, pass.targets, threshold)
  {
    var v := VerdictOn(lost, threshold);
    VerdictMeaning(lost, threshold, v);
    match v
    case Pause(b) => StopIsMeant(lost, b, threshold);
    case Complete =>
    case Wait(_) =>
    case Promote(b) => if found { PromotionKeepsGate(lost, b, threshold, down, now); }
  }

  /** A pass keeps the gate, and the state it sets means what it says. */
  lemma PassKeeps(ts: seq<Target>, o: DeployModel.Options, found: bool, down: set<DeviceId>, now: Time)
    requires Gate(ts, o.failureThreshold)
    ensures var pass := ReconcilePass(ts, o, found, down, now);
            && Settling(ts, pass.targets)
            && Gate(pass.targets, o.failureThreshold)
            && StateMeans(if pass.state.Some? then pass.state.value else InProgress, pass.targets, o.failureThreshold)
  {
    var lost := MarkLost(ts, now, o.targetTimeout);
    SweepSettles(ts, o, now);
    ReportKeepsGate(ts, lost, o.failureThreshold);
    DecisionKeeps(lost, o.failureThreshold, found, down, now);
  }

  lemma PromotionKeepsGate(ts: seq<Target>, b: int, threshold: int, down: set<DeviceId>, now: Time)
    requires Gate(ts, threshold) && PassedBelow(ts, b, threshold)
    ensures Gate(PromoteRows(ts, b, down, now), threshold)
    ensures Settling(ts, PromoteRows(ts, b, down, now))
  {
    var us := PromoteRows(ts, b, down, now);
    PromotionSettles(ts, b, down, now);
    PassedStays(ts, us, threshold);
    forall i: nat | i < |us| && us[i].status.Triggered? ensures GateOpen(us, i, threshold) {
      if us[i] == ts[i] { assert GateOpen(ts, i, threshold); } else { assert us[i].batch == b; }
    }
  }

  /** No batch beyond the one that stopped the deploy has its gate open. */
  lemma NothingBeyond(ts: seq<Target>, b: int, c: int, threshold: int)
    requires StoppedAt(ts, b, threshold) && PassedBelow(ts, c, threshold)
    ensures c <= b
  {
    var stopped := Passed(ts, b, threshold);
  }

  /** Where a deploy is paused, nothing is triggered, so nothing is when a resume reopens its batches. */
  lemma PausedIsQuiet(ts: seq<Target>, threshold: int, i: nat)
    requires Gate(ts, threshold) && StateMeans(Paused, ts, threshold) && i < |ts|
    ensures !ts[i].status.Triggered?
  {
    var b :| StoppedAt(ts, b, threshold);
    if ts[i].status.Triggered? {
      assert GateOpen(ts, i, threshold);
      NothingBeyond(ts, b, ts[i].batch, threshold);
      SettledUpTo(ts, b, ts[i].batch, threshold);
      SettledRow(ts, i);
    }
  }

  lemma SettledUpTo(ts: seq<Target>, b: int, c: int, threshold: int)
    requires StoppedAt(ts, b, threshold) && c <= b
    ensures AllTerminal(InBatch(ts, c))
  {
    var passed := Passed(ts, c, threshold);
  }

  lemma SettledRow(ts: seq<Target>, i: nat)
    requires i < |ts|
    ensures AllTerminal(InBatch(ts, ts[i].batch)) ==> ts[i].status.Terminal()
  {
    assert ts[i] in ts;
    InBatchMember(ts, ts[i].batch);
    TerminalByMember(InBatch(ts, ts[i].batch));
  }

  lemma ResumeKeepsGate(ts: seq<Target>, threshold: int, now: Time)
    requires Gate(ts, threshold) && StateMeans(Paused, ts, threshold)
    ensures Gate(ResetFailed(ts, now), threshold)
  {
    forall i: nat | i < |ts| ensures !ts[i].status.Triggered? { PausedIsQuiet(ts, threshold, i); }
  }

  lemma RolloutKeepsGate(devices: seq<DeviceId>, o: DeployModel.Options, version: string, sequence: int,
                         down: set<DeviceId>, now: Time)
    ensures Gate(RolloutTargets(devices, o, version, sequence, down, now), o.failureThreshold)
  {
    var ts := RolloutTargets(devices, o, version, sequence, down, now);
    assert forall i :: 0 <= i < |ts| ==> ts[i].batch >= 0 && (ts[i].status.Triggered? ==> ts[i].batch == 0);
    forall i: nat | i < |ts| && ts[i].status.Triggered? ensures GateOpen(ts, i, o.failureThreshold) {
      forall c | c < 0 ensures Passed(ts, c, o.failureThreshold) { AbsentPasses(ts, c, o.failureThreshold); }
    }
  }

  // ---------------------------------------------------------------- all deploys, all steps

  ghost predicate DeployInv(s: Sys, o: DeployModel.Options, d: DeployId)
    requires d in s.db.deploys && d in s.db.targets
  {
    Gate(s.db.targets[d], o.failureThreshold) && StateMeans(s.db.deploys[d].state, s.db.targets[d], o.failureThreshold)
  }

  ghost predicate Inv(s: Sys, o: DeployModel.Options) {
    && s.db.WellFormed()
    && forall d :: d in s.db.deploys ==> DeployInv(s, o, d)
  }

  /** Every step but a rollout under a new name leaves the other deploys alone. */
  lemma OthersUntouched(s: Sys, o: DeployModel.Options, l: Step, e: DeployId)
    requires s.db.WellFormed() && Enabled(s, l) && (l.Rollout? || l.d in s.db.deploys)
    requires e in s.db.deploys && e != l.d
    ensures var t := Next(s, o, l);
            e in t.db.deploys && e in t.db.targets && t.db.deploys[e] == s.db.deploys[e]
              && t.db.targets[e] == s.db.targets[e]
  {
  }

  lemma ReportRows(ts: seq<Target>, device: DeviceId, sequence: int, status: Status, now: Time)
    requires Reportable(status)
    ensures ReportedRows(ts, AdvanceMatch(ts, device, sequence, status, now))
    ensures ReportedRows(ts, Advance(ts, device, status, now))
  {
  }

  lemma OwnDeployKeeps(s: Sys, o: DeployModel.Options, l: Step)
    requires Inv(s, o) && Enabled(s, l) && (l.Rollout? || l.d in s.db.deploys)
    ensures var t := Next(s, o, l);
            l.d in t.db.deploys && l.d in t.db.targets && DeployInv(t, o, l.d)
  {
    var th := o.failureThreshold;
    match l
    case Rollout(_, _, version, sequence, devices, down, now) =>
      RolloutKeepsGate(devices, o, version, sequence, down, now);
    case Reconcile(d, found, down, now) => PassKeeps(s.db.targets[d], o, found, down, now);
    case Tagged(d, device, sequence, status, now) =>
      var us := AdvanceMatch(s.db.targets[d], device, sequence, status, now);
      ReportRows(s.db.targets[d], device, sequence, status, now);
      ReportKeepsGate(s.db.targets[d], us, th);
      StaysMeant(s.db.deploys[d].state, s.db.targets[d], us, th);
    case Untagged(d, device, status, now) =>
      var us := Advance(s.db.targets[d], device, status, now);
      ReportRows(s.db.targets[d], device, 0, status, now);
      ReportKeepsGate(s.db.targets[d], us, th);
      StaysMeant(s.db.deploys[d].state, s.db.targets[d], us, th);
    case Resume(d, now) => ResumeKeepsGate(s.db.targets[d], th, now);
    case Cancel(_) =>
  }

  lemma StepWellFormed(s: Sys, o: DeployModel.Options, l: Step)
    requires s.db.WellFormed() && Enabled(s, l) && (l.Rollout? || l.d in s.db.deploys)
    ensures Next(s, o, l).db.WellFormed()
  {
    match l
    case Rollout(d, driver, version, sequence, devices, down, now) =>
      RollsOutWellFormed(s.db, o, d, driver, version, sequence, devices, down, now);
    case Reconcile(d, found, down, now) => PassWellFormed(s.db, o, d, found, down, now);
    case Tagged(d, device, sequence, status, now) =>
      SameStayDistinct(s.db.targets[d], AdvanceMatch(s.db.targets[d], device, sequence, status, now));
    case Untagged(d, device, status, now) =>
      SameStayDistinct(s.db.targets[d], Advance(s.db.targets[d], device, status, now));
    case Resume(d, now) => SameStayDistinct(s.db.targets[d], ResetFailed(s.db.targets[d], now));
    case Cancel(_) =>
  }

  lemma StepKeeps(s: Sys, o: DeployModel.Options, l: Step)
    requires Inv(s, o) && Enabled(s, l) && (l.Rollout? || l.d in s.db.deploys)
    ensures Inv(Next(s, o, l), o)
  {
    var t := Next(s, o, l);
    StepWellFormed(s, o, l);
    OwnDeployKeeps(s, o, l);
    forall d | d in t.db.deploys ensures DeployInv(t, o, d) {
      if d != l.d { OthersUntouched(s, o, l, d); }
    }
  }

  lemma {:induction false} RunKeeps(o: DeployModel.Options, ls: seq<Step>)
    requires Exec(o, ls).Some?
    ensures Inv(Exec(o, ls).value, o)
  {
    if ls != [] {
      RunKeeps(o, ls[..|ls| - 1]);
      StepKeeps(Exec(o, ls[..|ls| - 1]).value, o, ls[|ls| - 1]);
    }
  }

  // ---------------------------------------------------------------- the theorems

  ghost predicate Reachable(o: DeployModel.Options, s: Sys) { exists ls: seq<Step> :: Exec(o, ls) == Some(s) }

  /** A run reaches s and goes on to t. */
  ghost predicate Follows(o: DeployModel.Options, s: Sys, t: Sys) {
    exists ls: seq<Step>, ms: seq<Step> :: Exec(o, ls) == Some(s) && Exec(o, ls + ms) == Some(t)
  }

  /** A step that may be taken. */
  ghost predicate Possible(s: Sys, l: Step) {
    Enabled(s, l) && (l.Rollout? || (l.d in s.db.deploys && l.d in s.db.targets))
  }

  lemma ReachableInv(o: DeployModel.Options, s: Sys)
    requires Reachable(o, s)
    ensures Inv(s, o)
  {
    var ls: seq<Step> :| Exec(o, ls) == Some(s);
    RunKeeps(o, ls);
  }

  /**
   The canary gate. In every reachable state of any run, whatever was paused and
   resumed before, a target that is triggered has every earlier batch settled
   within the threshold.
   */
  lemma CanaryGate(o: DeployModel.Options, s: Sys, d: DeployId, i: nat, b: int)
    requires Reachable(o, s) && d in s.db.targets && i < |s.db.targets[d]|
    requires s.db.targets[d][i].status.Triggered? && b < s.db.targets[d][i].batch
    ensures Passed(s.db.targets[d], b, o.failureThreshold)
  {
    ReachableInv(o, s);
    assert DeployInv(s, o, d);
    assert GateOpen(s.db.targets[d], i, o.failureThreshold);
  }

  lemma {:induction false} ResendsAreTriggered(ts: seq<Target>, now: Time, timeout: int, device: DeviceId)
    ensures device in Resends(ts, now, timeout) <==>
            exists i :: 0 <= i < |ts| && ts[i].device == device && Resendable(ts[i], now, timeout)
  {
    if ts != [] {
      var n := |ts| - 1;
      ResendsAreTriggered(ts[..n], now, timeout, device);
      assert forall i :: 0 <= i < n ==> ts[..n][i] == ts[i];
    }
  }

  /** Row i is what makes a pass send a command to its device. */
  ghost predicate SentFor(ts: seq<Target>, o: DeployModel.Options, device: DeviceId, now: Time, i: nat) {
    && i < |ts| && ts[i].device == device
    && (ts[i].status.Triggered? || ts[i].status.Pending?)
    && PassedBelow(MarkLost(ts, now, o.targetTimeout), ts[i].batch, o.failureThreshold)
  }

  /**
   No device is sent or resent its command by a reconcile pass unless, at that
   moment, all batches before its own have settled within the threshold.
   */
  lemma NoCommandBeforeTheGate(o: DeployModel.Options, s: Sys, d: DeployId, found: bool, down: set<DeviceId>, now: Time,
                               device: DeviceId) returns (i: nat)
    requires Reachable(o, s) && Possible(s, Reconcile(d, found, down, now))
    requires device in ReconcilePass(s.db.targets[d], o, found, down, now).sent
    ensures SentFor(s.db.targets[d], o, device, now, i)
  {
    ReachableInv(o, s);
    assert DeployInv(s, o, d);
    i := WhySent(s.db.targets[d], o, found, down, now, device);
  }

  lemma WhySent(ts: seq<Target>, o: DeployModel.Options, found: bool, down: set<DeviceId>, now: Time, device: DeviceId)
    returns (i: nat)
    requires Gate(ts, o.failureThreshold)
    requires device in ReconcilePass(ts, o, found, down, now).sent
    ensures SentFor(ts, o, device, now, i)
  {
    var lost := MarkLost(ts, now, o.targetTimeout);
    var v := VerdictOn(lost, o.failureThreshold);
    SweepSettles(ts, o, now);
    PassedStays(ts, lost, o.failureThreshold);
    ResendsAreTriggered(ts, now, o.targetTimeout, device);
    if device in Resends(ts, now, o.targetTimeout) && found {
      i :| 0 <= i < |ts| && ts[i].device == device && Resendable(ts[i], now, o.targetTimeout);
      assert GateOpen(ts, i, o.failureThreshold);
    } else {
      assert v.Promote?;
      VerdictMeaning(lost, o.failureThreshold, v);
      i := PromotedRow(lost, v.batch, device);
      assert lost[i] == ts[i];
    }
  }

  lemma PromotedRow(ts: seq<Target>, b: int, device: DeviceId) returns (i: nat)
    requires device in Devices(PendingOf(InBatch(ts, b)))
    ensures i < |ts| && ts[i].device == device && ts[i].batch == b && ts[i].status.Pending?
  {
    DevicesMember(PendingOf(InBatch(ts, b)), device);
    var k :| 0 <= k < |PendingOf(InBatch(ts, b))| && PendingOf(InBatch(ts, b))[k].device == device;
    PendingMember(InBatch(ts, b));
    InBatchMember(ts, b);
    var t := PendingOf(InBatch(ts, b))[k];
    assert t in ts;
    i :| 0 <= i < |ts| && ts[i] == t;
  }

  /** Terminal rows change only through the resume of their own, paused deploy. */
  lemma TerminalRowsStay(o: DeployModel.Options, s: Sys, l: Step, d: DeployId, i: nat)
    requires Reachable(o, s) && Possible(s, l) && !(l.Resume? && l.d == d)
    requires d in s.db.targets && i < |s.db.targets[d]| && s.db.targets[d][i].status.Terminal()
    ensures var t := Next(s, o, l);
            d in t.db.targets && i < |t.db.targets[d]| && t.db.targets[d][i] == s.db.targets[d][i]
  {
    ReachableInv(o, s);
    StepSettles(s, o, l, d);
  }

  lemma StepSettles(s: Sys, o: DeployModel.Options, l: Step, d: DeployId)
    requires Inv(s, o) && Enabled(s, l) && (l.Rollout? || l.d in s.db.deploys)
    requires d in s.db.deploys && !(l.Resume? && l.d == d)
    ensures d in Next(s, o, l).db.targets && Settling(s.db.targets[d], Next(s, o, l).db.targets[d])
  {
    if l.d != d {
      OthersUntouched(s, o, l, d);
    } else {
      match l
      case Reconcile(_, found, down, now) =>
        assert DeployInv(s, o, d);
        PassKeeps(s.db.targets[d], o, found, down, now);
      case Tagged(_, device, sequence, status, now) => ReportRows(s.db.targets[d], device, sequence, status, now);
      case Untagged(_, device, status, now) => ReportRows(s.db.targets[d], device, 0, status, now);
      case Cancel(_) =>
    }
  }

  /**
   A paused deploy has a settled batch over the threshold, with everything before it within: the
   one reconcile stopped at.
   */
  lemma PausedMeans(o: DeployModel.Options, s: Sys, d: DeployId) returns (b: int)
    requires Reachable(o, s) && d in s.db.deploys && d in s.db.targets && s.db.deploys[d].state.Paused?
    ensures StoppedAt(s.db.targets[d], b, o.failureThreshold)
  {
    ReachableInv(o, s);
    assert DeployInv(s, o, d);
    b :| StoppedAt(s.db.targets[d], b, o.failureThreshold);
  }

  // ---------------------------------------------------------------- completed deploys

  function FailuresIn(bs: seq<int>, ts: seq<Target>): nat {
    if bs == [] then 0 else Failures(InBatch(ts, bs[0])) + FailuresIn(bs[1..], ts)
  }

  function SizesIn(bs: seq<int>, ts: seq<Target>): nat {
    if bs == [] then 0 else |InBatch(ts, bs[0])| + SizesIn(bs[1..], ts)
  }

  /** One more row adds to the sums exactly if its batch is listed. */
  lemma {:induction false} SumsGrow(bs: seq<int>, ts: seq<Target>)
    requires Ascending(bs) && ts != []
    ensures var t := ts[|ts| - 1];
            var before := ts[..|ts| - 1];
            && FailuresIn(bs, ts) == FailuresIn(bs, before) + (if t.batch in bs && t.status.Failure() then 1 else 0)
            && SizesIn(bs, ts) == SizesIn(bs, before) + (if t.batch in bs then 1 else 0)
  {
    if bs != [] {
      SumsGrow(bs[1..], ts);
      assert forall b :: b in bs <==> b == bs[0] || b in bs[1..];
      assert bs[0] !in bs[1..];
      var g := InBatch(ts, bs[0]);
      if ts[|ts| - 1].batch == bs[0] {
        assert g[..|g| - 1] == InBatch(ts[..|ts| - 1], bs[0]) && g[|g| - 1] == ts[|ts| - 1];
      } else {
        assert g == InBatch(ts[..|ts| - 1], bs[0]);
      }
    }
  }

  lemma {:induction false} SumsEmpty(bs: seq<int>)
    ensures FailuresIn(bs, []) == 0 && SizesIn(bs, []) == 0
  {
    if bs != [] { SumsEmpty(bs[1..]); }
  }

  lemma {:induction false} SumsTotal(bs: seq<int>, ts: seq<Target>)
    requires Ascending(bs) && forall i :: 0 <= i < |ts| ==> ts[i].batch in bs
    ensures FailuresIn(bs, ts) == Failures(ts) && SizesIn(bs, ts) == |ts|
  {
    if ts == [] {
      SumsEmpty(bs);
    } else {
      SumsGrow(bs, ts);
      SumsTotal(bs, ts[..|ts| - 1]);
    }
  }

  lemma Distributes(a: int, m: int, n: int)
    ensures a * (m + n) == a * m + a * n
  {
  }

  lemma SharesAdd(threshold: int, f: nat, m: nat, g: nat, n: nat)
    requires f * 100 <= threshold * m && g * 100 <= threshold * n
    ensures (f + g) * 100 <= threshold * (m + n)
  {
    Distributes(threshold, m, n);
  }

  lemma PassedCounts(ts: seq<Target>, b: int, threshold: int)
    requires Passed(ts, b, threshold)
    ensures Failures(InBatch(ts, b)) * 100 <= threshold * |InBatch(ts, b)|
  {
  }

  lemma {:induction false} WithinAdds(bs: seq<int>, ts: seq<Target>, threshold: int)
    requires threshold >= 0 && forall b :: b in bs ==> Passed(ts, b, threshold)
    ensures FailuresIn(bs, ts) * 100 <= threshold * SizesIn(bs, ts)
  {
    if bs != [] {
      WithinAdds(bs[1..], ts, threshold);
      assert bs[0] in bs;
      PassedCounts(ts, bs[0], threshold);
      SharesAdd(threshold, Failures(InBatch(ts, bs[0])), |InBatch(ts, bs[0])|, FailuresIn(bs[1..], ts),
                SizesIn(bs[1..], ts));
    }
  }

  lemma CompletedRows(s: Sys, o: DeployModel.Options, d: DeployId)
    requires o == Clamped(o) && Inv(s, o) && d in s.db.deploys && d in s.db.targets && s.db.deploys[d].state.Completed?
    ensures var ts := s.db.targets[d];
            && AllPassed(ts, o.failureThreshold)
            && AllTerminal(ts)
            && Failures(ts) * 100 <= o.failureThreshold * |ts|
  {
    assert DeployInv(s, o, d);
    var ts := s.db.targets[d];
    SumsTotal(Batches(ts), ts);
    WithinAdds(Batches(ts), ts, o.failureThreshold);
    forall i | 0 <= i < |ts| ensures ts[i].status.Terminal() {
      InBatchMember(ts, ts[i].batch);
      assert Passed(ts, ts[i].batch, o.failureThreshold);
      TerminalByMember(InBatch(ts, ts[i].batch));
      assert ts[i] in ts;
    }
  }

  /**
   A completed deploy is settled within the threshold in every batch and, by
   summation, over its whole fleet.
   */
  lemma CompletedMeans(o: DeployModel.Options, s: Sys, d: DeployId)
    requires o == Clamped(o) && Reachable(o, s)
    requires d in s.db.deploys && d in s.db.targets && s.db.deploys[d].state.Completed?
    ensures var ts := s.db.targets[d];
            && AllPassed(ts, o.failureThreshold)
            && AllTerminal(ts)
            && Failures(ts) * 100 <= o.failureThreshold * |ts|
  {
    ReachableInv(o, s);
    CompletedRows(s, o, d);
  }

  lemma StaysCompleted(s: Sys, o: DeployModel.Options, l: Step, d: DeployId)
    requires Inv(s, o) && Enabled(s, l) && (l.Rollout? || l.d in s.db.deploys)
    requires d in s.db.deploys && s.db.deploys[d].state.Completed? && AllTerminal(s.db.targets[d])
    ensures var t := Next(s, o, l);
            && d in t.db.deploys && d in t.db.targets
            && t.db.deploys[d] == s.db.deploys[d] && t.db.targets[d] == s.db.targets[d]
  {
    if l.d != d { OthersUntouched(s, o, l, d); } else { StepSettles(s, o, l, d); }
  }

  lemma {:induction false} RunStaysCompleted(o: DeployModel.Options, ls: seq<Step>, ms: seq<Step>, d: DeployId)
    requires o == Clamped(o) && Exec(o, ls).Some? && Exec(o, ls + ms).Some?
    requires d in Exec(o, ls).value.db.deploys && d in Exec(o, ls).value.db.targets
    requires Exec(o, ls).value.db.deploys[d].state.Completed?
    ensures var s, t := Exec(o, ls).value, Exec(o, ls + ms).value;
            && d in t.db.deploys && d in t.db.targets
            && t.db.deploys[d] == s.db.deploys[d] && t.db.targets[d] == s.db.targets[d]
  {
    if ms == [] {
      assert ls + ms == ls;
    } else {
      var before := ms[..|ms| - 1];
      assert (ls + ms)[..|ls + ms| - 1] == ls + before;
      RunStaysCompleted(o, ls, before, d);
      RunKeeps(o, ls);
      CompletedRows(Exec(o, ls).value, o, d);
      RunKeeps(o, ls + before);
      StaysCompleted(Exec(o, ls + before).value, o, ms[|ms| - 1], d);
    }
  }

  /** Completed is final: neither the deploy nor any of its targets ever changes again. */
  lemma CompletedForever(o: DeployModel.Options, s: Sys, t: Sys, d: DeployId)
    requires o == Clamped(o) && Follows(o, s, t)
    requires d in s.db.deploys && d in s.db.targets && s.db.deploys[d].state.Completed?
    ensures d in t.db.deploys && d in t.db.targets
    ensures t.db.deploys[d] == s.db.deploys[d] && t.db.targets[d] == s.db.targets[d]
  {
    var ls: seq<Step>, ms: seq<Step> :| Exec(o, ls) == Some(s) && Exec(o, ls + ms) == Some(t);
    RunStaysCompleted(o, ls, ms, d);
  }

  // ---------------------------------------------------------------- cancelled deploys

  lemma StaysCancelled(s: Sys, o: DeployModel.Options, l: Step, d: DeployId)
    requires s.db.WellFormed() && Possible(s, l) && d in s.db.deploys && s.db.deploys[d].state.Cancelled?
    ensures var t := Next(s, o, l);
            d in t.db.deploys && t.db.deploys[d] == s.db.deploys[d] && AttemptedOf(t, d) == AttemptedOf(s, d)
  {
    if l.d != d { OthersUntouched(s, o, l, d); }
  }

  lemma {:induction false} RunStaysCancelled(o: DeployModel.Options, ls: seq<Step>, ms: seq<Step>, d: DeployId)
    requires Exec(o, ls).Some? && Exec(o, ls + ms).Some?
    requires d in Exec(o, ls).value.db.deploys && Exec(o, ls).value.db.deploys[d].state.Cancelled?
    ensures var s, t := Exec(o, ls).value, Exec(o, ls + ms).value;
            d in t.db.deploys && t.db.deploys[d] == s.db.deploys[d] && AttemptedOf(t, d) == AttemptedOf(s, d)
  {
    if ms == [] {
      assert ls + ms == ls;
    } else {
      var before := ms[..|ms| - 1];
      assert (ls + ms)[..|ls + ms| - 1] == ls + before;
      RunStaysCancelled(o, ls, before, d);
      RunKeeps(o, ls + before);
      StaysCancelled(Exec(o, ls + before).value, o, ms[|ms| - 1], d);
    }
  }

  /** Cancelled is final too, and from then on no device is sent the command of the deploy. */
  lemma CancelledForever(o: DeployModel.Options, s: Sys, t: Sys, d: DeployId)
    requires Follows(o, s, t) && d in s.db.deploys && s.db.deploys[d].state.Cancelled?
    ensures d in t.db.deploys && t.db.deploys[d] == s.db.deploys[d] && AttemptedOf(t, d) == AttemptedOf(s, d)
  {
    var ls: seq<Step>, ms: seq<Step> :| Exec(o, ls) == Some(s) && Exec(o, ls + ms) == Some(t);
    RunStaysCancelled(o, ls, ms, d);
  }
}
