/** What the rollout machine does for sure: reports arrive, lost commands are repeated, unreachable canaries stop. */
module RolloutEffects {
  import opened Optional
  import opened DeployModel
  import opened BatchRules
  import opened DeploySpec
  import opened RolloutProtocol

  // ---------------------------------------------------------------- reports

  /**
   A report that is tagged with sequence n takes effect: the row its device has in the
   deploy it is matched to, which is the row of n, gets the reported status with the stamp
   of the report, whatever was reported; every other row of every deploy stays.
   */
  lemma ReportTakesEffect(o: DeployModel.Options, s: Sys, l: Step) returns (i: nat)
    requires Reachable(o, s) && l.Tagged? && Possible(s, l)
    ensures var t := Next(s, o, l);
            && l.d in t.db.targets && |t.db.targets[l.d]| == |s.db.targets[l.d]| && i < |s.db.targets[l.d]|
            && s.db.targets[l.d][i].device == l.device && s.db.targets[l.d][i].sequence == l.sequence
            && t.db.targets[l.d][i] == s.db.targets[l.d][i].(status := l.status, updatedAt := Stored(l.now))
            && (forall j :: 0 <= j < |s.db.targets[l.d]| && j != i ==> t.db.targets[l.d][j] == s.db.targets[l.d][j])
            && (forall e :: e in s.db.targets && e != l.d ==> e in t.db.targets && t.db.targets[e] == s.db.targets[e])
            && t.db.deploys == s.db.deploys
  {
    ReachableInv(o, s);
    i :| 0 <= i < |s.db.targets[l.d]| && Matches(s.db.targets[l.d][i], l.device, l.sequence, l.status);
    assert Distinct(s.db.targets[l.d]);
  }

  /** An untagged one does the same to the row of the device in its newest deploy, unless that row is terminal. */
  lemma UntaggedTakesEffect(o: DeployModel.Options, s: Sys, l: Step) returns (i: nat)
    requires Reachable(o, s) && l.Untagged? && Possible(s, l)
    ensures var t := Next(s, o, l);
            && l.d in t.db.targets && |t.db.targets[l.d]| == |s.db.targets[l.d]| && i < |s.db.targets[l.d]|
            && s.db.targets[l.d][i].device == l.device
            && (var was := s.db.targets[l.d][i];
                t.db.targets[l.d][i] ==
                  if was.status.Succeeded? || was.status.Failed? || was.status.Lost? || was.status == l.status then was
                  else was.(status := l.status, updatedAt := Stored(l.now)))
            && (forall j :: 0 <= j < |s.db.targets[l.d]| && j != i ==> t.db.targets[l.d][j] == s.db.targets[l.d][j])
  {
    ReachableInv(o, s);
    i :| 0 <= i < |s.db.targets[l.d]| && s.db.targets[l.d][i].device == l.device;
    assert Distinct(s.db.targets[l.d]);
  }

  // ---------------------------------------------------------------- commands

  /** A command that was sent less than 90 seconds ago, and not acknowledged, is sent once more by the next pass. */
  lemma NextPassResends(o: DeployModel.Options, s: Sys, d: DeployId, down: set<DeviceId>, now: Time, i: nat)
    requires Reachable(o, s) && Possible(s, Reconcile(d, true, down, now))
    requires i < |s.db.targets[d]| && s.db.targets[d][i].status.Triggered?
    requires now - s.db.targets[d][i].updatedAt < 90_000_000_000
    requires now - s.db.targets[d][i].updatedAt <= o.targetTimeout
    ensures var t := Next(s, o, Reconcile(d, true, down, now));
            && multiset(ReconcilePass(s.db.targets[d], o, true, down, now).sent)[s.db.targets[d][i].device] == 1
            && s.db.targets[d][i].device in AttemptedOf(t, d)
            && d in t.db.targets && i < |t.db.targets[d]| && t.db.targets[d][i] == s.db.targets[d][i]
  {
    ReachableInv(o, s);
    assert Distinct(s.db.targets[d]);
    PassRow(s.db.targets[d], o, true, down, now, i);
    PassSends(s.db.targets[d], o, true, down, now, i);
    InMultiset(ReconcilePass(s.db.targets[d], o, true, down, now).sent, s.db.targets[d][i].device);
  }

  /** One that is older is not sent again. */
  lemma OldCommandsRest(o: DeployModel.Options, s: Sys, d: DeployId, found: bool, down: set<DeviceId>, now: Time,
                        i: nat)
    requires Reachable(o, s) && Possible(s, Reconcile(d, found, down, now))
    requires i < |s.db.targets[d]| && !s.db.targets[d][i].status.Pending?
    requires s.db.targets[d][i].status.Triggered? ==> now - s.db.targets[d][i].updatedAt >= 90_000_000_000
    ensures s.db.targets[d][i].device !in ReconcilePass(s.db.targets[d], o, found, down, now).sent
  {
    ReachableInv(o, s);
    assert Distinct(s.db.targets[d]);
    PassSends(s.db.targets[d], o, found, down, now, i);
    InMultiset(ReconcilePass(s.db.targets[d], o, found, down, now).sent, s.db.targets[d][i].device);
  }

  lemma InMultiset(ds: seq<DeviceId>, device: DeviceId)
    ensures device in ds <==> multiset(ds)[device] > 0
  {
  }

  // ---------------------------------------------------------------- stopping

  /** Where a settled batch is over the threshold and all before it passed, the next pass pauses the deploy. */
  lemma StoppedIsPaused(o: DeployModel.Options, s: Sys, l: Step, b: int)
    requires l.Reconcile? && Possible(s, l) && StoppedAt(s.db.targets[l.d], b, o.failureThreshold)
    ensures var t := Next(s, o, l); l.d in t.db.deploys && t.db.deploys[l.d].state.Paused?
  {
    var ts, th := s.db.targets[l.d], o.failureThreshold;
    var lost := MarkLost(ts, l.now, o.targetTimeout);
    SweepSettles(ts, o, l.now);
    PassedStays(ts, lost, th);
    assert PassedBelow(lost, b, th) && BatchTripped(InBatch(lost, b), th);
    PassState(ts, o, l.found, l.down, l.now);
  }

  lemma {:induction false} AllFailed(ts: seq<Target>)
    requires forall i :: 0 <= i < |ts| ==> ts[i].status.Failed?
    ensures Failures(ts) == |ts| && AllTerminal(ts)
  {
    if ts != [] { AllFailed(ts[..|ts| - 1]); }
  }

  lemma Share(n: nat, threshold: int)
    requires n > 0 && threshold < 100
    ensures n * 100 > threshold * n
  {
  }

  /** A canary that cannot be reached at all is over every threshold below 100 the moment it is rolled out. */
  lemma UnreachableCanary(o: DeployModel.Options, s: Sys, l: Step)
    requires o == Clamped(o) && o.failureThreshold < 100
    requires l.Rollout? && Enabled(s, l) && l.sequence != 0
    requires forall i :: 0 <= i < |l.devices| && 100 * i < |l.devices| * o.canaryPercent ==> l.devices[i] in l.down
    ensures l.d in Next(s, o, l).db.targets && StoppedAt(Next(s, o, l).db.targets[l.d], 0, o.failureThreshold)
  {
    var ts := Next(s, o, l).db.targets[l.d];
    var canary := InBatch(ts, 0);
    forall i | 0 <= i < |l.devices| { RolloutRow(l.devices, o, l.version, l.sequence, l.down, l.now, i); }
    RolloutRow(l.devices, o, l.version, l.sequence, l.down, l.now, 0);
    InBatchMember(ts, 0);
    assert ts[0] in ts && ts[0] in canary;
    forall i | 0 <= i < |canary| ensures canary[i].status.Failed? { assert canary[i] in canary; }
    AllFailed(canary);
    Share(|canary|, o.failureThreshold);
    forall c | c < 0 ensures Passed(ts, c, o.failureThreshold) { AbsentPasses(ts, c, o.failureThreshold); }
  }

  /** So the first pass after it pauses the deploy, and nobody beyond the canary is sent anything. */
  lemma UnreachableCanaryPauses(o: DeployModel.Options, s: Sys, l: Step, r: Step)
    requires o == Clamped(o) && o.failureThreshold < 100
    requires l.Rollout? && Enabled(s, l) && l.sequence != 0
    requires forall i :: 0 <= i < |l.devices| && 100 * i < |l.devices| * o.canaryPercent ==> l.devices[i] in l.down
    requires r.Reconcile? && r.d == l.d && Possible(Next(s, o, l), r)
    ensures var t := Next(Next(s, o, l), o, r);
            && l.d in t.db.deploys && t.db.deploys[l.d].state.Paused?
            && AttemptedOf(t, l.d) == AttemptedOf(Next(s, o, l), l.d)
            && ReconcilePass(Next(s, o, l).db.targets[l.d], o, r.found, r.down, r.now).sent == []
  {
    UnreachableCanary(o, s, l);
    var t := Next(s, o, l);
    StoppedIsPaused(o, t, r, 0);
    NothingInFlight(o, s, l);
    NothingSent(t.db.targets[l.d], o, r.found, r.down, r.now);
  }

  lemma NothingInFlight(o: DeployModel.Options, s: Sys, l: Step)
    requires o == Clamped(o) && l.Rollout? && Enabled(s, l) && l.sequence != 0
    requires forall i :: 0 <= i < |l.devices| && 100 * i < |l.devices| * o.canaryPercent ==> l.devices[i] in l.down
    ensures forall t :: t in Next(s, o, l).db.targets[l.d] ==> !t.status.Triggered?
  {
    var ts := Next(s, o, l).db.targets[l.d];
    forall i | 0 <= i < |ts| ensures !ts[i].status.Triggered? {
      RolloutRow(l.devices, o, l.version, l.sequence, l.down, l.now, i);
    }
  }

  lemma NothingSent(ts: seq<Target>, o: DeployModel.Options, found: bool, down: set<DeviceId>, now: Time)
    requires forall t :: t in ts ==> !t.status.Triggered?
    requires ReconcilePass(ts, o, found, down, now).state == Some(Paused)
    ensures ReconcilePass(ts, o, found, down, now).sent == []
  {
    NothingToRepeat(ts, now, o.targetTimeout);
  }

  lemma {:induction false} NothingToRepeat(ts: seq<Target>, now: Time, timeout: int)
    requires forall t :: t in ts ==> !t.status.Triggered?
    ensures Resends(ts, now, timeout) == []
  {
    if ts != [] {
      assert ts[|ts| - 1] in ts;
      NothingToRepeat(ts[..|ts| - 1], now, timeout);
    }
  }

  // ---------------------------------------------------------------- what never changes

  /** Every row carries the version of its deploy. */
  ghost predicate Consistent(s: Sys, d: DeployId) {
    d in s.db.deploys && d in s.db.targets ==>
      forall i :: 0 <= i < |s.db.targets[d]| ==> s.db.targets[d][i].version == s.db.deploys[d].version
  }

  lemma StepConsistent(s: Sys, o: DeployModel.Options, l: Step, d: DeployId)
    requires o == Clamped(o) && Inv(s, o) && Possible(s, l) && Consistent(s, d)
    ensures Consistent(Next(s, o, l), d)
    ensures d in s.db.deploys && !(l.Rollout? && l.d == d) ==>
              var t := Next(s, o, l);
              d in t.db.deploys && t.db.deploys[d] == s.db.deploys[d].(state := t.db.deploys[d].state)
  {
    if l.d != d {
      if d in s.db.deploys { OthersUntouched(s, o, l, d); }
    } else {
      match l
      case Rollout(_, _, version, sequence, devices, down, now) =>
        forall i | 0 <= i < |devices| { RolloutRow(devices, o, version, sequence, down, now, i); }
      case Reconcile(_, found, down, now) => PassKeepsTargets(s.db.targets[d], o, found, down, now);
      case _ =>
    }
  }

  lemma {:induction false} RunConsistent(o: DeployModel.Options, ls: seq<Step>, d: DeployId)
    requires o == Clamped(o) && Exec(o, ls).Some?
    ensures Consistent(Exec(o, ls).value, d)
  {
    if ls != [] {
      RunConsistent(o, ls[..|ls| - 1], d);
      RunKeeps(o, ls[..|ls| - 1]);
      StepConsistent(Exec(o, ls[..|ls| - 1]).value, o, ls[|ls| - 1], d);
    }
  }

  /** In every reachable state each target is one of the version its deploy was rolled out for. */
  lemma VersionsAgree(o: DeployModel.Options, s: Sys, d: DeployId, i: nat)
    requires o == Clamped(o) && Reachable(o, s) && d in s.db.deploys && d in s.db.targets && i < |s.db.targets[d]|
    ensures s.db.targets[d][i].version == s.db.deploys[d].version
  {
    var ls: seq<Step> :| Exec(o, ls) == Some(s);
    RunConsistent(o, ls, d);
  }

  /** A deploy stays the one that was rolled out: its driver, its version and its creation time never change. */
  lemma DeployStaysItself(o: DeployModel.Options, s: Sys, l: Step, t: Sys)
    requires o == Clamped(o) && Reachable(o, s) && l.Rollout? && Possible(s, l) && Follows(o, Next(s, o, l), t)
    ensures l.d in t.db.deploys && t.db.deploys[l.d].driver == l.driver && t.db.deploys[l.d].version == l.version
    ensures t.db.deploys[l.d].createdAt == Stored(l.now)
  {
    var ls: seq<Step>, ms: seq<Step> :| Exec(o, ls) == Some(Next(s, o, l)) && Exec(o, ls + ms) == Some(t);
    StaysItself(o, ls, ms, l.d);
  }

  lemma {:induction false} StaysItself(o: DeployModel.Options, ls: seq<Step>, ms: seq<Step>, d: DeployId)
    requires o == Clamped(o) && Exec(o, ls).Some? && Exec(o, ls + ms).Some? && d in Exec(o, ls).value.db.deploys
    ensures var s, t := Exec(o, ls).value, Exec(o, ls + ms).value;
            d in t.db.deploys && t.db.deploys[d] == s.db.deploys[d].(state := t.db.deploys[d].state)
  {
    if ms == [] {
      assert ls + ms == ls;
    } else {
      var before := ms[..|ms| - 1];
      assert (ls + ms)[..|ls + ms| - 1] == ls + before;
      StaysItself(o, ls, before, d);
      RunKeeps(o, ls + before);
      RunConsistent(o, ls + before, d);
      StepConsistent(Exec(o, ls + before).value, o, ms[|ms| - 1], d);
    }
  }
}
