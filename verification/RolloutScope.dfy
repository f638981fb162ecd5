/** How far a rollout and a report reach: the blast radius of a canary and the isolation of tagged reports. */
module RolloutScope {
  import opened Optional
  import opened DeployModel
  import opened BatchRules
  import opened DeploySpec
  import opened RolloutProtocol

  // ---------------------------------------------------------------- blast radius

  /** The devices of a batch. */
  function BatchDevices(ts: seq<Target>, b: int): set<DeviceId> { Members(Devices(InBatch(ts, b))) }

  ghost predicate ScopeInv(s: Sys, o: DeployModel.Options, d: DeployId)
    requires d in s.db.targets
  {
    var ts := s.db.targets[d];
    && ts != []
    && (forall i :: 0 <= i < |ts| ==> (ts[i].batch == 0 || ts[i].batch == 1) && ts[i].sequence == ts[0].sequence)
    && |InBatch(ts, 0)| == CanaryCount(|ts|, o.canaryPercent)
    && (d !in s.resumed && !Passed(ts, 0, o.failureThreshold) ==> AttemptedOf(s, d) <= BatchDevices(ts, 0))
    && (if ts[0].sequence == 0 then AttemptedOf(s, d) == {} else BatchDevices(ts, 0) <= AttemptedOf(s, d))
  }

  lemma {:induction false} SameBatchRows(ts: seq<Target>, us: seq<Target>, b: int)
    requires SameTargets(ts, us)
    ensures SameTargets(InBatch(ts, b), InBatch(us, b))
    ensures Devices(InBatch(ts, b)) == Devices(InBatch(us, b))
  {
    if ts != [] { SameBatchRows(ts[..|ts| - 1], us[..|us| - 1], b); }
  }

  /** Rows whose first count lie in batch 0 and the others in batch 1. */
  lemma {:induction false} FirstRows(ts: seq<Target>, count: int)
    requires 0 <= count
    requires forall i :: 0 <= i < |ts| ==> ts[i].batch == if i >= count then 1 else 0
    ensures InBatch(ts, 0) == ts[..if count < |ts| then count else |ts|]
  {
    if ts != [] { FirstRows(ts[..|ts| - 1], count); }
  }

  lemma RolloutScopes(s: Sys, o: DeployModel.Options, l: Step)
    requires l.Rollout? && Enabled(s, l) && o == Clamped(o)
    ensures ScopeInv(Next(s, o, l), o, l.d)
  {
    var canary := CanaryCount(|l.devices|, o.canaryPercent);
    CanaryIsCeiling(|l.devices|, o.canaryPercent);
    var ts := RolloutTargets(l.devices, o, l.version, l.sequence, l.down, l.now);
    assert forall i :: 0 <= i < |ts| ==>
      ts[i].device == l.devices[i] && ts[i].sequence == l.sequence && ts[i].batch == if i >= canary then 1 else 0;
    FirstRows(ts, canary);
    assert Devices(InBatch(ts, 0)) == l.devices[..canary];
  }

  /**
   A step that keeps the identity of the rows, freezes what has passed, and sends to nobody new
   outside the open gate.
   */
  lemma ScopeStays(s: Sys, t: Sys, o: DeployModel.Options, d: DeployId, sent: set<DeviceId>)
    requires d in s.db.targets && d in t.db.targets && ScopeInv(s, o, d)
    requires SameTargets(s.db.targets[d], t.db.targets[d])
    requires d in s.resumed ==> d in t.resumed
    requires d !in t.resumed ==> Settling(s.db.targets[d], t.db.targets[d])
    requires AttemptedOf(t, d) == AttemptedOf(s, d) + sent
    requires s.db.targets[d][0].sequence == 0 ==> sent == {}
    requires d !in t.resumed && !Passed(t.db.targets[d], 0, o.failureThreshold) ==>
      sent <= BatchDevices(s.db.targets[d], 0)
    ensures ScopeInv(t, o, d)
  {
    SameBatchRows(s.db.targets[d], t.db.targets[d], 0);
    if d !in t.resumed { PassedStays(s.db.targets[d], t.db.targets[d], o.failureThreshold); }
  }

  /** While batch 0 has not passed, a pass sends commands to its devices only. */
  lemma PassScopes(ts: seq<Target>, o: DeployModel.Options, found: bool, down: set<DeviceId>, now: Time,
                   device: DeviceId)
    requires Gate(ts, o.failureThreshold)
    requires forall i :: 0 <= i < |ts| ==> ts[i].batch == 0 || ts[i].batch == 1
    requires device in ReconcilePass(ts, o, found, down, now).sent
    requires !Passed(ReconcilePass(ts, o, found, down, now).targets, 0, o.failureThreshold)
    ensures device in BatchDevices(ts, 0)
  {
    var i := WhySent(ts, o, found, down, now, device);
    var lost := MarkLost(ts, now, o.targetTimeout);
    var after := ReconcilePass(ts, o, found, down, now).targets;
    PassShape(ts, o, found, down, now);
    var v := VerdictOn(lost, o.failureThreshold);
    if v.Promote? { PromotionSettles(lost, v.batch, down, now); }
    PassedStays(lost, after, o.failureThreshold);
    assert !Passed(lost, 0, o.failureThreshold);
    assert ts[i].batch == 0;
    InBatchMember(ts, 0);
    assert ts[i] in ts;
    assert ts[i] in InBatch(ts, 0);
    DevicesMember(InBatch(ts, 0), device);
  }

  lemma ReconcileScopes(s: Sys, o: DeployModel.Options, l: Step)
    requires Inv(s, o) && l.Reconcile? && Enabled(s, l) && ScopeInv(s, o, l.d)
    ensures ScopeInv(Next(s, o, l), o, l.d)
  {
    var t := Next(s, o, l);
    var ts := s.db.targets[l.d];
    var pass := ReconcilePass(ts, o, l.found, l.down, l.now);
    assert DeployInv(s, o, l.d);
    PassKeeps(ts, o, l.found, l.down, l.now);
    assert ts[0] in ts;
    assert !l.found ==> pass.sent == [];
    forall x | x in Members(pass.sent) && !Passed(pass.targets, 0, o.failureThreshold)
      ensures x in BatchDevices(ts, 0)
    {
      PassScopes(ts, o, l.found, l.down, l.now, x);
    }
    ScopeStays(s, t, o, l.d, Members(pass.sent));
  }

  lemma StepScopes(s: Sys, o: DeployModel.Options, l: Step, d: DeployId)
    requires Inv(s, o) && Enabled(s, l) && (l.Rollout? || l.d in s.db.deploys) && o == Clamped(o)
    requires d in s.db.targets && ScopeInv(s, o, d)
    ensures d in Next(s, o, l).db.targets && ScopeInv(Next(s, o, l), o, d)
  {
    var t := Next(s, o, l);
    if l.d != d {
      OthersUntouched(s, o, l, d);
      ScopeStays(s, t, o, d, {});
    } else if l.Reconcile? {
      ReconcileScopes(s, o, l);
    } else if l.Tagged? || l.Untagged? || l.Cancel? {
      StepSettles(s, o, l, d);
      ScopeStays(s, t, o, d, {});
    } else {
      ScopeStays(s, t, o, d, {});
    }
  }

  lemma {:induction false} RunScopes(o: DeployModel.Options, ls: seq<Step>, d: DeployId)
    requires o == Clamped(o) && Exec(o, ls).Some? && d in Exec(o, ls).value.db.targets
    ensures ScopeInv(Exec(o, ls).value, o, d)
  {
    if ls != [] {
      var s, l := Exec(o, ls[..|ls| - 1]).value, ls[|ls| - 1];
      RunKeeps(o, ls[..|ls| - 1]);
      if d in s.db.targets {
        RunScopes(o, ls[..|ls| - 1], d);
        StepScopes(s, o, l, d);
      } else {
        RolloutScopes(s, o, l);
      }
    }
  }

  lemma {:induction false} DistinctMembers(ds: seq<DeviceId>)
    requires forall i, j :: 0 <= i < j < |ds| ==> ds[i] != ds[j]
    ensures |Members(ds)| == |ds|
  {
    if ds != [] {
      var n := |ds| - 1;
      DistinctMembers(ds[..n]);
      assert ds == ds[..n] + [ds[n]];
      assert Members(ds) == Members(ds[..n]) + {ds[n]};
    } else {
      assert Members(ds) == {};
    }
  }

  /**
   The blast radius. A deploy that was never resumed and is paused because of its
   canary has, over its whole run, attempted a command to the devices of the canary
   and to no other, and these are the ceiling of the configured share of the fleet.
   The one exception is an artifact without a sequence, which is sent to nobody.
   */
  lemma BlastRadius(o: DeployModel.Options, s: Sys, d: DeployId)
    requires o == Clamped(o) && Reachable(o, s) && d in s.db.deploys && d in s.db.targets && d !in s.resumed
    requires s.db.deploys[d].state.Paused? && BatchTripped(InBatch(s.db.targets[d], 0), o.failureThreshold)
    ensures var ts := s.db.targets[d];
            && AttemptedOf(s, d) == (if ts[0].sequence == 0 then {} else BatchDevices(ts, 0))
            && |BatchDevices(ts, 0)| == CanaryCount(|ts|, o.canaryPercent)
            && 100 * (|BatchDevices(ts, 0)| - 1) < |ts| * o.canaryPercent <= 100 * |BatchDevices(ts, 0)|
            && 1 <= |BatchDevices(ts, 0)| <= |ts|
  {
    var ls: seq<Step> :| Exec(o, ls) == Some(s);
    RunKeeps(o, ls);
    RunScopes(o, ls, d);
    var ts := s.db.targets[d];
    DistinctGroup(ts, 0);
    DistinctMembers(Devices(InBatch(ts, 0)));
    CanaryIsCeiling(|ts|, o.canaryPercent);
  }

  // ---------------------------------------------------------------- report isolation

  /** Each artifact with a sequence is rolled out once. */
  predicate OneRolloutPerArtifact(ls: seq<Step>) {
    forall i, j :: 0 <= i < j < |ls| && ls[i].Rollout? && ls[j].Rollout? ==>
      ls[i].sequence != ls[j].sequence || ls[i].sequence == 0
  }

  /** Step k is the rollout that inserted the rows of d, with this sequence. */
  predicate Ships(ls: seq<Step>, k: nat, d: DeployId, sequence: int) {
    k < |ls| && ls[k].Rollout? && ls[k].d == d && ls[k].sequence == sequence
  }

  lemma {:induction false} Shipped(o: DeployModel.Options, ls: seq<Step>, d: DeployId, i: nat) returns (k: nat)
    requires Exec(o, ls).Some? && d in Exec(o, ls).value.db.targets && i < |Exec(o, ls).value.db.targets[d]|
    ensures Ships(ls, k, d, Exec(o, ls).value.db.targets[d][i].sequence)
  {
    var n := |ls| - 1;
    var s, l := Exec(o, ls[..n]).value, ls[n];
    RunKeeps(o, ls[..n]);
    if d !in s.db.targets || (l.Rollout? && l.d == d) {
      k := n;
    } else {
      KeepsIdentity(s, o, l, d);
      k := Shipped(o, ls[..n], d, i);
    }
  }

  lemma KeepsIdentity(s: Sys, o: DeployModel.Options, l: Step, d: DeployId)
    requires Inv(s, o) && Enabled(s, l) && (l.Rollout? || l.d in s.db.deploys)
    requires d in s.db.targets
    ensures d in Next(s, o, l).db.targets && SameTargets(s.db.targets[d], Next(s, o, l).db.targets[d])
  {
    if l.d != d { OthersUntouched(s, o, l, d); }
    else if !l.Resume? { StepSettles(s, o, l, d); }
  }

  /** A run that rolls each artifact out once leads to s. */
  ghost predicate ReachableOnce(o: DeployModel.Options, s: Sys) {
    exists ls: seq<Step> :: OneRolloutPerArtifact(ls) && Exec(o, ls) == Some(s)
  }

  /** Rows that carry one nonzero sequence belong to one deploy. */
  lemma OneDeployPerSequence(o: DeployModel.Options, s: Sys, d: DeployId, i: nat, e: DeployId, j: nat)
    requires ReachableOnce(o, s)
    requires d in s.db.targets && i < |s.db.targets[d]| && e in s.db.targets && j < |s.db.targets[e]|
    requires s.db.targets[d][i].sequence == s.db.targets[e][j].sequence != 0
    ensures d == e
  {
    var ls: seq<Step> :| OneRolloutPerArtifact(ls) && Exec(o, ls) == Some(s);
    var k := Shipped(o, ls, e, j);
    var m := Shipped(o, ls, d, i);
    assert k == m;
  }

  /**
   A report tagged n changes at most one row: the one of its device in the one deploy
   that ships n. No row of another deploy, another device or another sequence moves.
   */
  lemma ReportIsolation(o: DeployModel.Options, s: Sys, l: Step, e: DeployId, j: nat)
    requires ReachableOnce(o, s) && l.Tagged? && Possible(s, l) && e in s.db.targets && j < |s.db.targets[e]|
    ensures var t := Next(s, o, l);
            && e in t.db.targets && j < |t.db.targets[e]|
            && (t.db.targets[e][j] != s.db.targets[e][j] ==>
                  && e == l.d && s.db.targets[e][j].device == l.device && s.db.targets[e][j].sequence == l.sequence
                  && forall i :: 0 <= i < |s.db.targets[e]| && i != j ==> t.db.targets[e][i] == s.db.targets[e][i])
    ensures s.db.targets[e][j].sequence == l.sequence ==> e == l.d
  {
    var ls: seq<Step> :| OneRolloutPerArtifact(ls) && Exec(o, ls) == Some(s);
    RunKeeps(o, ls);
    assert Distinct(s.db.targets[e]);
    if s.db.targets[e][j].sequence == l.sequence {
      var i :| 0 <= i < |s.db.targets[l.d]| && Matches(s.db.targets[l.d][i], l.device, l.sequence, l.status);
      OneDeployPerSequence(o, s, l.d, i, e, j);
    }
  }

  // ---------------------------------------------------------------- a list of active deploys that is out of date

  /**
   Reconcile sets states unconditionally, so a pass over a list read before a cancel
   would undo it. The cancel survives such a pass exactly if the verdict is to wait
   or to promote (and then the promoted targets are triggered all the same).
   */
  lemma StaleListUndoesCancel(db: Db, o: DeployModel.Options, d: DeployId, found: bool, down: set<DeviceId>, now: Time)
    requires d in db.deploys && d in db.targets && db.deploys[d].state.Cancelled?
    ensures var v := VerdictOn(MarkLost(db.targets[d], now, o.targetTimeout), o.failureThreshold);
            Reconciled(db, o, d, found, down, now).deploys[d].state.Cancelled? <==> v.Wait? || v.Promote?
  {
  }

  lemma OneSucceeded(t: Target, threshold: int)
    requires t.status.Succeeded? && threshold >= 0
    ensures VerdictOn([t], threshold) == Complete
  {
    var ts := [t];
    assert ts[..0] == [] && InBatch(ts[..0], t.batch) == [] && Failures(ts[..0]) == 0;
    forall b ensures Passed(ts, b, threshold) {
      if b == t.batch {
        assert InBatch(ts, b) == [t];
        assert Failures(ts) == 0;
      } else {
        AbsentPasses(ts, b, threshold);
      }
    }
    VerdictMeaning(ts, threshold, Complete);
  }
}
