/**
 Runs that exist: a rollout completes, one that fails is paused, resumed and completed after all,
 and a cancel is undone.
 */
module RolloutProgress {
  import opened Optional
  import opened DeployModel
  import opened BatchRules
  import opened DeploySpec
  import opened RolloutProtocol
  import opened RolloutScope

  lemma Begin(o: DeployModel.Options)
    ensures Reachable(o, EMPTY)
  {
    assert Exec(o, []) == Some(EMPTY);
  }

  lemma Go(o: DeployModel.Options, s: Sys, l: Step) returns (t: Sys)
    requires Reachable(o, s) && Possible(s, l)
    ensures t == Next(s, o, l) && Reachable(o, t)
  {
    t := Next(s, o, l);
    var ls: seq<Step> :| Exec(o, ls) == Some(s);
    assert (ls + [l])[..|ls + [l]| - 1] == ls;
    assert Exec(o, ls + [l]) == Some(t);
  }

  /** One deploy with one target. */
  predicate Single(s: Sys, d: DeployId, t: Target, state: State) {
    && s.db.deploys.Keys == s.db.targets.Keys == {d}
    && s.db.targets[d] == [t] && s.db.deploys[d].state == state
  }

  lemma OneFailed(t: Target, threshold: int)
    requires t.status.Failed? && 0 <= threshold < 100
    ensures VerdictOn([t], threshold) == Pause(t.batch)
  {
    var ts := [t];
    assert ts[..0] == [] && InBatch(ts[..0], t.batch) == [] && Failures(ts[..0]) == 0;
    assert InBatch(ts, t.batch) == [t] && Failures(ts) == 1;
    forall c | c < t.batch ensures Passed(ts, c, threshold) { AbsentPasses(ts, c, threshold); }
    VerdictMeaning(ts, threshold, Pause(t.batch));
  }

  lemma OnePending(t: Target, threshold: int)
    requires t.status.Pending?
    ensures VerdictOn([t], threshold) == Promote(t.batch)
  {
    var ts := [t];
    assert ts[..0] == [] && InBatch(ts[..0], t.batch) == [] && PendingOf(ts[..0]) == [];
    assert InBatch(ts, t.batch) == [t] && PendingOf(ts) == [t];
    forall c | c < t.batch ensures Passed(ts, c, threshold) { AbsentPasses(ts, c, threshold); }
    VerdictMeaning(ts, threshold, Promote(t.batch));
  }

  lemma RollsOut(o: DeployModel.Options, d: DeployId, version: string, n: int, x: DeviceId, now: Time)
    returns (s: Sys, t: Target)
    requires o == Clamped(o) && n > 0
    ensures Reachable(o, s) && Single(s, d, t, InProgress)
    ensures t == Target(x, version, n, 0, Triggered, Stored(now)) && s.resumed == {}
    ensures var l := Rollout(d, "", version, n, [x], {}, now); Possible(EMPTY, l) && s == Next(EMPTY, o, l)
  {
    Begin(o);
    CanaryIsCeiling(1, o.canaryPercent);
    s := Go(o, EMPTY, Rollout(d, "", version, n, [x], {}, now));
    t := Target(x, version, n, 0, Triggered, Stored(now));
    assert s.db.targets[d] == [t];
  }

  lemma Reports(o: DeployModel.Options, s: Sys, d: DeployId, t: Target, status: Status, now: Time)
    returns (r: Sys, u: Target)
    requires Reachable(o, s) && Single(s, d, t, InProgress) && t.status.Triggered? && t.sequence > 0
    requires status.Succeeded? || status.Failed?
    ensures Reachable(o, r) && Single(r, d, u, InProgress) && u == t.(status := status, updatedAt := Stored(now))
    ensures r.resumed == s.resumed
    ensures var l := Tagged(d, t.device, t.sequence, status, now); Possible(s, l) && r == Next(s, o, l)
  {
    assert Matches(s.db.targets[d][0], t.device, t.sequence, status);
    r := Go(o, s, Tagged(d, t.device, t.sequence, status, now));
    u := t.(status := status, updatedAt := Stored(now));
    assert r.db.targets[d] == [u];
  }

  lemma Passes(o: DeployModel.Options, s: Sys, d: DeployId, t: Target, now: Time) returns (r: Sys)
    requires Reachable(o, s) && Single(s, d, t, InProgress) && t.sequence != 0 && !t.status.InFlight()
    ensures Possible(s, Reconcile(d, true, {}, now)) && Reachable(o, r) && r == Next(s, o, Reconcile(d, true, {}, now))
    ensures MarkLost(s.db.targets[d], now, o.targetTimeout) == [t]
  {
    r := Go(o, s, Reconcile(d, true, {}, now));
    assert MarkLost([t], now, o.targetTimeout) == [t];
  }

  lemma Completes(o: DeployModel.Options, s: Sys, d: DeployId, t: Target, now: Time) returns (r: Sys)
    requires o == Clamped(o) && Reachable(o, s) && Single(s, d, t, InProgress) && t.sequence > 0 && t.status.Succeeded?
    ensures Reachable(o, r) && Single(r, d, t, Completed)
    ensures var l := Reconcile(d, true, {}, now); Possible(s, l) && r == Next(s, o, l)
  {
    r := Passes(o, s, d, t, now);
    OneSucceeded(t, o.failureThreshold);
  }

  /** There are runs to a completed deploy. */
  lemma SomeRolloutCompletes(o: DeployModel.Options, d: DeployId, version: string, n: int, x: DeviceId, now: Time)
    returns (s: Sys, t: Target)
    requires o == Clamped(o) && n > 0
    ensures Reachable(o, s) && Single(s, d, t, Completed) && t.status.Succeeded? && t.device == x && t.sequence == n
  {
    var s1, t1 := RollsOut(o, d, version, n, x, now);
    var s2, t2 := Reports(o, s1, d, t1, Succeeded, now);
    s := Completes(o, s2, d, t2, now);
    t := t2;
  }

  /** There are runs in which a deploy is paused by its canary, never having been resumed. */
  lemma SomeRolloutPauses(o: DeployModel.Options, d: DeployId, version: string, n: int, x: DeviceId, now: Time)
    returns (s: Sys, t: Target)
    requires o == Clamped(o) && o.failureThreshold < 100 && n > 0
    ensures Reachable(o, s) && Single(s, d, t, Paused) && t.status.Failed? && t.batch == 0 && t.sequence == n
    ensures d !in s.resumed && BatchTripped(InBatch(s.db.targets[d], 0), o.failureThreshold)
  {
    var s1, t1 := RollsOut(o, d, version, n, x, now);
    var s2, t2 := Reports(o, s1, d, t1, Failed, now);
    s := Passes(o, s2, d, t2, now);
    t := t2;
    OneFailed(t, o.failureThreshold);
    VerdictMeaning([t], o.failureThreshold, Pause(0));
  }

  /** A paused deploy is resumed, and the next pass triggers its failed target again. */
  lemma Retries(o: DeployModel.Options, s: Sys, d: DeployId, t: Target, now: Time) returns (r: Sys, u: Target)
    requires o == Clamped(o) && Reachable(o, s) && Single(s, d, t, Paused) && t.status.Failed? && t.sequence > 0
    ensures Reachable(o, r) && Single(r, d, u, InProgress)
    ensures u == t.(status := Triggered, updatedAt := Stored(now))
  {
    var t1 := t.(status := Pending, updatedAt := Stored(now));
    var s1 := Reopens(o, s, d, t, t1, now);
    r := Passes(o, s1, d, t1, now);
    OnePending(t1, o.failureThreshold);
    u := t1.(status := Triggered);
    assert r.db.targets[d] == [u];
  }

  lemma Reopens(o: DeployModel.Options, s: Sys, d: DeployId, t: Target, u: Target, now: Time) returns (r: Sys)
    requires Reachable(o, s) && Single(s, d, t, Paused) && t.status.Failed?
    requires u == t.(status := Pending, updatedAt := Stored(now))
    ensures Reachable(o, r) && Single(r, d, u, InProgress)
  {
    r := Go(o, s, Resume(d, now));
    assert r.db.targets[d] == [u];
  }

  /** And from there a resume, a second try and a success complete it. */
  lemma SomeRolloutRecovers(o: DeployModel.Options, s: Sys, d: DeployId, t: Target, now: Time)
    returns (r: Sys, u: Target)
    requires o == Clamped(o) && Reachable(o, s) && Single(s, d, t, Paused) && t.status.Failed? && t.sequence > 0
    ensures Reachable(o, r) && Single(r, d, u, Completed) && u.device == t.device && u.status.Succeeded?
  {
    var s2, t2 := Retries(o, s, d, t, now);
    var s3, t3 := Reports(o, s2, d, t2, Succeeded, now);
    r := Completes(o, s3, d, t3, now);
    u := t3;
  }

  /**
   A cancel can be undone: there is a run in which the target reports success while
   the deploy is in progress, so that a pass lists it, an operator then cancels it, and
   the pass over the list of before completes it.
   */
  lemma CancelledThenCompleted(o: DeployModel.Options, d: DeployId, version: string, n: int, x: DeviceId, now: Time)
    returns (s: Sys, c: Sys)
    requires o == Clamped(o) && n > 0
    ensures Reachable(o, s) && Enabled(s, Reconcile(d, true, {}, now))
    ensures Possible(s, Cancel(d)) && c == Next(s, o, Cancel(d)) && Reachable(o, c)
    ensures d in c.db.deploys && d in c.db.targets && c.db.deploys[d].state.Cancelled?
    ensures Reconciled(c.db, o, d, true, {}, now).deploys[d].state.Completed?
  {
    var s1, t1 := RollsOut(o, d, version, n, x, now);
    var t: Target;
    s, t := Reports(o, s1, d, t1, Succeeded, now);
    c := Go(o, s, Cancel(d));
    assert c.db.targets[d] == [t];
    assert MarkLost([t], now, o.targetTimeout) == [t];
    OneSucceeded(t, o.failureThreshold);
  }
}
