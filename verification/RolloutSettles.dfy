/**
 Every rollout settles: with ticks at a bounded gap and the artifact at hand, a
 deploy that is neither resumed nor cancelled leaves the in-progress state within a
 bound that no behaviour of the devices can stretch.
 */
module RolloutSettles {
  import opened Optional
  import opened DeployModel
  import opened BatchRules
  import opened DeploySpec
  import opened RolloutProtocol
  import opened RolloutScope

  // ---------------------------------------------------------------- timed runs

  /** A state with the time it is, and the time of the last reconcile pass over the deploy (or of the start). */
  datatype Moment = Moment(sys: Sys, now: Time, last: Time, ticked: bool)

  function TimeOf(l: Step, now: Time): Time { if l.Cancel? then now else l.now }

  /** Nobody resumes or cancels d, and the artifact lookup of its passes works. */
  predicate Fair(l: Step, d: DeployId) {
    l.d == d ==> !l.Resume? && !l.Cancel? && (l.Reconcile? ==> l.found)
  }

  predicate Active(s: Sys, d: DeployId) { d in s.db.deploys && s.db.deploys[d].state.InProgress? }

  /** The clock is monotone, and while d is in progress its next pass is never overdue by more than the gap. */
  ghost predicate Timely(m: Moment, l: Step, d: DeployId, gap: int) {
    && Possible(m.sys, l) && Fair(l, d)
    && m.now <= TimeOf(l, m.now)
    && (Active(m.sys, d) ==> TimeOf(l, m.now) <= m.last + gap)
  }

  function Later(m: Moment, o: DeployModel.Options, l: Step, d: DeployId): Moment
    requires l.Rollout? || (l.d in m.sys.db.deploys && l.d in m.sys.db.targets)
  {
    var u := TimeOf(l, m.now);
    var tick := l.Reconcile? && l.d == d;
    Moment(Next(m.sys, o, l), u, if tick then u else m.last, m.ticked || tick)
  }

  /** A run from a state at time t0. It may go on for any time after d has settled. */
  ghost function TimedExec(o: DeployModel.Options, s: Sys, t0: Time, ms: seq<Step>, d: DeployId,
                           gap: int): Option<Moment>
  {
    if ms == [] then Some(Moment(s, t0, t0, false))
    else match TimedExec(o, s, t0, ms[..|ms| - 1], d, gap)
      case None => None
      case Some(m) => if Timely(m, ms[|ms| - 1], d, gap) then Some(Later(m, o, ms[|ms| - 1], d)) else None
  }

  // ---------------------------------------------------------------- deadlines

  /** The store keeps milliseconds, so a timeout below one acts like one. */
  function Patience(o: DeployModel.Options): int {
    if o.targetTimeout < MILLISECOND then MILLISECOND else o.targetTimeout
  }

  /** The time by which reconcile is through with a target in flight, whatever is reported about it. */
  function Due(t: Target, o: DeployModel.Options, gap: int): Time {
    if t.status.Triggered? then t.updatedAt + 2 * Patience(o) + gap else t.updatedAt + Patience(o)
  }

  /** The time by which reconcile has turned to the k-th batch. */
  function Start(t0: Time, o: DeployModel.Options, gap: int, k: nat): Time {
    if k == 0 then t0 + gap else Start(t0, o, gap, k - 1) + 2 * Patience(o) + 2 * gap
  }

  /** The time by which it is through with it. */
  function Deadline(t0: Time, o: DeployModel.Options, gap: int, k: nat): Time {
    Start(t0, o, gap, k) + 2 * Patience(o) + gap
  }

  lemma {:induction false} StartsInOrder(t0: Time, o: DeployModel.Options, gap: int, j: nat, k: nat)
    requires gap >= 0 && j <= k
    ensures Start(t0, o, gap, j) <= Start(t0, o, gap, k)
    ensures j < k ==> Deadline(t0, o, gap, j) + gap <= Start(t0, o, gap, k)
  {
    if j < k { StartsInOrder(t0, o, gap, j, k - 1); }
  }

  lemma {:induction false} StartIs(t0: Time, o: DeployModel.Options, gap: int, k: nat)
    ensures Start(t0, o, gap, k) == t0 + gap + k * (2 * Patience(o) + 2 * gap)
  {
    if k > 0 { StartIs(t0, o, gap, k - 1); }
  }

  // ---------------------------------------------------------------- the ranking invariant

  /** Rows were stamped in the past, and none in flight outlived the last pass by more than the timeout. */
  ghost predicate Stamped(ts: seq<Target>, o: DeployModel.Options, m: Moment) {
    && (forall i :: 0 <= i < |ts| ==> ts[i].updatedAt <= m.now)
    && (m.ticked ==> forall i :: 0 <= i < |ts| && ts[i].status.InFlight() ==> m.last <= ts[i].updatedAt + Patience(o))
  }

  /**
   Reconcile works on the k-th batch: the ones before are settled, it has nothing pending, and its
   targets are due.
   */
  ghost predicate Working(ts: seq<Target>, o: DeployModel.Options, gap: int, t0: Time, last: Time, k: nat) {
    var bs := Batches(ts);
    && k < |bs|
    && (forall i :: 0 <= i < |ts| && ts[i].batch < bs[k] ==> ts[i].status.Terminal())
    && (forall i :: 0 <= i < |ts| && ts[i].batch == bs[k] ==>
          !ts[i].status.Pending? && (ts[i].status.InFlight() ==> Due(ts[i], o, gap) <= Deadline(t0, o, gap, k)))
    && last <= Deadline(t0, o, gap, k)
  }

  lemma SameList(ts: seq<Target>, us: seq<Target>)
    requires SameTargets(ts, us)
    ensures Batches(ts) == Batches(us)
  {
    forall b ensures b in Batches(ts) <==> b in Batches(us) {
      Occurs(ts, b);
      Occurs(us, b);
      assert forall i :: 0 <= i < |ts| ==> ts[i].batch == us[i].batch;
    }
    BatchListUnique(Batches(ts), Batches(us));
  }

  lemma Occurs(ts: seq<Target>, b: int)
    ensures b in Batches(ts) <==> exists i :: 0 <= i < |ts| && ts[i].batch == b
  {
    assert ListsBatches(Batches(ts), ts);
  }

  /** What a report at time u can do to a row. */
  predicate RowReported(t: Target, r: Target, u: Time) {
    r == t ||
    (r.SameTarget(t) && !t.status.Terminal() && r.status != t.status && r.updatedAt == Stored(u)
     && (r.status.Downloading? || r.status.Terminal()))
  }

  predicate RowsReported(ts: seq<Target>, us: seq<Target>, u: Time) {
    |ts| == |us| && forall i :: 0 <= i < |ts| ==> RowReported(ts[i], us[i], u)
  }

  /** A report moves the deadline of a target forward only: repeated "downloading" does not refresh it. */
  lemma ReportKeepsDue(t: Target, r: Target, o: DeployModel.Options, gap: int, last: Time, u: Time)
    requires RowReported(t, r, u) && u <= last + gap
    requires t.status.InFlight() ==> last <= t.updatedAt + Patience(o)
    requires !t.status.Pending?
    ensures !r.status.Pending?
    ensures r.status.InFlight() ==> t.status.InFlight() && Due(r, o, gap) <= Due(t, o, gap)
  {
  }

  lemma ReportKeepsWorking(ts: seq<Target>, us: seq<Target>, o: DeployModel.Options, gap: int, t0: Time, m: Moment,
                           u: Time, k: nat)
    requires u <= m.last + gap && m.ticked
    requires RowsReported(ts, us, u) && Batches(us) == Batches(ts)
    requires Stamped(ts, o, m) && Working(ts, o, gap, t0, m.last, k)
    ensures Working(us, o, gap, t0, m.last, k)
  {
    var b := Batches(ts)[k];
    forall i | 0 <= i < |us|
      ensures us[i].batch < b ==> us[i].status.Terminal()
      ensures us[i].batch == b ==>
        !us[i].status.Pending? && (us[i].status.InFlight() ==> Due(us[i], o, gap) <= Deadline(t0, o, gap, k))
    {
      assert RowReported(ts[i], us[i], u);
      if us[i].batch == b { ReportKeepsDue(ts[i], us[i], o, gap, m.last, u); }
    }
  }

  lemma ReportKeepsStamps(ts: seq<Target>, us: seq<Target>, o: DeployModel.Options, m: Moment, n: Moment)
    requires RowsReported(ts, us, n.now) && Stamped(ts, o, m) && m.now <= n.now && n.last == m.last
      && n.ticked == m.ticked
    requires m.last <= m.now
    ensures Stamped(us, o, n)
  {
    assert forall i :: 0 <= i < |ts| ==> RowReported(ts[i], us[i], n.now);
  }

  /** What a pass at time u can do to a row. */
  predicate RowPassed(t: Target, r: Target, o: DeployModel.Options, u: Time) {
    && r.SameTarget(t)
    && (if t.status.InFlight() then if u - t.updatedAt > o.targetTimeout then r.status.Lost? else r == t
        else if t.status.Pending? then r == t || (r.updatedAt == Stored(u) && (r.status.Triggered? || r.status.Failed?))
        else r == t)
    && (r != t ==> r.updatedAt == Stored(u))
  }

  lemma PassRows(ts: seq<Target>, o: DeployModel.Options, found: bool, down: set<DeviceId>, u: Time)
    ensures var us := ReconcilePass(ts, o, found, down, u).targets;
            |us| == |ts| && forall i :: 0 <= i < |ts| ==> RowPassed(ts[i], us[i], o, u)
  {
    PassShape(ts, o, found, down, u);
    var us := ReconcilePass(ts, o, found, down, u).targets;
    var v := VerdictOn(MarkLost(ts, u, o.targetTimeout), o.failureThreshold);
    var b := if v.Promote? && found then Some(v.batch) else None;
    forall i | 0 <= i < |ts| ensures RowPassed(ts[i], us[i], o, u) {
      assert us[i] == PassRow(ts[i], o, b, down, u);
      OneRowPassed(ts[i], o, b, down, u);
    }
  }

  /** What a pass that promotes batch b, if any, makes of a row. */
  function PassRow(t: Target, o: DeployModel.Options, b: Option<int>, down: set<DeviceId>, u: Time): Target {
    var r := LostRow(t, u, o.targetTimeout);
    if b == Some(r.batch) && r.status.Pending? then TriggerRow(r, down, u) else r
  }

  lemma OneRowPassed(t: Target, o: DeployModel.Options, b: Option<int>, down: set<DeviceId>, u: Time)
    ensures RowPassed(t, PassRow(t, o, b, down, u), o, u)
  {
  }

  /** After a pass at time u no row is overdue. */
  lemma PassKeepsStamps(ts: seq<Target>, us: seq<Target>, o: DeployModel.Options, m: Moment, n: Moment)
    requires |us| == |ts| && forall i :: 0 <= i < |ts| ==> RowPassed(ts[i], us[i], o, n.now)
    requires Stamped(ts, o, m) && m.now <= n.now == n.last
    ensures Stamped(us, o, n)
  {
    assert forall i :: 0 <= i < |ts| ==> RowPassed(ts[i], us[i], o, n.now);
  }

  lemma PositionOf(ts: seq<Target>, b: int) returns (k: nat)
    requires exists i :: 0 <= i < |ts| && ts[i].batch == b
    ensures k < |Batches(ts)| && Batches(ts)[k] == b
  {
    Occurs(ts, b);
    k :| 0 <= k < |Batches(ts)| && Batches(ts)[k] == b;
  }

  /** What is known about the rows when a pass leaves the deploy in progress at batch b. */
  ghost predicate LeftAt(ts: seq<Target>, us: seq<Target>, b: int, o: DeployModel.Options, now: Time) {
    && |us| == |ts|
    && (forall i :: 0 <= i < |ts| ==> RowPassed(ts[i], us[i], o, now))
    && (forall i :: 0 <= i < |us| && us[i].batch < b ==> us[i].status.Terminal())
    && (forall i :: 0 <= i < |us| && us[i].batch == b ==> !us[i].status.Pending?)
    && (exists i :: 0 <= i < |ts| && Holdup(ts[i], us[i], b))
  }

  /** A row that keeps batch b from being settled: it was just promoted, or it is still in flight. */
  predicate Holdup(t: Target, r: Target, b: int) {
    t.batch == b && (t.status.Pending? || (t.status.InFlight() && r == t))
  }

  lemma SettledBelow(ts: seq<Target>, b: int, threshold: int)
    requires PassedBelow(ts, b, threshold)
    ensures forall i :: 0 <= i < |ts| && ts[i].batch < b ==> ts[i].status.Terminal()
  {
    forall i | 0 <= i < |ts| && ts[i].batch < b ensures ts[i].status.Terminal() {
      assert Passed(ts, ts[i].batch, threshold);
      InBatchMember(ts, ts[i].batch);
      TerminalByMember(InBatch(ts, ts[i].batch));
      assert ts[i] in ts;
    }
  }

  lemma PassLeaves(ts: seq<Target>, o: DeployModel.Options, down: set<DeviceId>, now: Time) returns (b: int)
    requires ReconcilePass(ts, o, true, down, now).state.None?
    ensures LeftAt(ts, ReconcilePass(ts, o, true, down, now).targets, b, o, now)
  {
    var lost := MarkLost(ts, now, o.targetTimeout);
    var us := ReconcilePass(ts, o, true, down, now).targets;
    var v := VerdictOn(lost, o.failureThreshold);
    b := v.batch;
    VerdictMeaning(lost, o.failureThreshold, v);
    PassRows(ts, o, true, down, now);
    PassShape(ts, o, true, down, now);
    Leaves(ts, lost, us, v, o, down, now);
  }

  lemma Leaves(ts: seq<Target>, lost: seq<Target>, us: seq<Target>, v: Verdict, o: DeployModel.Options,
               down: set<DeviceId>, now: Time)
    requires lost == MarkLost(ts, now, o.targetTimeout) && !v.Pause? && !v.Complete?
      && Means(v, lost, o.failureThreshold)
    requires us == if v.Promote? then PromoteRows(lost, v.batch, down, now) else lost
    requires forall i :: 0 <= i < |ts| ==> RowPassed(ts[i], us[i], o, now)
    ensures LeftAt(ts, us, v.batch, o, now)
  {
    SettledBelow(lost, v.batch, o.failureThreshold);
    var i := SomeHoldup(lost, v.batch, v, o.failureThreshold);
    assert Holdup(ts[i], us[i], v.batch);
    if v.Wait? { NonePending(lost, v.batch); }
  }

  lemma NonePending(ts: seq<Target>, b: int)
    requires PendingOf(InBatch(ts, b)) == []
    ensures forall i :: 0 <= i < |ts| && ts[i].batch == b ==> !ts[i].status.Pending?
  {
    InBatchMember(ts, b);
    PendingMember(InBatch(ts, b));
    assert forall i :: 0 <= i < |ts| ==> ts[i] in ts;
  }

  lemma SomeHoldup(lost: seq<Target>, b: int, v: Verdict, threshold: int) returns (i: nat)
    requires Means(v, lost, threshold) && (v == Promote(b) || v == Wait(b))
    ensures i < |lost| && lost[i].batch == b
      && (if v.Promote? then lost[i].status.Pending? else lost[i].status.InFlight())
  {
    var group := InBatch(lost, b);
    InBatchMember(lost, b);
    PendingMember(group);
    TerminalByMember(group);
    if v.Promote? {
      var t := PendingOf(group)[0];
      assert t in PendingOf(group);
      i :| 0 <= i < |lost| && lost[i] == t;
    } else {
      var t :| t in group && !t.status.Terminal();
      i :| 0 <= i < |lost| && lost[i] == t;
    }
  }

  /** The tick: either the same batch is still waited for, in time, or reconcile has moved on in time. */
  lemma PassKeepsWorking(ts: seq<Target>, us: seq<Target>, b: int, o: DeployModel.Options, gap: int,
                         t0: Time, m: Moment, u: Time, j: nat)
    returns (k: nat)
    requires gap >= 0 && m.now <= u <= m.last + gap
    requires Stamped(ts, o, m) && LeftAt(ts, us, b, o, u) && Batches(us) == Batches(ts)
    requires if m.ticked then Working(ts, o, gap, t0, m.last, j) else m.last == t0
    ensures Working(us, o, gap, t0, u, k)
  {
    var h :| 0 <= h < |ts| && Holdup(ts[h], us[h], b);
    k := PositionOf(ts, b);
    if m.ticked && k <= j {
      StillWaiting(ts, us, b, o, gap, t0, m, u, j, k, h);
    } else {
      if m.ticked { StartsInOrder(t0, o, gap, j, k); } else { StartsInOrder(t0, o, gap, 0, k); }
      MovesOn(ts, us, b, o, gap, t0, m, u, k);
    }
  }

  /** Reconcile turned to batch b in time, so whatever is in flight there is due in time. */
  lemma MovesOn(ts: seq<Target>, us: seq<Target>, b: int, o: DeployModel.Options, gap: int, t0: Time, m: Moment,
                u: Time, k: nat)
    requires gap >= 0 && m.now <= u <= Start(t0, o, gap, k)
    requires Stamped(ts, o, m) && LeftAt(ts, us, b, o, u)
    requires Batches(us) == Batches(ts) && k < |Batches(ts)| && Batches(ts)[k] == b
    ensures Working(us, o, gap, t0, u, k)
  {
    forall i | 0 <= i < |us| && us[i].batch == b && us[i].status.InFlight()
      ensures Due(us[i], o, gap) <= Deadline(t0, o, gap, k)
    {
      DueInTime(ts[i], us[i], o, gap, m.now, u);
    }
  }

  /** A row that is left in flight at u is due within twice the patience from then. */
  lemma DueInTime(t: Target, r: Target, o: DeployModel.Options, gap: int, now: Time, u: Time)
    requires gap >= 0 && RowPassed(t, r, o, u) && t.updatedAt <= now <= u
    ensures Due(r, o, gap) <= u + 2 * Patience(o) + gap
  {
  }

  lemma InOrder(bs: seq<int>, j: nat, k: nat)
    requires Ascending(bs) && j < |bs| && k < |bs| && k <= j && bs[j] <= bs[k]
    ensures k == j
  {
  }

  /** A row in flight that a pass at u leaves in flight is not overdue. */
  lemma NotOverdue(t: Target, r: Target, b: int, o: DeployModel.Options, gap: int, u: Time)
    requires gap >= 0 && RowPassed(t, r, o, u) && Holdup(t, r, b) && !t.status.Pending?
    ensures t.status.InFlight() && u <= Due(t, o, gap)
  {
  }

  /** A row that is still in flight is the row it was. */
  lemma StillTheSame(t: Target, r: Target, o: DeployModel.Options, u: Time)
    requires RowPassed(t, r, o, u) && !t.status.Pending? && r.status.InFlight()
    ensures r == t
  {
  }

  lemma SameBatch(ts: seq<Target>, us: seq<Target>, b: int, o: DeployModel.Options, gap: int, t0: Time, last: Time,
                  j: nat, k: nat, h: nat)
    requires Working(ts, o, gap, t0, last, j) && h < |ts| && h < |us| && Holdup(ts[h], us[h], b)
    requires k < |Batches(ts)| && Batches(ts)[k] == b && k <= j
    ensures k == j
  {
    InOrder(Batches(ts), j, k);
  }

  /** The batch is the one reconcile worked on before: what holds it up was due then already, and is not overdue. */
  lemma StillWaiting(ts: seq<Target>, us: seq<Target>, b: int, o: DeployModel.Options, gap: int, t0: Time, m: Moment,
                     u: Time, j: nat, k: nat, h: nat)
    requires gap >= 0 && m.ticked && h < |ts|
    requires LeftAt(ts, us, b, o, u) && Working(ts, o, gap, t0, m.last, j) && Batches(us) == Batches(ts)
    requires k < |Batches(ts)| && Batches(ts)[k] == b && k <= j && Holdup(ts[h], us[h], b)
    ensures Working(us, o, gap, t0, u, k)
  {
    SameBatch(ts, us, b, o, gap, t0, m.last, j, k, h);
    StillInTime(ts, us, b, o, gap, t0, m, u, k, h);
    forall i | 0 <= i < |us| && us[i].batch == b && us[i].status.InFlight()
      ensures Due(us[i], o, gap) <= Deadline(t0, o, gap, k)
    {
      StillDue(ts, us, b, o, gap, t0, m, u, k, i);
    }
  }

  /** What holds the batch up was due in time before the pass. */
  lemma StillInTime(ts: seq<Target>, us: seq<Target>, b: int, o: DeployModel.Options, gap: int, t0: Time, m: Moment,
                    u: Time, k: nat, h: nat)
    requires gap >= 0 && h < |ts| && LeftAt(ts, us, b, o, u) && Working(ts, o, gap, t0, m.last, k)
    requires Batches(ts)[k] == b && Holdup(ts[h], us[h], b)
    ensures u <= Deadline(t0, o, gap, k)
  {
    assert RowPassed(ts[h], us[h], o, u);
    NotOverdue(ts[h], us[h], b, o, gap, u);
  }

  lemma StillDue(ts: seq<Target>, us: seq<Target>, b: int, o: DeployModel.Options, gap: int, t0: Time, m: Moment,
                 u: Time, k: nat, i: nat)
    requires gap >= 0 && LeftAt(ts, us, b, o, u) && Working(ts, o, gap, t0, m.last, k) && Batches(ts)[k] == b
    requires i < |us| && us[i].batch == b && us[i].status.InFlight()
    ensures Due(us[i], o, gap) <= Deadline(t0, o, gap, k)
  {
    assert RowPassed(ts[i], us[i], o, u);
    StillTheSame(ts[i], us[i], o, u);
  }

  // ---------------------------------------------------------------- runs

  /** The rows of d have stamps in the past and, after a pass, reconcile works on some batch in time. */
  ghost predicate InTimeSoFar(m: Moment, o: DeployModel.Options, gap: int, t0: Time, d: DeployId, bs: seq<int>)
    requires d in m.sys.db.targets
  {
    var ts := m.sys.db.targets[d];
    && m.last <= m.now <= m.last + gap
    && Batches(ts) == bs
    && Stamped(ts, o, m)
    && (if !m.ticked then m.last == t0 else exists k: nat :: Working(ts, o, gap, t0, m.last, k))
  }

  /** While d is in progress everything is in time. */
  ghost predicate OnSchedule(m: Moment, o: DeployModel.Options, gap: int, t0: Time, d: DeployId, bs: seq<int>)
    requires d in m.sys.db.targets
  {
    Active(m.sys, d) ==> InTimeSoFar(m, o, gap, t0, d, bs)
  }

  /** A deploy that has left the in-progress state does not come back to it. */
  lemma StaysSettled(m: Moment, o: DeployModel.Options, l: Step, d: DeployId, gap: int)
    requires m.sys.db.WellFormed() && Timely(m, l, d, gap) && d in m.sys.db.deploys && !Active(m.sys, d)
    ensures var n := Later(m, o, l, d);
            d in n.sys.db.deploys && d in n.sys.db.targets && n.sys.db.deploys[d] == m.sys.db.deploys[d]
  {
    if l.d != d { OthersUntouched(m.sys, o, l, d); }
  }

  lemma ReportChanges(ts: seq<Target>, device: DeviceId, sequence: int, status: Status, now: Time)
    requires Reportable(status)
    ensures RowsReported(ts, AdvanceMatch(ts, device, sequence, status, now), now)
    ensures RowsReported(ts, Advance(ts, device, status, now), now)
  {
  }

  lemma ReportInTime(m: Moment, o: DeployModel.Options, gap: int, t0: Time, l: Step, d: DeployId, bs: seq<int>)
    requires gap >= 0 && m.sys.db.WellFormed() && Timely(m, l, d, gap) && l.d == d && (l.Tagged? || l.Untagged?)
    requires Active(m.sys, d) && d in m.sys.db.targets && InTimeSoFar(m, o, gap, t0, d, bs)
    ensures var n := Later(m, o, l, d);
            d in n.sys.db.targets && InTimeSoFar(n, o, gap, t0, d, bs)
  {
    var n := Later(m, o, l, d);
    var ts, us := m.sys.db.targets[d], n.sys.db.targets[d];
    ReportRows(ts, l.device, if l.Tagged? then l.sequence else 0, l.status, l.now);
    ReportChanges(ts, l.device, if l.Tagged? then l.sequence else 0, l.status, l.now);
    SameList(ts, us);
    ReportKeepsStamps(ts, us, o, m, n);
    if m.ticked {
      var k: nat :| Working(ts, o, gap, t0, m.last, k);
      ReportKeepsWorking(ts, us, o, gap, t0, m, l.now, k);
    }
  }

  lemma PassInTime(m: Moment, o: DeployModel.Options, gap: int, t0: Time, l: Step, d: DeployId, bs: seq<int>)
    requires gap >= 0 && m.sys.db.WellFormed() && Timely(m, l, d, gap) && l.d == d && l.Reconcile?
    requires Active(m.sys, d) && d in m.sys.db.targets && InTimeSoFar(m, o, gap, t0, d, bs)
    requires Active(Later(m, o, l, d).sys, d)
    ensures var n := Later(m, o, l, d);
            d in n.sys.db.targets && InTimeSoFar(n, o, gap, t0, d, bs)
  {
    var n := Later(m, o, l, d);
    var ts, us := m.sys.db.targets[d], n.sys.db.targets[d];
    PassKeepsTargets(ts, o, true, l.down, l.now);
    SameList(ts, us);
    PassRows(ts, o, true, l.down, l.now);
    PassKeepsStamps(ts, us, o, m, n);
    OnlyNoneKeepsGoing(ts, o, l.down, l.now);
    var b := PassLeaves(ts, o, l.down, l.now);
    var j: nat := 0;
    if m.ticked { j :| Working(ts, o, gap, t0, m.last, j); }
    var k := PassKeepsWorking(ts, us, b, o, gap, t0, m, l.now, j);
  }

  lemma OnlyNoneKeepsGoing(ts: seq<Target>, o: DeployModel.Options, down: set<DeviceId>, now: Time)
    ensures ReconcilePass(ts, o, true, down, now).state != Some(InProgress)
  {
  }

  lemma StepOnSchedule(m: Moment, o: DeployModel.Options, gap: int, t0: Time, l: Step, d: DeployId, bs: seq<int>)
    requires gap >= 0 && m.sys.db.WellFormed() && Timely(m, l, d, gap)
    requires d in m.sys.db.deploys && d in m.sys.db.targets && OnSchedule(m, o, gap, t0, d, bs)
    ensures var n := Later(m, o, l, d);
            d in n.sys.db.deploys && d in n.sys.db.targets && OnSchedule(n, o, gap, t0, d, bs)
  {
    if !Active(m.sys, d) {
      StaysSettled(m, o, l, d, gap);
    } else if l.d != d {
      OthersUntouched(m.sys, o, l, d);
    } else if l.Reconcile? {
      if Active(Later(m, o, l, d).sys, d) { PassInTime(m, o, gap, t0, l, d, bs); }
    } else {
      ReportInTime(m, o, gap, t0, l, d, bs);
    }
  }

  lemma {:induction false} RunOnSchedule(o: DeployModel.Options, s: Sys, t0: Time, ms: seq<Step>, d: DeployId, gap: int)
    requires gap >= 0 && s.db.WellFormed() && d in s.db.deploys && d in s.db.targets
    requires forall i :: 0 <= i < |s.db.targets[d]| ==> s.db.targets[d][i].updatedAt <= t0
    requires TimedExec(o, s, t0, ms, d, gap).Some?
    ensures var m := TimedExec(o, s, t0, ms, d, gap).value;
            && m.sys.db.WellFormed() && d in m.sys.db.deploys && d in m.sys.db.targets
            && OnSchedule(m, o, gap, t0, d, Batches(s.db.targets[d]))
  {
    if ms != [] {
      var l := ms[|ms| - 1];
      RunOnSchedule(o, s, t0, ms[..|ms| - 1], d, gap);
      var m := TimedExec(o, s, t0, ms[..|ms| - 1], d, gap).value;
      StepWellFormed(m.sys, o, l);
      StepOnSchedule(m, o, gap, t0, l, d, Batches(s.db.targets[d]));
    }
  }

  /** Steps up to t0 stamp their rows no later than t0. */
  lemma {:induction false} StampsInThePast(o: DeployModel.Options, ls: seq<Step>, t0: Time, d: DeployId)
    requires Exec(o, ls).Some? && d in Exec(o, ls).value.db.targets
    requires forall l :: l in ls ==> TimeOf(l, t0) <= t0
    ensures forall i :: 0 <= i < |Exec(o, ls).value.db.targets[d]| ==>
      Exec(o, ls).value.db.targets[d][i].updatedAt <= t0
  {
    var n := |ls| - 1;
    var s, l := Exec(o, ls[..n]).value, ls[n];
    RunKeeps(o, ls[..n]);
    assert l in ls && forall k :: k in ls[..n] ==> k in ls;
    if d in s.db.targets {
      StampsInThePast(o, ls[..n], t0, d);
      StepStamps(s, o, l, d, t0);
    }
  }

  lemma StepStamps(s: Sys, o: DeployModel.Options, l: Step, d: DeployId, t0: Time)
    requires s.db.WellFormed() && Enabled(s, l) && (l.Rollout? || l.d in s.db.deploys) && TimeOf(l, t0) <= t0
    requires d in s.db.targets && forall i :: 0 <= i < |s.db.targets[d]| ==> s.db.targets[d][i].updatedAt <= t0
    ensures d in Next(s, o, l).db.targets
    ensures forall i :: 0 <= i < |Next(s, o, l).db.targets[d]| ==> Next(s, o, l).db.targets[d][i].updatedAt <= t0
  {
    if l.d != d {
      OthersUntouched(s, o, l, d);
    } else if l.Reconcile? {
      PassRows(s.db.targets[d], o, l.found, l.down, l.now);
    }
  }

  /** A run whose steps were taken by t0 leads to s. */
  ghost predicate ReachableBy(o: DeployModel.Options, s: Sys, t0: Time) {
    exists ls: seq<Step> :: Exec(o, ls) == Some(s) && forall l :: l in ls ==> TimeOf(l, t0) <= t0
  }

  /** A timed run leads from s at time t0 to the moment m. */
  ghost predicate Elapses(o: DeployModel.Options, s: Sys, t0: Time, m: Moment, d: DeployId, gap: int) {
    exists ms: seq<Step> :: TimedExec(o, s, t0, ms, d, gap) == Some(m)
  }

  /**
   Every in-progress deploy settles. Take any reachable state at time t0 and any
   continuation in which passes over d come at most a gap apart, d is neither resumed
   nor cancelled and its artifact is found, while devices report whatever they like.
   As long as d is in progress, no more than 2 (timeout + gap) for each of its batches
   and one more gap have gone by.
   */
  lemma EveryRolloutSettles(o: DeployModel.Options, s: Sys, t0: Time, m: Moment, d: DeployId, gap: int)
    requires o == Clamped(o) && gap >= 0 && ReachableBy(o, s, t0) && d in s.db.targets && Elapses(o, s, t0, m, d, gap)
    requires Active(m.sys, d)
    ensures m.now <= t0 + gap + |Batches(s.db.targets[d])| * (2 * Patience(o) + 2 * gap)
  {
    var ls: seq<Step> :| Exec(o, ls) == Some(s) && forall l :: l in ls ==> TimeOf(l, t0) <= t0;
    RunKeeps(o, ls);
    StampsInThePast(o, ls, t0, d);
    var ms: seq<Step> :| TimedExec(o, s, t0, ms, d, gap) == Some(m);
    RunOnSchedule(o, s, t0, ms, d, gap);
    InTime(m, o, gap, t0, d, Batches(s.db.targets[d]));
    StartIs(t0, o, gap, |Batches(s.db.targets[d])|);
  }

  lemma InTime(m: Moment, o: DeployModel.Options, gap: int, t0: Time, d: DeployId, bs: seq<int>)
    requires gap >= 0 && d in m.sys.db.targets && OnSchedule(m, o, gap, t0, d, bs) && Active(m.sys, d)
    ensures m.now <= Start(t0, o, gap, |bs|)
  {
    if m.ticked {
      var k: nat :| Working(m.sys.db.targets[d], o, gap, t0, m.last, k);
      StartsInOrder(t0, o, gap, k, |bs|);
    } else {
      StartsInOrder(t0, o, gap, 0, |bs|);
    }
  }

  lemma {:induction false} Spread(bs: seq<int>)
    requires Ascending(bs) && bs != []
    ensures bs[|bs| - 1] - bs[0] >= |bs| - 1
  {
    if |bs| > 1 { Spread(bs[..|bs| - 1]); }
  }

  lemma TwoBatches(ts: seq<Target>)
    requires forall i :: 0 <= i < |ts| ==> ts[i].batch == 0 || ts[i].batch == 1
    ensures |Batches(ts)| <= 2
  {
    var bs := Batches(ts);
    forall i | 0 <= i < |bs| ensures bs[i] == 0 || bs[i] == 1 {
      assert bs[i] in bs;
      var k :| 0 <= k < |ts| && ts[k].batch == bs[i];
    }
    if bs != [] { Spread(bs); }
  }

  /** A rollout makes two batches at most. */
  lemma AtMostTwoBatches(o: DeployModel.Options, s: Sys, d: DeployId)
    requires o == Clamped(o) && Reachable(o, s) && d in s.db.targets
    ensures |Batches(s.db.targets[d])| <= 2
  {
    var ls: seq<Step> :| Exec(o, ls) == Some(s);
    RunScopes(o, ls, d);
    TwoBatches(s.db.targets[d]);
  }

  /**
   In numbers: whenever, in any run however long, more than four timeouts and five gaps
   have gone by without a resume or cancel, the deploy has settled.
   */
  lemma SettlesByThen(o: DeployModel.Options, s: Sys, t0: Time, m: Moment, d: DeployId, gap: int)
    requires o == Clamped(o) && gap >= 0 && ReachableBy(o, s, t0) && d in s.db.targets && Elapses(o, s, t0, m, d, gap)
    requires m.now > t0 + 4 * Patience(o) + 5 * gap
    ensures !Active(m.sys, d)
  {
    var ls: seq<Step> :| Exec(o, ls) == Some(s) && forall l :: l in ls ==> TimeOf(l, t0) <= t0;
    AtMostTwoBatches(o, s, d);
    if Active(m.sys, d) { NotThatLong(o, s, t0, m, d, gap); }
  }

  lemma NotThatLong(o: DeployModel.Options, s: Sys, t0: Time, m: Moment, d: DeployId, gap: int)
    requires o == Clamped(o) && gap >= 0 && ReachableBy(o, s, t0) && d in s.db.targets && Elapses(o, s, t0, m, d, gap)
    requires Active(m.sys, d) && |Batches(s.db.targets[d])| <= 2
    ensures m.now <= t0 + 4 * Patience(o) + 5 * gap
  {
    EveryRolloutSettles(o, s, t0, m, d, gap);
    StartIs(t0, o, gap, |Batches(s.db.targets[d])|);
    StartsInOrder(t0, o, gap, |Batches(s.db.targets[d])|, 2);
    StartIs(t0, o, gap, 2);
  }

  // ---------------------------------------------------------------- after it has settled

  /** The deploy is there and rests with these columns. */
  ghost predicate Rests(m: Moment, d: DeployId, row: Deploy) {
    m.sys.db.WellFormed() && d in m.sys.db.deploys && m.sys.db.deploys[d] == row && !Active(m.sys, d)
  }

  lemma StepRests(m: Moment, o: DeployModel.Options, l: Step, d: DeployId, gap: int, row: Deploy)
    requires Rests(m, d, row) && Timely(m, l, d, gap)
    ensures Rests(Later(m, o, l, d), d, row)
  {
    StepWellFormed(m.sys, o, l);
    StaysSettled(m, o, l, d, gap);
  }

  /** A run of one more step. */
  lemma TimedMore(o: DeployModel.Options, s: Sys, t0: Time, ls: seq<Step>, l: Step, d: DeployId, gap: int)
    requires TimedExec(o, s, t0, ls + [l], d, gap).Some?
    ensures TimedExec(o, s, t0, ls, d, gap).Some?
    ensures var m := TimedExec(o, s, t0, ls, d, gap).value;
            Timely(m, l, d, gap) && TimedExec(o, s, t0, ls + [l], d, gap) == Some(Later(m, o, l, d))
  {
    assert (ls + [l])[..|ls + [l]| - 1] == ls;
  }

  lemma {:induction false} RunStaysSettled(o: DeployModel.Options, s: Sys, t0: Time, ms: seq<Step>, ns: seq<Step>,
                                           d: DeployId, gap: int, row: Deploy)
    requires TimedExec(o, s, t0, ms, d, gap).Some? && TimedExec(o, s, t0, ms + ns, d, gap).Some?
    requires Rests(TimedExec(o, s, t0, ms, d, gap).value, d, row)
    ensures Rests(TimedExec(o, s, t0, ms + ns, d, gap).value, d, row)
  {
    if ns == [] {
      assert ms + ns == ms;
    } else {
      var before, l := ns[..|ns| - 1], ns[|ns| - 1];
      assert ms + ns == ms + before + [l];
      TimedMore(o, s, t0, ms + before, l, d, gap);
      RunStaysSettled(o, s, t0, ms, before, d, gap, row);
      StepRests(TimedExec(o, s, t0, ms + before, d, gap).value, o, l, d, gap, row);
    }
  }

  /** A timed run passes through m and goes on to n. */
  ghost predicate GoesOn(o: DeployModel.Options, s: Sys, t0: Time, m: Moment, n: Moment, d: DeployId, gap: int) {
    exists ms: seq<Step>, ns: seq<Step> ::
      TimedExec(o, s, t0, ms, d, gap) == Some(m) && TimedExec(o, s, t0, ms + ns, d, gap) == Some(n)
  }

  /** Once settled, a deploy keeps the state it settled in, as long as nobody resumes or cancels it. */
  lemma SettledForGood(o: DeployModel.Options, s: Sys, t0: Time, m: Moment, n: Moment, d: DeployId, gap: int)
    requires gap >= 0 && ReachableBy(o, s, t0) && d in s.db.targets && GoesOn(o, s, t0, m, n, d, gap)
      && !Active(m.sys, d)
    ensures d in m.sys.db.deploys && d in n.sys.db.deploys && n.sys.db.deploys[d] == m.sys.db.deploys[d]
  {
    var ls: seq<Step> :| Exec(o, ls) == Some(s) && forall l :: l in ls ==> TimeOf(l, t0) <= t0;
    RunKeeps(o, ls);
    StampsInThePast(o, ls, t0, d);
    var ms: seq<Step>, ns: seq<Step> :|
      TimedExec(o, s, t0, ms, d, gap) == Some(m) && TimedExec(o, s, t0, ms + ns, d, gap) == Some(n);
    RunOnSchedule(o, s, t0, ms, d, gap);
    RunStaysSettled(o, s, t0, ms, ns, d, gap, m.sys.db.deploys[d]);
  }

  lemma OneLater(o: DeployModel.Options, s: Sys, t0: Time, m: Moment, l: Step, d: DeployId, gap: int)
    requires Elapses(o, s, t0, m, d, gap) && Timely(m, l, d, gap)
    ensures GoesOn(o, s, t0, m, Later(m, o, l, d), d, gap)
  {
    var ms: seq<Step> :| TimedExec(o, s, t0, ms, d, gap) == Some(m);
    assert (ms + [l])[..|ms + [l]| - 1] == ms;
    assert TimedExec(o, s, t0, ms + [l], d, gap) == Some(Later(m, o, l, d));
  }

  lemma NewRolloutIsTimely(m: Moment, d: DeployId, gap: int, e: DeployId, x: DeviceId, later: Time)
    requires !Active(m.sys, d) && d in m.sys.db.deploys && e !in m.sys.db.deploys && later >= m.now
    ensures Timely(m, Rollout(e, "", "", 0, [x], {}, later), d, gap)
  {
  }

  /** And time does go on for it: the clock can show anything later, as soon as something else is rolled out. */
  lemma TimeGoesOn(o: DeployModel.Options, s: Sys, t0: Time, m: Moment, d: DeployId, gap: int, e: DeployId, x: DeviceId,
                   later: Time)
    returns (n: Moment)
    requires Elapses(o, s, t0, m, d, gap) && d in m.sys.db.deploys && !Active(m.sys, d)
    requires e !in m.sys.db.deploys && later >= m.now
    ensures GoesOn(o, s, t0, m, n, d, gap) && n.now == later
  {
    var l := Rollout(e, "", "", 0, [x], {}, later);
    NewRolloutIsTimely(m, d, gap, e, x, later);
    OneLater(o, s, t0, m, l, d, gap);
    n := Later(m, o, l, d);
  }
}
