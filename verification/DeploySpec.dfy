/** What the statements of deploy_repo.go and the operations of deploy/service.go do to the stored rows. */
module DeploySpec {
  import opened Optional
  import opened DeployModel
  import opened BatchRules

  /** The tables deploys and deploy_targets. */
  datatype Db = Db(deploys: map<DeployId, Deploy>, targets: map<DeployId, seq<Target>>) {
    /** Foreign key and primary key. */
    ghost predicate WellFormed() {
      && deploys.Keys == targets.Keys
      && forall d :: d in targets ==> Distinct(targets[d])
    }
  }

  predicate Distinct(ts: seq<Target>) {
    forall i, j :: 0 <= i < j < |ts| ==> ts[i].device != ts[j].device
  }

  // ---------------------------------------------------------------- statements

  /** AdvanceTargetStatus on one row: terminal rows stay, and so does the time of an unchanged status. */
  function AdvanceRow(t: Target, status: Status, at: Time): Target {
    if t.status.Terminal() || t.status == status then t else t.(status := status, updatedAt := Stored(at))
  }

  function Advance(ts: seq<Target>, device: DeviceId, status: Status, at: Time): (r: seq<Target>)
    ensures |r| == |ts|
  {
    seq(|ts|, i requires 0 <= i < |ts| => if ts[i].device == device then AdvanceRow(ts[i], status, at) else ts[i])
  }

  predicate Matches(t: Target, device: DeviceId, sequence: int, status: Status) {
    t.device == device && t.sequence == sequence && !t.status.Terminal() && t.status != status
  }

  predicate HasMatch(ts: seq<Target>, device: DeviceId, sequence: int, status: Status) {
    exists i :: 0 <= i < |ts| && Matches(ts[i], device, sequence, status)
  }

  /** AdvanceTargetStatusBySequence within the deploy it picked. */
  function AdvanceMatch(ts: seq<Target>, device: DeviceId, sequence: int, status: Status, at: Time): (r: seq<Target>)
    ensures |r| == |ts|
  {
    seq(|ts|, i requires 0 <= i < |ts| =>
      if Matches(ts[i], device, sequence, status) then AdvanceRow(ts[i], status, at) else ts[i])
  }

  function ResetFailed(ts: seq<Target>, at: Time): (r: seq<Target>)
    ensures |r| == |ts|
  {
    seq(|ts|, i requires 0 <= i < |ts| =>
      if ts[i].status.Failure() then ts[i].(status := Pending, updatedAt := Stored(at)) else ts[i])
  }

  predicate HasDevice(ts: seq<Target>, device: DeviceId) {
    exists i :: 0 <= i < |ts| && ts[i].device == device
  }

  /** A newest deploy with a matching row: the order of equal creation times is left open. */
  ghost predicate Picks(db: Db, device: DeviceId, sequence: int, status: Status, d: DeployId) {
    && d in db.targets && d in db.deploys && HasMatch(db.targets[d], device, sequence, status)
    && forall e :: e in db.targets && e in db.deploys && HasMatch(db.targets[e], device, sequence, status) ==>
         db.deploys[e].createdAt <= db.deploys[d].createdAt
  }

  /** The stamp of the device's row. */
  function StampOf(ts: seq<Target>, device: DeviceId): Time
    requires HasDevice(ts, device)
  {
    if ts[0].device == device then ts[0].updatedAt else StampOf(ts[1..], device)
  }

  lemma {:induction false} StampIs(ts: seq<Target>, device: DeviceId, i: nat)
    requires Distinct(ts) && i < |ts| && ts[i].device == device
    ensures HasDevice(ts, device) && StampOf(ts, device) == ts[i].updatedAt
  {
    if i > 0 {
      assert ts[0].device != device && ts[1..][i - 1] == ts[i];
      StampIs(ts[1..], device, i - 1);
    }
  }

  /** The order of LatestTargetForDevice: by creation of the deploy, then by the stamp of the row. */
  predicate NoNewer(db: Db, device: DeviceId, e: DeployId, d: DeployId)
    requires e in db.deploys && e in db.targets && HasDevice(db.targets[e], device)
    requires d in db.deploys && d in db.targets && HasDevice(db.targets[d], device)
  {
    || db.deploys[e].createdAt < db.deploys[d].createdAt
    || (db.deploys[e].createdAt == db.deploys[d].createdAt
        && StampOf(db.targets[e], device) <= StampOf(db.targets[d], device))
  }

  /** LatestTargetForDevice: a newest deploy that has a row of the device. */
  ghost predicate IsLatest(db: Db, device: DeviceId, d: DeployId) {
    && d in db.targets && d in db.deploys && HasDevice(db.targets[d], device)
    && forall e :: e in db.targets && e in db.deploys && HasDevice(db.targets[e], device) ==> NoNewer(db, device, e, d)
  }

  // ---------------------------------------------------------------- reconcile

  predicate TimedOut(t: Target, now: Time, timeout: int) {
    t.status.InFlight() && now - t.updatedAt > timeout
  }

  function LostRow(t: Target, now: Time, timeout: int): Target {
    if TimedOut(t, now, timeout) then t.(status := Lost, updatedAt := Stored(now)) else t
  }

  function MarkLost(ts: seq<Target>, now: Time, timeout: int): (r: seq<Target>)
    ensures |r| == |ts|
  {
    seq(|ts|, i requires 0 <= i < |ts| => LostRow(ts[i], now, timeout))
  }

  predicate Resendable(t: Target, now: Time, timeout: int) {
    !TimedOut(t, now, timeout) && t.status.Triggered? && now - t.updatedAt < RESEND_GRACE_PERIOD
  }

  function Resends(ts: seq<Target>, now: Time, timeout: int): seq<DeviceId> {
    if ts == [] then []
    else
      var t := ts[|ts| - 1];
      Resends(ts[..|ts| - 1], now, timeout) + if Resendable(t, now, timeout) then [t.device] else []
  }

  /** Who gets its command again, each once: the triggered rows that are neither overdue nor older than 90 seconds. */
  lemma {:induction false} ResendsExactly(ts: seq<Target>, now: Time, timeout: int, i: nat)
    requires Distinct(ts) && i < |ts|
    ensures multiset(Resends(ts, now, timeout))[ts[i].device] ==
              if ts[i].status.Triggered? && now - ts[i].updatedAt <= timeout && now - ts[i].updatedAt < 90_000_000_000
              then 1 else 0
  {
    var n := |ts| - 1;
    if i < n {
      ResendsExactly(ts[..n], now, timeout, i);
    } else {
      ResendsOthers(ts[..n], now, timeout, ts[n].device);
    }
  }

  lemma {:induction false} ResendsOthers(ts: seq<Target>, now: Time, timeout: int, device: DeviceId)
    requires forall i :: 0 <= i < |ts| ==> ts[i].device != device
    ensures multiset(Resends(ts, now, timeout))[device] == 0
  {
    if ts != [] { ResendsOthers(ts[..|ts| - 1], now, timeout, device); }
  }

  function Devices(ts: seq<Target>): (r: seq<DeviceId>)
    ensures |r| == |ts|
  {
    seq(|ts|, i requires 0 <= i < |ts| => ts[i].device)
  }

  /** trigger: a command that cannot be published fails its target. */
  function TriggerStatus(device: DeviceId, down: set<DeviceId>): Status {
    if device in down then Failed else Triggered
  }

  function TriggerRow(t: Target, down: set<DeviceId>, at: Time): Target {
    AdvanceRow(t, TriggerStatus(t.device, down), at)
  }

  function PromoteRows(ts: seq<Target>, b: int, down: set<DeviceId>, at: Time): (r: seq<Target>)
    ensures |r| == |ts|
  {
    seq(|ts|, i requires 0 <= i < |ts| =>
      if ts[i].batch == b && ts[i].status.Pending? then TriggerRow(ts[i], down, at) else ts[i])
  }

  /** The outcome of a pass: the new state, if it sets one, the rows, and the devices a command was sent to. */
  datatype Pass = Pass(state: Option<State>, targets: seq<Target>, sent: seq<DeviceId>)

  /** What follows the sweep: the batch loop and the promotion. */
  function DecidePass(lost: seq<Target>, threshold: int, found: bool, down: set<DeviceId>, now: Time): Pass {
    match VerdictOn(lost, threshold)
    case Pause(_) => Pass(Some(Paused), lost, [])
    case Complete => Pass(Some(Completed), lost, [])
    case Wait(_) => Pass(None, lost, [])
    case Promote(b) =>
      if found then Pass(None, PromoteRows(lost, b, down, now), Devices(PendingOf(InBatch(lost, b))))
      else Pass(None, lost, [])
  }

  function ReconcilePass(ts: seq<Target>, o: Options, found: bool, down: set<DeviceId>, now: Time): Pass {
    var pass := DecidePass(MarkLost(ts, now, o.targetTimeout), o.failureThreshold, found, down, now);
    pass.(sent := (if found then Resends(ts, now, o.targetTimeout) else []) + pass.sent)
  }

  function Apply(db: Db, d: DeployId, pass: Pass): Db
    requires d in db.deploys
  {
    Db(if pass.state.Some? then db.deploys[d := db.deploys[d].(state := pass.state.value)] else db.deploys,
       db.targets[d := pass.targets])
  }

  /** A reconcile pass over one deploy, which it assumes to be listed as active. */
  function Reconciled(db: Db, o: Options, d: DeployId, found: bool, down: set<DeviceId>, now: Time): Db
    requires d in db.deploys && d in db.targets
  {
    Apply(db, d, ReconcilePass(db.targets[d], o, found, down, now))
  }

  // ---------------------------------------------------------------- rollout

  function FreshTargets(devices: seq<DeviceId>, canary: int, version: string, sequence: int,
                        now: Time): (r: seq<Target>)
    ensures |r| == |devices|
  {
    seq(|devices|, i requires 0 <= i < |devices| =>
      Target(devices[i], version, sequence, if i >= canary then 1 else 0, Pending, Stored(now)))
  }

  /** The rows of a new deploy: the canary is triggered at once if the artifact has a sequence. */
  function RolloutTargets(devices: seq<DeviceId>, o: Options, version: string, sequence: int,
                          down: set<DeviceId>, now: Time): seq<Target>
  {
    var rows := FreshTargets(devices, CanaryCount(|devices|, o.canaryPercent), version, sequence, now);
    if sequence == 0 then rows else PromoteRows(rows, 0, down, now)
  }

  function RolledOut(db: Db, o: Options, d: DeployId, driver: string, version: string, sequence: int,
                     devices: seq<DeviceId>, down: set<DeviceId>, now: Time): Db {
    Db(db.deploys[d := Deploy(driver, version, InProgress, Stored(now))],
       db.targets[d := RolloutTargets(devices, o, version, sequence, down, now)])
  }

  /** The devices a rollout sends its command to. */
  function RolloutSent(devices: seq<DeviceId>, o: Options, sequence: int): seq<DeviceId> {
    var canary := CanaryCount(|devices|, o.canaryPercent);
    if sequence == 0 || canary < 0 || canary > |devices| then [] else devices[..canary]
  }

  function Resumed(db: Db, d: DeployId, now: Time): Db
    requires d in db.deploys && d in db.targets
  {
    Db(db.deploys[d := db.deploys[d].(state := InProgress)], db.targets[d := ResetFailed(db.targets[d], now)])
  }

  function CancelledDb(db: Db, d: DeployId): Db
    requires d in db.deploys
  {
    db.(deploys := db.deploys[d := db.deploys[d].(state := Cancelled)])
  }

  // ---------------------------------------------------------------- what the guards of the statements are for

  /**
   The status of a row that is terminal stands, and a status that is reported again is
   not news: whatever comes second changes neither the row nor its stamp.
   */
  lemma SecondAdvance(ts: seq<Target>, device: DeviceId, first: Status, at: Time, second: Status, later: Time)
    ensures first.Terminal() || second == first ==>
              Advance(Advance(ts, device, first, at), device, second, later) == Advance(ts, device, first, at)
    ensures forall i :: 0 <= i < |ts| && ts[i].device == device ==>
              Advance(ts, device, first, at)[i].status == if ts[i].status.Terminal() then ts[i].status else first
    ensures forall i :: 0 <= i < |ts| && ts[i].device != device ==> Advance(ts, device, first, at)[i] == ts[i]
  {
  }

  /**
   A reset loses and invents no target: afterwards nothing counts as failed, the pending
   rows are those of before and the failed ones, every other row is untouched, and a
   second reset changes nothing.
   */
  lemma {:induction false} ResetConserves(ts: seq<Target>, at: Time, later: Time)
    ensures var us := ResetFailed(ts, at);
            && Failures(us) == 0
            && |PendingOf(us)| == |PendingOf(ts)| + Failures(ts)
            && (forall i :: 0 <= i < |ts| && !ts[i].status.Failure() ==> us[i] == ts[i])
            && SameTargets(ts, us)
            && ResetFailed(us, later) == us
  {
    if ts != [] {
      ResetConserves(ts[..|ts| - 1], at, later);
      assert ResetFailed(ts, at)[..|ts| - 1] == ResetFailed(ts[..|ts| - 1], at);
    }
  }

  // ---------------------------------------------------------------- facts about the rows

  /** No operation but the insertion touches the columns that identify a row. */
  predicate SameTargets(ts: seq<Target>, us: seq<Target>) {
    |ts| == |us| && forall i :: 0 <= i < |ts| ==> ts[i].SameTarget(us[i])
  }

  lemma SameStayDistinct(ts: seq<Target>, us: seq<Target>)
    requires SameTargets(ts, us) && Distinct(ts)
    ensures Distinct(us)
  {
  }

  /** A pass ends in the swept rows, or in those with a batch of them promoted. */
  lemma PassShape(ts: seq<Target>, o: DeployModel.Options, found: bool, down: set<DeviceId>, now: Time)
    ensures var lost := MarkLost(ts, now, o.targetTimeout);
            var v := VerdictOn(lost, o.failureThreshold);
            ReconcilePass(ts, o, found, down, now).targets ==
              if v.Promote? && found then PromoteRows(lost, v.batch, down, now) else lost
  {
  }

  lemma PassKeepsTargets(ts: seq<Target>, o: DeployModel.Options, found: bool, down: set<DeviceId>, now: Time)
    ensures SameTargets(ts, ReconcilePass(ts, o, found, down, now).targets)
    ensures Distinct(ts) ==> Distinct(ReconcilePass(ts, o, found, down, now).targets)
  {
    PassShape(ts, o, found, down, now);
    var after := ReconcilePass(ts, o, found, down, now).targets;
    if Distinct(ts) { SameStayDistinct(ts, after); }
  }

  /** Two readings of the rows that differ in their times at most. */
  predicate SameStatuses(ts: seq<Target>, us: seq<Target>) {
    |ts| == |us| && forall i :: 0 <= i < |ts| ==> ts[i].SameTarget(us[i]) && ts[i].status == us[i].status
  }

  lemma {:induction false} SameGroups(ts: seq<Target>, us: seq<Target>, b: int)
    requires SameStatuses(ts, us)
    ensures SameStatuses(InBatch(ts, b), InBatch(us, b))
  {
    if ts != [] { SameGroups(ts[..|ts| - 1], us[..|us| - 1], b); }
  }

  lemma {:induction false} SamePending(ts: seq<Target>, us: seq<Target>)
    requires SameStatuses(ts, us)
    ensures SameStatuses(PendingOf(ts), PendingOf(us))
    ensures Devices(PendingOf(ts)) == Devices(PendingOf(us))
  {
    if ts != [] { SamePending(ts[..|ts| - 1], us[..|us| - 1]); }
  }

  lemma {:induction false} SameFailures(ts: seq<Target>, us: seq<Target>)
    requires SameStatuses(ts, us)
    ensures Failures(ts) == Failures(us)
  {
    if ts != [] { SameFailures(ts[..|ts| - 1], us[..|us| - 1]); }
  }

  lemma SameBatches(ts: seq<Target>, us: seq<Target>)
    requires SameStatuses(ts, us)
    ensures Batches(ts) == Batches(us)
  {
    forall b ensures b in Batches(ts) <==> b in Batches(us) {
      SameGroups(ts, us, b);
      Present(ts, b);
      Present(us, b);
    }
    BatchListUnique(Batches(ts), Batches(us));
  }

  lemma {:induction false} SameWalk(bs: seq<int>, ts: seq<Target>, us: seq<Target>, threshold: int)
    requires SameStatuses(ts, us)
    ensures Walk(bs, ts, threshold) == Walk(bs, us, threshold)
  {
    if bs != [] {
      SameGroups(ts, us, bs[0]);
      SameFailures(InBatch(ts, bs[0]), InBatch(us, bs[0]));
      SamePending(InBatch(ts, bs[0]), InBatch(us, bs[0]));
      SameWalk(bs[1..], ts, us, threshold);
    }
  }

  lemma SameVerdict(ts: seq<Target>, us: seq<Target>, threshold: int)
    requires SameStatuses(ts, us)
    ensures VerdictOn(ts, threshold) == VerdictOn(us, threshold)
    ensures forall b :: Devices(PendingOf(InBatch(ts, b))) == Devices(PendingOf(InBatch(us, b)))
  {
    SameBatches(ts, us);
    SameWalk(Batches(ts), ts, us, threshold);
    forall b ensures Devices(PendingOf(InBatch(ts, b))) == Devices(PendingOf(InBatch(us, b))) {
      SameGroups(ts, us, b);
      SamePending(InBatch(ts, b), InBatch(us, b));
    }
  }

  lemma DevicesMember(ts: seq<Target>, device: DeviceId)
    ensures device in Devices(ts) <==> exists i :: 0 <= i < |ts| && ts[i].device == device
  {
    if device in Devices(ts) {
      var i :| 0 <= i < |ts| && Devices(ts)[i] == device;
      assert ts[i].device == device;
    }
    if i :| 0 <= i < |ts| && ts[i].device == device {
      assert Devices(ts)[i] == device;
    }
  }

  /** With unique devices, the devices of the pending rows of a batch name exactly those rows. */
  lemma PendingDevices(ts: seq<Target>, b: int, i: nat)
    requires Distinct(ts) && i < |ts|
    ensures ts[i].device in Devices(PendingOf(InBatch(ts, b))) <==> ts[i].batch == b && ts[i].status.Pending?
  {
    var group := InBatch(ts, b);
    InBatchMember(ts, b);
    PendingMember(group);
    DevicesMember(PendingOf(group), ts[i].device);
    if ts[i].batch == b && ts[i].status.Pending? {
      assert ts[i] in PendingOf(group);
    }
    if k :| 0 <= k < |PendingOf(group)| && PendingOf(group)[k].device == ts[i].device {
      var t := PendingOf(group)[k];
      assert t in ts;
    }
  }

  lemma StaysWellFormed(db: Db, d: DeployId, pass: Pass)
    requires db.WellFormed() && d in db.deploys && Distinct(pass.targets)
    ensures Apply(db, d, pass).WellFormed()
  {
  }

  /** The sweep and the decision together are the pass. */
  lemma SweepThenDecide(db: Db, o: Options, d: DeployId, found: bool, down: set<DeviceId>, now: Time)
    requires d in db.deploys && d in db.targets
    ensures var lost := MarkLost(db.targets[d], now, o.targetTimeout);
            Apply(db.(targets := db.targets[d := lost]), d, DecidePass(lost, o.failureThreshold, found, down, now))
              == Reconciled(db, o, d, found, down, now)
  {
  }

  lemma PassWellFormed(db: Db, o: Options, d: DeployId, found: bool, down: set<DeviceId>, now: Time)
    requires db.WellFormed() && d in db.deploys
    ensures Distinct(MarkLost(db.targets[d], now, o.targetTimeout))
    ensures Reconciled(db, o, d, found, down, now).WellFormed()
  {
    SameStayDistinct(db.targets[d], MarkLost(db.targets[d], now, o.targetTimeout));
    var pass := ReconcilePass(db.targets[d], o, found, down, now);
    assert Distinct(pass.targets) by { PassKeepsTargets(db.targets[d], o, found, down, now); }
    StaysWellFormed(db, d, pass);
  }

  lemma RollsOutWellFormed(db: Db, o: Options, d: DeployId, driver: string, version: string, sequence: int,
                           devices: seq<DeviceId>, down: set<DeviceId>, now: Time)
    requires db.WellFormed()
    requires forall i, j :: 0 <= i < j < |devices| ==> devices[i] != devices[j]
    ensures RolledOut(db, o, d, driver, version, sequence, devices, down, now).WellFormed()
  {
    var rows := RolloutTargets(devices, o, version, sequence, down, now);
    assert forall i :: 0 <= i < |rows| ==> rows[i].device == devices[i];
    assert Distinct(rows);
  }

  // ---------------------------------------------------------------- row by row

  /** The rows of a new deploy, in the order of the devices: the canary is the first n * p / 100 of them, rounded up. */
  lemma RolloutRow(devices: seq<DeviceId>, o: Options, version: string, sequence: int, down: set<DeviceId>, now: Time,
                   i: nat)
    requires 1 <= o.canaryPercent <= 100 && i < |devices|
    ensures |RolloutTargets(devices, o, version, sequence, down, now)| == |devices|
    ensures var canary := 100 * i < |devices| * o.canaryPercent;
            RolloutTargets(devices, o, version, sequence, down, now)[i] ==
              Target(device := devices[i], version := version, sequence := sequence, batch := if canary then 0 else 1,
                     status := if sequence == 0 || !canary then Pending
                               else if devices[i] in down then Failed else Triggered,
                     updatedAt := Stored(now))
  {
    CanaryIsCeiling(|devices|, o.canaryPercent);
  }

  /** And the canary is sent its command once, the others are not. */
  lemma RolloutSends(devices: seq<DeviceId>, o: Options, sequence: int, i: nat)
    requires 1 <= o.canaryPercent <= 100 && i < |devices|
    requires forall i, j :: 0 <= i < j < |devices| ==> devices[i] != devices[j]
    ensures multiset(RolloutSent(devices, o, sequence))[devices[i]] ==
              if sequence != 0 && 100 * i < |devices| * o.canaryPercent then 1 else 0
  {
    var canary := CanaryCount(|devices|, o.canaryPercent);
    CanaryIsCeiling(|devices|, o.canaryPercent);
    if sequence != 0 {
      if i < canary {
        OnceAmong(devices[..canary], i);
      } else {
        assert devices[i] !in devices[..canary];
      }
    }
  }

  lemma OnceAmong(ds: seq<DeviceId>, i: nat)
    requires i < |ds| && forall i, j :: 0 <= i < j < |ds| ==> ds[i] != ds[j]
    ensures multiset(ds)[ds[i]] == 1
  {
    assert ds == ds[..i] + [ds[i]] + ds[i + 1..];
    assert ds[i] !in ds[..i] && ds[i] !in ds[i + 1..];
  }

  /** Whatever is triggered belongs to the first batch that did not pass, and all that is pending there is triggered. */
  lemma PromotedExactly(ts: seq<Target>, threshold: int, i: nat)
    requires i < |ts| && ts[i].status.Pending?
    ensures VerdictOn(ts, threshold) == Promote(ts[i].batch) <==> PassedBelow(ts, ts[i].batch, threshold)
  {
    var b := ts[i].batch;
    var v := VerdictOn(ts, threshold);
    VerdictMeaning(ts, threshold, v);
    if PassedBelow(ts, b, threshold) {
      InBatchMember(ts, b);
      PendingMember(InBatch(ts, b));
      assert ts[i] in ts && ts[i] in InBatch(ts, b);
      VerdictMeaning(ts, threshold, Promote(b));
    }
  }

  /** What a pass makes of one row. */
  lemma PassRow(ts: seq<Target>, o: Options, found: bool, down: set<DeviceId>, now: Time, i: nat)
    requires i < |ts|
    ensures var us := ReconcilePass(ts, o, found, down, now).targets;
            var t := ts[i];
            && |us| == |ts|
            && (if (t.status.Triggered? || t.status.Downloading?) && now - t.updatedAt > o.targetTimeout
                then us[i] == t.(status := Lost, updatedAt := Stored(now))
                else if t.status.Pending? && found
                     && PassedBelow(MarkLost(ts, now, o.targetTimeout), t.batch, o.failureThreshold)
                then us[i] == t.(status := if t.device in down then Failed else Triggered, updatedAt := Stored(now))
                else us[i] == t)
  {
    var lost := MarkLost(ts, now, o.targetTimeout);
    PassShape(ts, o, found, down, now);
    if ts[i].status.Pending? { PromotedExactly(lost, o.failureThreshold, i); }
  }

  /** How often a pass sends the command to the device of a row. */
  lemma PassSends(ts: seq<Target>, o: Options, found: bool, down: set<DeviceId>, now: Time, i: nat)
    requires Distinct(ts) && i < |ts|
    ensures var t := ts[i];
            multiset(ReconcilePass(ts, o, found, down, now).sent)[t.device] ==
              if found && t.status.Triggered? && now - t.updatedAt <= o.targetTimeout
                 && now - t.updatedAt < 90_000_000_000 then 1
              else if found && t.status.Pending?
                 && PassedBelow(MarkLost(ts, now, o.targetTimeout), t.batch, o.failureThreshold) then 1
              else 0
  {
    var lost := MarkLost(ts, now, o.targetTimeout);
    var v := VerdictOn(lost, o.failureThreshold);
    SameStayDistinct(ts, lost);
    ResendsExactly(ts, now, o.targetTimeout, i);
    if v.Promote? { PendingOnce(lost, v.batch, i); }
    if ts[i].status.Pending? { PromotedExactly(lost, o.failureThreshold, i); }
  }

  lemma {:induction false} DistinctGroup(ts: seq<Target>, b: int)
    requires Distinct(ts)
    ensures Distinct(InBatch(ts, b))
  {
    if ts != [] {
      DistinctGroup(ts[..|ts| - 1], b);
      InBatchMember(ts[..|ts| - 1], b);
      var before := InBatch(ts[..|ts| - 1], b);
      forall i | 0 <= i < |before| ensures before[i].device != ts[|ts| - 1].device {
        assert before[i] in ts[..|ts| - 1];
      }
    }
  }

  lemma {:induction false} DistinctPending(ts: seq<Target>)
    requires Distinct(ts)
    ensures Distinct(PendingOf(ts))
  {
    if ts != [] {
      DistinctPending(ts[..|ts| - 1]);
      PendingMember(ts[..|ts| - 1]);
      var before := PendingOf(ts[..|ts| - 1]);
      forall i | 0 <= i < |before| ensures before[i].device != ts[|ts| - 1].device {
        assert before[i] in ts[..|ts| - 1];
      }
    }
  }

  lemma PendingOnce(ts: seq<Target>, b: int, i: nat)
    requires Distinct(ts) && i < |ts|
    ensures multiset(Devices(PendingOf(InBatch(ts, b))))[ts[i].device] ==
              if ts[i].batch == b && ts[i].status.Pending? then 1 else 0
  {
    var ds := Devices(PendingOf(InBatch(ts, b)));
    PendingDevices(ts, b, i);
    if ts[i].batch == b && ts[i].status.Pending? {
      DistinctGroup(ts, b);
      DistinctPending(InBatch(ts, b));
      var k :| 0 <= k < |ds| && ds[k] == ts[i].device;
      OnceAmong(ds, k);
    }
  }

  /** What a pass makes of the state of its deploy. */
  lemma PassState(ts: seq<Target>, o: Options, found: bool, down: set<DeviceId>, now: Time)
    ensures var lost, th := MarkLost(ts, now, o.targetTimeout), o.failureThreshold;
            var state := ReconcilePass(ts, o, found, down, now).state;
            && (state == Some(Paused) <==> exists b :: PassedBelow(lost, b, th) && BatchTripped(InBatch(lost, b), th))
            && (state == Some(Completed) <==> forall b :: Passed(lost, b, th))
            && (state.None? || state == Some(Paused) || state == Some(Completed))
  {
    var lost, th := MarkLost(ts, now, o.targetTimeout), o.failureThreshold;
    var v := VerdictOn(lost, th);
    VerdictMeaning(lost, th, v);
    VerdictMeaning(lost, th, Complete);
    if b :| PassedBelow(lost, b, th) && BatchTripped(InBatch(lost, b), th) { VerdictMeaning(lost, th, Pause(b)); }
  }
}
