/** internal/store/sqlite/deploy_repo.go and internal/deploy/service.go, each operation against DeploySpec. */
module DeployService {
  import opened Optional
  import opened DeployModel
  import opened BatchRules
  import opened DeploySpec
  import WireCodec

  // ---------------------------------------------------------------- the repository

  class DeployRepository {
    var deploys: map<DeployId, Deploy>
    var targets: map<DeployId, seq<Target>>

    ghost function Content(): Db
      reads this
    {
      Db(deploys, targets)
    }

    constructor ()
      ensures Content() == Db(map[], map[])
    {
      deploys, targets := map[], map[];
    }

    method CreateDeploy(d: DeployId, deploy: Deploy)
      modifies this
      ensures deploys == old(deploys)[d := deploy.(createdAt := Stored(deploy.createdAt))]
      ensures targets == old(targets)[d := []]
    {
      deploys := deploys[d := deploy.(createdAt := Stored(deploy.createdAt))];
      targets := targets[d := []];
    }

    method AddTarget(d: DeployId, t: Target)
      requires d in targets
      modifies `targets
      ensures targets == old(targets)[d := old(targets)[d] + [t.(updatedAt := Stored(t.updatedAt))]]
    {
      targets := targets[d := targets[d] + [t.(updatedAt := Stored(t.updatedAt))]];
    }

    method AdvanceTargetStatus(d: DeployId, device: DeviceId, status: Status, at: Time) returns (changed: bool)
      requires d in targets
      modifies `targets
      ensures targets == old(targets)[d := Advance(old(targets)[d], device, status, at)]
      ensures forall i :: 0 <= i < |targets[d]| ==>
        var t := old(targets)[d][i];
        if t.device == device && !t.status.Terminal() && t.status != status
        then targets[d][i] == t.(status := status, updatedAt := Stored(at)) else targets[d][i] == t
      ensures changed <==> targets != old(targets)
    {
      var rows := targets[d];
      changed := exists i ::
        0 <= i < |rows| && rows[i].device == device && !rows[i].status.Terminal() && rows[i].status != status;
      targets := targets[d := Advance(rows, device, status, at)];
      assert !changed ==> targets[d] == rows;
      assert changed ==> targets[d] != rows;
    }

    /** The subquery of AdvanceTargetStatusBySequence: some newest deploy with a matching row, if there is one. */
    method PickBySequence(device: DeviceId, sequence: int, status: Status) returns (pick: Option<DeployId>)
      requires deploys.Keys == targets.Keys
      ensures pick.Some? ==> Picks(Content(), device, sequence, status, pick.value)
      ensures pick.None? ==> forall d :: d in targets ==> !HasMatch(targets[d], device, sequence, status)
    {
      pick := None;
      var left := targets.Keys;
      while left != {}
        invariant left <= targets.Keys
        invariant pick.Some? ==> pick.value in targets && HasMatch(targets[pick.value], device, sequence, status)
        invariant forall e :: e in targets && e !in left && HasMatch(targets[e], device, sequence, status) ==>
                    pick.Some? && deploys[e].createdAt <= deploys[pick.value].createdAt
        decreases left
      {
        var d :| d in left;
        left := left - {d};
        if HasMatch(targets[d], device, sequence, status) &&
           (pick.None? || deploys[pick.value].createdAt < deploys[d].createdAt) {
          pick := Some(d);
        }
      }
    }

    method AdvanceTargetStatusBySequence(device: DeviceId, sequence: int, status: Status, at: Time)
      returns (pick: Option<DeployId>)
      requires deploys.Keys == targets.Keys
      modifies `targets
      ensures pick.Some? ==>
        && Picks(old(Content()), device, sequence, status, pick.value)
        && targets == old(targets)[pick.value := AdvanceMatch(old(targets)[pick.value], device, sequence, status, at)]
      ensures pick.Some? ==>
        && pick.value in old(targets) && |targets[pick.value]| == |old(targets)[pick.value]|
        && (forall i :: 0 <= i < |targets[pick.value]| ==>
              var t := old(targets)[pick.value][i];
              if t.device == device && t.sequence == sequence && t.status != status
                 && (t.status.Pending? || t.status.Triggered? || t.status.Downloading?)
              then targets[pick.value][i] == t.(status := status, updatedAt := Stored(at))
              else targets[pick.value][i] == t)
        && (forall e :: e in targets && e != pick.value ==> targets[e] == old(targets)[e])
      ensures forall e, j ::
        e in old(targets) && 0 <= j < |old(targets)[e]| && old(targets)[e][j].device == device
        && old(targets)[e][j].sequence == sequence && old(targets)[e][j].status != status
        && (var was := old(targets)[e][j].status; was.Pending? || was.Triggered? || was.Downloading?) ==>
          pick.Some? && deploys[e].createdAt <= deploys[pick.value].createdAt
      ensures pick.None? ==>
        targets == old(targets) && forall d :: d in targets ==> !HasMatch(targets[d], device, sequence, status)
    {
      pick := PickBySequence(device, sequence, status);
      if pick.Some? {
        targets := targets[pick.value := AdvanceMatch(targets[pick.value], device, sequence, status, at)];
      }
    }

    method LatestTargetForDevice(device: DeviceId) returns (latest: Option<DeployId>)
      requires deploys.Keys == targets.Keys
      ensures latest.Some? ==> IsLatest(Content(), device, latest.value)
      ensures forall e, j :: e in targets && 0 <= j < |targets[e]| && targets[e][j].device == device ==>
        latest.Some? && deploys[e].createdAt <= deploys[latest.value].createdAt
      ensures forall e, j, k ::
        latest.Some? && e in targets && deploys[e].createdAt == deploys[latest.value].createdAt
        && Distinct(targets[e]) && 0 <= j < |targets[e]| && targets[e][j].device == device
        && Distinct(targets[latest.value]) && 0 <= k < |targets[latest.value]|
        && targets[latest.value][k].device == device ==>
          targets[e][j].updatedAt <= targets[latest.value][k].updatedAt
      ensures latest.None? ==> forall d :: d in targets ==> !HasDevice(targets[d], device)
    {
      latest := None;
      var left := targets.Keys;
      while left != {}
        invariant left <= targets.Keys
        invariant latest.Some? ==> latest.value in targets && HasDevice(targets[latest.value], device)
        invariant forall e :: e in targets && e !in left && HasDevice(targets[e], device) ==>
                    latest.Some? && NoNewer(Content(), device, e, latest.value)
        decreases left
      {
        var d :| d in left;
        left := left - {d};
        if HasDevice(targets[d], device) {
          if latest.None? || deploys[latest.value].createdAt < deploys[d].createdAt
             || (deploys[latest.value].createdAt == deploys[d].createdAt
                 && StampOf(targets[latest.value], device) < StampOf(targets[d], device)) {
            latest := Some(d);
          }
        }
      }
      forall e, j | e in targets && Distinct(targets[e]) && 0 <= j < |targets[e]| && targets[e][j].device == device
        ensures HasDevice(targets[e], device) && StampOf(targets[e], device) == targets[e][j].updatedAt
      {
        StampIs(targets[e], device, j);
      }
    }

    method ResetFailedTargets(d: DeployId, at: Time)
      requires d in targets
      modifies `targets
      ensures targets == old(targets)[d := ResetFailed(old(targets)[d], at)]
      ensures forall i :: 0 <= i < |targets[d]| ==>
        var t := old(targets)[d][i];
        if t.status.Failed? || t.status.Lost?
        then targets[d][i] == t.(status := Pending, updatedAt := Stored(at)) else targets[d][i] == t
      ensures Failures(targets[d]) == 0
    {
      ResetConserves(targets[d], at, at);
      targets := targets[d := ResetFailed(targets[d], at)];
    }

    /** Unconditional, as in the source. */
    method SetDeployState(d: DeployId, state: State)
      requires d in deploys
      modifies `deploys
      ensures deploys == old(deploys)[d := old(deploys)[d].(state := state)]
    {
      deploys := deploys[d := deploys[d].(state := state)];
    }
  }

  // ---------------------------------------------------------------- folding the triggers of a promotion

  /** What triggering one device after the other does to the rows. */
  function TriggerAll(ts: seq<Target>, ds: seq<DeviceId>, down: set<DeviceId>, at: Time): (r: seq<Target>)
    ensures |r| == |ts|
  {
    if ds == [] then ts
    else
      var last := ds[|ds| - 1];
      Advance(TriggerAll(ts, ds[..|ds| - 1], down, at), last, TriggerStatus(last, down), at)
  }

  lemma {:induction false} TriggerAllRow(ts: seq<Target>, ds: seq<DeviceId>, down: set<DeviceId>, at: Time, i: nat)
    requires i < |ts|
    ensures TriggerAll(ts, ds, down, at)[i] == if ts[i].device in ds then TriggerRow(ts[i], down, at) else ts[i]
  {
    if ds != [] {
      TriggerAllRow(ts, ds[..|ds| - 1], down, at, i);
      assert ds == ds[..|ds| - 1] + [ds[|ds| - 1]];
    }
  }

  /** Triggering the pending devices of a batch one by one is PromoteRows. */
  lemma TriggerPending(ts: seq<Target>, b: int, down: set<DeviceId>, at: Time)
    requires Distinct(ts)
    ensures TriggerAll(ts, Devices(PendingOf(InBatch(ts, b))), down, at) == PromoteRows(ts, b, down, at)
  {
    forall i | 0 <= i < |ts|
      ensures TriggerAll(ts, Devices(PendingOf(InBatch(ts, b))), down, at)[i] == PromoteRows(ts, b, down, at)[i]
    {
      TriggerAllRow(ts, Devices(PendingOf(InBatch(ts, b))), down, at, i);
      PendingDevices(ts, b, i);
    }
  }

  // ---------------------------------------------------------------- status words

  /** mapStatus. */
  function MapStatus(reported: string): Option<Status> {
    var word := WireCodec.Normal(reported);
    if word == "ok" || word == "success" || word == "valid" then Some(Succeeded)
    else if word == "fail" || word == "failed" || word == "error" then Some(Failed)
    else if word == "downloading" || word == "applying" || word == "updating" then Some(Downloading)
    else None
  }

  /** The nine words a device may report, in either case, with white space around them. */
  lemma ReportWords(before: string, word: string, after: string)
    requires WireCodec.Blank(before) && WireCodec.Blank(after) && WireCodec.Edged(word)
    ensures var reported, w := before + word + after, WireCodec.Lowered(word);
            && (MapStatus(reported) == Some(Succeeded) <==> w in {"ok", "success", "valid"})
            && (MapStatus(reported) == Some(Failed) <==> w in {"fail", "failed", "error"})
            && (MapStatus(reported) == Some(Downloading) <==> w in {"downloading", "applying", "updating"})
            && (MapStatus(reported).Some? ==> MapStatus(reported).value in {Succeeded, Failed, Downloading})
  {
    WireCodec.NormalIsTrimmed(before, word, after);
    assert "ok"[0] == 'o' && "success"[0] == 's' && "valid"[0] == 'v' && "fail"[0] == 'f' && "failed"[0] == 'f'
           && "error"[0] == 'e' && "downloading"[0] == 'd' && "applying"[0] == 'a' && "updating"[0] == 'u';
  }

  // ---------------------------------------------------------------- the service

  datatype Error =
    | NoPublicURL
    | NotFound
    | DeployNotFound
    | NotPaused
    | NotCancellable
    | StaleArtifact
    | PublishFailed(device: DeviceId)

  /** The errors of triggering these devices, in order. */
  function PublishErrors(ds: seq<DeviceId>, down: set<DeviceId>): seq<Error> {
    if ds == [] then []
    else
      var last := ds[|ds| - 1];
      PublishErrors(ds[..|ds| - 1], down) + if last in down then [PublishFailed(last)] else []
  }

  lemma {:induction false} ErrorsAreTheUnreached(ds: seq<DeviceId>, down: set<DeviceId>)
    ensures forall x :: PublishFailed(x) in PublishErrors(ds, down) <==> x in ds && x in down
    ensures forall e :: e in PublishErrors(ds, down) ==> e.PublishFailed?
  {
    if ds != [] {
      ErrorsAreTheUnreached(ds[..|ds| - 1], down);
      assert ds == ds[..|ds| - 1] + [ds[|ds| - 1]];
    }
  }

  class Service {
    const repo: DeployRepository
    const opts: DeployModel.Options
    const baseURL: string
    /** Every command handed to the broker, in order, whether or not the broker took it. */
    var published: seq<DeviceId>

    ghost predicate Valid()
      reads this, repo
    {
      repo.Content().WellFormed() && opts == Clamped(opts)
    }

    constructor (repo: DeployRepository, baseURL: string, opts: DeployModel.Options)
      requires repo.Content().WellFormed()
      ensures Valid() && this.repo == repo && this.opts == Clamped(opts) && this.baseURL == baseURL && published == []
    {
      this.repo := repo;
      this.baseURL := baseURL;
      this.opts := Clamped(opts);
      published := [];
    }

    /** trigger. */
    method Trigger(d: DeployId, device: DeviceId, down: set<DeviceId>, now: Time) returns (error: Option<Error>)
      requires d in repo.targets
      modifies repo`targets, `published
      ensures repo.targets ==
        old(repo.targets)[d := Advance(old(repo.targets)[d], device, TriggerStatus(device, down), now)]
      ensures |repo.targets[d]| == |old(repo.targets)[d]|
      ensures forall i :: 0 <= i < |repo.targets[d]| ==>
        var t := old(repo.targets)[d][i];
        repo.targets[d][i] == if t.device == device && t.status.Pending?
                              then t.(status := if device in down then Failed else Triggered, updatedAt := Stored(now))
                              else if t.device == device && device in down
                                   && (t.status.Triggered? || t.status.Downloading?)
                              then t.(status := Failed, updatedAt := Stored(now))
                              else if t.device == device && device !in down && t.status.Downloading?
                              then t.(status := Triggered, updatedAt := Stored(now))
                              else t
      ensures published == old(published) + [device]
      ensures error == if device in down then Some(PublishFailed(device)) else None
    {
      published := published + [device];
      if device in down {
        var _ := repo.AdvanceTargetStatus(d, device, Failed, now);
        return Some(PublishFailed(device));
      }
      var _ := repo.AdvanceTargetStatus(d, device, Triggered, now);
      return None;
    }

    method TriggerEach(d: DeployId, ds: seq<DeviceId>, down: set<DeviceId>, now: Time) returns (errors: seq<Error>)
      requires d in repo.targets
      modifies repo`targets, `published
      ensures repo.targets == old(repo.targets)[d := TriggerAll(old(repo.targets)[d], ds, down, now)]
      ensures published == old(published) + ds
      ensures errors == PublishErrors(ds, down)
    {
      errors := [];
      for i := 0 to |ds|
        invariant errors == PublishErrors(ds[..i], down)
        invariant repo.targets == old(repo.targets)[d := TriggerAll(old(repo.targets)[d], ds[..i], down, now)]
        invariant published == old(published) + ds[..i]
      {
        assert ds[..i + 1][..i] == ds[..i];
        var error := Trigger(d, ds[i], down, now);
        if error.Some? {
          errors := errors + [error.value];
        }
      }
      assert ds[..|ds|] == ds;
    }

    /** One round of the row loop of reconcile; status is what the snapshot entry has afterwards. */
    method SweepTarget(d: DeployId, t: Target, found: bool, now: Time) returns (status: Status)
      requires d in repo.targets && t in repo.targets[d]
      modifies repo`targets, `published
      ensures status == LostRow(t, now, opts.targetTimeout).status
      ensures repo.targets == if TimedOut(t, now, opts.targetTimeout)
                              then old(repo.targets)[d := Advance(old(repo.targets)[d], t.device, Lost, now)]
                              else old(repo.targets)
      ensures published == old(published) + if found && Resendable(t, now, opts.targetTimeout) then [t.device] else []
    {
      status := t.status;
      if (t.status.Triggered? || t.status.Downloading?) && now - t.updatedAt > opts.targetTimeout {
        var changed := repo.AdvanceTargetStatus(d, t.device, Lost, now);
        if changed {
          status := Lost;
        }
        return;
      }
      if t.status.Triggered? && now - t.updatedAt < RESEND_GRACE_PERIOD {
        if found {
          published := published + [t.device];
        }
      }
    }

    /** One round of the row loop of reconcile: row i is swept in the store and noted in the snapshot. */
    method SweepRow(d: DeployId, snapshot: seq<Target>, i: nat, found: bool, now: Time, ghost ts: seq<Target>)
      returns (noted: seq<Target>)
      requires d in repo.targets && Distinct(ts) && i < |ts|
      requires Swept(ts, repo.targets[d], i, now) && Noted(ts, snapshot, i, now)
      modifies repo`targets, `published
      ensures d in repo.targets && repo.targets == old(repo.targets)[d := repo.targets[d]]
      ensures Swept(ts, repo.targets[d], i + 1, now) && Noted(ts, noted, i + 1, now)
      ensures published ==
        old(published) + if found && Resendable(ts[i], now, opts.targetTimeout) then [ts[i].device] else []
    {
      ghost var rows := repo.targets[d];
      assert rows[i] == ts[i] == snapshot[i];
      var status := SweepTarget(d, snapshot[i], found, now);
      SweepOne(ts, rows, i, now);
      NoteOne(ts, snapshot, i, status, now);
      noted := snapshot[i := snapshot[i].(status := status)];
    }

    /**
     The row loop of reconcile: targets in flight for too long are lost, in the
     store and in the snapshot, and those triggered less than 90 seconds ago get their
     command again, each once.
     */
    method SweepTargets(d: DeployId, found: bool, now: Time) returns (snapshot: seq<Target>)
      requires d in repo.targets && Distinct(repo.targets[d])
      modifies repo`targets, `published
      ensures repo.targets == old(repo.targets)[d := MarkLost(old(repo.targets)[d], now, opts.targetTimeout)]
      ensures SameStatuses(snapshot, repo.targets[d])
      ensures published == old(published) + if found then Resends(old(repo.targets)[d], now, opts.targetTimeout) else []
      ensures |repo.targets[d]| == |old(repo.targets)[d]|
      ensures forall i :: 0 <= i < |repo.targets[d]| ==>
        var t := old(repo.targets)[d][i];
        repo.targets[d][i] ==
          if (t.status.Triggered? || t.status.Downloading?) && now - t.updatedAt > opts.targetTimeout
          then t.(status := Lost, updatedAt := Stored(now)) else t
      ensures forall i :: 0 <= i < |repo.targets[d]| ==>
        var t := old(repo.targets)[d][i];
        multiset(published)[t.device] == multiset(old(published))[t.device]
          + if found && t.status.Triggered? && now - t.updatedAt <= opts.targetTimeout
               && now - t.updatedAt < 90_000_000_000
            then 1 else 0
    {
      ghost var ts, before := repo.targets[d], published;
      snapshot := SweepLoop(d, found, now);
      ResentOnce(ts, now, found, before, published);
    }

    lemma ResentOnce(ts: seq<Target>, now: Time, found: bool, before: seq<DeviceId>, after: seq<DeviceId>)
      requires Distinct(ts) && after == before + if found then Resends(ts, now, opts.targetTimeout) else []
      ensures forall i :: 0 <= i < |ts| ==>
        multiset(after)[ts[i].device] == multiset(before)[ts[i].device]
          + if found && ts[i].status.Triggered? && now - ts[i].updatedAt <= opts.targetTimeout
               && now - ts[i].updatedAt < 90_000_000_000
            then 1 else 0
    {
      forall i | 0 <= i < |ts|
        ensures multiset(after)[ts[i].device] == multiset(before)[ts[i].device]
                  + if found && ts[i].status.Triggered? && now - ts[i].updatedAt <= opts.targetTimeout
                       && now - ts[i].updatedAt < 90_000_000_000
                    then 1 else 0
      {
        ResendsExactly(ts, now, opts.targetTimeout, i);
      }
    }

    method SweepLoop(d: DeployId, found: bool, now: Time) returns (snapshot: seq<Target>)
      requires d in repo.targets && Distinct(repo.targets[d])
      modifies repo`targets, `published
      ensures repo.targets == old(repo.targets)[d := MarkLost(old(repo.targets)[d], now, opts.targetTimeout)]
      ensures SameStatuses(snapshot, repo.targets[d])
      ensures published == old(published) + if found then Resends(old(repo.targets)[d], now, opts.targetTimeout) else []
    {
      ghost var ts := repo.targets[d];
      snapshot := repo.targets[d];
      assert repo.targets[d := ts] == repo.targets;
      for i := 0 to |snapshot|
        invariant |snapshot| == |ts|
        invariant d in repo.targets && repo.targets == old(repo.targets)[d := repo.targets[d]]
        invariant Swept(ts, repo.targets[d], i, now) && Noted(ts, snapshot, i, now)
        invariant published == old(published) + if found then Resends(ts[..i], now, opts.targetTimeout) else []
      {
        assert ts[..i + 1][..i] == ts[..i];
        snapshot := SweepRow(d, snapshot, i, found, now, ts);
      }
      assert ts[..|ts|] == ts;
      assert repo.targets[d] == MarkLost(ts, now, opts.targetTimeout);
    }

    /** The first i rows are swept, the others are not. */
    ghost predicate Swept(ts: seq<Target>, rows: seq<Target>, i: nat, now: Time) {
      && |rows| == |ts|
      && (forall k :: 0 <= k < i && k < |rows| ==> rows[k] == LostRow(ts[k], now, opts.targetTimeout))
      && (forall k :: i <= k < |rows| ==> rows[k] == ts[k])
    }

    /** With unique devices, advancing the device of row i touches row i alone. */
    lemma SweepOne(ts: seq<Target>, rows: seq<Target>, i: nat, now: Time)
      requires i < |ts| && Distinct(ts) && Swept(ts, rows, i, now)
      ensures
        var us := if TimedOut(ts[i], now, opts.targetTimeout) then Advance(rows, ts[i].device, Lost, now) else rows;
        Swept(ts, us, i + 1, now)
    {
    }

    /** The first i rows of the snapshot have the new status, the others are as they were read. */
    ghost predicate Noted(ts: seq<Target>, snapshot: seq<Target>, i: nat, now: Time) {
      && |snapshot| == |ts|
      && (forall k :: 0 <= k < i && k < |ts| ==>
          snapshot[k] == ts[k].(status := LostRow(ts[k], now, opts.targetTimeout).status))
      && (forall k :: i <= k < |ts| ==> snapshot[k] == ts[k])
    }

    lemma NoteOne(ts: seq<Target>, snapshot: seq<Target>, i: nat, status: Status, now: Time)
      requires i < |ts| && Noted(ts, snapshot, i, now) && status == LostRow(ts[i], now, opts.targetTimeout).status
      ensures Noted(ts, snapshot[i := snapshot[i].(status := status)], i + 1, now)
    {
    }

    /** The batch loop of reconcile, up to what it decides; pending is the group it would promote. */
    method Judge(snapshot: seq<Target>) returns (v: Verdict, pending: seq<Target>)
      ensures v == VerdictOn(snapshot, opts.failureThreshold)
      ensures v.Promote? ==> pending == PendingOf(InBatch(snapshot, v.batch))
    {
      var batches := ComputeBatches(snapshot);
      pending := [];
      for i := 0 to |batches|
        invariant VerdictOn(snapshot, opts.failureThreshold) == Walk(batches[i..], snapshot, opts.failureThreshold)
      {
        var group := TargetsInBatch(snapshot, batches[i]);
        var terminal := EveryTerminal(group);
        if terminal {
          var exceeded := CountFailures(group, opts.failureThreshold);
          if exceeded {
            return Pause(batches[i]), [];
          }
          continue;
        }
        pending := FilterPending(group);
        if |pending| > 0 {
          return Promote(batches[i]), pending;
        }
        return Wait(batches[i]), [];
      }
      return Complete, [];
    }

    /** What reconcile and promote do with the verdict. */
    method Decide(d: DeployId, snapshot: seq<Target>, found: bool, down: set<DeviceId>, now: Time)
      requires d in repo.targets && d in repo.deploys && Distinct(repo.targets[d])
        && SameStatuses(snapshot, repo.targets[d])
      modifies repo, `published
      ensures var pass := DecidePass(old(repo.targets)[d], opts.failureThreshold, found, down, now);
              && repo.Content() == DeploySpec.Apply(old(repo.Content()), d, pass)
              && published == old(published) + pass.sent
    {
      ghost var rows := repo.targets[d];
      SameVerdict(snapshot, rows, opts.failureThreshold);
      var v, pending := Judge(snapshot);
      assert repo.targets[d := rows] == repo.targets;
      match v
      case Pause(_) => repo.SetDeployState(d, Paused);
      case Complete => repo.SetDeployState(d, Completed);
      case Wait(_) =>
      case Promote(b) =>
        if found {
          TriggerPending(rows, b, down, now);
          var _ := TriggerEach(d, Devices(pending), down, now);
        }
    }

    lemma Appended(before: seq<DeviceId>, resent: seq<DeviceId>, sent: seq<DeviceId>, after: seq<DeviceId>)
      requires after == before + resent + sent
      ensures after == before + (resent + sent)
    {
    }

    /** The row loop and the batch loop of reconcile, one after the other. */
    method SweepAndDecide(d: DeployId, found: bool, down: set<DeviceId>, now: Time)
      requires d in repo.deploys && d in repo.targets && Distinct(repo.targets[d])
      modifies repo, `published
      ensures repo.Content() == Reconciled(old(repo.Content()), opts, d, found, down, now)
      ensures published == old(published) + ReconcilePass(old(repo.targets)[d], opts, found, down, now).sent
    {
      ghost var db, before := repo.Content(), published;
      SameStayDistinct(repo.targets[d], MarkLost(repo.targets[d], now, opts.targetTimeout));
      var snapshot := SweepTargets(d, found, now);
      ghost var resent := published[|before|..];
      Decide(d, snapshot, found, down, now);
      SweepThenDecide(db, opts, d, found, down, now);
      Appended(before, resent, published[|before + resent|..], published);
    }

    /** What a pass does to each row, how often it sends to the device of each, and what state it sets. */
    lemma PassMeans(ts: seq<Target>, found: bool, down: set<DeviceId>, now: Time, before: seq<DeviceId>,
                    after: seq<DeviceId>)
      requires Distinct(ts) && after == before + ReconcilePass(ts, opts, found, down, now).sent
      ensures var us := ReconcilePass(ts, opts, found, down, now).targets;
              var lost := MarkLost(ts, now, opts.targetTimeout);
              |us| == |ts| && forall i :: 0 <= i < |ts| ==>
                var t := ts[i];
                us[i] ==
                  if (t.status.Triggered? || t.status.Downloading?) && now - t.updatedAt > opts.targetTimeout
                  then t.(status := Lost, updatedAt := Stored(now))
                  else if t.status.Pending? && found && PassedBelow(lost, t.batch, opts.failureThreshold)
                  then t.(status := if t.device in down then Failed else Triggered, updatedAt := Stored(now))
                  else t
      ensures var lost := MarkLost(ts, now, opts.targetTimeout);
              forall i :: 0 <= i < |ts| ==>
                var t := ts[i];
                multiset(after)[t.device] == multiset(before)[t.device] +
                  if found && t.status.Triggered? && now - t.updatedAt <= opts.targetTimeout
                     && now - t.updatedAt < 90_000_000_000 then 1
                  else if found && t.status.Pending? && PassedBelow(lost, t.batch, opts.failureThreshold) then 1
                  else 0
    {
      forall i | 0 <= i < |ts| { PassRow(ts, opts, found, down, now, i); }
      forall i | 0 <= i < |ts| { PassSends(ts, opts, found, down, now, i); }
      PassKeepsTargets(ts, opts, found, down, now);
    }

    /** reconcile, for a deploy that was listed as active. */
    method ReconcileOne(d: DeployId, found: bool, down: set<DeviceId>, now: Time)
      requires Valid() && d in repo.deploys
      modifies repo, `published
      ensures Valid()
      ensures repo.Content() == Reconciled(old(repo.Content()), opts, d, found, down, now)
      ensures published == old(published) + ReconcilePass(old(repo.targets)[d], opts, found, down, now).sent
      ensures |repo.targets[d]| == |old(repo.targets)[d]|
      ensures var lost := MarkLost(old(repo.targets)[d], now, opts.targetTimeout);
              forall i :: 0 <= i < |repo.targets[d]| ==>
                var t := old(repo.targets)[d][i];
                repo.targets[d][i] ==
                  if (t.status.Triggered? || t.status.Downloading?) && now - t.updatedAt > opts.targetTimeout
                  then t.(status := Lost, updatedAt := Stored(now))
                  else if t.status.Pending? && found && PassedBelow(lost, t.batch, opts.failureThreshold)
                  then t.(status := if t.device in down then Failed else Triggered, updatedAt := Stored(now))
                  else t
      ensures var lost := MarkLost(old(repo.targets)[d], now, opts.targetTimeout);
              forall i :: 0 <= i < |repo.targets[d]| ==>
                var t := old(repo.targets)[d][i];
                multiset(published)[t.device] == multiset(old(published))[t.device] +
                  if found && t.status.Triggered? && now - t.updatedAt <= opts.targetTimeout
                     && now - t.updatedAt < 90_000_000_000 then 1
                  else if found && t.status.Pending? && PassedBelow(lost, t.batch, opts.failureThreshold) then 1
                  else 0
      ensures var lost, th := MarkLost(old(repo.targets)[d], now, opts.targetTimeout), opts.failureThreshold;
              var stopped := exists b :: PassedBelow(lost, b, th) && BatchTripped(InBatch(lost, b), th);
              repo.deploys[d] == old(repo.deploys)[d].(
                state := if stopped then Paused
                         else if forall b :: Passed(lost, b, th) then Completed else old(repo.deploys)[d].state)
      ensures forall e :: e in repo.deploys && e != d ==>
        e in old(repo.deploys) && repo.deploys[e] == old(repo.deploys)[e] && repo.targets[e] == old(repo.targets)[e]
    {
      ghost var ts, before := repo.targets[d], published;
      PassWellFormed(repo.Content(), opts, d, found, down, now);
      SweepAndDecide(d, found, down, now);
      PassMeans(ts, found, down, now, before, published);
      PassState(ts, opts, found, down, now);
    }

    /** Rollout; the caller passes what the artifact store, the device list and id.New answer. */
    method Rollout(d: DeployId, driver: string, version: string, artifact: Option<int>, devices: seq<DeviceId>,
                   down: set<DeviceId>, now: Time) returns (errors: seq<Error>)
      requires Valid() && d !in repo.deploys
      requires forall i, j :: 0 <= i < j < |devices| ==> devices[i] != devices[j]
      modifies repo, `published
      ensures Valid()
      ensures baseURL == "" ==> errors == [NoPublicURL]
      ensures baseURL != "" && artifact.None? ==> errors == [NotFound]
      ensures baseURL != "" && artifact.Some? && devices == [] ==> errors == []
      ensures baseURL == "" || artifact.None? || devices == [] ==>
        repo.Content() == old(repo.Content()) && published == old(published)
      ensures baseURL != "" && artifact.Some? && devices != [] ==>
        && repo.Content() == RolledOut(old(repo.Content()), opts, d, driver, version, artifact.value, devices, down,
                                       now)
        && published == old(published) + RolloutSent(devices, opts, artifact.value)
        && (if artifact.value == 0 then errors == [StaleArtifact]
            else
              && (forall e :: e in errors ==> e.PublishFailed?)
              && forall x :: PublishFailed(x) in errors <==>
                  x in RolloutSent(devices, opts, artifact.value) && x in down)
      ensures baseURL != "" && artifact.Some? && devices != [] ==>
        && d in repo.deploys && d in repo.targets && |repo.targets[d]| == |devices|
        && repo.deploys[d].driver == driver && repo.deploys[d].version == version
        && repo.deploys[d].state.InProgress? && repo.deploys[d].createdAt == Stored(now)
        && (forall i :: 0 <= i < |devices| ==>
              var t := repo.targets[d][i];
              var canary := 100 * i < |devices| * opts.canaryPercent;
              && t.device == devices[i] && t.version == version && t.sequence == artifact.value
              && t.batch == (if canary then 0 else 1) && t.updatedAt == Stored(now)
              && t.status == if artifact.value == 0 || !canary then Pending
                             else if devices[i] in down then Failed else Triggered)
        && (forall i :: 0 <= i < |devices| ==>
              multiset(published)[devices[i]] == multiset(old(published))[devices[i]]
                + if artifact.value != 0 && 100 * i < |devices| * opts.canaryPercent then 1 else 0)
      ensures forall e :: e in old(repo.deploys) && e != d ==>
        && e in repo.deploys && repo.deploys[e] == old(repo.deploys)[e]
        && e in repo.targets && repo.targets[e] == old(repo.targets)[e]
    {
      if baseURL == "" {
        return [NoPublicURL];
      }
      if artifact.None? {
        return [NotFound];
      }
      if |devices| == 0 {
        return [];
      }
      RollsOutWellFormed(repo.Content(), opts, d, driver, version, artifact.value, devices, down, now);
      RolloutMeans(devices, version, artifact.value, down, now, published);
      errors := StartDeploy(d, driver, version, artifact.value, devices, down, now);
    }

    /** The rows of a new deploy, and who is sent its command. */
    lemma RolloutMeans(devices: seq<DeviceId>, version: string, sequence: int, down: set<DeviceId>, now: Time,
                       before: seq<DeviceId>)
      requires 1 <= opts.canaryPercent <= 100 && devices != []
      requires forall i, j :: 0 <= i < j < |devices| ==> devices[i] != devices[j]
      ensures var ts := RolloutTargets(devices, opts, version, sequence, down, now);
              |ts| == |devices| && forall i :: 0 <= i < |devices| ==>
                var canary := 100 * i < |devices| * opts.canaryPercent;
                && ts[i].device == devices[i] && ts[i].version == version && ts[i].sequence == sequence
                && ts[i].batch == (if canary then 0 else 1) && ts[i].updatedAt == Stored(now)
                && ts[i].status == if sequence == 0 || !canary then Pending
                                   else if devices[i] in down then Failed else Triggered
      ensures forall i :: 0 <= i < |devices| ==>
        multiset(before + RolloutSent(devices, opts, sequence))[devices[i]] == multiset(before)[devices[i]]
          + if sequence != 0 && 100 * i < |devices| * opts.canaryPercent then 1 else 0
    {
      RolloutRow(devices, opts, version, sequence, down, now, 0);
      forall i | 0 <= i < |devices| { RolloutRow(devices, opts, version, sequence, down, now, i); }
      forall i | 0 <= i < |devices| { RolloutSends(devices, opts, sequence, i); }
    }

    /** The part of Rollout after its checks. */
    method StartDeploy(d: DeployId, driver: string, version: string, sequence: int, devices: seq<DeviceId>,
                       down: set<DeviceId>, now: Time) returns (errors: seq<Error>)
      requires 1 <= opts.canaryPercent <= 100 && d !in repo.deploys && devices != []
      requires forall i, j :: 0 <= i < j < |devices| ==> devices[i] != devices[j]
      modifies repo, `published
      ensures repo.Content() == RolledOut(old(repo.Content()), opts, d, driver, version, sequence, devices, down, now)
      ensures published == old(published) + RolloutSent(devices, opts, sequence)
      ensures if sequence == 0 then errors == [StaleArtifact] else
                && (forall e :: e in errors ==> e.PublishFailed?)
                && forall x :: PublishFailed(x) in errors <==> x in RolloutSent(devices, opts, sequence) && x in down
    {
      repo.CreateDeploy(d, Deploy(driver, version, InProgress, now));
      var count := CanarySize(|devices|);
      var canary := AddTargets(d, devices, count, version, sequence, now);
      if sequence == 0 {
        return [StaleArtifact];
      }
      errors := TriggerCanary(d, devices, count, down, now);
      ErrorsAreTheUnreached(devices[..count], down);
    }

    /** How many of n devices Rollout puts in the canary. */
    method CanarySize(n: nat) returns (count: int)
      requires n > 0 && 1 <= opts.canaryPercent <= 100
      ensures 1 <= count <= n && 100 * (count - 1) < n * opts.canaryPercent <= 100 * count
      ensures count == CanaryCount(n, opts.canaryPercent)
    {
      CanaryIsCeiling(n, opts.canaryPercent);
      count := (n * opts.canaryPercent + 99) / 100;
      if count < 1 {
        count := 1;
      }
      if count > n {
        count := n;
      }
    }

    /** The trigger loop of Rollout. */
    method TriggerCanary(d: DeployId, devices: seq<DeviceId>, count: int, down: set<DeviceId>, now: Time)
      returns (errors: seq<Error>)
      requires d in repo.targets && 0 <= count <= |devices| == |repo.targets[d]|
      requires forall i, j :: 0 <= i < j < |devices| ==> devices[i] != devices[j]
      requires forall i :: 0 <= i < |devices| ==>
        var t := repo.targets[d][i];
        t.device == devices[i] && t.status.Pending? && t.batch == if i >= count then 1 else 0
      modifies repo`targets, `published
      ensures repo.targets == old(repo.targets)[d := PromoteRows(old(repo.targets)[d], 0, down, now)]
      ensures published == old(published) + devices[..count]
      ensures errors == PublishErrors(devices[..count], down)
    {
      CanaryTriggers(repo.targets[d], devices, count, down, now);
      errors := TriggerEach(d, devices[..count], down, now);
    }

    /** The target loop of Rollout. */
    method AddTargets(d: DeployId, devices: seq<DeviceId>, count: int, version: string, sequence: int, now: Time)
      returns (canary: seq<DeviceId>)
      requires d in repo.targets && repo.targets[d] == [] && 0 <= count <= |devices|
      modifies repo`targets
      ensures repo.targets == old(repo.targets)[d := FreshTargets(devices, count, version, sequence, now)]
      ensures canary == devices[..count]
    {
      ghost var rows := FreshTargets(devices, count, version, sequence, now);
      canary := [];
      assert repo.targets[d := rows[..0]] == repo.targets;
      for i := 0 to |devices|
        invariant repo.targets == old(repo.targets)[d := rows[..i]]
        invariant canary == devices[..if i < count then i else count]
      {
        var batch := if i >= count then 1 else 0;
        repo.AddTarget(d, Target(devices[i], version, sequence, batch, Pending, now));
        assert rows[..i + 1] == rows[..i] + [rows[i]];
        if batch == 0 {
          canary := canary + [devices[i]];
        }
      }
      assert rows[..|devices|] == rows;
    }

    lemma CanaryTriggers(rows: seq<Target>, devices: seq<DeviceId>, count: int, down: set<DeviceId>, now: Time)
      requires |rows| == |devices| && 0 <= count <= |devices|
      requires forall i, j :: 0 <= i < j < |devices| ==> devices[i] != devices[j]
      requires forall i :: 0 <= i < |rows| ==>
        rows[i].device == devices[i] && rows[i].status.Pending? && rows[i].batch == if i >= count then 1 else 0
      ensures TriggerAll(rows, devices[..count], down, now) == PromoteRows(rows, 0, down, now)
    {
      forall i | 0 <= i < |rows|
        ensures TriggerAll(rows, devices[..count], down, now)[i] == PromoteRows(rows, 0, down, now)[i]
      {
        TriggerAllRow(rows, devices[..count], down, now, i);
        assert devices[i] in devices[..count] <==> i < count;
      }
    }

    method Resume(d: DeployId, now: Time) returns (error: Option<Error>)
      requires Valid()
      modifies repo
      ensures Valid()
      ensures error == if d !in old(repo.deploys) then Some(DeployNotFound)
                       else if !old(repo.deploys)[d].state.Paused? then Some(NotPaused) else None
      ensures repo.Content() == if error.None? then Resumed(old(repo.Content()), d, now) else old(repo.Content())
      ensures error.None? ==>
        && repo.deploys == old(repo.deploys)[d := old(repo.deploys)[d].(state := InProgress)]
        && d in repo.targets && |repo.targets[d]| == |old(repo.targets)[d]|
        && (forall i :: 0 <= i < |repo.targets[d]| ==>
              var t := old(repo.targets)[d][i];
              repo.targets[d][i] == if t.status.Failed? || t.status.Lost?
                                    then t.(status := Pending, updatedAt := Stored(now)) else t)
        && (forall e :: e in repo.targets && e != d ==>
              e in old(repo.targets) && repo.targets[e] == old(repo.targets)[e])
    {
      if d !in repo.deploys {
        return Some(DeployNotFound);
      }
      if !repo.deploys[d].state.Paused? {
        return Some(NotPaused);
      }
      repo.ResetFailedTargets(d, now);
      repo.SetDeployState(d, InProgress);
      return None;
    }

    method Cancel(d: DeployId) returns (error: Option<Error>)
      requires Valid()
      modifies repo
      ensures Valid()
      ensures error == if d !in old(repo.deploys) then Some(DeployNotFound)
                       else if !old(repo.deploys)[d].state.InProgress? && !old(repo.deploys)[d].state.Paused?
                       then Some(NotCancellable)
                       else None
      ensures repo.Content() == if error.None? then CancelledDb(old(repo.Content()), d) else old(repo.Content())
      ensures repo.targets == old(repo.targets)
      ensures error.None? ==> repo.deploys == old(repo.deploys)[d := old(repo.deploys)[d].(state := Cancelled)]
    {
      if d !in repo.deploys {
        return Some(DeployNotFound);
      }
      if !repo.deploys[d].state.InProgress? && !repo.deploys[d].state.Paused? {
        return Some(NotCancellable);
      }
      repo.SetDeployState(d, Cancelled);
      return None;
    }

    /** OnStatus on a well-formed payload; picked is the deploy whose row the report was matched to. */
    method OnStatus(device: DeviceId, reported: string, rawSequence: string, now: Time)
      returns (picked: Option<DeployId>)
      requires Valid()
      modifies repo
      ensures Valid() && repo.deploys == old(repo.deploys)
      ensures MapStatus(reported).None? ==> picked.None?
      ensures picked.None? ==> repo.targets == old(repo.targets)
      ensures picked.Some? ==>
        var status := MapStatus(reported).value;
        var sequence := WireCodec.ServerSequence(rawSequence);
        if sequence > 0 then
          && Picks(old(repo.Content()), device, sequence, status, picked.value)
          && repo.targets ==
               old(repo.targets)[picked.value :=
                 AdvanceMatch(old(repo.targets)[picked.value], device, sequence, status, now)]
        else
          && IsLatest(old(repo.Content()), device, picked.value)
          && repo.targets == old(repo.targets)[picked.value :=
               Advance(old(repo.targets)[picked.value], device, status, now)]
      ensures picked.Some? ==>
        var status, n := MapStatus(reported).value, WireCodec.ServerSequence(rawSequence);
        && picked.value in old(repo.targets) && |repo.targets[picked.value]| == |old(repo.targets)[picked.value]|
        && (forall i :: 0 <= i < |repo.targets[picked.value]| ==>
              var t := old(repo.targets)[picked.value][i];
              repo.targets[picked.value][i] ==
                if t.device == device && (n > 0 ==> t.sequence == n) && t.status != status
                   && (t.status.Pending? || t.status.Triggered? || t.status.Downloading?)
                then t.(status := status, updatedAt := Stored(now)) else t)
        && (forall e :: e in repo.targets && e != picked.value ==> repo.targets[e] == old(repo.targets)[e])
      ensures MapStatus(reported).Some? ==>
        var status, n := MapStatus(reported).value, WireCodec.ServerSequence(rawSequence);
        forall e, j :: e in old(repo.targets) && 0 <= j < |old(repo.targets)[e]| ==>
          var t := old(repo.targets)[e][j];
          t.device == device
          && (n > 0 ==> t.sequence == n && t.status != status
                        && (t.status.Pending? || t.status.Triggered? || t.status.Downloading?)) ==>
            picked.Some? && repo.deploys[e].createdAt <= repo.deploys[picked.value].createdAt
      ensures picked.None? && MapStatus(reported).Some? ==>
        forall d :: d in repo.targets ==>
          !(var sequence := WireCodec.ServerSequence(rawSequence);
            if sequence > 0 then HasMatch(repo.targets[d], device, sequence, MapStatus(reported).value)
            else HasDevice(repo.targets[d], device))
    {
      var mapped := MapStatus(reported);
      if mapped.None? {
        return None;
      }
      var status := mapped.value;
      var sequence := WireCodec.ServerSequence(rawSequence);
      if sequence > 0 {
        picked := repo.AdvanceTargetStatusBySequence(device, sequence, status, now);
        return;
      }
      picked := repo.LatestTargetForDevice(device);
      if picked.None? {
        return;
      }
      var _ := repo.AdvanceTargetStatus(picked.value, device, status, now);
    }
  }
}
