/**
 Server, devices and network together. The network loses, delays, duplicates and
 reorders: any report a device ever sent may be delivered any number of times, and
 the command of any published artifact may reach any device at any time, with its
 hash or signature damaged or not. Devices lose power anywhere.
 */
module EndToEnd {
  import opened Optional
  import D = DeviceOta
  import H = DeviceHistory
  import R = DeviceReports
  import P = RolloutProtocol
  import W = WireCodec
  import opened DeployModel
  import opened BatchRules
  import opened DeploySpec
  import opened DeployService

  datatype World = World(catalog: R.Catalog, server: P.Sys, fleet: map<DeviceId, D.Dev>)

  datatype Act =
    | Publish(sequence: nat, digest: D.Digest)
    | Serve(l: P.Step)
    | Run(id: DeviceId, step: D.Step)
    | Deliver(id: DeviceId, at: nat, d: DeployId, now: Time)

  function Word(status: D.Status): string {
    match status
    case Ok => "ok"
    case Failed => "failed"
    case Updating => "updating"
  }

  function Recorded(status: D.Status): Status {
    match status
    case Ok => Succeeded
    case Failed => Status.Failed
    case Updating => Downloading
  }

  lemma WordsMap(status: D.Status)
    ensures MapStatus(Word(status)) == Some(Recorded(status))
  {
    assert W.Normal("ok") == "ok";
    assert W.Normal("failed") == "failed";
    assert W.Normal("updating") == "updating";
  }

  /** A report never moves a target back to pending or triggered, and never loses it. */
  lemma MappedIsReportable(word: string)
    ensures MapStatus(word).Some? ==> P.Reportable(MapStatus(word).value)
  {
  }

  /** The step OnStatus takes on the text of a report, if it concerns deploy d. */
  function OnStatusStep(d: DeployId, id: DeviceId, word: string, sequence: string, now: Time): P.Step
    requires MapStatus(word).Some?
  {
    var n := W.ServerSequence(sequence);
    if n > 0 then P.Tagged(d, id, n, MapStatus(word).value, now) else P.Untagged(d, id, MapStatus(word).value, now)
  }

  /**
   What OnStatus does with a report it maps, once it has found the deploy, is an enabled
   step of the rollout machine with exactly the effect the service specifies.
   */
  lemma OnStatusIsAStep(s: P.Sys, o: DeployModel.Options, d: DeployId, id: DeviceId, word: string, sequence: string,
                        now: Time)
    requires s.db.WellFormed() && MapStatus(word).Some?
    requires var n := W.ServerSequence(sequence);
             if n > 0 then Picks(s.db, id, n, MapStatus(word).value, d) else IsLatest(s.db, id, d)
    ensures var n, status := W.ServerSequence(sequence), MapStatus(word).value;
            var l := OnStatusStep(d, id, word, sequence, now);
            && Serves(s, l)
            && P.Next(s, o, l) == s.(db := s.db.(targets := s.db.targets[d :=
                 if n > 0 then AdvanceMatch(s.db.targets[d], id, n, status, now)
                 else Advance(s.db.targets[d], id, status, now)]))
  {
    MappedIsReportable(word);
  }

  /** What the delivery of a report does: it travels as text, see report_ota. */
  function DeliveryStep(d: DeployId, id: DeviceId, e: D.Event, now: Time): P.Step
    requires e.Sent?
  {
    WordsMap(e.status);
    OnStatusStep(d, id, Word(e.status), W.Quoted(W.Decimal(e.sequence)), now)
  }

  ghost predicate Serves(s: P.Sys, l: P.Step) {
    P.Enabled(s, l) && (l.Rollout? || (l.d in s.db.deploys && l.d in s.db.targets))
  }

  /** Some published artifact's command, as the device reads it, has this sequence. */
  ghost predicate Commanded(l: D.Step, cat: R.Catalog) {
    l.Handle? && l.h.Receive? ==> exists n :: n in cat && W.DeviceSequence(W.Decimal(n)) == Some(l.h.cmd.sequence)
  }

  ghost predicate Possible(w: World, a: Act) {
    match a
    case Publish(n, _) => n !in w.catalog && 0 < n < W.TWO_63
    case Serve(l) => Serves(w.server, l) && (l.Tagged? || l.Untagged? ==> l.device !in w.fleet)
    case Run(id, l) =>
      && id in w.fleet && D.Next(w.fleet[id], l).Some?
      && D.Genuine(l, R.IssuedBy(w.catalog)) && Commanded(l, w.catalog)
    case Deliver(id, at, d, now) =>
      && id in w.fleet && at < |w.fleet[id].log| && w.fleet[id].log[at].Sent?
      && Serves(w.server, DeliveryStep(d, id, w.fleet[id].log[at], now))
  }

  ghost function After(w: World, o: DeployModel.Options, a: Act): World
    requires Possible(w, a)
  {
    match a
    case Publish(n, digest) => w.(catalog := w.catalog[n := digest])
    case Serve(l) => w.(server := P.Next(w.server, o, l))
    case Run(id, l) => w.(fleet := w.fleet[id := D.Next(w.fleet[id], l).value])
    case Deliver(id, at, d, now) => w.(server := P.Next(w.server, o, DeliveryStep(d, id, w.fleet[id].log[at], now)))
  }

  function Begin(factory: map<DeviceId, D.Digest>): World {
    World(map[], P.EMPTY, map id | id in factory :: D.Factory(factory[id]))
  }

  ghost function Exec(o: DeployModel.Options, factory: map<DeviceId, D.Digest>, acts: seq<Act>): Option<World> {
    if acts == [] then Some(Begin(factory))
    else match Exec(o, factory, acts[..|acts| - 1])
      case None => None
      case Some(w) => if Possible(w, acts[|acts| - 1]) then Some(After(w, o, acts[|acts| - 1])) else None
  }

  // ---------------------------------------------------------------- the invariant

  /** A row that reads "succeeded" for a device of the fleet is backed by the log of that device. */
  ghost predicate RowTrue(t: Target, w: World) {
    t.status.Succeeded? && t.device in w.fleet ==>
      t.sequence > 0 && H.ConfirmedIn(w.fleet[t.device].log, t.sequence, R.IssuedBy(w.catalog))
  }

  ghost predicate RowsTrue(w: World) {
    forall d, i :: d in w.server.db.targets && 0 <= i < |w.server.db.targets[d]| ==>
      RowTrue(w.server.db.targets[d][i], w)
  }

  ghost predicate FleetSound(w: World) { forall id :: id in w.fleet ==> R.Sound(w.fleet[id], w.catalog) }

  predicate CatalogBounded(cat: R.Catalog) { forall n :: n in cat ==> 0 < n < W.TWO_63 }

  ghost predicate WorldInv(w: World, o: DeployModel.Options) {
    P.Inv(w.server, o) && CatalogBounded(w.catalog) && FleetSound(w) && RowsTrue(w)
  }

  // ---------------------------------------------------------------- the server side

  /** A row becomes succeeded only by a report of its device. */
  predicate NewSuccess(us: seq<Target>, i: nat, l: P.Step)
    requires i < |us|
  {
    && (l.Tagged? || l.Untagged?)
    && us[i].device == l.device && l.status.Succeeded?
    && (l.Tagged? ==> us[i].sequence == l.sequence)
  }

  /** Row i of deploy d is the row it was in s. */
  predicate SameRow(s: P.Sys, us: seq<Target>, d: DeployId, i: nat)
    requires i < |us|
  {
    d in s.db.targets && i < |s.db.targets[d]| && s.db.targets[d][i] == us[i]
  }

  lemma SuccessIsReported(s: P.Sys, o: DeployModel.Options, l: P.Step, d: DeployId, i: nat)
    requires s.db.WellFormed() && Serves(s, l)
    requires var t := P.Next(s, o, l);
             d in t.db.targets && i < |t.db.targets[d]| && t.db.targets[d][i].status.Succeeded?
    ensures var us := P.Next(s, o, l).db.targets[d]; SameRow(s, us, d, i) || NewSuccess(us, i, l)
  {
    if d != l.d {
      OthersStay(s, o, l, d);
    } else if l.Tagged? || l.Untagged? {
      ByReport(s, o, l, i);
    } else {
      WithoutReport(s, o, l, i);
    }
  }

  lemma WithoutReport(s: P.Sys, o: DeployModel.Options, l: P.Step, i: nat)
    requires !l.Tagged? && !l.Untagged? && Serves(s, l)
    requires l.d in P.Next(s, o, l).db.targets && i < |P.Next(s, o, l).db.targets[l.d]|
    requires P.Next(s, o, l).db.targets[l.d][i].status.Succeeded?
    ensures SameRow(s, P.Next(s, o, l).db.targets[l.d], l.d, i)
  {
    match l
    case Rollout(_, _, _, _, _, _, _) => NotByRollout(s, o, l, i);
    case Reconcile(_, _, _, _) => NotByPass(s, o, l, i);
    case Resume(_, _) => NotByResume(s, o, l, i);
    case Cancel(_) => NotByCancel(s, o, l, i);
  }

  lemma NotByPass(s: P.Sys, o: DeployModel.Options, l: P.Step, i: nat)
    requires l.Reconcile? && Serves(s, l)
    requires l.d in P.Next(s, o, l).db.targets && i < |P.Next(s, o, l).db.targets[l.d]|
    requires P.Next(s, o, l).db.targets[l.d][i].status.Succeeded?
    ensures SameRow(s, P.Next(s, o, l).db.targets[l.d], l.d, i)
  {
    PassShape(s.db.targets[l.d], o, l.found, l.down, l.now);
    NoneByPass(s.db.targets[l.d], o, l.found, l.down, l.now, i);
  }

  lemma NotByCancel(s: P.Sys, o: DeployModel.Options, l: P.Step, i: nat)
    requires l.Cancel? && Serves(s, l)
    requires l.d in P.Next(s, o, l).db.targets && i < |P.Next(s, o, l).db.targets[l.d]|
    ensures SameRow(s, P.Next(s, o, l).db.targets[l.d], l.d, i)
  {
  }

  lemma NotByRollout(s: P.Sys, o: DeployModel.Options, l: P.Step, i: nat)
    requires l.Rollout? && Serves(s, l)
    requires l.d in P.Next(s, o, l).db.targets && i < |P.Next(s, o, l).db.targets[l.d]|
    ensures !P.Next(s, o, l).db.targets[l.d][i].status.Succeeded?
  {
    NoneAtFirst(l.devices, o, l.version, l.sequence, l.down, l.now, i);
  }

  lemma NotByResume(s: P.Sys, o: DeployModel.Options, l: P.Step, i: nat)
    requires l.Resume? && Serves(s, l)
    requires l.d in P.Next(s, o, l).db.targets && i < |P.Next(s, o, l).db.targets[l.d]|
    requires P.Next(s, o, l).db.targets[l.d][i].status.Succeeded?
    ensures SameRow(s, P.Next(s, o, l).db.targets[l.d], l.d, i)
  {
  }

  lemma ByReport(s: P.Sys, o: DeployModel.Options, l: P.Step, i: nat)
    requires (l.Tagged? || l.Untagged?) && Serves(s, l) && i < |s.db.targets[l.d]|
    requires l.d in P.Next(s, o, l).db.targets && |P.Next(s, o, l).db.targets[l.d]| == |s.db.targets[l.d]|
    requires P.Next(s, o, l).db.targets[l.d][i].status.Succeeded?
    ensures P.Next(s, o, l).db.targets[l.d][i] == s.db.targets[l.d][i]
      || NewSuccess(P.Next(s, o, l).db.targets[l.d], i, l)
  {
  }

  lemma OthersStay(s: P.Sys, o: DeployModel.Options, l: P.Step, d: DeployId)
    requires s.db.WellFormed() && Serves(s, l) && d != l.d && d in P.Next(s, o, l).db.targets
    ensures d in s.db.targets && P.Next(s, o, l).db.targets[d] == s.db.targets[d]
  {
  }

  lemma NoneAtFirst(devices: seq<DeviceId>, o: DeployModel.Options, version: string, sequence: int,
                    down: set<DeviceId>, now: Time, i: nat)
    requires i < |devices|
    ensures !RolloutTargets(devices, o, version, sequence, down, now)[i].status.Succeeded?
  {
  }

  lemma NoneByPass(ts: seq<Target>, o: DeployModel.Options, found: bool, down: set<DeviceId>, now: Time, i: nat)
    requires i < |ts| && |ReconcilePass(ts, o, found, down, now).targets| == |ts|
    requires ReconcilePass(ts, o, found, down, now).targets[i].status.Succeeded?
    ensures ReconcilePass(ts, o, found, down, now).targets[i] == ts[i]
  {
    PassShape(ts, o, found, down, now);
  }

  lemma ServerKeeps(w: World, o: DeployModel.Options, l: P.Step)
    requires WorldInv(w, o) && Serves(w.server, l)
    requires l.Tagged? || l.Untagged? ==>
      l.device !in w.fleet
      || (l.Tagged? && (l.status.Succeeded? ==>
          H.ConfirmedIn(w.fleet[l.device].log, l.sequence, R.IssuedBy(w.catalog))))
    ensures WorldInv(w.(server := P.Next(w.server, o, l)), o)
  {
    P.StepKeeps(w.server, o, l);
    var v := w.(server := P.Next(w.server, o, l));
    forall d, i | d in v.server.db.targets && 0 <= i < |v.server.db.targets[d]|
      ensures RowTrue(v.server.db.targets[d][i], v)
    {
      if v.server.db.targets[d][i].status.Succeeded? {
        SuccessIsReported(w.server, o, l, d, i);
        if d in w.server.db.targets && i < |w.server.db.targets[d]| { assert RowTrue(w.server.db.targets[d][i], w); }
      }
    }
  }

  // ---------------------------------------------------------------- the report

  /** Every report of a fleet device arrives tagged with the sequence the device meant. */
  lemma ArrivesTagged(cat: R.Catalog, log: seq<D.Event>, id: DeviceId, at: nat, d: DeployId, now: Time)
    requires CatalogBounded(cat) && R.ReportsKnown(log, cat) && at < |log| && log[at].Sent?
    ensures DeliveryStep(d, id, log[at], now) == P.Tagged(d, id, log[at].sequence, Recorded(log[at].status), now)
  {
    WordsMap(log[at].status);
    W.ReportSequenceSurvives(log[at].sequence);
  }

  lemma DeliveryKeeps(w: World, o: DeployModel.Options, a: Act)
    requires WorldInv(w, o) && a.Deliver? && Possible(w, a)
    ensures WorldInv(After(w, o, a), o)
  {
    var log := w.fleet[a.id].log;
    var e := log[a.at];
    assert R.Sound(w.fleet[a.id], w.catalog);
    ArrivesTagged(w.catalog, log, a.id, a.at, a.d, a.now);
    if e.status.Ok? {
      assert H.ConfirmedIn(log[..a.at], e.sequence, R.IssuedBy(w.catalog));
      R.ConfirmedLater(log[..a.at], log, e.sequence, R.IssuedBy(w.catalog));
    }
    ServerKeeps(w, o, DeliveryStep(a.d, a.id, e, a.now));
  }

  // ---------------------------------------------------------------- devices and artifacts

  lemma RunStepSound(w: World, id: DeviceId, l: D.Step)
    requires CatalogBounded(w.catalog) && FleetSound(w) && Possible(w, Run(id, l))
    ensures R.Sound(D.Next(w.fleet[id], l).value, w.catalog)
  {
    if l.Handle? && l.h.Receive? {
      var n :| n in w.catalog && W.DeviceSequence(W.Decimal(n)) == Some(l.h.cmd.sequence);
      W.CommandSequenceSurvives(n);
    }
    R.StepSound(w.fleet[id], l, w.catalog);
  }

  /** A longer log backs what the shorter one backed. */
  lemma RowStaysTrue(t: Target, w: World, id: DeviceId, s: D.Dev)
    requires id in w.fleet && w.fleet[id].log <= s.log && RowTrue(t, w)
    ensures RowTrue(t, w.(fleet := w.fleet[id := s]))
  {
    if t.status.Succeeded? && t.device == id {
      R.ConfirmedLater(w.fleet[id].log, s.log, t.sequence, R.IssuedBy(w.catalog));
    }
  }

  lemma RunStepKeeps(w: World, o: DeployModel.Options, a: Act)
    requires WorldInv(w, o) && a.Run? && Possible(w, a)
    ensures WorldInv(After(w, o, a), o)
  {
    var v := After(w, o, a);
    RunStepSound(w, a.id, a.step);
    R.StepExtendsLog(w.fleet[a.id], a.step);
    forall d, i | d in v.server.db.targets && 0 <= i < |v.server.db.targets[d]|
      ensures RowTrue(v.server.db.targets[d][i], v)
    {
      RowStaysTrue(w.server.db.targets[d][i], w, a.id, v.fleet[a.id]);
    }
  }

  lemma PublishKeeps(w: World, o: DeployModel.Options, a: Act)
    requires WorldInv(w, o) && a.Publish? && Possible(w, a)
    ensures WorldInv(After(w, o, a), o)
  {
    var v := After(w, o, a);
    forall id | id in v.fleet ensures R.Sound(v.fleet[id], v.catalog) {
      R.PublishSound(w.fleet[id], w.catalog, a.sequence, a.digest);
    }
    forall d, i | d in v.server.db.targets && 0 <= i < |v.server.db.targets[d]|
      ensures RowTrue(v.server.db.targets[d][i], v)
    {
      var row := v.server.db.targets[d][i];
      assert RowTrue(row, w);
      if row.status.Succeeded? && row.device in w.fleet {
        R.PublishSound(w.fleet[row.device], w.catalog, a.sequence, a.digest);
        R.ConfirmedGrows(w.fleet[row.device].log, row.sequence, R.IssuedBy(w.catalog), R.IssuedBy(v.catalog));
      }
    }
  }

  lemma {:induction false} RunKeeps(o: DeployModel.Options, factory: map<DeviceId, D.Digest>, acts: seq<Act>)
    requires Exec(o, factory, acts).Some?
    ensures WorldInv(Exec(o, factory, acts).value, o)
    ensures Exec(o, factory, acts).value.fleet.Keys == factory.Keys
  {
    if acts == [] {
      forall id | id in factory ensures R.Sound(D.Factory(factory[id]), map[]) { R.FactorySound(factory[id], map[]); }
    } else {
      var n := |acts| - 1;
      RunKeeps(o, factory, acts[..n]);
      var w, a := Exec(o, factory, acts[..n]).value, acts[n];
      match a
      case Publish(_, _) => PublishKeeps(w, o, a);
      case Serve(l) => ServerKeeps(w, o, l);
      case Run(_, _) => RunStepKeeps(w, o, a);
      case Deliver(_, _, _, _) => DeliveryKeeps(w, o, a);
    }
  }

  // ---------------------------------------------------------------- the theorems

  ghost predicate Reachable(o: DeployModel.Options, factory: map<DeviceId, D.Digest>, w: World) {
    exists acts: seq<Act> :: Exec(o, factory, acts) == Some(w)
  }

  /** In this order: the device booted the image, reached the broker, and marked the image valid in that same life. */
  predicate Lived(log: seq<D.Event>, digest: D.Digest, boot: nat, reach: nat, mark: nat) {
    && boot < reach < mark < |log|
    && log[boot] == D.Booted(digest) && log[reach] == D.Reached && log[mark] == D.MarkedValid
    && forall k :: boot < k < mark ==> !log[k].Reset? && !log[k].Booted?
  }

  lemma ConfirmedLived(cat: R.Catalog, log: seq<D.Event>, n: nat) returns (boot: nat, reach: nat, mark: nat)
    requires H.ConfirmedIn(log, n, R.IssuedBy(cat))
    ensures n in cat && Lived(log, cat[n], boot, reach, mark)
  {
    mark :| H.ConfirmedAt(log, n, R.IssuedBy(cat), mark);
    boot, reach := H.LifeBegan(log[..mark]);
    forall k | boot < k < mark ensures !log[k].Reset? && !log[k].Booted? {
      assert log[..mark][k] == log[k];
    }
  }

  /**
   In every run of server, fleet and network: a target of a fleet device that is
   recorded as succeeded with sequence N means that N was published and that the
   device had booted exactly the image published as N, reached the broker with it
   and marked it valid.
   */
  lemma SucceededMeansConfirmed(o: DeployModel.Options, factory: map<DeviceId, D.Digest>, w: World, d: DeployId, i: nat)
    returns (boot: nat, reach: nat, mark: nat)
    requires Reachable(o, factory, w) && d in w.server.db.targets && i < |w.server.db.targets[d]|
    requires w.server.db.targets[d][i].status.Succeeded? && w.server.db.targets[d][i].device in factory
    ensures var t := w.server.db.targets[d][i];
            && t.sequence in w.catalog && t.device in w.fleet
            && Lived(w.fleet[t.device].log, w.catalog[t.sequence], boot, reach, mark)
  {
    var acts: seq<Act> :| Exec(o, factory, acts) == Some(w);
    RunKeeps(o, factory, acts);
    var t := w.server.db.targets[d][i];
    assert RowTrue(t, w);
    boot, reach, mark := ConfirmedLived(w.catalog, w.fleet[t.device].log, t.sequence);
  }

  /** The device of this row went through the life the row claims. */
  ghost predicate Proven(t: Target, w: World) {
    && t.device in w.fleet && t.sequence in w.catalog
    && exists boot, reach, mark :: Lived(w.fleet[t.device].log, w.catalog[t.sequence], boot, reach, mark)
  }

  /**
   In a completed deploy over fleet devices, every target that did not fail has run
   and confirmed the image of the deploy, and the failures of the whole deploy are
   within the threshold: with threshold 0 the whole fleet confirmed it.
   */
  lemma CompletedMeansConfirmed(o: DeployModel.Options, factory: map<DeviceId, D.Digest>, w: World, d: DeployId)
    requires o == Clamped(o) && Reachable(o, factory, w)
    requires d in w.server.db.deploys && d in w.server.db.targets && w.server.db.deploys[d].state.Completed?
    requires forall t :: t in w.server.db.targets[d] ==> t.device in factory
    ensures var ts := w.server.db.targets[d];
            && (forall i :: 0 <= i < |ts| && !ts[i].status.Failure() ==> Proven(ts[i], w))
            && Failures(ts) * 100 <= o.failureThreshold * |ts|
  {
    var acts: seq<Act> :| Exec(o, factory, acts) == Some(w);
    RunKeeps(o, factory, acts);
    var ts := w.server.db.targets[d];
    P.CompletedRows(w.server, o, d);
    forall i | 0 <= i < |ts| && !ts[i].status.Failure() ensures Proven(ts[i], w) {
      assert ts[i] in ts;
      assert ts[i].status.Terminal();
      var boot, reach, mark := SucceededMeansConfirmed(o, factory, w, d, i);
    }
  }
}
