/** A run of the whole system that exists: an artifact is published, rolled out, installed, confirmed and reported. */
module SystemProgress {
  import opened Optional
  import opened DeployModel
  import opened EndToEnd
  import opened DeploySpec
  import A = DeviceAnswers
  import D = DeviceOta
  import G = DeviceProgress
  import P = RolloutProtocol
  import Q = RolloutProgress
  import R = DeviceReports
  import W = WireCodec

  type Factory = map<DeviceId, D.Digest>

  lemma Go(o: DeployModel.Options, factory: Factory, w: World, a: Act) returns (v: World)
    requires Reachable(o, factory, w) && Possible(w, a)
    ensures v == After(w, o, a) && Reachable(o, factory, v)
  {
    v := After(w, o, a);
    var acts: seq<Act> :| Exec(o, factory, acts) == Some(w);
    assert (acts + [a])[..|acts + [a]| - 1] == acts;
    assert Exec(o, factory, acts + [a]) == Some(v);
  }

  /** A command that is signed for its own sequence is that of a published artifact. */
  lemma SignedIsCommanded(cat: R.Catalog, l: D.Step)
    requires CatalogBounded(cat) && D.Genuine(l, R.IssuedBy(cat)) && G.SelfSigned(l)
    ensures Commanded(l, cat)
  {
    if l.Handle? && l.h.Receive? { W.CommandSequenceSurvives(l.h.cmd.sequence); }
  }

  /** Whatever a device can run by itself it can run as part of the fleet. */
  lemma {:induction false} FleetRuns(o: DeployModel.Options, factory: Factory, w: World, id: DeviceId, ls: seq<D.Step>)
    returns (v: World)
    requires Reachable(o, factory, w) && id in w.fleet && CatalogBounded(w.catalog)
    requires D.Exec(w.fleet[id], ls, R.IssuedBy(w.catalog)).Some? && forall l :: l in ls ==> G.SelfSigned(l)
    ensures v == w.(fleet := w.fleet[id := D.Exec(w.fleet[id], ls, R.IssuedBy(w.catalog)).value])
      && Reachable(o, factory, v)
  {
    if ls == [] {
      v := w;
      assert w.fleet[id := w.fleet[id]] == w.fleet;
    } else {
      var before, l := ls[..|ls| - 1], ls[|ls| - 1];
      var u := FleetRuns(o, factory, w, id, before);
      SignedIsCommanded(w.catalog, l);
      v := Go(o, factory, u, Run(id, l));
    }
  }

  /** Artifact n is published, and rolled out to x alone. */
  lemma Starts(o: DeployModel.Options, factory: Factory, d: DeployId, version: string, n: nat, digest: D.Digest,
               x: DeviceId, now: Time)
    returns (w: World, t: Target)
    requires o == Clamped(o) && x in factory && 0 < n < W.TWO_63
    ensures Reachable(o, factory, w) && w.catalog == map[n := digest] && w.fleet == Begin(factory).fleet
    ensures P.Reachable(o, w.server) && Q.Single(w.server, d, t, InProgress)
    ensures t == Target(x, version, n, 0, Triggered, Stored(now))
  {
    w := Begin(factory);
    assert Exec(o, factory, []) == Some(w);
    w := Go(o, factory, w, Publish(n, digest));
    var s;
    s, t := Q.RollsOut(o, d, version, n, x, now);
    w := Go(o, factory, w, Serve(P.Rollout(d, "", version, n, [x], {}, now)));
  }

  /** The device idles with floor n and no quarantine. */
  predicate Runs(s: D.Dev, n: nat) { s.boot.Up? && s.handler.Idle? && s.ram.floor == n && s.ram.failedSeq == 0 }

  /** The device installs and confirms it, and says so. */
  lemma Installs(o: DeployModel.Options, factory: Factory, w: World, version: string, n: nat, x: DeviceId)
    returns (v: World)
    requires Reachable(o, factory, w) && x in factory && w.fleet == Begin(factory).fleet && CatalogBounded(w.catalog)
      && n in w.catalog
    ensures Reachable(o, factory, v) && v.catalog == w.catalog && v.server == w.server && x in v.fleet
    ensures var log := v.fleet[x].log; log != [] && log[|log| - 1] == D.Sent(D.Ok, n)
    ensures Runs(v.fleet[x], n)
  {
    var signed := R.IssuedBy(w.catalog);
    var digest := w.catalog[n];
    assert (n, digest) in signed;
    var first := G.FirstBoot(factory[x], signed);
    var u := G.UpdateSucceeds(first, D.Command(version, digest, D.Over(n, digest), n), signed);
    G.Then(D.Factory(factory[x]), first, u, signed);
    var ls: seq<D.Step> :| D.Exec(w.fleet[x], ls, signed) == Some(u) && forall l :: l in ls ==> G.SelfSigned(l);
    v := FleetRuns(o, factory, w, x, ls);
  }

  lemma StartsAndInstalls(o: DeployModel.Options, factory: Factory, d: DeployId, version: string, n: nat,
                          digest: D.Digest, x: DeviceId, now: Time)
    returns (w: World, t: Target)
    requires o == Clamped(o) && x in factory && 0 < n < W.TWO_63
    ensures Reachable(o, factory, w) && w.catalog == map[n := digest] && x in w.fleet
    ensures P.Reachable(o, w.server) && Q.Single(w.server, d, t, InProgress)
    ensures t == Target(x, version, n, 0, Triggered, Stored(now))
    ensures var log := w.fleet[x].log; log != [] && log[|log| - 1] == D.Sent(D.Ok, n)
    ensures Runs(w.fleet[x], n)
  {
    w, t := Starts(o, factory, d, version, n, digest, x, now);
    w := Installs(o, factory, w, version, n, x);
  }

  lemma LogIsKnown(o: DeployModel.Options, factory: Factory, w: World, id: DeviceId)
    requires Reachable(o, factory, w) && id in w.fleet
    ensures CatalogBounded(w.catalog) && R.ReportsKnown(w.fleet[id].log, w.catalog)
  {
    var acts: seq<Act> :| Exec(o, factory, acts) == Some(w);
    RunKeeps(o, factory, acts);
    assert R.Sound(w.fleet[id], w.catalog);
  }

  /** The rollout machine can take this step, and it leads to r. */
  ghost predicate Takes(o: DeployModel.Options, s: P.Sys, l: P.Step, r: P.Sys) {
    P.Possible(s, l) && r == P.Next(s, o, l)
  }

  /** A report of a fleet device is delivered. */
  lemma Delivers(o: DeployModel.Options, factory: Factory, w: World, d: DeployId, id: DeviceId, n: nat, at: nat,
                 now: Time, status: D.Status, l: P.Step, s: P.Sys)
    returns (v: World)
    requires Reachable(o, factory, w) && id in w.fleet && at < |w.fleet[id].log|
      && w.fleet[id].log[at] == D.Sent(status, n)
    requires l == P.Tagged(d, id, n, Recorded(status), now) && Takes(o, w.server, l, s)
    ensures v == w.(server := s) && Reachable(o, factory, v)
  {
    LogIsKnown(o, factory, w, id);
    ArrivesTagged(w.catalog, w.fleet[id].log, id, at, d, now);
    v := Go(o, factory, w, Deliver(id, at, d, now));
  }

  lemma Reported(o: DeployModel.Options, s: P.Sys, d: DeployId, t: Target, u: Target, status: Status, now: Time)
    returns (l: P.Step, r: P.Sys)
    requires P.Reachable(o, s) && Q.Single(s, d, t, InProgress) && t.status.Triggered? && t.sequence > 0
    requires (status.Succeeded? || status.Failed?) && u == t.(status := status, updatedAt := Stored(now))
    ensures l == P.Tagged(d, t.device, t.sequence, status, now) && Takes(o, s, l, r)
    ensures P.Reachable(o, r) && Q.Single(r, d, u, InProgress)
  {
    l := P.Tagged(d, t.device, t.sequence, status, now);
    var v;
    r, v := Q.Reports(o, s, d, t, status, now);
  }

  /** The last report of a device is delivered and recorded. */
  lemma Records(o: DeployModel.Options, factory: Factory, w: World, d: DeployId, t: Target, u: Target,
                status: D.Status, now: Time)
    returns (v: World)
    requires Reachable(o, factory, w) && P.Reachable(o, w.server) && Q.Single(w.server, d, t, InProgress)
    requires t.status.Triggered? && t.sequence > 0 && t.device in w.fleet && !status.Updating?
    requires u == t.(status := Recorded(status), updatedAt := Stored(now))
    requires var log := w.fleet[t.device].log; log != [] && log[|log| - 1] == D.Sent(status, t.sequence)
    ensures Reachable(o, factory, v) && v.catalog == w.catalog
    ensures P.Reachable(o, v.server) && Q.Single(v.server, d, u, InProgress)
  {
    var to: Status := Recorded(status);
    assert to.Succeeded? || to.Failed?;
    var l, s := Reported(o, w.server, d, t, u, to, now);
    var x, n := t.device, t.sequence;
    v := Delivers(o, factory, w, d, x, n, |w.fleet[x].log| - 1, now, status, l, s);
  }

  /**
   For every fleet, every device of it and every artifact there is a run of server,
   device and network from the empty tables on, in which the artifact is published and
   rolled out, the device installs, boots and confirms it, and its target is recorded as
   succeeded.
   */
  lemma SomeTargetSucceeds(o: DeployModel.Options, factory: Factory, d: DeployId, version: string, n: nat,
                           digest: D.Digest, x: DeviceId, now: Time)
    returns (v: World, t: Target)
    requires o == Clamped(o) && x in factory && 0 < n < W.TWO_63
    ensures t.device == x && t.sequence == n && t.version == version && t.status.Succeeded?
    ensures Reachable(o, factory, v) && v.catalog == map[n := digest]
    ensures P.Reachable(o, v.server) && Q.Single(v.server, d, t, InProgress)
  {
    var t1;
    v, t1 := StartsAndInstalls(o, factory, d, version, n, digest, x, now);
    t := t1.(status := Succeeded, updatedAt := Stored(now));
    v := Records(o, factory, v, d, t1, t, D.Ok, now);
  }

  /** And the next pass completes the deploy. */
  lemma SomeDeployCompletes(o: DeployModel.Options, factory: Factory, d: DeployId, version: string, n: nat,
                            digest: D.Digest, x: DeviceId, now: Time)
    returns (w: World, t: Target)
    requires o == Clamped(o) && x in factory && 0 < n < W.TWO_63
    ensures t.device == x && t.sequence == n && t.status.Succeeded?
    ensures Reachable(o, factory, w) && Q.Single(w.server, d, t, Completed)
  {
    var v;
    v, t := SomeTargetSucceeds(o, factory, d, version, n, digest, x, now);
    var s := Q.Completes(o, v.server, d, t, now);
    w := Go(o, factory, v, Serve(P.Reconcile(d, true, {}, now)));
  }

  // ---------------------------------------------------------------- an update that fails

  /** The device tries it, is rolled back, and says so once it is connected again. */
  lemma RollsBack(o: DeployModel.Options, factory: Factory, w: World, version: string, n: nat, x: DeviceId)
    returns (v: World)
    requires Reachable(o, factory, w) && x in factory && w.fleet == Begin(factory).fleet && CatalogBounded(w.catalog)
      && n in w.catalog
    ensures Reachable(o, factory, v) && v.catalog == w.catalog && v.server == w.server && x in v.fleet
    ensures var log := v.fleet[x].log; log != [] && log[|log| - 1] == D.Sent(D.Failed, n)
  {
    var signed := R.IssuedBy(w.catalog);
    var digest := w.catalog[n];
    assert (n, digest) in signed;
    var first := G.FirstBoot(factory[x], signed);
    var u := A.RollbackEnds(first, D.Command(version, digest, D.Over(n, digest), n), signed);
    G.Then(D.Factory(factory[x]), first, u, signed);
    var ls: seq<D.Step> :| D.Exec(w.fleet[x], ls, signed) == Some(u) && forall l :: l in ls ==> G.SelfSigned(l);
    v := FleetRuns(o, factory, w, x, ls);
  }

  /**
   And there is one in which the image never connects, the device is rolled back, reports
   it with its next connection, and its target is recorded as failed.
   */
  lemma SomeTargetFails(o: DeployModel.Options, factory: Factory, d: DeployId, version: string, n: nat,
                        digest: D.Digest, x: DeviceId, now: Time)
    returns (v: World, t: Target)
    requires o == Clamped(o) && x in factory && 0 < n < W.TWO_63
    ensures t.device == x && t.sequence == n && t.version == version && t.status.Failed?
    ensures Reachable(o, factory, v) && v.catalog == map[n := digest] && Q.Single(v.server, d, t, InProgress)
  {
    var t1;
    v, t1 := Starts(o, factory, d, version, n, digest, x, now);
    v := RollsBack(o, factory, v, version, n, x);
    t := t1.(status := Status.Failed, updatedAt := Stored(now));
    v := Records(o, factory, v, d, t1, t, D.Failed, now);
  }

  // ---------------------------------------------------------------- an "ok" that was lost

  /** The command is delivered to a device that runs the image already: it says "ok", and nothing else happens to it. */
  lemma SaysOkAgain(o: DeployModel.Options, factory: Factory, w: World, x: DeviceId, n: nat) returns (v: World)
    requires Reachable(o, factory, w) && x in w.fleet && n in w.catalog && CatalogBounded(w.catalog)
    requires w.fleet[x].boot.Up? && w.fleet[x].handler.Idle?
    requires w.fleet[x].ram.floor == n && w.fleet[x].ram.failedSeq != n
    ensures Reachable(o, factory, v)
    ensures var s := w.fleet[x]; v == w.(fleet := w.fleet[x := s.(log := s.log + [D.Sent(D.Ok, n)])])
  {
    var signed := R.IssuedBy(w.catalog);
    var cmd := D.Command("", w.catalog[n], D.Over(n, w.catalog[n]), n);
    assert (n, w.catalog[n]) in signed;
    var s := w.fleet[x];
    G.Stay(s, signed);
    var t := G.Go(s, s, D.Handle(D.Receive(cmd)), signed);
    t := G.Go(s, t, D.Handle(D.Claim), signed);
    t := G.Go(s, t, D.Handle(D.Answer), signed);
    var ls: seq<D.Step> :| D.Exec(s, ls, signed) == Some(t) && forall l :: l in ls ==> G.SelfSigned(l);
    v := FleetRuns(o, factory, w, x, ls);
  }

  /**
   A lost "ok" is made up for. Take any reachable state of the whole system in which a
   device runs image n and its target in the deploy that n is matched to is still open:
   delivering the command of n once more and then the answer records the target as
   succeeded. The device has no other answer to give.
   */
  lemma LostOkIsRepeated(o: DeployModel.Options, factory: Factory, w: World, d: DeployId, x: DeviceId, n: nat,
                         now: Time)
    returns (v: World, i: nat)
    requires Reachable(o, factory, w) && x in w.fleet && n in w.catalog
    requires w.fleet[x].boot.Up? && w.fleet[x].handler.Idle?
    requires w.fleet[x].ram.floor == n && w.fleet[x].ram.failedSeq != n
    requires P.Possible(w.server, P.Tagged(d, x, n, Succeeded, now))
    ensures Reachable(o, factory, v) && v.catalog == w.catalog
    ensures var s := w.fleet[x]; v.fleet == w.fleet[x := s.(log := s.log + [D.Sent(D.Ok, n)])]
    ensures d in v.server.db.targets && i < |v.server.db.targets[d]|
    ensures var t := v.server.db.targets[d][i];
            t.device == x && t.sequence == n && t.status.Succeeded? && t.updatedAt == Stored(now)
  {
    LogIsKnown(o, factory, w, x);
    v := SaysOkAgain(o, factory, w, x, n);
    i :| 0 <= i < |w.server.db.targets[d]| && Matches(w.server.db.targets[d][i], x, n, Succeeded);
    var l := P.Tagged(d, x, n, Succeeded, now);
    v := Delivers(o, factory, v, d, x, n, |w.fleet[x].log|, now, D.Ok, l, P.Next(w.server, o, l));
  }

  lemma NoOtherAnswer(o: DeployModel.Options, factory: Factory, w: World, x: DeviceId, n: nat,
                      hs: seq<D.CommandStep>, cmd: D.Command)
    requires Reachable(o, factory, w) && x in w.fleet && cmd.sequence == n
    requires w.fleet[x].handler.Idle? && w.fleet[x].ram.floor == n && (w.fleet[x].ram.failedSeq != n || n == 0)
    requires A.OneCommand(w.fleet[x], hs, cmd)
    ensures var s := w.fleet[x]; A.Handling(s, hs) == Some(s.(log := s.log + [D.Sent(D.Ok, n)]))
  {
    var acts: seq<Act> :| Exec(o, factory, acts) == Some(w);
    RunKeeps(o, factory, acts);
    assert R.Sound(w.fleet[x], w.catalog);
    A.CommandAnsweredIn(w.fleet[x], hs, cmd, R.IssuedBy(w.catalog));
  }

  /** The whole of it: published, rolled out, installed, confirmed, the report lost, the command repeated, recorded. */
  lemma SomeLostOkIsRepeated(o: DeployModel.Options, factory: Factory, d: DeployId, version: string, n: nat,
                             digest: D.Digest, x: DeviceId, now: Time)
    returns (w: World, v: World, t: Target)
    requires o == Clamped(o) && x in factory && 0 < n < W.TWO_63
    ensures Reachable(o, factory, w) && Q.Single(w.server, d, t, InProgress) && t.status.Triggered? && x in w.fleet
    ensures var log := w.fleet[x].log; log != [] && log[|log| - 1] == D.Sent(D.Ok, n)
    ensures t.device == x && t.sequence == n && Reachable(o, factory, v)
    ensures Q.Single(v.server, d, t.(status := Succeeded, updatedAt := Stored(now)), InProgress)
  {
    w, t := StartsAndInstalls(o, factory, d, version, n, digest, x, now);
    v := SaysOkAgain(o, factory, w, x, n);
    v := Records(o, factory, v, d, t, t.(status := Succeeded, updatedAt := Stored(now)), D.Ok, now);
  }
}
