/** internal/httpapi/deploys.go: the counts of a deploy and the batch that explains its pause. */
module DeployView {
  import opened Optional
  import opened DeployModel
  import opened BatchRules
  import opened DeploySpec
  import opened RolloutProtocol
  import opened WireCodec
  import P = RolloutProgress

  /** The columns of the page a target can be counted in. */
  datatype Bucket = IsSucceeded | IsInflight | IsFailed | IsLost | IsPending

  function BucketOf(status: Status): Bucket {
    match status
    case Succeeded => IsSucceeded
    case Triggered => IsInflight
    case Downloading => IsInflight
    case Failed => IsFailed
    case Lost => IsLost
    case Pending => IsPending
  }

  function Tally(ts: seq<Target>, k: Bucket): nat {
    if ts == [] then 0 else Tally(ts[..|ts| - 1], k) + if BucketOf(ts[|ts| - 1].status) == k then 1 else 0
  }

  datatype Counts = Counts(total: int, succeeded: int, inflight: int, failed: int, lost: int, pending: int) {
    /** pct. */
    function Percent(n: int): int { if total == 0 then 0 else n * 100 / total }

    predicate AtRisk() { failed + lost > 0 }
  }

  function CountOf(ts: seq<Target>): Counts {
    Counts(|ts|, Tally(ts, IsSucceeded), Tally(ts, IsInflight), Tally(ts, IsFailed), Tally(ts, IsLost),
           Tally(ts, IsPending))
  }

  /** How many rows have a status of this column. */
  function Matching(ts: seq<Target>, k: Bucket): nat {
    var statuses := multiset(Statuses(ts));
    match k
    case IsSucceeded => statuses[Succeeded]
    case IsInflight => statuses[Triggered] + statuses[Downloading]
    case IsFailed => statuses[Failed]
    case IsLost => statuses[Lost]
    case IsPending => statuses[Pending]
  }

  lemma {:induction false} TallyMatches(ts: seq<Target>, k: Bucket)
    ensures Tally(ts, k) == Matching(ts, k)
  {
    if ts != [] {
      TallyMatches(ts[..|ts| - 1], k);
      forall status { OneMore(ts, status); }
    }
  }

  lemma OneMore(ts: seq<Target>, status: Status)
    requires ts != []
    ensures multiset(Statuses(ts))[status] ==
            multiset(Statuses(ts[..|ts| - 1]))[status] + if ts[|ts| - 1].status == status then 1 else 0
  {
    assert Statuses(ts) == Statuses(ts[..|ts| - 1]) + [ts[|ts| - 1].status];
  }

  lemma CountsStatuses(ts: seq<Target>)
    ensures var c, statuses := CountOf(ts), multiset(Statuses(ts));
            && c.total == |ts| && c.succeeded == statuses[Succeeded] && c.failed == statuses[Failed]
            && c.lost == statuses[Lost] && c.pending == statuses[Pending]
            && c.inflight == statuses[Triggered] + statuses[Downloading]
  {
    forall k: Bucket ensures Tally(ts, k) == Matching(ts, k) { TallyMatches(ts, k); }
  }

  /** AtRisk: some target failed or was lost. */
  lemma AtRiskMeans(ts: seq<Target>)
    ensures CountOf(ts).AtRisk() <==> Failed in Statuses(ts) || Lost in Statuses(ts)
  {
    CountsStatuses(ts);
  }

  /** countTargets. */
  method CountTargets(ts: seq<Target>) returns (c: Counts)
    ensures c == CountOf(ts)
    ensures var statuses := multiset(Statuses(ts));
            && c.total == |ts| && c.succeeded == statuses[Succeeded] && c.failed == statuses[Failed]
            && c.lost == statuses[Lost] && c.pending == statuses[Pending]
            && c.inflight == statuses[Triggered] + statuses[Downloading]
  {
    CountsStatuses(ts);
    c := Counts(|ts|, 0, 0, 0, 0, 0);
    for i := 0 to |ts|
      invariant c == CountOf(ts[..i]).(total := |ts|)
    {
      assert ts[..i + 1][..i] == ts[..i];
      match ts[i].status {
        case Succeeded => c := c.(succeeded := c.succeeded + 1);
        case Triggered => c := c.(inflight := c.inflight + 1);
        case Downloading => c := c.(inflight := c.inflight + 1);
        case Failed => c := c.(failed := c.failed + 1);
        case Lost => c := c.(lost := c.lost + 1);
        case Pending => c := c.(pending := c.pending + 1);
      }
    }
    assert ts[..|ts|] == ts;
  }

  /** Every target counts once. */
  lemma {:induction false} CountsEachOnce(ts: seq<Target>)
    ensures var c := CountOf(ts);
            c.total == c.succeeded + c.inflight + c.failed + c.lost + c.pending
  {
    if ts != [] { CountsEachOnce(ts[..|ts| - 1]); }
  }

  /** Division by counting, which keeps the solver out of nonlinear division. */
  function Floored(v: nat, n: nat): nat
    requires n > 0
    decreases v
  {
    if v < n then 0 else 1 + Floored(v - n, n)
  }

  lemma {:induction false} FlooredBelow(v: nat, n: nat)
    requires n > 0
    ensures n * Floored(v, n) <= v < n * Floored(v, n) + n
  {
    if v >= n {
      FlooredBelow(v - n, n);
      assert n * (1 + Floored(v - n, n)) == n + n * Floored(v - n, n);
    }
  }

  lemma FlooredIsDivision(v: nat, n: nat)
    requires n > 0
    ensures Floored(v, n) == v / n
  {
    FlooredBelow(v, n);
    QuotientUnique(v, n, Floored(v, n), v - n * Floored(v, n));
  }

  lemma Cancel(n: nat, q: nat, bound: nat)
    requires n > 0 && n * q <= n * bound
    ensures q <= bound
  {
    var next := n * (bound + 1);
    assert next == n * bound + n;
    if q > bound { MulOrder(n, bound + 1, q); }
  }

  lemma Distribute(n: nat, p: nat, q: nat, r: nat, s: nat)
    ensures n * (p + q + r + s) == n * p + n * q + n * r + n * s
  {
  }

  lemma FourBounded(p: nat, q: nat, r: nat, s: nat, a: nat, b: nat, c: nat, d: nat, n: nat)
    requires n > 0 && a + b + c + d <= n
    requires n * p <= a * 100 && n * q <= b * 100 && n * r <= c * 100 && n * s <= d * 100
    ensures p + q + r + s <= 100
  {
    Distribute(n, p, q, r, s);
    Cancel(n, p + q + r + s, 100);
  }

  lemma FourFloors(a: nat, b: nat, c: nat, d: nat, n: nat)
    requires n > 0 && a + b + c + d <= n
    ensures Floored(a * 100, n) + Floored(b * 100, n) + Floored(c * 100, n) + Floored(d * 100, n) <= 100
  {
    FlooredBelow(a * 100, n);
    FlooredBelow(b * 100, n);
    FlooredBelow(c * 100, n);
    FlooredBelow(d * 100, n);
    FourBounded(Floored(a * 100, n), Floored(b * 100, n), Floored(c * 100, n), Floored(d * 100, n), a, b, c, d, n);
  }

  lemma PercentFloors(c: Counts, n: nat)
    requires c.total > 0
    ensures c.Percent(n) == Floored(n * 100, c.total)
  {
    FlooredIsDivision(n * 100, c.total);
  }

  /** A percentage is rounded down. */
  lemma PercentIsFloor(c: Counts, n: nat)
    requires c.total > 0
    ensures c.total * c.Percent(n) <= 100 * n < c.total * c.Percent(n) + c.total
  {
    PercentFloors(c, n);
    FlooredBelow(n * 100, c.total);
  }

  /** The four floored percentages never add up to more than 100. */
  lemma PercentagesWithinHundred(ts: seq<Target>)
    ensures var c := CountOf(ts);
            c.Percent(c.succeeded) + c.Percent(c.inflight) + c.Percent(c.failed) + c.Percent(c.lost) <= 100
  {
    CountsEachOnce(ts);
    if ts != [] {
      var c := CountOf(ts);
      FourFloors(c.succeeded, c.inflight, c.failed, c.lost, c.total);
      PercentFloors(c, c.succeeded);
      PercentFloors(c, c.inflight);
      PercentFloors(c, c.failed);
      PercentFloors(c, c.lost);
    }
  }

  // ---------------------------------------------------------------- the counts of the batches add up

  function TallyIn(bs: seq<int>, ts: seq<Target>, k: Bucket): nat {
    if bs == [] then 0 else Tally(InBatch(ts, bs[0]), k) + TallyIn(bs[1..], ts, k)
  }

  lemma {:induction false} TallyGrows(bs: seq<int>, ts: seq<Target>, k: Bucket)
    requires Ascending(bs) && ts != []
    ensures var t := ts[|ts| - 1];
            TallyIn(bs, ts, k) ==
              TallyIn(bs, ts[..|ts| - 1], k) + if t.batch in bs && BucketOf(t.status) == k then 1 else 0
  {
    if bs != [] {
      TallyGrows(bs[1..], ts, k);
      assert forall b :: b in bs <==> b == bs[0] || b in bs[1..];
      assert bs[0] !in bs[1..];
      var g := InBatch(ts, bs[0]);
      if ts[|ts| - 1].batch == bs[0] {
        assert g[..|g| - 1] == InBatch(ts[..|ts| - 1], bs[0]) && g[|g| - 1] == ts[|ts| - 1];
      } else {
        assert g == InBatch(ts[..|ts| - 1], bs[0]);
      }
    }
  }

  lemma {:induction false} TallyEmpty(bs: seq<int>, k: Bucket)
    ensures TallyIn(bs, [], k) == 0
  {
    if bs != [] { TallyEmpty(bs[1..], k); }
  }

  lemma {:induction false} TallyTotal(bs: seq<int>, ts: seq<Target>, k: Bucket)
    requires Ascending(bs) && forall i :: 0 <= i < |ts| ==> ts[i].batch in bs
    ensures TallyIn(bs, ts, k) == Tally(ts, k)
  {
    if ts == [] {
      TallyEmpty(bs, k);
    } else {
      TallyGrows(bs, ts, k);
      TallyTotal(bs, ts[..|ts| - 1], k);
    }
  }

  /** In every column the counts of the batches shown add up to the count of the deploy, and so do their sizes. */
  lemma CountsAddUp(ts: seq<Target>, k: Bucket)
    ensures TallyIn(Batches(ts), ts, k) == Tally(ts, k)
    ensures SizesIn(Batches(ts), ts) == |ts|
  {
    TallyTotal(Batches(ts), ts, k);
    SumsTotal(Batches(ts), ts);
  }

  // ---------------------------------------------------------------- the pause explanation

  datatype PauseInfo = PauseInfo(batch: int, batchLabel: string, failed: int, lost: int, total: int, threshold: int)

  function BatchLabel(batch: int): string { if batch == 0 then "Canary" else "Rest" }

  /** The first of the batches that is settled over the threshold. */
  function FirstTripped(bs: seq<int>, ts: seq<Target>, threshold: int): Option<int> {
    if bs == [] then None
    else if BatchTripped(InBatch(ts, bs[0]), threshold) then Some(bs[0])
    else FirstTripped(bs[1..], ts, threshold)
  }

  /** The batch a paused deploy's page names. */
  function Explained(ts: seq<Target>, threshold: int): Option<int> { FirstTripped(Batches(ts), ts, threshold) }

  lemma {:induction false} FirstTrippedIs(bs: seq<int>, ts: seq<Target>, threshold: int)
    requires Ascending(bs)
    ensures var first := FirstTripped(bs, ts, threshold);
            && (first.None? ==> forall b :: b in bs ==> !BatchTripped(InBatch(ts, b), threshold))
            && (first.Some? ==>
                  && first.value in bs && BatchTripped(InBatch(ts, first.value), threshold)
                  && forall b :: b in bs && b < first.value ==> !BatchTripped(InBatch(ts, b), threshold))
  {
    if bs != [] {
      FirstTrippedIs(bs[1..], ts, threshold);
      assert forall b :: b in bs <==> b == bs[0] || b in bs[1..];
      assert forall b :: b in bs[1..] ==> bs[0] < b;
    }
  }

  /** The explained batch is the first one that is there and settled over the threshold. */
  lemma ExplainedFirst(ts: seq<Target>, threshold: int)
    ensures var first := Explained(ts, threshold);
            && (first.None? ==> forall b :: InBatch(ts, b) != [] ==> !BatchTripped(InBatch(ts, b), threshold))
            && (first.Some? ==>
                  && InBatch(ts, first.value) != [] && BatchTripped(InBatch(ts, first.value), threshold)
                  && forall b :: b < first.value && InBatch(ts, b) != [] ==> !BatchTripped(InBatch(ts, b), threshold))
  {
    FirstTrippedIs(Batches(ts), ts, threshold);
    forall b ensures b in Batches(ts) <==> InBatch(ts, b) != [] { Present(ts, b); }
  }

  /** What the page says about a paused deploy. */
  function PauseNote(state: State, ts: seq<Target>, threshold: int): Option<PauseInfo> {
    if !state.Paused? || Explained(ts, threshold).None? then None
    else
      var b := Explained(ts, threshold).value;
      var c := CountOf(InBatch(ts, b));
      Some(PauseInfo(b, BatchLabel(b), c.failed, c.lost, c.total, threshold))
  }

  /** deployBuilder.detail: one view per batch, and the first tripped batch explains a pause. */
  method Detail(state: State, ts: seq<Target>, threshold: int)
    returns (views: seq<(int, Counts)>, pause: Option<PauseInfo>)
    ensures |views| == |Batches(ts)|
    ensures forall k :: 0 <= k < |views| ==> views[k] == (Batches(ts)[k], CountOf(InBatch(ts, Batches(ts)[k])))
    ensures pause == PauseNote(state, ts, threshold)
    ensures forall k :: 0 <= k < |views| ==>
      var (b, c) := views[k];
      var group := InBatch(ts, b);
      var statuses := multiset(Statuses(group));
      && c.total == |group| && c.succeeded == statuses[Succeeded] && c.failed == statuses[Failed]
      && c.lost == statuses[Lost] && c.pending == statuses[Pending]
      && c.inflight == statuses[Triggered] + statuses[Downloading]
    ensures pause.Some? ==>
      var p := pause.value;
      var group := InBatch(ts, p.batch);
      && state.Paused? && group != [] && BatchTripped(group, threshold)
      && (forall b :: b < p.batch && InBatch(ts, b) != [] ==> !BatchTripped(InBatch(ts, b), threshold))
      && p.batchLabel == (if p.batch == 0 then "Canary" else "Rest") && p.total == |group| && p.threshold == threshold
      && p.failed == multiset(Statuses(group))[Failed] && p.lost == multiset(Statuses(group))[Lost]
    ensures pause.None? && state.Paused? ==>
              forall b :: InBatch(ts, b) != [] ==> !BatchTripped(InBatch(ts, b), threshold)
  {
    views, pause := BatchViews(state, ts, threshold);
    forall b { CountsStatuses(InBatch(ts, b)); }
    ExplainedFirst(ts, threshold);
  }

  /** The loop of detail. */
  method BatchViews(state: State, ts: seq<Target>, threshold: int)
    returns (views: seq<(int, Counts)>, pause: Option<PauseInfo>)
    ensures |views| == |Batches(ts)|
    ensures forall k :: 0 <= k < |views| ==> views[k] == (Batches(ts)[k], CountOf(InBatch(ts, Batches(ts)[k])))
    ensures pause == PauseNote(state, ts, threshold)
  {
    var batches := ComputeBatches(ts);
    views, pause := [], None;
    for i := 0 to |batches|
      invariant |views| == i
      invariant forall k :: 0 <= k < i ==> views[k] == (batches[k], CountOf(InBatch(ts, batches[k])))
      invariant pause.None? ==> !state.Paused? || FirstTripped(batches[i..], ts, threshold) == Explained(ts, threshold)
      invariant pause.Some? ==> pause == PauseNote(state, ts, threshold)
    {
      assert batches[i..][1..] == batches[i + 1..];
      var group := TargetsInBatch(ts, batches[i]);
      var counts := CountTargets(group);
      views := views + [(batches[i], counts)];
      if pause.None? && state.Paused? {
        var terminal := EveryTerminal(group);
        var exceeded := CountFailures(group, threshold);
        if terminal && exceeded {
          pause := Some(PauseInfo(batches[i], BatchLabel(batches[i]), counts.failed, counts.lost, counts.total,
                                  threshold));
        }
      }
    }
  }

  lemma {:induction false} FirstIs(bs: seq<int>, ts: seq<Target>, threshold: int, b: int)
    requires Ascending(bs) && b in bs && BatchTripped(InBatch(ts, b), threshold)
    requires forall c :: c in bs && c < b ==> !BatchTripped(InBatch(ts, c), threshold)
    ensures FirstTripped(bs, ts, threshold) == Some(b)
  {
    if bs[0] != b { FirstIs(bs[1..], ts, threshold, b); }
  }

  /** For a threshold of 0 to 100 the page names exactly the batch reconcile stopped at. */
  lemma ExplanationIsTheStop(ts: seq<Target>, threshold: int, b: int)
    requires StoppedAt(ts, b, threshold)
    ensures Explained(ts, threshold) == Some(b)
  {
    Present(ts, b);
    forall c | c < b ensures !BatchTripped(InBatch(ts, c), threshold) {
      assert Passed(ts, c, threshold);
    }
    FirstIs(Batches(ts), ts, threshold, b);
  }

  /** With a negative threshold every settled batch that is there counts as tripped. */
  lemma NegativeTrips(ts: seq<Target>, b: int, threshold: int)
    requires threshold < 0 && b in Batches(ts) && AllTerminal(InBatch(ts, b))
    ensures BatchTripped(InBatch(ts, b), threshold)
  {
    Present(ts, b);
    Negative(threshold, |InBatch(ts, b)|);
  }

  lemma Negative(a: int, n: int)
    requires a < 0 && n > 0
    ensures a * n < 0
  {
  }

  /**
   The page is built with the configured threshold, the service clamps it to 0..100.
   For a deploy paused at batch b the two agree exactly if the configured threshold
   is not negative or b is the first batch there is. (Above 100 nothing ever pauses.)
   */
  lemma ExplanationUnclamped(ts: seq<Target>, o: DeployModel.Options, b: int)
    requires StoppedAt(ts, b, Clamped(o).failureThreshold)
    ensures Explained(ts, o.failureThreshold) == Some(b) <==> o.failureThreshold >= 0 || b == Batches(ts)[0]
  {
    var configured, clamped := o.failureThreshold, Clamped(o).failureThreshold;
    Present(ts, b);
    if configured > 100 {
      TooManyFailures(InBatch(ts, b));
    } else if configured >= 0 {
      ExplanationIsTheStop(ts, clamped, b);
    } else {
      var first := Batches(ts)[0];
      assert first in Batches(ts);
      assert first <= b;
      if first < b { assert Passed(ts, first, clamped); }
      NegativeTrips(ts, first, configured);
    }
  }

  lemma {:induction false} TooManyFailures(ts: seq<Target>)
    ensures Failures(ts) <= |ts|
    ensures !FailureExceeded(ts, 100)
  {
    if ts != [] { TooManyFailures(ts[..|ts| - 1]); }
  }

  // ---------------------------------------------------------------- over whole runs

  lemma {:induction false} SettlesUntilResumed(o: DeployModel.Options, ls: seq<Step>, ms: seq<Step>, d: DeployId)
    requires Exec(o, ls).Some? && Exec(o, ls + ms).Some?
    requires d in Exec(o, ls).value.db.targets
    requires forall l :: l in ms && l.d == d ==> !l.Resume?
    ensures d in Exec(o, ls + ms).value.db.targets
    ensures Settling(Exec(o, ls).value.db.targets[d], Exec(o, ls + ms).value.db.targets[d])
  {
    RunKeeps(o, ls);
    if ms == [] {
      assert ls + ms == ls;
    } else {
      var before, l := ms[..|ms| - 1], ms[|ms| - 1];
      assert (ls + ms)[..|ls + ms| - 1] == ls + before;
      assert l in ms && forall k :: k in before ==> k in ms;
      SettlesUntilResumed(o, ls, before, d);
      RunKeeps(o, ls + before);
      StepSettles(Exec(o, ls + before).value, o, l, d);
    }
  }

  /** A run reaches s and goes on to t without resuming d. */
  ghost predicate FollowsUnresumed(o: DeployModel.Options, s: Sys, t: Sys, d: DeployId) {
    exists ls: seq<Step>, ms: seq<Step> ::
      Exec(o, ls) == Some(s) && Exec(o, ls + ms) == Some(t) && forall k :: k in ms && k.d == d ==> !k.Resume?
  }

  /** The state after a pass that stopped the deploy at batch b. */
  ghost predicate JustStopped(o: DeployModel.Options, s: Sys, d: DeployId, b: int) {
    d in s.db.deploys && d in s.db.targets && StoppedAt(s.db.targets[d], b, o.failureThreshold)
  }

  lemma PassStops(o: DeployModel.Options, s: Sys, l: Step, b: int)
    requires l.Reconcile? && Possible(s, l)
    requires VerdictOn(MarkLost(s.db.targets[l.d], l.now, o.targetTimeout), o.failureThreshold) == Pause(b)
    ensures JustStopped(o, Next(s, o, l), l.d, b)
  {
    VerdictMeaning(MarkLost(s.db.targets[l.d], l.now, o.targetTimeout), o.failureThreshold, Pause(b));
  }

  /**
   From the pass that stops a deploy at batch b until the deploy is resumed, its page
   names b, however late reports change the rows of other batches.
   */
  lemma PauseStaysExplained(o: DeployModel.Options, s: Sys, t: Sys, d: DeployId, b: int)
    requires JustStopped(o, s, d, b) && FollowsUnresumed(o, s, t, d)
    ensures d in t.db.targets && Explained(t.db.targets[d], o.failureThreshold) == Some(b)
  {
    var ls: seq<Step>, ms: seq<Step> :|
      Exec(o, ls) == Some(s) && Exec(o, ls + ms) == Some(t) && forall k :: k in ms && k.d == d ==> !k.Resume?;
    SettlesUntilResumed(o, ls, ms, d);
    PassedStays(s.db.targets[d], t.db.targets[d], o.failureThreshold);
    ExplanationIsTheStop(t.db.targets[d], o.failureThreshold, b);
  }

  // ---------------------------------------------------------------- a page that names the wrong batch

  /** One deploy with a row in batch 0 and a row in batch 1. */
  predicate Pair(s: Sys, d: DeployId, t: Target, u: Target, state: State) {
    && s.db.deploys.Keys == s.db.targets.Keys == {d}
    && s.db.targets[d] == [t, u] && s.db.deploys[d].state == state
    && t.batch == 0 && u.batch == 1 && t.device != u.device && t.sequence == u.sequence > 0
  }

  lemma OneGroup(t: Target, b: int)
    ensures InBatch([t], b) == if t.batch == b then [t] else []
  {
    assert [t][..0] == [] && InBatch([], b) == [];
  }

  lemma PairGroups(t: Target, u: Target)
    requires t.batch == 0 && u.batch == 1
    ensures InBatch([t, u], 0) == [t] && InBatch([t, u], 1) == [u]
  {
    var ts := [t, u];
    assert ts[..1] == [t];
    OneGroup(t, 0);
    OneGroup(t, 1);
  }

  lemma OneRow(t: Target)
    ensures Failures([t]) == if t.status.Failure() then 1 else 0
    ensures PendingOf([t]) == if t.status.Pending? then [t] else []
  {
    assert [t][..0] == [];
  }

  /** The first batch passed; the second decides. */
  lemma PairVerdict(t: Target, u: Target)
    requires t.batch == 0 && u.batch == 1 && t.status.Succeeded?
    ensures u.status.Pending? ==> VerdictOn([t, u], 0) == Promote(1)
    ensures u.status.Failed? ==> VerdictOn([t, u], 0) == Pause(1) && StoppedAt([t, u], 1, 0)
  {
    if u.status.Pending? { SecondPromotes(t, u); }
    if u.status.Failed? { SecondPauses(t, u); }
  }

  lemma OneTripped(t: Target)
    requires t.status.Failure()
    ensures BatchTripped([t], 0)
  {
    OneRow(t);
  }

  lemma SecondPromotes(t: Target, u: Target)
    requires t.batch == 0 && u.batch == 1 && t.status.Succeeded? && u.status.Pending?
    ensures VerdictOn([t, u], 0) == Promote(1)
  {
    FirstPassed(t, u);
    PairGroups(t, u);
    OneRow(u);
    VerdictMeaning([t, u], 0, Promote(1));
  }

  lemma SecondPauses(t: Target, u: Target)
    requires t.batch == 0 && u.batch == 1 && t.status.Succeeded? && u.status.Failed?
    ensures VerdictOn([t, u], 0) == Pause(1) && StoppedAt([t, u], 1, 0)
  {
    FirstPassed(t, u);
    PairGroups(t, u);
    OneTripped(u);
    VerdictMeaning([t, u], 0, Pause(1));
  }

  lemma FirstPassed(t: Target, u: Target)
    requires t.batch == 0 && u.batch == 1 && t.status.Succeeded?
    ensures PassedBelow([t, u], 1, 0)
  {
    var ts := [t, u];
    forall c | c < 1 ensures Passed(ts, c, 0) {
      if c < 0 {
        AbsentPasses(ts, c, 0);
      } else {
        PairGroups(t, u);
        OneRow(t);
      }
    }
  }

  lemma PairStarts(o: DeployModel.Options, d: DeployId, version: string, n: int, x: DeviceId, y: DeviceId, now: Time)
    returns (s: Sys, t: Target, u: Target)
    requires o == Clamped(o) && o.canaryPercent <= 50 && n > 0 && x != y
    ensures Reachable(o, s) && Pair(s, d, t, u, InProgress)
    ensures t == Target(x, version, n, 0, Triggered, Stored(now)) && u == Target(y, version, n, 1, Pending, Stored(now))
  {
    P.Begin(o);
    CanaryIsCeiling(2, o.canaryPercent);
    s := P.Go(o, EMPTY, Rollout(d, "", version, n, [x, y], {}, now));
    t, u := Target(x, version, n, 0, Triggered, Stored(now)), Target(y, version, n, 1, Pending, Stored(now));
    assert s.db.targets[d] == [t, u];
  }

  lemma FirstSucceeds(o: DeployModel.Options, s: Sys, d: DeployId, t: Target, u: Target, now: Time)
    returns (r: Sys, v: Target)
    requires Reachable(o, s) && Pair(s, d, t, u, InProgress) && t.status.Triggered?
    ensures v == t.(status := Succeeded, updatedAt := Stored(now))
    ensures Reachable(o, r) && Pair(r, d, v, u, InProgress)
  {
    assert Matches(s.db.targets[d][0], t.device, t.sequence, Succeeded);
    v := t.(status := Succeeded, updatedAt := Stored(now));
    r := P.Go(o, s, Tagged(d, t.device, t.sequence, Succeeded, now));
    assert r.db.targets[d] == [v, u];
  }

  lemma SecondFails(o: DeployModel.Options, s: Sys, d: DeployId, t: Target, u: Target, now: Time)
    returns (r: Sys, v: Target)
    requires Reachable(o, s) && Pair(s, d, t, u, InProgress) && u.status.Triggered?
    ensures v == u.(status := Failed, updatedAt := Stored(now))
    ensures Reachable(o, r) && Pair(r, d, t, v, InProgress)
  {
    assert Matches(s.db.targets[d][1], u.device, u.sequence, Failed);
    v := u.(status := Failed, updatedAt := Stored(now));
    r := P.Go(o, s, Tagged(d, u.device, u.sequence, Failed, now));
    assert r.db.targets[d] == [t, v];
  }

  /** What a pass does once the first device succeeded: it promotes the second, or pauses because that one failed. */
  lemma PairPass(o: DeployModel.Options, t: Target, u: Target, now: Time)
    requires o.failureThreshold == 0 && t.batch == 0 && u.batch == 1 && t.status.Succeeded?
    ensures u.status.Pending? ==>
              var pass := ReconcilePass([t, u], o, true, {}, now);
              pass.state.None? && pass.targets == [t, u.(status := Triggered, updatedAt := Stored(now))]
    ensures u.status.Failed? ==>
              var pass := ReconcilePass([t, u], o, true, {}, now);
              pass.state == Some(Paused) && pass.targets == [t, u]
  {
    PairVerdict(t, u);
    if u.status.Pending? || u.status.Failed? { assert MarkLost([t, u], now, o.targetTimeout) == [t, u]; }
    if u.status.Pending? {
      assert PromoteRows([t, u], 1, {}, now) == [t, u.(status := Triggered, updatedAt := Stored(now))];
    }
  }

  lemma PairListed(s: Sys, d: DeployId, t: Target, u: Target, now: Time)
    requires Pair(s, d, t, u, InProgress)
    ensures Possible(s, Reconcile(d, true, {}, now))
  {
  }

  lemma PassApplied(o: DeployModel.Options, s: Sys, d: DeployId, now: Time) returns (r: Sys)
    requires Reachable(o, s) && Possible(s, Reconcile(d, true, {}, now))
    ensures Reachable(o, r) && r.db == Apply(s.db, d, ReconcilePass(s.db.targets[d], o, true, {}, now))
  {
    r := P.Go(o, s, Reconcile(d, true, {}, now));
  }

  lemma PairApplied(s: Sys, r: Sys, d: DeployId, t: Target, u: Target, pass: Pass, v: Target)
    requires Pair(s, d, t, u, InProgress) && v.SameTarget(u) && pass.targets == [t, v] && r.db == Apply(s.db, d, pass)
    ensures Pair(r, d, t, v, if pass.state.Some? then pass.state.value else InProgress)
  {
  }

  lemma PairPromotes(o: DeployModel.Options, s: Sys, d: DeployId, t: Target, u: Target, now: Time)
    returns (r: Sys, v: Target)
    requires o.failureThreshold == 0
    requires Reachable(o, s) && Pair(s, d, t, u, InProgress) && t.status.Succeeded? && u.status.Pending?
    ensures v == u.(status := Triggered, updatedAt := Stored(now))
    ensures Reachable(o, r) && Pair(r, d, t, v, InProgress)
  {
    PairPass(o, t, u, now);
    v := u.(status := Triggered, updatedAt := Stored(now));
    PairListed(s, d, t, u, now);
    r := PassApplied(o, s, d, now);
    PairApplied(s, r, d, t, u, ReconcilePass([t, u], o, true, {}, now), v);
  }

  lemma PairPauses(o: DeployModel.Options, s: Sys, d: DeployId, t: Target, u: Target, now: Time) returns (r: Sys)
    requires o.failureThreshold == 0
    requires Reachable(o, s) && Pair(s, d, t, u, InProgress) && t.status.Succeeded? && u.status.Failed?
    ensures Reachable(o, r) && Pair(r, d, t, u, Paused)
  {
    PairPass(o, t, u, now);
    PairListed(s, d, t, u, now);
    r := PassApplied(o, s, d, now);
    PairApplied(s, r, d, t, u, ReconcilePass([t, u], o, true, {}, now), u);
  }

  lemma PairStops(o: DeployModel.Options, d: DeployId, version: string, n: int, x: DeviceId, y: DeviceId, now: Time)
    returns (s: Sys, t: Target, u: Target)
    requires o == Clamped(o) && o.failureThreshold == 0 && o.canaryPercent <= 50 && n > 0 && x != y
    ensures Reachable(o, s) && Pair(s, d, t, u, Paused) && t.status.Succeeded? && u.status.Failed?
  {
    var t0, v;
    s, t0, u := PairStarts(o, d, version, n, x, y, now);
    s, t := FirstSucceeds(o, s, d, t0, u, now);
    s, v := PairPromotes(o, s, d, t, u, now);
    s, u := SecondFails(o, s, d, t, v, now);
    s := PairPauses(o, s, d, t, u, now);
  }

  lemma PairBlamed(t: Target, u: Target, threshold: int)
    requires t.batch == 0 && u.batch == 1 && t.status.Succeeded? && u.status.Failed? && threshold < 0
    ensures Explained([t, u], threshold) == Some(0)
  {
    var ts := [t, u];
    PairGroups(t, u);
    Present(ts, 0);
    NegativeTrips(ts, 0, threshold);
    FirstIs(Batches(ts), ts, threshold, 0);
  }

  /**
   Where the two differ: configured with a negative threshold, a fleet of two whose
   canary succeeded and whose second device failed is paused at batch 1, and its page
   blames the canary.
   */
  lemma PageBlamesTheCanary(o: DeployModel.Options, d: DeployId, version: string, n: int, x: DeviceId, y: DeviceId,
                            now: Time)
    returns (s: Sys)
    requires o.failureThreshold < 0 && 1 <= o.canaryPercent <= 50 && n > 0 && x != y
    ensures Reachable(Clamped(o), s) && d in s.db.deploys && d in s.db.targets && s.db.deploys[d].state.Paused?
    ensures StoppedAt(s.db.targets[d], 1, Clamped(o).failureThreshold)
    ensures Explained(s.db.targets[d], o.failureThreshold) == Some(0)
  {
    var t, u;
    s, t, u := PairStops(Clamped(o), d, version, n, x, y, now);
    PairVerdict(t, u);
    PairBlamed(t, u, o.failureThreshold);
  }
}
