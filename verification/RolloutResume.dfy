/** What a resume leads to: the failed targets are tried again, and nothing else is. */
module RolloutResume {
  import opened Optional
  import opened DeployModel
  import opened BatchRules
  import opened DeploySpec
  import opened RolloutProtocol

  predicate HasFailure(ts: seq<Target>, b: int) { Failures(InBatch(ts, b)) > 0 }

  lemma ShareIsNatural(threshold: int, n: nat)
    requires threshold >= 0
    ensures threshold * n >= 0
  {
  }

  lemma TrippedFails(ts: seq<Target>, b: int, threshold: int)
    requires threshold >= 0 && BatchTripped(InBatch(ts, b), threshold)
    ensures HasFailure(ts, b)
  {
    ShareIsNatural(threshold, |InBatch(ts, b)|);
  }

  lemma FlawlessPasses(ts: seq<Target>, b: int, threshold: int)
    requires threshold >= 0 && AllTerminal(InBatch(ts, b)) && !HasFailure(ts, b)
    ensures Passed(ts, b, threshold)
  {
    ShareIsNatural(threshold, |InBatch(ts, b)|);
  }

  lemma {:induction false} FirstIn(bs: seq<int>, ts: seq<Target>, b: int) returns (c: int)
    requires Ascending(bs) && b in bs && HasFailure(ts, b)
    ensures c <= b && HasFailure(ts, c) && forall e :: e in bs && e < c ==> !HasFailure(ts, e)
  {
    if HasFailure(ts, bs[0]) {
      c := bs[0];
    } else {
      c := FirstIn(bs[1..], ts, b);
    }
  }

  /** The first batch with a failure; it does not lie beyond one that is over the threshold. */
  lemma FirstFailure(ts: seq<Target>, b: int) returns (c: int)
    requires HasFailure(ts, b)
    ensures c <= b && HasFailure(ts, c) && forall e :: e < c ==> !HasFailure(ts, e)
  {
    Present(ts, b);
    c := FirstIn(Batches(ts), ts, b);
    forall e | e < c ensures !HasFailure(ts, e) {
      Present(ts, e);
    }
  }

  /** The group of a batch, by whether the last row belongs to it. */
  lemma GroupLast(ts: seq<Target>, b: int)
    requires ts != []
    ensures var t, before := ts[|ts| - 1], InBatch(ts[..|ts| - 1], b);
            InBatch(ts, b) == if t.batch == b then before + [t] else before
  {
  }

  lemma OneMore(g: seq<Target>, t: Target)
    ensures Failures(g + [t]) == Failures(g) + if t.status.Failure() then 1 else 0
    ensures PendingOf(g + [t]) == PendingOf(g) + if t.status.Pending? then [t] else []
  {
    assert (g + [t])[..|g|] == g;
  }

  lemma {:induction false} FlawlessStays(ts: seq<Target>, now: Time, b: int)
    requires !HasFailure(ts, b)
    ensures InBatch(ResetFailed(ts, now), b) == InBatch(ts, b)
  {
    if ts != [] {
      var n := |ts| - 1;
      GroupLast(ts, b);
      OneMore(InBatch(ts[..n], b), ts[n]);
      FlawlessStays(ts[..n], now, b);
      assert ResetFailed(ts, now)[..n] == ResetFailed(ts[..n], now);
      GroupLast(ResetFailed(ts, now), b);
    }
  }

  lemma {:induction false} FailuresReopen(ts: seq<Target>, now: Time, b: int)
    ensures |PendingOf(InBatch(ResetFailed(ts, now), b))| >= Failures(InBatch(ts, b))
  {
    if ts != [] {
      var n, us := |ts| - 1, ResetFailed(ts, now);
      FailuresReopen(ts[..n], now, b);
      assert us[..n] == ResetFailed(ts[..n], now);
      GroupLast(ts, b);
      GroupLast(us, b);
      OneMore(InBatch(ts[..n], b), ts[n]);
      OneMore(InBatch(us[..n], b), us[n]);
    }
  }

  /** A sweep leaves pending rows alone. */
  lemma {:induction false} PendingStays(ts: seq<Target>, now: Time, timeout: int, b: int)
    ensures PendingOf(InBatch(MarkLost(ts, now, timeout), b)) == PendingOf(InBatch(ts, b))
  {
    if ts != [] {
      var n, us := |ts| - 1, MarkLost(ts, now, timeout);
      PendingStays(ts[..n], now, timeout, b);
      assert us[..n] == MarkLost(ts[..n], now, timeout);
      GroupLast(ts, b);
      GroupLast(us, b);
      OneMore(InBatch(ts[..n], b), ts[n]);
      OneMore(InBatch(us[..n], b), us[n]);
    }
  }

  lemma {:induction false} NothingToResend(ts: seq<Target>, now: Time, timeout: int)
    requires forall i :: 0 <= i < |ts| ==> !ts[i].status.Triggered?
    ensures Resends(ts, now, timeout) == []
  {
    if ts != [] { NothingToResend(ts[..|ts| - 1], now, timeout); }
  }

  lemma Reopened(ts: seq<Target>, b: int, c: int, threshold: int, now: Time)
    requires threshold >= 0 && StoppedAt(ts, b, threshold) && c <= b && HasFailure(ts, c)
    requires forall e :: e < c ==> !HasFailure(ts, e)
    ensures PassedBelow(ResetFailed(ts, now), c, threshold)
    ensures PendingOf(InBatch(ResetFailed(ts, now), c)) != []
  {
    var us := ResetFailed(ts, now);
    forall e | e < c ensures Passed(us, e, threshold) {
      SettledUpTo(ts, b, e, threshold);
      FlawlessStays(ts, now, e);
      FlawlessPasses(ts, e, threshold);
    }
    FailuresReopen(ts, now, c);
  }

  lemma SweptStillReopened(us: seq<Target>, c: int, o: DeployModel.Options, later: Time)
    requires PassedBelow(us, c, o.failureThreshold) && PendingOf(InBatch(us, c)) != []
    ensures VerdictOn(MarkLost(us, later, o.targetTimeout), o.failureThreshold) == Promote(c)
  {
    var swept := MarkLost(us, later, o.targetTimeout);
    SweepSettles(us, o, later);
    PassedStays(us, swept, o.failureThreshold);
    PendingStays(us, later, o.targetTimeout, c);
    VerdictMeaning(swept, o.failureThreshold, Promote(c));
  }

  /** In the batch that is tried again the pending rows are the ones that had failed. */
  lemma WhoIsRetried(ts: seq<Target>, b: int, c: int, threshold: int, now: Time)
    requires StoppedAt(ts, b, threshold) && c <= b
    ensures var us := ResetFailed(ts, now);
            forall i :: 0 <= i < |us| && us[i].batch == c ==> (us[i].status.Pending? <==> ts[i].status.Failure())
  {
    SettledUpTo(ts, b, c, threshold);
    forall i | 0 <= i < |ts| && ts[i].batch == c ensures ts[i].status.Terminal() { SettledRow(ts, i); }
  }

  /**
   A resume really retries. Whenever the next pass comes, it neither pauses the deploy
   again nor moves past the trouble: it promotes the first batch with failed or lost
   targets, resends to nobody, and of that batch exactly those targets are pending.
   */
  lemma ResumeRetries(o: DeployModel.Options, s: Sys, d: DeployId, now: Time, later: Time) returns (c: int)
    requires o == Clamped(o) && Reachable(o, s) && Possible(s, Resume(d, now))
    ensures HasFailure(s.db.targets[d], c) && forall e :: e < c ==> !HasFailure(s.db.targets[d], e)
    ensures var ts, us := s.db.targets[d], Next(s, o, Resume(d, now)).db.targets[d];
            && VerdictOn(MarkLost(us, later, o.targetTimeout), o.failureThreshold) == Promote(c)
            && Resends(us, later, o.targetTimeout) == []
            && forall i :: 0 <= i < |us| && us[i].batch == c ==> (us[i].status.Pending? <==> ts[i].status.Failure())
  {
    ReachableInv(o, s);
    assert DeployInv(s, o, d);
    var th, ts := o.failureThreshold, s.db.targets[d];
    var us := ResetFailed(ts, now);
    var b :| StoppedAt(ts, b, th);
    TrippedFails(ts, b, th);
    c := FirstFailure(ts, b);
    Reopened(ts, b, c, th, now);
    SweptStillReopened(us, c, o, later);
    WhoIsRetried(ts, b, c, th, now);
    forall i: nat | i < |ts| ensures !ts[i].status.Triggered? { PausedIsQuiet(ts, th, i); }
    NothingToResend(us, later, o.targetTimeout);
  }
}
