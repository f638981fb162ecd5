/** The pure rules of internal/deploy/service.go: batches, thresholds and the verdict of a reconcile pass. */
module BatchRules {
  import opened DeployModel

  // ---------------------------------------------------------------- groups

  function InBatch(ts: seq<Target>, b: int): seq<Target> {
    if ts == [] then []
    else InBatch(ts[..|ts| - 1], b) + if ts[|ts| - 1].batch == b then [ts[|ts| - 1]] else []
  }

  function PendingOf(ts: seq<Target>): seq<Target> {
    if ts == [] then []
    else PendingOf(ts[..|ts| - 1]) + if ts[|ts| - 1].status.Pending? then [ts[|ts| - 1]] else []
  }

  function Failures(ts: seq<Target>): nat {
    if ts == [] then 0 else Failures(ts[..|ts| - 1]) + if ts[|ts| - 1].status.Failure() then 1 else 0
  }

  predicate AllTerminal(ts: seq<Target>) {
    forall i :: 0 <= i < |ts| ==> ts[i].status.Terminal()
  }

  predicate FailureExceeded(ts: seq<Target>, threshold: int) {
    ts != [] && Failures(ts) * 100 > threshold * |ts|
  }

  predicate BatchTripped(ts: seq<Target>, threshold: int) {
    AllTerminal(ts) && FailureExceeded(ts, threshold)
  }

  /** A batch that is settled within the threshold lets the next one go. */
  predicate Passed(ts: seq<Target>, b: int, threshold: int) {
    AllTerminal(InBatch(ts, b)) && !FailureExceeded(InBatch(ts, b), threshold)
  }

  ghost predicate PassedBelow(ts: seq<Target>, b: int, threshold: int) {
    forall c :: c < b ==> Passed(ts, c, threshold)
  }

  /** TargetsInBatch. */
  method TargetsInBatch(ts: seq<Target>, b: int) returns (out: seq<Target>)
    ensures out == InBatch(ts, b)
  {
    out := [];
    for i := 0 to |ts|
      invariant out == InBatch(ts[..i], b)
    {
      assert ts[..i + 1][..i] == ts[..i];
      if ts[i].batch == b {
        out := out + [ts[i]];
      }
    }
    assert ts[..|ts|] == ts;
  }

  method FilterPending(ts: seq<Target>) returns (out: seq<Target>)
    ensures out == PendingOf(ts)
  {
    out := [];
    for i := 0 to |ts|
      invariant out == PendingOf(ts[..i])
    {
      assert ts[..i + 1][..i] == ts[..i];
      if ts[i].status.Pending? {
        out := out + [ts[i]];
      }
    }
    assert ts[..|ts|] == ts;
  }

  /** The statuses of the rows, to count them by. */
  function Statuses(ts: seq<Target>): (r: seq<Status>)
    ensures |r| == |ts|
  {
    seq(|ts|, i requires 0 <= i < |ts| => ts[i].status)
  }

  lemma {:induction false} FailuresCount(ts: seq<Target>)
    ensures Failures(ts) == multiset(Statuses(ts))[Failed] + multiset(Statuses(ts))[Lost]
  {
    if ts != [] {
      FailuresCount(ts[..|ts| - 1]);
      assert Statuses(ts) == Statuses(ts[..|ts| - 1]) + [ts[|ts| - 1].status];
    }
  }

  method EveryTerminal(ts: seq<Target>) returns (all: bool)
    ensures all == AllTerminal(ts)
    ensures all <==> Pending !in Statuses(ts) && Triggered !in Statuses(ts) && Downloading !in Statuses(ts)
  {
    for i := 0 to |ts|
      invariant AllTerminal(ts[..i])
    {
      if !ts[i].status.Terminal() {
        assert Statuses(ts)[i] == ts[i].status;
        return false;
      }
    }
    return true;
  }

  method CountFailures(ts: seq<Target>, threshold: int) returns (exceeded: bool)
    ensures exceeded == FailureExceeded(ts, threshold)
    ensures var failures := multiset(Statuses(ts))[Failed] + multiset(Statuses(ts))[Lost];
            exceeded <==> |ts| > 0 && 100 * failures > threshold * |ts|
  {
    if |ts| == 0 {
      return false;
    }
    var failures := 0;
    for i := 0 to |ts|
      invariant failures == Failures(ts[..i])
    {
      assert ts[..i + 1][..i] == ts[..i];
      if ts[i].status.Failed? || ts[i].status.Lost? {
        failures := failures + 1;
      }
    }
    assert ts[..|ts|] == ts;
    FailuresCount(ts);
    return failures * 100 > threshold * |ts|;
  }

  // ---------------------------------------------------------------- the list of batches

  predicate Ascending(bs: seq<int>) { forall i, j :: 0 <= i < j < |bs| ==> bs[i] < bs[j] }

  /** What Batches promises: strictly ascending, with exactly the batch numbers that occur. */
  predicate ListsBatches(bs: seq<int>, ts: seq<Target>) {
    && Ascending(bs)
    && (forall b :: b in bs ==> exists i :: 0 <= i < |ts| && ts[i].batch == b)
    && (forall i :: 0 <= i < |ts| ==> ts[i].batch in bs)
  }

  /** Only one list does. */
  lemma {:induction false} BatchListUnique(bs: seq<int>, cs: seq<int>)
    requires Ascending(bs) && Ascending(cs)
    requires forall b :: b in bs <==> b in cs
    ensures bs == cs
  {
    assert |cs| > 0 ==> cs[0] in cs;
    if bs != [] {
      assert bs[0] in bs && bs[0] in cs;
      assert cs[0] in cs && cs[0] in bs;
      assert bs[0] == cs[0];
      forall b ensures b in bs[1..] <==> b in cs[1..] {
        assert b in bs[1..] ==> b in bs && b != bs[0];
        assert b in cs[1..] ==> b in cs && b != cs[0];
        assert b in bs && b != bs[0] ==> b in bs[1..];
        assert b in cs && b != cs[0] ==> b in cs[1..];
      }
      BatchListUnique(bs[1..], cs[1..]);
      assert bs == [bs[0]] + bs[1..] && cs == [cs[0]] + cs[1..];
    }
  }

  function Insert(bs: seq<int>, b: int): (r: seq<int>)
    requires Ascending(bs)
    ensures Ascending(r)
    ensures forall c :: c in r <==> c in bs || c == b
  {
    if bs == [] then [b]
    else if b < bs[0] then [b] + bs
    else if b == bs[0] then bs
    else
      var rest := Insert(bs[1..], b);
      assert forall i :: 0 <= i < |rest| ==> rest[i] in rest && (rest[i] in bs[1..] || rest[i] == b);
      assert forall c :: c in bs <==> c == bs[0] || c in bs[1..];
      [bs[0]] + rest
  }

  /** The batch numbers present, in ascending order. */
  function Batches(ts: seq<Target>): (bs: seq<int>)
    ensures ListsBatches(bs, ts)
  {
    if ts == [] then [] else
    var before := Batches(ts[..|ts| - 1]);
    assert forall i :: 0 <= i < |ts| - 1 ==> ts[..|ts| - 1][i] == ts[i];
    Insert(before, ts[|ts| - 1].batch)
  }

  /** The insertion sort at the end of Batches, which runs in place. */
  method SortBatches(a: array<int>)
    modifies a
    ensures forall i, j :: 0 <= i < j < a.Length ==> a[i] <= a[j]
    ensures multiset(a[..]) == multiset(old(a[..]))
  {
    var i := 1;
    while i < a.Length
      invariant 1 <= i
      invariant forall k, l :: 0 <= k < l < i && l < a.Length ==> a[k] <= a[l]
      invariant multiset(a[..]) == multiset(old(a[..]))
    {
      var j := i;
      while j > 0 && a[j] < a[j - 1]
        invariant 0 <= j <= i
        invariant forall k, l :: 0 <= k < l <= i && l != j ==> a[k] <= a[l]
        invariant multiset(a[..]) == multiset(old(a[..]))
      {
        a[j], a[j - 1] := a[j - 1], a[j];
        j := j - 1;
      }
      i := i + 1;
    }
  }

  lemma SortedDistinct(s: seq<int>, old_: seq<int>)
    requires multiset(s) == multiset(old_)
    requires forall i, j :: 0 <= i < j < |s| ==> s[i] <= s[j]
    requires forall i, j :: 0 <= i < j < |old_| ==> old_[i] != old_[j]
    ensures Ascending(s) && forall b :: b in s <==> b in old_
  {
    forall b ensures b in s <==> b in old_ {
      assert b in multiset(s) <==> b in s;
      assert b in multiset(old_) <==> b in old_;
    }
    forall i, j | 0 <= i < j < |s| ensures s[i] < s[j] {
      if s[i] == s[j] {
        Twice(s, i, j);
        Once(old_, s[i]);
      }
    }
  }

  lemma Twice(s: seq<int>, i: int, j: int)
    requires 0 <= i < j < |s| && s[i] == s[j]
    ensures multiset(s)[s[i]] >= 2
  {
    assert s == s[..i] + [s[i]] + s[i + 1..j] + [s[j]] + s[j + 1..];
  }

  lemma {:induction false} Once(s: seq<int>, x: int)
    requires forall i, j :: 0 <= i < j < |s| ==> s[i] != s[j]
    ensures multiset(s)[x] <= 1
  {
    if s != [] {
      assert s == [s[0]] + s[1..];
      Once(s[1..], x);
    }
  }

  /** Batches, as the source computes it. */
  method ComputeBatches(ts: seq<Target>) returns (out: seq<int>)
    ensures out == Batches(ts)
  {
    var seen: map<int, bool> := map[];
    var found: seq<int> := [];
    for i := 0 to |ts|
      invariant forall b :: b in seen <==> b in found
      invariant forall b :: b in found <==> exists k :: 0 <= k < i && ts[k].batch == b
      invariant forall k, l :: 0 <= k < l < |found| ==> found[k] != found[l]
    {
      if ts[i].batch !in seen {
        seen := seen[ts[i].batch := true];
        found := found + [ts[i].batch];
      }
    }
    var a := new int[|found|](k requires 0 <= k < |found| => found[k]);
    assert a[..] == found;
    SortBatches(a);
    out := a[..];
    SortedDistinct(out, found);
    BatchListUnique(out, Batches(ts));
  }

  // ---------------------------------------------------------------- the verdict

  /** What the batch loop of reconcile decides. */
  datatype Verdict = Pause(batch: int) | Promote(batch: int) | Wait(batch: int) | Complete

  function Walk(bs: seq<int>, ts: seq<Target>, threshold: int): Verdict {
    if bs == [] then Complete
    else
      var group := InBatch(ts, bs[0]);
      if AllTerminal(group) then
        if FailureExceeded(group, threshold) then Pause(bs[0]) else Walk(bs[1..], ts, threshold)
      else if PendingOf(group) != [] then Promote(bs[0])
      else Wait(bs[0])
  }

  function VerdictOn(ts: seq<Target>, threshold: int): Verdict { Walk(Batches(ts), ts, threshold) }

  /** What each verdict means, without the loop. */
  ghost predicate Means(v: Verdict, ts: seq<Target>, threshold: int) {
    match v
    case Pause(b) => PassedBelow(ts, b, threshold) && BatchTripped(InBatch(ts, b), threshold)
    case Promote(b) => PassedBelow(ts, b, threshold) && PendingOf(InBatch(ts, b)) != []
    case Wait(b) => PassedBelow(ts, b, threshold) && !AllTerminal(InBatch(ts, b)) && PendingOf(InBatch(ts, b)) == []
    case Complete => forall b :: Passed(ts, b, threshold)
  }

  lemma {:induction false} InBatchMember(ts: seq<Target>, b: int)
    ensures forall t :: t in InBatch(ts, b) <==> t in ts && t.batch == b
  {
    if ts != [] {
      InBatchMember(ts[..|ts| - 1], b);
      assert ts == ts[..|ts| - 1] + [ts[|ts| - 1]];
    }
  }

  lemma {:induction false} PendingMember(ts: seq<Target>)
    ensures forall t :: t in PendingOf(ts) <==> t in ts && t.status.Pending?
    ensures PendingOf(ts) == [] <==> forall t :: t in ts ==> !t.status.Pending?
  {
    if ts != [] {
      PendingMember(ts[..|ts| - 1]);
      assert ts == ts[..|ts| - 1] + [ts[|ts| - 1]];
    }
    assert PendingOf(ts) != [] ==> PendingOf(ts)[0] in PendingOf(ts);
  }

  lemma AbsentPasses(ts: seq<Target>, b: int, threshold: int)
    requires forall t :: t in ts ==> t.batch != b
    ensures InBatch(ts, b) == [] && Passed(ts, b, threshold)
  {
    InBatchMember(ts, b);
    assert InBatch(ts, b) != [] ==> InBatch(ts, b)[0] in InBatch(ts, b);
  }

  /** Every number below the next batch was passed or does not occur. */
  lemma BelowNext(bs: seq<int>, done: seq<int>, ts: seq<Target>, threshold: int, c: int)
    requires bs != [] && done + bs == Batches(ts) && c < bs[0]
    requires forall b :: b in done ==> Passed(ts, b, threshold)
    ensures Passed(ts, c, threshold)
  {
    var all := done + bs;
    assert all[|done|] == bs[0];
    if c in all {
      var k :| 0 <= k < |all| && all[k] == c;
      assert k < |done| && done[k] == c;
    } else {
      AbsentPasses(ts, c, threshold);
    }
  }

  lemma OneFurther(bs: seq<int>, done: seq<int>)
    requires bs != []
    ensures (done + [bs[0]]) + bs[1..] == done + bs
    ensures forall b :: b in done + [bs[0]] <==> b in done || b == bs[0]
  {
  }

  lemma {:induction false} WalkMeans(bs: seq<int>, done: seq<int>, ts: seq<Target>, threshold: int)
    requires done + bs == Batches(ts)
    requires forall b :: b in done ==> Passed(ts, b, threshold)
    ensures Means(Walk(bs, ts, threshold), ts, threshold)
  {
    if bs == [] {
      assert done + bs == done;
      forall b ensures Passed(ts, b, threshold) {
        if b !in done { AbsentPasses(ts, b, threshold); }
      }
    } else if Passed(ts, bs[0], threshold) {
      OneFurther(bs, done);
      WalkMeans(bs[1..], done + [bs[0]], ts, threshold);
    } else {
      forall c | c < bs[0] ensures Passed(ts, c, threshold) { BelowNext(bs, done, ts, threshold, c); }
    }
  }

  /** A batch that was passed has nothing pending and did not trip. */
  lemma PassedExcludes(ts: seq<Target>, b: int, threshold: int)
    requires Passed(ts, b, threshold)
    ensures PendingOf(InBatch(ts, b)) == [] && !BatchTripped(InBatch(ts, b), threshold)
  {
    PendingMember(InBatch(ts, b));
  }

  lemma TerminalByMember(ts: seq<Target>)
    ensures AllTerminal(ts) <==> forall t :: t in ts ==> t.status.Terminal()
  {
    assert forall i :: 0 <= i < |ts| ==> ts[i] in ts;
  }

  /** Two verdicts on the same batch agree, because their conditions exclude each other. */
  lemma SameBatchSameVerdict(v: Verdict, w: Verdict, ts: seq<Target>, threshold: int)
    requires Means(v, ts, threshold) && Means(w, ts, threshold)
    requires !v.Complete? && !w.Complete? && v.batch == w.batch
    ensures v == w
  {
    PendingMember(InBatch(ts, v.batch));
    TerminalByMember(InBatch(ts, v.batch));
  }

  lemma MeaningUnique(v: Verdict, w: Verdict, ts: seq<Target>, threshold: int)
    requires Means(v, ts, threshold) && Means(w, ts, threshold)
    ensures v == w
  {
    if !v.Complete? { assert !Passed(ts, v.batch, threshold) by { NotPassed(v, ts, threshold); } }
    if !w.Complete? { assert !Passed(ts, w.batch, threshold) by { NotPassed(w, ts, threshold); } }
    if !v.Complete? && !w.Complete? { SameBatchSameVerdict(v, w, ts, threshold); }
  }

  lemma NotPassed(v: Verdict, ts: seq<Target>, threshold: int)
    requires !v.Complete? && Means(v, ts, threshold)
    ensures !Passed(ts, v.batch, threshold)
  {
    if Passed(ts, v.batch, threshold) { PassedExcludes(ts, v.batch, threshold); }
  }

  /** The loop decides exactly what the meaning says. */
  lemma VerdictMeaning(ts: seq<Target>, threshold: int, v: Verdict)
    ensures Means(v, ts, threshold) <==> v == VerdictOn(ts, threshold)
  {
    WalkMeans(Batches(ts), [], ts, threshold);
    if Means(v, ts, threshold) { MeaningUnique(v, VerdictOn(ts, threshold), ts, threshold); }
  }

  // ---------------------------------------------------------------- row order

  lemma {:induction false} InBatchCounts(ts: seq<Target>, b: int, t: Target)
    ensures multiset(InBatch(ts, b))[t] == if t.batch == b then multiset(ts)[t] else 0
  {
    if ts != [] {
      InBatchCounts(ts[..|ts| - 1], b, t);
      assert ts == ts[..|ts| - 1] + [ts[|ts| - 1]];
    }
  }

  lemma {:induction false} FailuresSplit(a: seq<Target>, b: seq<Target>)
    ensures Failures(a + b) == Failures(a) + Failures(b)
  {
    if b == [] {
      assert a + b == a;
    } else {
      assert (a + b)[..|a + b| - 1] == a + b[..|b| - 1];
      FailuresSplit(a, b[..|b| - 1]);
    }
  }

  lemma WithoutRow(us: seq<Target>, k: nat)
    requires k < |us|
    ensures var rest := us[..k] + us[k + 1..];
            && multiset(us) == multiset(rest) + multiset{us[k]}
            && Failures(us) == Failures(rest) + Failures([us[k]])
  {
    assert us == us[..k] + [us[k]] + us[k + 1..];
    FailuresSplit(us[..k] + [us[k]], us[k + 1..]);
    FailuresSplit(us[..k], [us[k]]);
    FailuresSplit(us[..k], us[k + 1..]);
  }

  lemma {:induction false} FailuresPermuted(ts: seq<Target>, us: seq<Target>)
    requires multiset(ts) == multiset(us)
    ensures Failures(ts) == Failures(us) && |ts| == |us|
  {
    assert |ts| == |multiset(ts)| && |us| == |multiset(us)|;
    if ts != [] {
      var n := |ts| - 1;
      WithoutRow(ts, n);
      assert ts[n] in multiset(us);
      var k :| 0 <= k < |us| && us[k] == ts[n];
      WithoutRow(us, k);
      var a, b := ts[..n] + ts[n + 1..], us[..k] + us[k + 1..];
      assert multiset(a) == multiset(ts) - multiset{ts[n]};
      assert multiset(b) == multiset(us) - multiset{ts[n]};
      FailuresPermuted(a, b);
    }
  }

  lemma SameRowsSameGroups(ts: seq<Target>, us: seq<Target>, b: int)
    requires multiset(ts) == multiset(us)
    ensures multiset(InBatch(ts, b)) == multiset(InBatch(us, b))
    ensures Failures(InBatch(ts, b)) == Failures(InBatch(us, b)) && |InBatch(ts, b)| == |InBatch(us, b)|
    ensures AllTerminal(InBatch(ts, b)) == AllTerminal(InBatch(us, b))
    ensures (PendingOf(InBatch(ts, b)) == []) == (PendingOf(InBatch(us, b)) == [])
  {
    forall t ensures multiset(InBatch(ts, b))[t] == multiset(InBatch(us, b))[t] {
      InBatchCounts(ts, b, t);
      InBatchCounts(us, b, t);
    }
    FailuresPermuted(InBatch(ts, b), InBatch(us, b));
    PendingMember(InBatch(ts, b));
    PendingMember(InBatch(us, b));
    forall t ensures t in InBatch(ts, b) <==> t in InBatch(us, b) {
      assert t in InBatch(ts, b) <==> t in multiset(InBatch(ts, b));
      assert t in InBatch(us, b) <==> t in multiset(InBatch(us, b));
    }
    TerminalByMember(InBatch(ts, b));
    TerminalByMember(InBatch(us, b));
  }

  /** The verdict does not depend on the order in which the rows were read. */
  lemma VerdictIgnoresOrder(ts: seq<Target>, us: seq<Target>, threshold: int)
    requires multiset(ts) == multiset(us)
    ensures VerdictOn(ts, threshold) == VerdictOn(us, threshold)
    ensures Batches(ts) == Batches(us)
  {
    forall b {
      SameRowsSameGroups(ts, us, b);
    }
    forall b
      ensures Passed(ts, b, threshold) == Passed(us, b, threshold)
      ensures BatchTripped(InBatch(ts, b), threshold) == BatchTripped(InBatch(us, b), threshold)
    {
      SameRowsSameGroups(ts, us, b);
    }
    var v := VerdictOn(ts, threshold);
    VerdictMeaning(ts, threshold, v);
    if !v.Complete? { SameRowsSameGroups(ts, us, v.batch); }
    assert Means(v, us, threshold);
    VerdictMeaning(us, threshold, v);
    forall b ensures b in Batches(ts) <==> b in Batches(us) {
      InBatchMember(ts, b);
      InBatchMember(us, b);
      SameRowsSameGroups(ts, us, b);
      Present(ts, b);
      Present(us, b);
    }
    BatchListUnique(Batches(ts), Batches(us));
  }

  lemma Present(ts: seq<Target>, b: int)
    ensures b in Batches(ts) <==> |InBatch(ts, b)| > 0
  {
    InBatchMember(ts, b);
    if b in Batches(ts) {
      var i :| 0 <= i < |ts| && ts[i].batch == b;
      assert ts[i] in InBatch(ts, b);
    }
    assert |InBatch(ts, b)| > 0 ==> InBatch(ts, b)[0] in InBatch(ts, b);
  }

  /** The groups of the listed batches, put together. */
  function Grouped(bs: seq<int>, ts: seq<Target>): multiset<Target> {
    if bs == [] then multiset{} else multiset(InBatch(ts, bs[0])) + Grouped(bs[1..], ts)
  }

  lemma {:induction false} GroupedCounts(bs: seq<int>, ts: seq<Target>, t: Target)
    requires Ascending(bs)
    ensures Grouped(bs, ts)[t] == if t.batch in bs then multiset(ts)[t] else 0
  {
    if bs != [] {
      InBatchCounts(ts, bs[0], t);
      GroupedCounts(bs[1..], ts, t);
      assert forall b :: b in bs <==> b == bs[0] || b in bs[1..];
      assert bs[0] !in bs[1..];
    }
  }

  /** The groups partition the targets: none is lost and none counted twice. */
  lemma GroupsPartition(ts: seq<Target>)
    ensures Grouped(Batches(ts), ts) == multiset(ts)
  {
    forall t ensures Grouped(Batches(ts), ts)[t] == multiset(ts)[t] {
      GroupedCounts(Batches(ts), ts, t);
      if t in multiset(ts) {
        assert t in ts;
        var i :| 0 <= i < |ts| && ts[i] == t;
        assert ts[i].batch in Batches(ts);
      }
    }
  }

  // ---------------------------------------------------------------- the canary

  /** The size of batch 0 in Rollout, with both of its clamps. */
  function CanaryCount(n: nat, percent: int): int {
    var count := (n * percent + 99) / 100;
    var atLeastOne := if count < 1 then 1 else count;
    if atLeastOne > n then n else atLeastOne
  }

  /** For a clamped percentage it is the ceiling of n * percent / 100, within 1..n: neither clamp ever acts. */
  lemma CanaryIsCeiling(n: nat, percent: int)
    requires n >= 1 && 1 <= percent <= 100
    ensures var c := CanaryCount(n, percent);
            && 1 <= c <= n
            && 100 * (c - 1) < n * percent <= 100 * c
            && c == (n * percent + 99) / 100
  {
    var product := n * percent;
    assert 1 <= product <= n * 100 by {
      MulOrder(n, 1, percent);
      MulOrder(n, percent, 100);
    }
    assert 100 * ((product + 99) / 100) <= product + 99 < 100 * ((product + 99) / 100) + 100;
  }

  lemma MulOrder(n: nat, a: int, b: int)
    requires a <= b
    ensures n * a <= n * b
  {
  }
}
