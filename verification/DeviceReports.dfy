/**
 What travels with a device while artifacts are published around it: the numbers it
 handles are those of published artifacts, and more signatures invalidate nothing.
 */
module DeviceReports {
  import opened Optional
  import opened DeviceOta
  import opened DeviceSafety
  import opened DeviceHistory

  /** The artifacts published so far: each sequence was signed with one digest. */
  type Catalog = map<nat, Digest>

  function IssuedBy(cat: Catalog): Issued { set n | n in cat :: (n, cat[n]) }

  // ---------------------------------------------------------------- more signatures

  lemma InvGrows(s: Dev, signed: Issued, more: Issued)
    requires signed <= more && Inv(s, signed)
    ensures Inv(s, more)
  {
  }

  lemma ConfirmedGrows(log: seq<Event>, n: nat, signed: Issued, more: Issued)
    requires signed <= more && ConfirmedIn(log, n, signed)
    ensures ConfirmedIn(log, n, more)
  {
    var k: nat :| ConfirmedAt(log, n, signed, k);
    assert ConfirmedAt(log, n, more, k);
  }

  lemma JustifiedGrows(log: seq<Event>, signed: Issued, more: Issued)
    requires signed <= more && OkJustified(log, signed)
    ensures OkJustified(log, more)
  {
    forall i | 0 <= i < |log| && log[i].Sent? && log[i].status.Ok? && log[i].sequence != 0
      ensures ConfirmedIn(log[..i], log[i].sequence, more)
    {
      ConfirmedGrows(log[..i], log[i].sequence, signed, more);
    }
  }

  lemma HistoryGrows(s: Dev, signed: Issued, more: Issued)
    requires signed <= more && HistoryInv(s, signed)
    ensures HistoryInv(s, more)
  {
    JustifiedGrows(s.log, signed, more);
    forall n: nat | Backed(s, n, signed) ensures Backed(s, n, more) {
      if n != 0 { ConfirmedGrows(s.log, n, signed, more); }
    }
  }

  // ---------------------------------------------------------------- the log only grows

  lemma PowerExtendsLog(s: Dev, p: PowerStep)
    requires PowerNext(s, p).Some?
    ensures s.log <= PowerNext(s, p).value.log
  {
  }

  lemma WorkExtendsLog(s: Dev, o: OtaStep)
    requires WorkNext(s, o).Some?
    ensures s.log <= WorkNext(s, o).value.log
  {
  }

  lemma StepExtendsLog(s: Dev, l: Step)
    requires Next(s, l).Some?
    ensures s.log <= Next(s, l).value.log
  {
    match l
    case Power(p) => PowerExtendsLog(s, p);
    case Confirm(_) =>
    case Handle(_) =>
    case Work(o) => WorkExtendsLog(s, o);
  }

  lemma ConfirmedLater(log: seq<Event>, longer: seq<Event>, n: nat, signed: Issued)
    requires log <= longer && ConfirmedIn(log, n, signed)
    ensures ConfirmedIn(longer, n, signed)
  {
    var k: nat :| ConfirmedAt(log, n, signed, k);
    assert longer[..k] == log[..k];
    assert ConfirmedAt(longer, n, signed, k);
  }

  // ---------------------------------------------------------------- the numbers on a device

  /** 0 stands for no number. */
  predicate Known(n: nat, cat: Catalog) { n == 0 || n in cat }

  predicate ReportsKnown(log: seq<Event>, cat: Catalog) {
    forall i :: 0 <= i < |log| && log[i].Sent? ==> log[i].sequence in cat
  }

  predicate MemoryKnown(s: Dev, cat: Catalog) {
    && Known(s.nvs.floor, cat) && Known(s.nvs.pendSeq, cat) && Known(s.nvs.failedSeq, cat)
    && Known(s.ram.floor, cat) && Known(s.ram.failedSeq, cat)
    && (s.ram.reportRollback ==> s.ram.failedSeq != 0 && s.confirm.NoTask? && !s.boot.Arming?)
  }

  predicate TasksKnown(s: Dev, cat: Catalog) {
    && (s.boot.ErasingPend? || s.boot.Judging? || s.boot.Quarantining? ==> s.boot.pending in cat)
    && (match s.confirm
        case Advanced(p, _) => p in cat
        case FloorStored(p) => p in cat
        case FailedDropped(p) => p in cat
        case FailedErased(p) => p in cat
        case TargetErased(p) => p in cat
        case PendErased(p) => p in cat
        case _ => true)
    && (s.handler.Idle? || s.handler.cmd.sequence in cat)
    && (s.queue != [] ==> s.queue[0].sequence in cat)
    && (s.ota.Resting? || s.ota.cmd.sequence in cat)
  }

  /** Every sequence on the device, and every one it reports, is that of a published artifact. */
  predicate Numbered(s: Dev, cat: Catalog) {
    ReportsKnown(s.log, cat) && MemoryKnown(s, cat) && TasksKnown(s, cat)
  }

  /** A command reaches the device only with the sequence of a published artifact. */
  predicate Addressed(l: Step, cat: Catalog) { l.Handle? && l.h.Receive? ==> l.h.cmd.sequence in cat }

  lemma NumberedGrows(s: Dev, cat: Catalog, more: Catalog)
    requires Numbered(s, cat) && cat.Keys <= more.Keys
    ensures Numbered(s, more)
  {
  }

  lemma OneMoreKnown(log: seq<Event>, e: Event, cat: Catalog)
    requires ReportsKnown(log, cat) && (e.Sent? ==> e.sequence in cat)
    ensures ReportsKnown(log + [e], cat)
  {
  }

  lemma ConnectNumbers(s: Dev, cat: Catalog)
    requires Numbered(s, cat) && PowerNext(s, Connect).Some?
    ensures Numbered(PowerNext(s, Connect).value, cat)
  {
    OneMoreKnown(s.log, Reached, cat);
    if s.ram.reportRollback { OneMoreKnown(s.log + [Reached], Sent(Failed, s.ram.failedSeq), cat); }
  }

  lemma PowerNumbers(s: Dev, p: PowerStep, cat: Catalog, signed: Issued)
    requires BootInv(s) && Numbered(s, cat) && PowerNext(s, p).Some?
    ensures Numbered(PowerNext(s, p).value, cat)
  {
    var t := PowerNext(s, p).value;
    if p.Connect? {
      ConnectNumbers(s, cat);
    } else if p.PowerCut? || p.BootUp? {
      OneMoreKnown(s.log, t.log[|s.log|], cat);
    }
  }

  lemma ConfirmNumbers(s: Dev, c: ConfirmStep, cat: Catalog, signed: Issued)
    requires Inv(s, signed) && Numbered(s, cat) && ConfirmNext(s, c).Some?
    ensures Numbered(ConfirmNext(s, c).value, cat)
  {
    var t := ConfirmNext(s, c).value;
    assert forall i :: 0 <= i < |s.log| ==> t.log[i] == s.log[i];
  }

  lemma HandleNumbers(s: Dev, h: CommandStep, cat: Catalog)
    requires ClaimInv(s) && Numbered(s, cat) && HandleNext(s, h).Some? && Addressed(Handle(h), cat)
    ensures Numbered(HandleNext(s, h).value, cat)
  {
    HandleMemory(s, h, cat);
    HandleReports(s, h, cat);
  }

  lemma HandleReports(s: Dev, h: CommandStep, cat: Catalog)
    requires TasksKnown(s, cat) && ReportsKnown(s.log, cat) && HandleNext(s, h).Some? && Addressed(Handle(h), cat)
    ensures ReportsKnown(HandleNext(s, h).value.log, cat)
  {
    var t := HandleNext(s, h).value;
    if |t.log| > |s.log| { OneMoreKnown(s.log, t.log[|s.log|], cat); }
  }

  lemma HandleMemory(s: Dev, h: CommandStep, cat: Catalog)
    requires ClaimInv(s) && MemoryKnown(s, cat) && TasksKnown(s, cat) && HandleNext(s, h).Some?
      && Addressed(Handle(h), cat)
    ensures MemoryKnown(HandleNext(s, h).value, cat) && TasksKnown(HandleNext(s, h).value, cat)
  {
  }

  lemma WorkNumbers(s: Dev, o: OtaStep, cat: Catalog)
    requires ClaimInv(s) && Numbered(s, cat) && WorkNext(s, o).Some?
    ensures Numbered(WorkNext(s, o).value, cat)
  {
    var t := WorkNext(s, o).value;
    WorkMemory(s, o, cat);
    WorkTasks(s, o, cat);
    if o.Restart? {
      OneMoreKnown(s.log, Reset, cat);
    } else if o.ReportUpdating? || o.ReportFailed? {
      OneMoreKnown(s.log, t.log[|s.log|], cat);
    } else {
      WorkIsSilent(s, o);
    }
  }

  lemma WorkMemory(s: Dev, o: OtaStep, cat: Catalog)
    requires ClaimInv(s) && MemoryKnown(s, cat) && TasksKnown(s, cat) && WorkNext(s, o).Some?
    ensures MemoryKnown(WorkNext(s, o).value, cat)
  {
  }

  lemma WorkTasks(s: Dev, o: OtaStep, cat: Catalog)
    requires ClaimInv(s) && TasksKnown(s, cat) && WorkNext(s, o).Some?
    ensures TasksKnown(WorkNext(s, o).value, cat)
  {
  }

  lemma WorkIsSilent(s: Dev, o: OtaStep)
    requires WorkNext(s, o).Some? && !o.Restart? && !o.ReportUpdating? && !o.ReportFailed?
    ensures WorkNext(s, o).value.log == s.log
  {
  }

  lemma StepNumbers(s: Dev, l: Step, cat: Catalog, signed: Issued)
    requires Inv(s, signed) && Numbered(s, cat) && Next(s, l).Some? && Addressed(l, cat)
    ensures Numbered(Next(s, l).value, cat)
  {
    match l
    case Power(p) => PowerNumbers(s, p, cat, signed);
    case Confirm(c) => ConfirmNumbers(s, c, cat, signed);
    case Handle(h) => HandleNumbers(s, h, cat);
    case Work(o) => WorkNumbers(s, o, cat);
  }

  // ---------------------------------------------------------------- all of it together

  /** What holds of every device of the fleet. */
  ghost predicate Sound(s: Dev, cat: Catalog) {
    Inv(s, IssuedBy(cat)) && HistoryInv(s, IssuedBy(cat)) && Numbered(s, cat)
  }

  lemma FactorySound(digest: Digest, cat: Catalog)
    ensures Sound(Factory(digest), cat)
  {
    FactoryInv(digest, IssuedBy(cat));
  }

  lemma StepSound(s: Dev, l: Step, cat: Catalog)
    requires Sound(s, cat) && Next(s, l).Some? && Genuine(l, IssuedBy(cat)) && Addressed(l, cat)
    ensures Sound(Next(s, l).value, cat)
  {
    StepKeeps(s, l, IssuedBy(cat));
    StepRemembers(s, l, IssuedBy(cat));
    StepNumbers(s, l, cat, IssuedBy(cat));
  }

  lemma PublishSound(s: Dev, cat: Catalog, n: nat, digest: Digest)
    requires Sound(s, cat) && n !in cat
    ensures IssuedBy(cat) <= IssuedBy(cat[n := digest])
    ensures Sound(s, cat[n := digest])
  {
    var more := cat[n := digest];
    forall p | p in IssuedBy(cat) ensures p in IssuedBy(more) {
      assert p.0 in more && (p.0, more[p.0]) == p;
    }
    InvGrows(s, IssuedBy(cat), IssuedBy(more));
    HistoryGrows(s, IssuedBy(cat), IssuedBy(more));
    NumberedGrows(s, cat, more);
  }
}
