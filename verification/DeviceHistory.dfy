/** What a report of the device tells about what the device went through before. */
module DeviceHistory {
  import opened Optional
  import opened DeviceOta
  import opened DeviceSafety

  /** The current life of the device, read off its log. */
  datatype Life = Dead | Alive(digest: Digest, reached: bool)

  function LifeOf(log: seq<Event>): Life {
    if log == [] then Dead
    else
      var before := LifeOf(log[..|log| - 1]);
      match log[|log| - 1]
      case Reset => Dead
      case Booted(d) => Alive(d, false)
      case Reached => if before.Alive? then before.(reached := true) else before
      case MarkedValid => before
      case Sent(_, _) => before
  }

  /** At position k the device, running the image signed as n and having reached the broker, marked it valid. */
  predicate ConfirmedAt(log: seq<Event>, n: nat, signed: Issued, k: nat) {
    && k < |log|
    && log[k].MarkedValid?
    && LifeOf(log[..k]).Alive?
    && LifeOf(log[..k]).reached
    && (n, LifeOf(log[..k]).digest) in signed
  }

  ghost predicate ConfirmedIn(log: seq<Event>, n: nat, signed: Issued) {
    exists k: nat :: ConfirmedAt(log, n, signed, k)
  }

  /** Every "ok" that was sent had its image confirmed earlier in the log. */
  ghost predicate OkJustified(log: seq<Event>, signed: Issued) {
    forall i :: 0 <= i < |log| && log[i].Sent? && log[i].status.Ok? && log[i].sequence != 0 ==>
      ConfirmedIn(log[..i], log[i].sequence, signed)
  }

  lemma Grows(log: seq<Event>, e: Event, n: nat, signed: Issued)
    ensures ConfirmedIn(log, n, signed) ==> ConfirmedIn(log + [e], n, signed)
    ensures LifeOf((log + [e])[..|log|]) == LifeOf(log)
  {
    assert (log + [e])[..|log|] == log;
    if ConfirmedIn(log, n, signed) {
      var k: nat :| ConfirmedAt(log, n, signed, k);
      assert (log + [e])[..k] == log[..k];
      assert ConfirmedAt(log + [e], n, signed, k);
    }
  }

  lemma StaysJustified(log: seq<Event>, e: Event, signed: Issued)
    requires OkJustified(log, signed)
    requires e.Sent? && e.status.Ok? && e.sequence != 0 ==> ConfirmedIn(log, e.sequence, signed)
    ensures OkJustified(log + [e], signed)
  {
    var more := log + [e];
    forall i | 0 <= i < |more| && more[i].Sent? && more[i].status.Ok? && more[i].sequence != 0
      ensures ConfirmedIn(more[..i], more[i].sequence, signed)
    {
      if i < |log| {
        assert more[i] == log[i] && more[..i] == log[..i];
      } else {
        assert more[i] == e && more[..i] == log;
      }
    }
  }

  /** The number is 0 or the sequence of an image that was confirmed. */
  ghost predicate Backed(s: Dev, n: nat, signed: Issued) { n == 0 || ConfirmedIn(s.log, n, signed) }

  /** The numbers the device may report "ok" for are backed by its log. */
  ghost predicate HistoryInv(s: Dev, signed: Issued) {
    && OkJustified(s.log, signed)
    && (if s.boot.Off? then LifeOf(s.log).Dead?
        else LifeOf(s.log).Alive? && s.flash.At(s.running).content == Firmware(LifeOf(s.log).digest))
    && (s.ram.connected || !(s.confirm.NoTask? || s.confirm.Waiting?) ==> LifeOf(s.log).Alive? && LifeOf(s.log).reached)
    && Backed(s, s.nvs.floor, signed)
    && Backed(s, s.ram.floor, signed)
    && (s.confirm.Marked? ==> Backed(s, s.nvs.pendSeq, signed))
    && (match s.confirm
        case Advanced(p, _) => Backed(s, p, signed)
        case FloorStored(p) => Backed(s, p, signed)
        case FailedDropped(p) => Backed(s, p, signed)
        case FailedErased(p) => Backed(s, p, signed)
        case TargetErased(p) => Backed(s, p, signed)
        case PendErased(p) => Backed(s, p, signed)
        case _ => true)
    && (s.handler.Refused? ==> Backed(s, s.handler.floor, signed))
  }

  /** Appending to the log keeps whatever it backed. */
  lemma KeepsBacking(s: Dev, e: Event, signed: Issued)
    requires OkJustified(s.log, signed)
    requires e.Sent? && e.status.Ok? ==> Backed(s, e.sequence, signed)
    ensures OkJustified(s.log + [e], signed)
    ensures forall n: nat :: Backed(s, n, signed) ==> Backed(s.(log := s.log + [e]), n, signed)
  {
    StaysJustified(s.log, e, signed);
    forall n: nat ensures Backed(s, n, signed) ==> Backed(s.(log := s.log + [e]), n, signed) {
      Grows(s.log, e, n, signed);
    }
  }

  lemma LifeGrows(log: seq<Event>, e: Event)
    ensures LifeOf(log + [e]) == (match e
                                  case Reset => Dead
                                  case Booted(d) => Alive(d, false)
                                  case Reached => if LifeOf(log).Alive? then LifeOf(log).(reached := true) else Dead
                                  case _ => LifeOf(log))
  {
    assert (log + [e])[..|log|] == log;
  }

  /** A step that only reports, and moves nothing the history speaks of. */
  lemma ReportRemembers(s: Dev, t: Dev, e: Event, signed: Issued)
    requires HistoryInv(s, signed)
    requires e.Sent? && (e.status.Ok? ==> Backed(s, e.sequence, signed))
    requires t.log == s.log + [e] && t.flash == s.flash && t.running == s.running && t.nvs == s.nvs
    requires t.boot == s.boot && t.confirm == s.confirm && t.ram.floor == s.ram.floor
      && t.ram.connected == s.ram.connected
    requires t.handler == s.handler || !t.handler.Refused?
    ensures HistoryInv(t, signed)
  {
    KeepsBacking(s, e, signed);
    LifeGrows(s.log, e);
  }

  lemma ReachedRemembers(s: Dev, signed: Issued)
    requires HistoryInv(s, signed) && !s.boot.Off?
    ensures HistoryInv(s.(log := s.log + [Reached]), signed)
    ensures LifeOf(s.log + [Reached]) == LifeOf(s.log).(reached := true)
  {
    KeepsBacking(s, Reached, signed);
    LifeGrows(s.log, Reached);
  }

  lemma ConnectRemembers(s: Dev, signed: Issued)
    requires HistoryInv(s, signed) && PowerNext(s, Connect).Some?
    ensures HistoryInv(PowerNext(s, Connect).value, signed)
  {
    var s1 := s.(log := s.log + [Reached]);
    ReachedRemembers(s, signed);
    if s.ram.reportRollback {
      var e := Sent(Failed, s.ram.failedSeq);
      ReportRemembers(s1, s1.(ram := s1.ram.(reportRollback := false)).Report(Failed, s.ram.failedSeq), e, signed);
      LifeGrows(s1.log, e);
    }
  }

  lemma CutRemembers(s: Dev, signed: Issued)
    requires HistoryInv(s, signed)
    ensures HistoryInv(s.Cut(), signed)
  {
    KeepsBacking(s, Reset, signed);
    LifeGrows(s.log, Reset);
  }

  lemma BootRemembers(s: Dev, signed: Issued)
    requires FlashInv(s, signed) && HistoryInv(s, signed) && PowerNext(s, BootUp).Some?
    ensures HistoryInv(PowerNext(s, BootUp).value, signed)
  {
    var e := PowerNext(s, BootUp).value.log[|s.log|];
    KeepsBacking(s, e, signed);
    LifeGrows(s.log, e);
  }

  /** Start-up after the boot: nothing is reported, and the floor is the one in NVS. */
  lemma StartRemembers(s: Dev, p: PowerStep, signed: Issued)
    requires !p.PowerCut? && !p.BootUp? && !p.Connect?
    requires HistoryInv(s, signed) && PowerNext(s, p).Some?
    ensures HistoryInv(PowerNext(s, p).value, signed)
  {
    var t := PowerNext(s, p).value;
    assert t.log == s.log && t.running == s.running && t.flash == s.flash;
  }

  lemma PowerRemembers(s: Dev, p: PowerStep, signed: Issued)
    requires FlashInv(s, signed) && HistoryInv(s, signed) && PowerNext(s, p).Some?
    ensures HistoryInv(PowerNext(s, p).value, signed)
  {
    if p.PowerCut? { CutRemembers(s, signed); }
    else if p.BootUp? { BootRemembers(s, signed); }
    else if p.Connect? { ConnectRemembers(s, signed); }
    else { StartRemembers(s, p, signed); }
  }

  lemma ConfirmRemembers(s: Dev, c: ConfirmStep, signed: Issued)
    requires Inv(s, signed) && HistoryInv(s, signed) && ConfirmNext(s, c).Some?
    ensures HistoryInv(ConfirmNext(s, c).value, signed)
  {
    if c.MarkValid? {
      MarkRemembers(s, signed);
    } else if c.ReportOk? {
      OkRemembers(s, signed);
    } else if c.TimeOut? || c.MarkFails? {
      KeepsBacking(s, Reset, signed);
      LifeGrows(s.log, Reset);
    } else {
      BooksRemember(s, c, signed);
    }
  }

  /** The mark confirms the pending sequence. */
  lemma MarkRemembers(s: Dev, signed: Issued)
    requires Inv(s, signed) && HistoryInv(s, signed) && ConfirmNext(s, MarkValid).Some?
    ensures HistoryInv(ConfirmNext(s, MarkValid).value, signed)
  {
    var t := ConfirmNext(s, MarkValid).value;
    KeepsBacking(s, MarkedValid, signed);
    LifeGrows(s.log, MarkedValid);
    assert t.log[..|s.log|] == s.log;
    assert ConfirmedAt(t.log, s.nvs.pendSeq, signed, |s.log|);
  }

  lemma OkRemembers(s: Dev, signed: Issued)
    requires HistoryInv(s, signed) && ConfirmNext(s, ReportOk).Some?
    ensures HistoryInv(ConfirmNext(s, ReportOk).value, signed)
  {
    var e := Sent(Ok, s.confirm.pending);
    KeepsBacking(s, e, signed);
    LifeGrows(s.log, e);
  }

  /** The steps of confirm_task that report nothing hand on what is backed. */
  lemma BooksRemember(s: Dev, c: ConfirmStep, signed: Issued)
    requires !c.MarkValid? && !c.ReportOk? && !c.TimeOut? && !c.MarkFails?
    requires HistoryInv(s, signed) && ConfirmNext(s, c).Some?
    ensures HistoryInv(ConfirmNext(s, c).value, signed)
  {
    var t := ConfirmNext(s, c).value;
    assert t.log == s.log && t.flash == s.flash && t.running == s.running && t.boot == s.boot && t.handler == s.handler;
  }

  lemma HandleTouches(s: Dev, h: CommandStep, signed: Issued)
    requires HistoryInv(s, signed) && HandleNext(s, h).Some?
    ensures var t := HandleNext(s, h).value;
            && t.flash == s.flash && t.running == s.running && t.nvs == s.nvs && t.boot == s.boot
                && t.confirm == s.confirm
            && t.ram.floor == s.ram.floor && t.ram.connected == s.ram.connected
            && (t.log == s.log
                || (t.log == s.log + [t.log[|s.log|]] && t.log[|s.log|].Sent?
                    && (t.handler == s.handler || t.handler.Idle?)))
            && (t.log != s.log && t.log[|s.log|].status.Ok? ==> Backed(s, t.log[|s.log|].sequence, signed))
            && (t.handler.Refused? ==> t.handler == s.handler || t.handler.floor == s.ram.floor)
  {
  }

  lemma HandleRemembers(s: Dev, h: CommandStep, signed: Issued)
    requires HistoryInv(s, signed) && HandleNext(s, h).Some?
    ensures HistoryInv(HandleNext(s, h).value, signed)
  {
    var t := HandleNext(s, h).value;
    HandleTouches(s, h, signed);
    if t.log != s.log { ReportRemembers(s, t, t.log[|s.log|], signed); }
  }

  /** A step that reports nothing, and moves nothing the history speaks of. */
  lemma SilenceRemembers(s: Dev, t: Dev, signed: Issued)
    requires HistoryInv(s, signed)
    requires t.log == s.log && t.boot.Off? == s.boot.Off? && t.running == s.running && t.confirm == s.confirm
      && t.handler == s.handler
    requires t.boot.Off? || t.flash.At(t.running).content == s.flash.At(s.running).content
    requires t.nvs.floor == s.nvs.floor && t.ram.floor == s.ram.floor && t.ram.connected == s.ram.connected
    requires t.confirm.Marked? ==> t.nvs.pendSeq == s.nvs.pendSeq
    ensures HistoryInv(t, signed)
  {
  }

  lemma WorkTouches(s: Dev, o: OtaStep, signed: Issued)
    requires CommitInv(s, signed) && WorkNext(s, o).Some? && !o.Restart?
    ensures var t := WorkNext(s, o).value;
            && t.boot == s.boot && t.running == s.running && t.confirm == s.confirm && t.handler == s.handler
            && t.flash.At(t.running).content == s.flash.At(s.running).content
            && t.nvs.floor == s.nvs.floor && t.ram.floor == s.ram.floor && t.ram.connected == s.ram.connected
            && (t.confirm.Marked? ==> t.nvs.pendSeq == s.nvs.pendSeq)
            && (if o.ReportUpdating? || o.ReportFailed?
                then
                  && t.log == s.log + [Sent(if o.ReportFailed? then Failed else Updating, s.ota.cmd.sequence)]
                  && t.flash == s.flash && t.nvs == s.nvs
                else t.log == s.log)
  {
  }

  lemma WorkRemembers(s: Dev, o: OtaStep, signed: Issued)
    requires CommitInv(s, signed) && HistoryInv(s, signed) && WorkNext(s, o).Some?
    ensures HistoryInv(WorkNext(s, o).value, signed)
  {
    var t := WorkNext(s, o).value;
    if o.Restart? {
      KeepsBacking(s, Reset, signed);
      LifeGrows(s.log, Reset);
    } else {
      WorkTouches(s, o, signed);
      if o.ReportUpdating? { ReportRemembers(s, t, Sent(Updating, s.ota.cmd.sequence), signed); }
      else if o.ReportFailed? { ReportRemembers(s, t, Sent(Failed, s.ota.cmd.sequence), signed); }
      else { SilenceRemembers(s, t, signed); }
    }
  }

  lemma StepRemembers(s: Dev, l: Step, signed: Issued)
    requires Inv(s, signed) && HistoryInv(s, signed) && Next(s, l).Some?
    ensures HistoryInv(Next(s, l).value, signed)
  {
    match l
    case Power(p) => PowerRemembers(s, p, signed);
    case Confirm(c) => ConfirmRemembers(s, c, signed);
    case Handle(h) => HandleRemembers(s, h, signed);
    case Work(o) => WorkRemembers(s, o, signed);
  }

  lemma {:induction false} RunRemembers(digest: Digest, ls: seq<Step>, signed: Issued)
    requires Exec(Factory(digest), ls, signed).Some?
    ensures Inv(Exec(Factory(digest), ls, signed).value, signed)
    ensures HistoryInv(Exec(Factory(digest), ls, signed).value, signed)
  {
    RunKeeps(Factory(digest), ls, signed);
    if ls != [] {
      RunRemembers(digest, ls[..|ls| - 1], signed);
      StepRemembers(Exec(Factory(digest), ls[..|ls| - 1], signed).value, ls[|ls| - 1], signed);
    }
  }

  // ---------------------------------------------------------------- spelled out

  /** A life that is alive began with a boot of its image and was not reset since. */
  lemma {:induction false} LifeBegan(log: seq<Event>) returns (i: nat, j: nat)
    requires LifeOf(log).Alive?
    ensures i < |log| && log[i] == Booted(LifeOf(log).digest)
    ensures forall k :: i < k < |log| ==> !log[k].Reset? && !log[k].Booted?
    ensures LifeOf(log).reached ==> i < j < |log| && log[j].Reached?
  {
    var before := log[..|log| - 1];
    if log[|log| - 1].Booted? {
      i, j := |log| - 1, 0;
    } else {
      i, j := LifeBegan(before);
      if log[|log| - 1].Reached? { j := |log| - 1; }
    }
  }

  lemma Unfold(log: seq<Event>, signed: Issued, at: nat) returns (boot: nat, reach: nat, mark: nat)
    requires OkJustified(log, signed)
    requires at < |log| && log[at].Sent? && log[at].status.Ok? && log[at].sequence != 0
    ensures && boot < reach < mark < at
            && log[boot].Booted? && (log[at].sequence, log[boot].digest) in signed
            && log[reach].Reached?
            && log[mark].MarkedValid?
            && forall k :: boot < k < mark ==> !log[k].Reset? && !log[k].Booted?
  {
    mark :| ConfirmedAt(log[..at], log[at].sequence, signed, mark);
    assert log[..at][..mark] == log[..mark];
    boot, reach := LifeBegan(log[..mark]);
    forall k | boot < k < mark ensures !log[k].Reset? && !log[k].Booted? {
      assert log[..mark][k] == log[k];
    }
  }

  /**
   Whenever a device reports "ok" for a nonzero sequence n, it had before that, and
   in this order, booted an image signed as n, reached the broker and marked the
   image valid, with no reset from that boot to the mark.
   */
  lemma OkMeansConfirmed(s: Dev, signed: Issued, at: nat) returns (boot: nat, reach: nat, mark: nat)
    requires Reachable(s, signed)
    requires at < |s.log| && s.log[at].Sent? && s.log[at].status.Ok? && s.log[at].sequence != 0
    ensures boot < reach < mark < at
    ensures s.log[boot].Booted? && (s.log[at].sequence, s.log[boot].digest) in signed
    ensures s.log[reach].Reached? && s.log[mark].MarkedValid?
    ensures forall k :: boot < k < mark ==> !s.log[k].Reset? && !s.log[k].Booted?
  {
    var digest: Digest, ls: seq<Step> :| Exec(Factory(digest), ls, signed) == Some(s);
    RunRemembers(digest, ls, signed);
    boot, reach, mark := Unfold(s.log, signed, at);
  }
}
