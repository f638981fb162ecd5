/** What a device says, and when it has to: the answers to commands, and the report of a rollback. */
module DeviceAnswers {
  import opened Optional
  import opened DeviceOta
  import opened DeviceSafety
  import opened DeviceProgress
  import R = DeviceReports

  // ---------------------------------------------------------------- the answers to a command

  /** The state after these steps of the message handler, if each was enabled in turn. */
  function Handling(s: Dev, hs: seq<CommandStep>): Option<Dev> {
    if hs == [] then Some(s)
    else match Handling(s, hs[..|hs| - 1])
      case None => None
      case Some(t) => HandleNext(t, hs[|hs| - 1])
  }

  /** The handler works on this one command, from its arrival until it is idle again, and does what it likes. */
  predicate OneCommand(s: Dev, hs: seq<CommandStep>, cmd: Command) {
    && hs != [] && hs[0] == Receive(cmd) && (forall i :: 0 < i < |hs| ==> !hs[i].Receive?)
    && Handling(s, hs).Some? && Handling(s, hs).value.handler.Idle?
  }

  lemma HandlingMore(s: Dev, hs: seq<CommandStep>, k: nat)
    requires 0 < k <= |hs|
    ensures Handling(s, hs[..k]) == match Handling(s, hs[..k - 1])
                                    case None => None
                                    case Some(t) => HandleNext(t, hs[k - 1])
  {
    assert hs[..k][..k - 1] == hs[..k - 1];
  }

  lemma {:induction false} HandlingPrefix(s: Dev, hs: seq<CommandStep>, k: nat)
    requires k <= |hs| && Handling(s, hs).Some?
    ensures Handling(s, hs[..k]).Some?
  {
    if k == |hs| {
      assert hs[..k] == hs;
    } else {
      HandlingPrefix(s, hs[..|hs| - 1], k);
      assert hs[..|hs| - 1][..k] == hs[..k];
    }
  }

  /** An idle handler takes up nothing but another command. */
  lemma IdleWaits(s: Dev, hs: seq<CommandStep>, cmd: Command, k: nat)
    requires OneCommand(s, hs, cmd) && 0 < k <= |hs|
    requires Handling(s, hs[..k]).Some? && Handling(s, hs[..k]).value.handler.Idle?
    ensures k == |hs|
  {
    if k < |hs| {
      HandlingPrefix(s, hs, k + 1);
      HandlingMore(s, hs, k + 1);
    }
  }

  /** While it is at a command the handler cannot but go on. */
  lemma GoesOn(s: Dev, hs: seq<CommandStep>, cmd: Command, k: nat)
    requires OneCommand(s, hs, cmd) && 0 < k <= |hs|
    requires Handling(s, hs[..k]).Some? && !Handling(s, hs[..k]).value.handler.Idle?
    ensures k < |hs| && HandleNext(Handling(s, hs[..k]).value, hs[k]).Some?
    ensures Handling(s, hs[..k + 1]) == HandleNext(Handling(s, hs[..k]).value, hs[k])
  {
    assert hs[..|hs|] == hs;
    if k < |hs| {
      HandlingPrefix(s, hs, k + 1);
      HandlingMore(s, hs, k + 1);
    }
  }

  /** A handler that refused a command has the answer to give. */
  lemma Answers(s: Dev, hs: seq<CommandStep>, cmd: Command, t: Dev)
    requires OneCommand(s, hs, cmd) && |hs| >= 2 && Handling(s, hs[..2]) == Some(t) && t.handler.Refused?
    ensures Handling(s, hs) == HandleNext(t, Answer)
  {
    GoesOn(s, hs, cmd, 2);
    assert hs[2].Answer?;
    IdleWaits(s, hs, cmd, 3);
    assert hs[..3] == hs;
  }

  lemma Sends(s: Dev, hs: seq<CommandStep>, cmd: Command, t: Dev)
    requires OneCommand(s, hs, cmd) && |hs| >= 2 && Handling(s, hs[..2]) == Some(t) && t.handler.Accepted?
    ensures Handling(s, hs) == HandleNext(t, Enqueue)
  {
    GoesOn(s, hs, cmd, 2);
    assert hs[2].Enqueue?;
    IdleWaits(s, hs, cmd, 3);
    assert hs[..3] == hs;
  }

  lemma FirstStep(s: Dev, hs: seq<CommandStep>, cmd: Command)
    requires OneCommand(s, hs, cmd)
    ensures Handling(s, hs[..1]) == HandleNext(s, Receive(cmd)) && HandleNext(s, Receive(cmd)).Some?
  {
    HandlingPrefix(s, hs, 1);
    HandlingMore(s, hs, 1);
    assert hs[..0] == [];
  }

  /** What is quarantined is answered at once. */
  lemma QuarantinedAnswer(s: Dev, hs: seq<CommandStep>, cmd: Command)
    requires OneCommand(s, hs, cmd) && s.ram.failedSeq != 0 && cmd.sequence == s.ram.failedSeq
    ensures Handling(s, hs) == Some(s.(log := s.log + [Sent(Failed, cmd.sequence)]))
  {
    FirstStep(s, hs, cmd);
    IdleWaits(s, hs, cmd, 1);
    assert hs[..1] == hs;
  }

  /** The claim is made or refused. */
  lemma Claims(s: Dev, hs: seq<CommandStep>, cmd: Command) returns (t: Dev)
    requires OneCommand(s, hs, cmd) && !(s.ram.failedSeq != 0 && cmd.sequence == s.ram.failedSeq)
    ensures |hs| >= 2 && Handling(s, hs[..2]) == Some(t)
    ensures t == if cmd.sequence > s.ram.floor && s.ram.pendingSeq == 0
                 then s.(ram := s.ram.(pendingSeq := cmd.sequence), handler := Accepted(cmd))
                 else s.(handler := Refused(cmd, s.ram.floor, s.ram.pendingSeq))
  {
    FirstStep(s, hs, cmd);
    GoesOn(s, hs, cmd, 1);
    assert hs[1].Claim?;
    t := HandleNext(Handling(s, hs[..1]).value, Claim).value;
  }

  /**
   What handle_cmd_ota does to a command n, in every reachable state and with no other
   way for it to go on. A quarantined n and one below the floor are answered "failed",
   the floor itself "ok", the one in flight "updating"; another one is dropped while a
   job is in flight. None of these is accepted or changes anything else. Everything
   above the floor is accepted where no job is in flight, and then not answered.
   */
  lemma CommandAnswered(s: Dev, hs: seq<CommandStep>, cmd: Command, signed: Issued)
    requires Reachable(s, signed) && OneCommand(s, hs, cmd)
    ensures var n, t := cmd.sequence, Handling(s, hs).value;
            if s.ram.failedSeq != 0 && n == s.ram.failedSeq then t == s.(log := s.log + [Sent(Failed, n)])
            else if n < s.ram.floor then t == s.(log := s.log + [Sent(Failed, n)])
            else if n == s.ram.floor then t == s.(log := s.log + [Sent(Ok, n)])
            else if s.ram.pendingSeq == 0 then t == s.(ram := s.ram.(pendingSeq := n), queue := [cmd])
            else if n == s.ram.pendingSeq then t == s.(log := s.log + [Sent(Updating, n)])
            else t == s
  {
    ReachableInv(s, signed);
    CommandAnsweredIn(s, hs, cmd, signed);
  }

  lemma CommandAnsweredIn(s: Dev, hs: seq<CommandStep>, cmd: Command, signed: Issued)
    requires Inv(s, signed) && OneCommand(s, hs, cmd)
    ensures var n, t := cmd.sequence, Handling(s, hs).value;
            if s.ram.failedSeq != 0 && n == s.ram.failedSeq then t == s.(log := s.log + [Sent(Failed, n)])
            else if n < s.ram.floor then t == s.(log := s.log + [Sent(Failed, n)])
            else if n == s.ram.floor then t == s.(log := s.log + [Sent(Ok, n)])
            else if s.ram.pendingSeq == 0 then t == s.(ram := s.ram.(pendingSeq := n), queue := [cmd])
            else if n == s.ram.pendingSeq then t == s.(log := s.log + [Sent(Updating, n)])
            else t == s
  {
    FirstStep(s, hs, cmd);
    if s.ram.failedSeq != 0 && cmd.sequence == s.ram.failedSeq {
      QuarantinedAnswer(s, hs, cmd);
    } else {
      var t := Claims(s, hs, cmd);
      if t.handler.Accepted? {
        assert s.Jobs() == 0;
        Sends(s, hs, cmd, t);
      } else {
        Answers(s, hs, cmd, t);
      }
    }
  }

  // ---------------------------------------------------------------- the report of a rollback

  /** A rollback that is still to be reported is reported by the next connection, with the sequence it quarantined. */
  lemma RollbackIsReported(s: Dev, signed: Issued)
    requires Reachable(s, signed) && s.ram.reportRollback && s.boot.Up? && s.handler.Idle?
    ensures PowerNext(s, Connect).Some?
    ensures var t := PowerNext(s, Connect).value;
            t.log == s.log + [Reached, Sent(Failed, s.ram.failedSeq)] && !t.ram.reportRollback
            && t.nvs == s.nvs && t.flash == s.flash && t.ram.failedSeq == s.ram.failedSeq && t.ram.floor == s.ram.floor
  {
    assert s.log + [Reached] + [Sent(Failed, s.ram.failedSeq)] == s.log + [Reached, Sent(Failed, s.ram.failedSeq)];
  }

  /** Up and with nothing to report: this stays so until the device is reset. */
  predicate Reported(s: Dev) { s.boot.Up? && !s.ram.reportRollback }

  lemma StaysReported(s: Dev, l: Step)
    requires Reported(s) && Next(s, l).Some?
    ensures Reported(Next(s, l).value) || Next(s, l).value.log == s.log + [Reset]
  {
  }

  predicate NoReset(log: seq<Event>, from: nat) { forall i :: from <= i < |log| ==> !log[i].Reset? }

  lemma {:induction false} ReportedInThatLife(s: Dev, ls: seq<Step>, signed: Issued)
    requires Reported(s) && Exec(s, ls, signed).Some?
    ensures s.log <= Exec(s, ls, signed).value.log
    ensures NoReset(Exec(s, ls, signed).value.log, |s.log|) ==> Reported(Exec(s, ls, signed).value)
  {
    if ls != [] {
      ReportedInThatLife(s, ls[..|ls| - 1], signed);
      var t, l := Exec(s, ls[..|ls| - 1], signed).value, ls[|ls| - 1];
      R.StepExtendsLog(t, l);
      var u := Next(t, l).value;
      assert u.log == t.log + [Reset] ==> u.log[|t.log|].Reset?;
      if NoReset(u.log, |s.log|) {
        assert forall i :: |s.log| <= i < |t.log| ==> t.log[i] == u.log[i];
        StaysReported(t, l);
      }
    }
  }

  /**
   And it is reported once: after a connection no later one of the same life says more
   than that the broker was reached.
   */
  lemma ReportedOnce(s: Dev, t: Dev, signed: Issued)
    requires PowerNext(s, Connect).Some? && Leads(PowerNext(s, Connect).value, t, signed)
    requires NoReset(t.log, |PowerNext(s, Connect).value.log|) && PowerNext(t, Connect).Some?
    ensures PowerNext(t, Connect).value.log == t.log + [Reached]
  {
    var u := PowerNext(s, Connect).value;
    var ls: seq<Step> :| Exec(u, ls, signed) == Some(t);
    ReportedInThatLife(u, ls, signed);
  }

  /** A rolled back update ends with its failure reported, and the device idles in the old image. */
  lemma RollbackEnds(s: Dev, cmd: Command, signed: Issued) returns (u: Dev)
    requires Clean(s) && Welcome(s, cmd, signed)
    ensures Obeys(s, u, signed) && Clean(u) && !u.ram.reportRollback
    ensures u.running == s.running && u.flash.At(u.running) == s.flash.At(s.running)
    ensures u.nvs.floor == s.nvs.floor && u.ram.failedSeq == u.nvs.failedSeq == cmd.sequence
    ensures u.log != [] && u.log[|u.log| - 1] == Sent(Failed, cmd.sequence)
  {
    var t := UpdateRollsBack(s, cmd, signed);
    Stay(t, signed);
    u := Go(t, t, Power(Connect), signed);
    Then(s, t, u, signed);
  }

  // ---------------------------------------------------------------- a power cut in the bookkeeping

  /** The device as it comes up after a power cut, with the broker not reached yet. */
  lemma ComesUp(s: Dev, signed: Issued) returns (u: Dev)
    requires Inv(s, signed) && s.boot.Off? && s.flash.At(s.flash.selected).state.Valid?
    ensures Obeys(s, u, signed) && u.boot.Up? && u.handler.Idle? && u.flash == s.flash && u.ram.floor == s.nvs.floor
    ensures u.ram.reportRollback <==> s.nvs.pendSeq > s.nvs.floor
    ensures u.nvs == Nvs(s.nvs.floor, 0, if s.nvs.pendSeq > s.nvs.floor then s.nvs.pendSeq else s.nvs.failedSeq,
                         if s.nvs.pendSeq != 0 then "" else s.nvs.target)
  {
    if s.nvs.pendSeq == 0 {
      u := BootsClean(s, signed);
    } else {
      var t := FindsPending(s, signed);
      u := Judges(t, signed);
      Then(s, t, u, signed);
    }
  }

  lemma FindsPending(s: Dev, signed: Issued) returns (t: Dev)
    requires Inv(s, signed) && s.boot.Off? && s.flash.At(s.flash.selected).state.Valid? && s.nvs.pendSeq != 0
    ensures Obeys(s, t, signed)
    ensures t == s.(running := s.flash.selected, boot := Judging(s.nvs.pendSeq), log := t.log,
                    ram := COLD.(floor := s.nvs.floor, failedSeq := s.nvs.failedSeq),
                    nvs := s.nvs.(target := "", pendSeq := 0))
  {
    Stay(s, signed);
    t := Go(s, s, Power(BootUp), signed);
    t := Go(s, t, Power(LoadState), signed);
    t := Go(s, t, Power(ArmLeftover), signed);
    t := Go(s, t, Power(ErasePend), signed);
  }

  lemma Judges(t: Dev, signed: Issued) returns (u: Dev)
    requires t.boot.Judging?
    ensures Obeys(t, u, signed)
    ensures u == if t.boot.pending > t.ram.floor
                 then t.(boot := Up, ram := t.ram.(reportRollback := true, failedSeq := t.boot.pending),
                         nvs := t.nvs.(failedSeq := t.boot.pending))
                 else t.(boot := Up)
  {
    Stay(t, signed);
    u := Go(t, t, Power(Judge), signed);
    if t.boot.pending > t.ram.floor { u := Go(t, u, Power(StoreQuarantine), signed); }
    u := Go(t, u, Power(StartTasks), signed);
  }

  /** confirm_task has marked the image valid, and the pending sequence is still in NVS. */
  predicate InTheBooks(s: Dev) { !s.boot.Off? && s.confirm.Bookkeeping() }

  lemma BooksState(s: Dev, signed: Issued)
    requires Inv(s, signed) && InTheBooks(s)
    ensures s.flash.At(s.flash.selected).state.Valid?
  {
  }

  /**
   A power cut in the bookkeeping of a confirmed image. The device comes up in that
   image; it takes it for one that was rolled back, quarantines its sequence and will
   report it as failed, exactly if the floor had not been stored yet.
   */
  lemma CutInTheBooks(s: Dev, signed: Issued) returns (u: Dev)
    requires Reachable(s, signed) && InTheBooks(s)
    ensures Obeys(s, u, signed) && u.boot.Up? && u.handler.Idle? && u.flash == s.flash
    ensures u.ram.reportRollback <==> s.nvs.pendSeq > s.nvs.floor
    ensures u.ram.reportRollback ==> u.nvs.failedSeq == s.nvs.pendSeq
    ensures !u.ram.reportRollback ==> u.nvs.failedSeq == s.nvs.failedSeq
  {
    ReachableInv(s, signed);
    BooksState(s, signed);
    StepKeeps(s, Power(PowerCut), signed);
    Stay(s, signed);
    var t := Go(s, s, Power(PowerCut), signed);
    u := ComesUp(t, signed);
    Then(s, t, u, signed);
  }
}
