/** Runs that exist: an undisturbed update succeeds, an image that does not connect is rolled back. */
module DeviceProgress {
  import opened Optional
  import opened DeviceOta
  import opened DeviceSafety

  /** A command that arrives carries a signature of its own sequence. */
  predicate SelfSigned(l: Step) {
    l.Handle? && l.h.Receive? ==> l.h.cmd.signature.Over? && l.h.cmd.signature.sequence == l.h.cmd.sequence
  }

  /** Some genuine run with such commands alone leads from s to t. */
  ghost predicate Obeys(s: Dev, t: Dev, signed: Issued) {
    exists ls: seq<Step> :: Exec(s, ls, signed) == Some(t) && forall l :: l in ls ==> SelfSigned(l)
  }

  lemma Stay(s: Dev, signed: Issued)
    ensures Obeys(s, s, signed)
  {
    assert Exec(s, [], signed) == Some(s);
  }

  lemma Go(s: Dev, t: Dev, l: Step, signed: Issued) returns (u: Dev)
    requires Obeys(s, t, signed) && Genuine(l, signed) && SelfSigned(l) && Next(t, l).Some?
    ensures u == Next(t, l).value && Obeys(s, u, signed)
  {
    u := Next(t, l).value;
    var ls: seq<Step> :| Exec(s, ls, signed) == Some(t) && forall k :: k in ls ==> SelfSigned(k);
    assert (ls + [l])[..|ls + [l]| - 1] == ls;
    assert Exec(s, ls + [l], signed) == Some(u);
  }

  lemma {:induction false} ExecJoins(s: Dev, ls: seq<Step>, ms: seq<Step>, signed: Issued)
    requires Exec(s, ls, signed).Some?
    ensures Exec(s, ls + ms, signed) == Exec(Exec(s, ls, signed).value, ms, signed)
  {
    if ms == [] {
      assert ls + ms == ls;
    } else {
      assert (ls + ms)[..|ls + ms| - 1] == ls + ms[..|ms| - 1];
      ExecJoins(s, ls, ms[..|ms| - 1], signed);
    }
  }

  lemma Then(s: Dev, t: Dev, u: Dev, signed: Issued)
    requires Obeys(s, t, signed) && Obeys(t, u, signed)
    ensures Obeys(s, u, signed)
  {
    var ls: seq<Step> :| Exec(s, ls, signed) == Some(t) && forall l :: l in ls ==> SelfSigned(l);
    var ms: seq<Step> :| Exec(t, ms, signed) == Some(u) && forall l :: l in ms ==> SelfSigned(l);
    ExecJoins(s, ls, ms, signed);
    assert forall l :: l in ls + ms ==> SelfSigned(l);
  }

  /** Up, on a confirmed image, with nothing in hand. */
  predicate Idling(s: Dev) {
    && s.boot.Up? && s.handler.Idle? && s.queue == [] && s.ota.Resting? && s.ram.pendingSeq == 0
    && (s.confirm.NoTask? || s.confirm.Finished?)
    && s.flash.At(s.running).state.Valid? && s.running == s.flash.selected
  }

  /** A command with a signature of its own sequence and digest that the device does not refuse. */
  predicate Welcome(s: Dev, cmd: Command, signed: Issued) {
    && cmd.signature == Over(cmd.sequence, cmd.digest) && (cmd.sequence, cmd.digest) in signed
    && cmd.sequence > s.ram.floor && cmd.sequence != s.ram.failedSeq
  }

  lemma Downloads(s: Dev, cmd: Command, signed: Issued) returns (t: Dev)
    requires Idling(s) && Welcome(s, cmd, signed)
    ensures Obeys(s, t, signed)
    ensures t == s.(ota := Verified(cmd), ram := s.ram.(pendingSeq := cmd.sequence),
                    flash := s.flash.SetContent(!s.running, Firmware(cmd.digest)),
                    log := s.log + [Sent(Updating, cmd.sequence)])
  {
    Stay(s, signed);
    t := Go(s, s, Handle(Receive(cmd)), signed);
    t := Go(s, t, Handle(Claim), signed);
    t := Go(s, t, Handle(Enqueue), signed);
    assert t == s.(queue := [cmd], ram := s.ram.(pendingSeq := cmd.sequence));
    t := Go(s, t, Work(TakeJob), signed);
    t := Go(s, t, Work(ReportUpdating), signed);
    t := Go(s, t, Work(BeginWrite), signed);
    t := Go(s, t, Work(FinishWrite(cmd.digest)), signed);
    t := Go(s, t, Work(VerifyOk), signed);
  }

  /** The device runs the new image, which waits to be confirmed. */
  predicate OnTrial(s: Dev, t: Dev, cmd: Command) {
    && t.boot.Up? && t.handler.Idle? && t.queue == [] && t.ota.Resting? && t.confirm.Waiting?
    && t.running == !s.running && t.flash.selected == t.running
    && t.flash.At(t.running) == Slot(Firmware(cmd.digest), PendingVerify)
    && t.flash.At(s.running) == s.flash.At(s.running)
    && t.nvs == s.nvs.(pendSeq := cmd.sequence, target := cmd.version)
    && t.ram == Ram(s.nvs.floor, cmd.sequence, s.nvs.failedSeq, true, false, false)
  }

  lemma CommitsAndRestarts(t: Dev, cmd: Command, signed: Issued) returns (u: Dev)
    requires t.boot.Up? && t.ota == Verified(cmd) && !t.confirm.Bookkeeping()
    ensures Obeys(t, u, signed)
    ensures u == Dev(t.flash.SetState(!t.running, New).(selected := !t.running),
                     t.nvs.(target := cmd.version, pendSeq := cmd.sequence),
                     COLD, false, Off, NoTask, Idle, [], Resting, t.log + [Reset])
  {
    Stay(t, signed);
    u := Go(t, t, Work(StoreTarget), signed);
    u := Go(t, u, Work(StorePending), signed);
    u := Go(t, u, Work(Switch), signed);
    u := Go(t, u, Work(Restart), signed);
  }

  lemma BootsNew(t: Dev, signed: Issued) returns (u: Dev)
    requires t.boot.Off? && t.handler.Idle? && t.queue == [] && t.ota.Resting? && t.ram == COLD
    requires t.flash.At(t.flash.selected).state.New?
    ensures Obeys(t, u, signed)
    ensures u == t.(flash := t.flash.SetState(t.flash.selected, PendingVerify), running := t.flash.selected,
                    boot := Up, confirm := Waiting,
                    ram := Ram(t.nvs.floor, t.nvs.pendSeq, t.nvs.failedSeq, true, false, false), log := u.log)
  {
    Stay(t, signed);
    u := Go(t, t, Power(BootUp), signed);
    u := Go(t, u, Power(LoadState), signed);
    u := Go(t, u, Power(ArmOnTrial), signed);
    u := Go(t, u, Power(StartTasks), signed);
  }

  lemma Installs(s: Dev, cmd: Command, signed: Issued) returns (u: Dev)
    requires Idling(s) && Welcome(s, cmd, signed)
    ensures Obeys(s, u, signed) && OnTrial(s, u, cmd)
  {
    var t := Downloads(s, cmd, signed);
    var v := CommitsAndRestarts(t, cmd, signed);
    u := BootsNew(v, signed);
    Then(s, t, v, signed);
    Then(s, v, u, signed);
  }

  lemma Reaches(t: Dev, signed: Issued) returns (u: Dev)
    requires t.boot.Up? && t.handler.Idle? && t.confirm.Waiting? && t.ram.awaiting && !t.ram.reportRollback
    ensures Obeys(t, u, signed)
    ensures u == t.(confirm := Marked, ram := t.ram.(awaiting := false, connected := false),
                    flash := t.flash.SetState(t.running, Valid), log := u.log)
  {
    Stay(t, signed);
    u := Go(t, t, Power(Connect), signed);
    u := Go(t, u, Confirm(TakeConnected), signed);
    u := Go(t, u, Confirm(MarkValid), signed);
  }

  lemma Raises(t: Dev, signed: Issued) returns (u: Dev)
    requires t.confirm.Marked? && t.nvs.pendSeq > t.ram.floor
    ensures Obeys(t, u, signed)
    ensures u == t.(confirm := FailedDropped(t.nvs.pendSeq),
                    ram := t.ram.(floor := t.nvs.pendSeq, pendingSeq := 0, failedSeq := 0),
                    nvs := t.nvs.(floor := t.nvs.pendSeq))
  {
    Stay(t, signed);
    u := Go(t, t, Confirm(AdvanceFloor), signed);
    u := Go(t, u, Confirm(StoreFloor), signed);
    u := Go(t, u, Confirm(DropFailed), signed);
  }

  lemma Erases(t: Dev, signed: Issued) returns (u: Dev)
    requires t.confirm.FailedDropped?
    ensures Obeys(t, u, signed)
    ensures u == t.(confirm := Finished, nvs := Nvs(t.nvs.floor, 0, 0, ""),
                    log := t.log + [Sent(Ok, t.confirm.pending)])
  {
    Stay(t, signed);
    u := Go(t, t, Confirm(EraseFailed), signed);
    u := Go(t, u, Confirm(EraseTarget), signed);
    u := Go(t, u, Confirm(EraseConfirmed), signed);
    u := Go(t, u, Confirm(ReportOk), signed);
  }

  /** Nothing in the way of an update. */
  predicate Clean(s: Dev) { Idling(s) && s.nvs.floor == s.ram.floor }

  /** In a reachable state the floors agree whenever the device idles. */
  lemma IdlingIsClean(s: Dev, signed: Issued)
    requires Reachable(s, signed) && Idling(s)
    ensures Clean(s)
  {
    ReachableInv(s, signed);
  }

  /** A welcome update can be applied, confirmed and reported, and raises the floor to its sequence. */
  lemma UpdateSucceeds(s: Dev, cmd: Command, signed: Issued) returns (u: Dev)
    requires Clean(s) && Welcome(s, cmd, signed)
    ensures Obeys(s, u, signed) && Clean(u)
    ensures u.running == !s.running && u.flash.At(u.running) == Slot(Firmware(cmd.digest), Valid)
    ensures u.nvs.floor == cmd.sequence && u.ram.failedSeq == 0
    ensures u.log != [] && u.log[|u.log| - 1] == Sent(Ok, cmd.sequence)
  {
    var t := Installs(s, cmd, signed);
    var v := Reaches(t, signed);
    var w := Raises(v, signed);
    u := Erases(w, signed);
    Then(s, t, v, signed);
    Then(s, v, w, signed);
    Then(s, w, u, signed);
  }

  /** An image that never connects is rolled back and its sequence quarantined. */
  lemma UpdateRollsBack(s: Dev, cmd: Command, signed: Issued) returns (u: Dev)
    requires Clean(s) && Welcome(s, cmd, signed)
    ensures Obeys(s, u, signed) && Clean(u)
    ensures u.running == s.running && u.flash.At(u.running) == s.flash.At(s.running)
    ensures u.nvs.floor == s.nvs.floor && u.ram.failedSeq == u.nvs.failedSeq == cmd.sequence && u.ram.reportRollback
  {
    var t := Installs(s, cmd, signed);
    var v := GivesUp(t, signed);
    u := FindsLeftover(v, signed);
    Then(s, t, v, signed);
    Then(s, v, u, signed);
  }

  lemma GivesUp(t: Dev, signed: Issued) returns (u: Dev)
    requires t.confirm.Waiting? && !t.ram.connected && t.flash.At(!t.running).state.Valid?
    ensures Obeys(t, u, signed)
    ensures u == t.(flash := t.flash.RollBack(t.running), running := !t.running,
                    boot := Arming, confirm := NoTask, handler := Idle, queue := [], ota := Resting,
                    ram := COLD.(floor := t.nvs.floor, failedSeq := t.nvs.failedSeq), log := u.log)
  {
    Stay(t, signed);
    u := Go(t, t, Confirm(TimeOut), signed);
    u := Go(t, u, Power(BootUp), signed);
    u := Go(t, u, Power(LoadState), signed);
  }

  lemma FindsLeftover(t: Dev, signed: Issued) returns (u: Dev)
    requires t.boot.Arming? && t.flash.At(t.running).state.Valid? && t.nvs.pendSeq > t.ram.floor
    ensures Obeys(t, u, signed)
    ensures u == t.(boot := Up, ram := t.ram.(reportRollback := true, failedSeq := t.nvs.pendSeq),
                    nvs := Nvs(t.nvs.floor, 0, t.nvs.pendSeq, ""))
  {
    Stay(t, signed);
    u := Go(t, t, Power(ArmLeftover), signed);
    u := Go(t, u, Power(ErasePend), signed);
    u := Go(t, u, Power(Judge), signed);
    u := Go(t, u, Power(StoreQuarantine), signed);
    u := Go(t, u, Power(StartTasks), signed);
  }

  lemma FirstBoot(digest: Digest, signed: Issued) returns (u: Dev)
    ensures Obeys(Factory(digest), u, signed) && Clean(u) && u.ram.floor == u.ram.failedSeq == 0
  {
    var s := Factory(digest);
    Stay(s, signed);
    u := Go(s, s, Power(BootUp), signed);
    u := Go(s, u, Power(LoadState), signed);
    u := Go(s, u, Power(ArmClean), signed);
    u := Go(s, u, Power(StartTasks), signed);
  }

  /**
   A comment in confirm_task holds that a quarantined sequence is below the floor once
   another image is confirmed. It is not if the confirmed sequence is the smaller one:
   there is a run in which the higher sequence failed and was quarantined, the lower
   one is then confirmed, and the failed one is welcome again.
   */
  lemma QuarantineForgotten(digest: Digest, low: Command, high: Command, signed: Issued) returns (s: Dev, t: Dev)
    requires 0 < low.sequence < high.sequence
    requires low.signature == Over(low.sequence, low.digest) && (low.sequence, low.digest) in signed
    requires high.signature == Over(high.sequence, high.digest) && (high.sequence, high.digest) in signed
    ensures Obeys(Factory(digest), s, signed) && s.nvs.failedSeq == high.sequence
    ensures Obeys(s, t, signed) && t.ram.floor == low.sequence && Clean(t) && Welcome(t, high, signed)
  {
    var first := FirstBoot(digest, signed);
    s := UpdateRollsBack(first, high, signed);
    Then(Factory(digest), first, s, signed);
    t := UpdateSucceeds(s, low, signed);
  }

  /** The handler has accepted a command with this sequence. */
  predicate Accepts(s: Dev, n: nat) { s.handler.Accepted? && s.handler.cmd.sequence == n }

  /** Whatever is accepted lies above the persisted floor. */
  lemma AcceptedAboveFloor(s: Dev, n: nat, signed: Issued)
    requires Inv(s, signed) && Accepts(s, n)
    ensures n > s.nvs.floor
  {
  }

  lemma NeverBelow(s: Dev, t: Dev, n: nat, signed: Issued)
    requires Inv(s, signed) && Leads(s, t, signed) && n <= s.nvs.floor
    ensures !Accepts(t, n)
  {
    var ls: seq<Step> :| Exec(s, ls, signed) == Some(t);
    RunKeeps(s, ls, signed);
    RunRaisesFloor(s, ls, signed);
    if Accepts(t, n) { AcceptedAboveFloor(t, n, signed); }
  }

  /** The rest of the bookkeeping, and a restart. */
  lemma BooksAndRestarts(s: Dev, signed: Issued) returns (u: Dev)
    requires s.confirm.FloorStored?
    ensures Obeys(s, u, signed)
    ensures u == Dev(s.flash, Nvs(s.nvs.floor, 0, 0, ""), COLD, false, Off, NoTask, Idle, [], Resting, u.log)
  {
    Stay(s, signed);
    var t := Go(s, s, Confirm(DropFailed), signed);
    var v := Erases(t, signed);
    Then(s, t, v, signed);
    u := Go(s, v, Power(PowerCut), signed);
  }

  lemma BootsClean(s: Dev, signed: Issued) returns (u: Dev)
    requires s.boot.Off? && s.handler.Idle? && s.ram == COLD && s.flash.At(s.flash.selected).state.Valid?
      && s.nvs.pendSeq == 0
    ensures Obeys(s, u, signed)
    ensures u == s.(running := s.flash.selected, boot := Up,
                    ram := COLD.(floor := s.nvs.floor, failedSeq := s.nvs.failedSeq), log := u.log)
  {
    Stay(s, signed);
    u := Go(s, s, Power(BootUp), signed);
    u := Go(s, u, Power(LoadState), signed);
    u := Go(s, u, Power(ArmClean), signed);
    u := Go(s, u, Power(StartTasks), signed);
  }

  lemma TakesIt(s: Dev, n: nat, signed: Issued) returns (u: Dev)
    requires s.boot.Up? && s.handler.Idle? && s.ram.pendingSeq == s.ram.failedSeq == 0 && n > s.ram.floor
    ensures Leads(s, u, signed) && Accepts(u, n)
  {
    var l := Handle(Receive(Command("", "", Junk, n)));
    var t := Next(s, l).value;
    u := Next(t, Handle(Claim)).value;
    assert [l][..0] == [] && [l, Handle(Claim)][..1] == [l];
    assert Exec(s, [l], signed) == Some(t);
    assert Exec(s, [l, Handle(Claim)], signed) == Some(u);
  }

  /** While the bookkeeping is under way the running image is confirmed and selected, and the floor is stored. */
  lemma BookkeepingState(s: Dev, signed: Issued)
    requires Inv(s, signed) && s.confirm.FloorStored? && !s.boot.Off?
    ensures s.nvs.floor == s.ram.floor && s.flash.At(s.flash.selected).state.Valid?
  {
  }

  lemma WelcomeAgain(s: Dev, n: nat, signed: Issued) returns (u: Dev)
    requires Inv(s, signed) && s.confirm.FloorStored? && !s.boot.Off? && n > s.ram.floor
    ensures Leads(s, u, signed) && Accepts(u, n)
  {
    BookkeepingState(s, signed);
    var t := BooksAndRestarts(s, signed);
    var v := BootsClean(t, signed);
    u := TakesIt(v, n, signed);
    Then(s, t, v, signed);
    var ls: seq<Step> :| Exec(s, ls, signed) == Some(v);
    var ms: seq<Step> :| Exec(v, ms, signed) == Some(u);
    ExecJoins(s, ls, ms, signed);
  }

  /** The quarantine of n is about to be dropped: confirm_task has stored the floor. */
  predicate Dropping(s: Dev, n: nat) { s.confirm.FloorStored? && !s.boot.Off? && s.ram.failedSeq == n != 0 }

  /**
   What dropping the quarantine costs. From the moment the floor of the confirmed image
   is stored, some later run accepts the quarantined sequence again exactly if it is
   above that floor; otherwise no run ever does.
   */
  lemma DroppedQuarantine(s: Dev, n: nat, signed: Issued)
    requires Reachable(s, signed) && Dropping(s, n)
    ensures (exists t :: Leads(s, t, signed) && Accepts(t, n)) <==> n > s.ram.floor
  {
    ReachableInv(s, signed);
    BookkeepingState(s, signed);
    if n > s.ram.floor {
      var t := WelcomeAgain(s, n, signed);
    } else {
      forall t | Leads(s, t, signed) ensures !Accepts(t, n) { NeverBelow(s, t, n, signed); }
    }
  }
}
