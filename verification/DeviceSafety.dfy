/** What every step of the device keeps, power cuts included. */
module DeviceSafety {
  import opened Optional
  import opened DeviceOta

  type Issued = set<(nat, Digest)>

  // ---------------------------------------------------------------- the invariant

  /** The image in a slot carries a signature for this sequence. */
  predicate Bears(content: Content, sequence: nat, signed: Issued) {
    content.Firmware? && (sequence, content.digest) in signed
  }

  /** The selected slot runs a confirmed image, or one on trial with a confirmed one behind it. */
  predicate FlashInv(s: Dev, signed: Issued) {
    var sel := s.flash.At(s.flash.selected);
    && s.flash.Confirmed(s.flash.Fallback())
    && (sel.state.New? || sel.state.PendingVerify? || sel.state.Valid?)
    && (!sel.state.Valid? ==> s.nvs.pendSeq != 0 && Bears(sel.content, s.nvs.pendSeq, signed))
  }

  /** Which slot runs, and what may go on while its image is on trial. */
  predicate RunInv(s: Dev) {
    var here := s.flash.At(s.running);
    s.boot.Off? || (
    && s.running == (if s.ota.Switched? then !s.flash.selected else s.flash.selected)
    && (s.ota.Switched? <==> s.flash.At(s.flash.selected).state.New?)
    && (here.state.PendingVerify? ==>
          && s.Jobs() == 0
          && (if s.boot.Loading? || s.boot.Arming? then s.confirm.NoTask? else s.confirm.Waiting? || s.confirm.Taken?))
    && (s.confirm.Waiting? || s.confirm.Taken? ==> here.state.PendingVerify?)
    && (here.state.Valid? || here.state.PendingVerify?))
  }

  /** One claim, held by one job or by the image on trial. */
  predicate ClaimInv(s: Dev) {
    && s.Jobs() <= 1
    && (s.handler.Accepted? ==> s.ram.pendingSeq == s.handler.cmd.sequence)
    && (s.queue != [] ==> s.ram.pendingSeq == s.queue[0].sequence)
    && (s.ota.Claimed() ==> s.ram.pendingSeq == s.ota.cmd.sequence)
    && (s.Jobs() == 1 ==> s.ram.pendingSeq > s.ram.floor && !s.confirm.Holding())
    && (s.confirm.Holding() ==> s.ram.pendingSeq == s.nvs.pendSeq != 0)
    && (s.ram.pendingSeq != 0 && s.Jobs() == 0 ==> s.confirm.Holding())
  }

  /** Before the tasks are started there is nothing in their hands. */
  predicate BootInv(s: Dev) {
    && (!s.boot.Up? ==> s.handler.Idle? && s.queue == [] && s.ota.Resting?)
    && (s.boot.Off? || s.boot.Loading? ==> s.ram == COLD && s.confirm.NoTask?)
    && (s.boot.Arming? || s.boot.ErasingPend? || s.boot.Judging? || s.boot.Quarantining? ==>
          s.confirm.NoTask? && s.ram.pendingSeq == 0)
    && (s.boot.ErasingPend? || s.boot.Judging? || s.boot.Quarantining? ==> s.boot.pending != 0)
    && (s.boot.Judging? || s.boot.Quarantining? ==> s.nvs.pendSeq == 0)
    && (s.boot.Quarantining? ==> s.ram.failedSeq == s.boot.pending)
  }

  /** The persisted floor follows the one in RAM, which confirm_task raises first. */
  predicate FloorInv(s: Dev) {
    s.boot.Off? || s.boot.Loading? ||
    if s.confirm.Advanced? && s.confirm.store
    then s.nvs.floor <= s.ram.floor == s.confirm.pending
    else s.nvs.floor == s.ram.floor
  }

  /** What ota_task knows about the other slot and the pending key while it commits. */
  predicate CommitInv(s: Dev, signed: Issued) {
    && (s.ota.Written? ==> s.flash.At(!s.running).content == Firmware(s.ota.digest))
    && (s.ota.Verified? || s.ota.Committing() ==>
          && s.flash.At(!s.running).content == Firmware(s.ota.cmd.digest)
          && (s.ota.cmd.sequence, s.ota.cmd.digest) in signed)
    && (s.ota.PendStored? || s.ota.Switched? ==> s.nvs.pendSeq == s.ota.cmd.sequence)
    && (s.ota.Committing() ==> !s.confirm.Bookkeeping())
  }

  /** Commands on their way carry only issued signatures. */
  predicate Carries(cmd: Command, signed: Issued) {
    cmd.signature.Over? ==> (cmd.signature.sequence, cmd.signature.digest) in signed
  }

  predicate GenuineInv(s: Dev, signed: Issued) {
    && (s.handler.Checked? || s.handler.Accepted? ==> Carries(s.handler.cmd, signed))
    && (s.queue != [] ==> Carries(s.queue[0], signed))
    && (s.ota.Claimed() ==> Carries(s.ota.cmd, signed))
  }

  predicate Inv(s: Dev, signed: Issued) {
    FlashInv(s, signed) && RunInv(s) && ClaimInv(s) && BootInv(s) && FloorInv(s) && CommitInv(s, signed)
      && GenuineInv(s, signed)
  }

  lemma FactoryInv(digest: Digest, signed: Issued)
    ensures Inv(Factory(digest), signed)
  {
  }

  // ---------------------------------------------------------------- every step keeps it

  lemma BootKeeps(s: Dev, p: PowerStep, signed: Issued)
    requires p.PowerCut? || p.BootUp? || p.LoadState? || p.ArmOnTrial?
    requires Inv(s, signed) && PowerNext(s, p).Some?
    ensures Inv(PowerNext(s, p).value, signed)
  {
    var t := PowerNext(s, p).value;
    assert FlashInv(t, signed) && RunInv(t);
  }

  lemma ArmKeeps(s: Dev, p: PowerStep, signed: Issued)
    requires !p.PowerCut? && !p.BootUp? && !p.LoadState? && !p.ArmOnTrial?
    requires Inv(s, signed) && PowerNext(s, p).Some?
    ensures Inv(PowerNext(s, p).value, signed)
  {
    ArmFlash(s, p, signed);
    ArmClaims(s, p);
    ArmFloor(s, p);
    ArmJobs(s, p, signed);
  }

  lemma ArmFloor(s: Dev, p: PowerStep)
    requires !p.PowerCut? && !p.BootUp? && !p.LoadState? && !p.ArmOnTrial?
    requires BootInv(s) && FloorInv(s) && PowerNext(s, p).Some?
    ensures FloorInv(PowerNext(s, p).value)
  {
  }

  lemma ArmJobs(s: Dev, p: PowerStep, signed: Issued)
    requires !p.PowerCut? && !p.BootUp? && !p.LoadState? && !p.ArmOnTrial?
    requires BootInv(s) && CommitInv(s, signed) && GenuineInv(s, signed) && PowerNext(s, p).Some?
    ensures CommitInv(PowerNext(s, p).value, signed) && GenuineInv(PowerNext(s, p).value, signed)
  {
  }

  lemma ArmClaims(s: Dev, p: PowerStep)
    requires !p.PowerCut? && !p.BootUp? && !p.LoadState? && !p.ArmOnTrial?
    requires ClaimInv(s) && BootInv(s) && PowerNext(s, p).Some?
    ensures ClaimInv(PowerNext(s, p).value) && BootInv(PowerNext(s, p).value)
  {
  }

  lemma ArmFlash(s: Dev, p: PowerStep, signed: Issued)
    requires !p.PowerCut? && !p.BootUp? && !p.LoadState? && !p.ArmOnTrial?
    requires FlashInv(s, signed) && RunInv(s) && BootInv(s) && PowerNext(s, p).Some?
    ensures FlashInv(PowerNext(s, p).value, signed) && RunInv(PowerNext(s, p).value)
  {
  }

  lemma VerdictKeeps(s: Dev, c: ConfirmStep, signed: Issued)
    requires c.TimeOut? || c.TakeConnected? || c.MarkValid? || c.MarkFails?
    requires Inv(s, signed) && ConfirmNext(s, c).Some?
    ensures Inv(ConfirmNext(s, c).value, signed)
  {
    var t := ConfirmNext(s, c).value;
    assert FlashInv(t, signed) && RunInv(t);
  }

  lemma BookkeepingKeeps(s: Dev, c: ConfirmStep, signed: Issued)
    requires !c.TimeOut? && !c.TakeConnected? && !c.MarkValid? && !c.MarkFails?
    requires Inv(s, signed) && ConfirmNext(s, c).Some?
    ensures Inv(ConfirmNext(s, c).value, signed)
  {
    BookkeepingFlash(s, c, signed);
    BookkeepingClaims(s, c);
    var t := ConfirmNext(s, c).value;
    assert t.flash == s.flash;
  }

  lemma BookkeepingClaims(s: Dev, c: ConfirmStep)
    requires !c.TimeOut? && !c.TakeConnected? && !c.MarkValid? && !c.MarkFails?
    requires ClaimInv(s) && BootInv(s) && ConfirmNext(s, c).Some?
    ensures ClaimInv(ConfirmNext(s, c).value) && BootInv(ConfirmNext(s, c).value)
  {
  }

  lemma BookkeepingFlash(s: Dev, c: ConfirmStep, signed: Issued)
    requires !c.TimeOut? && !c.TakeConnected? && !c.MarkValid? && !c.MarkFails?
    requires FlashInv(s, signed) && RunInv(s) && BootInv(s) && CommitInv(s, signed) && ConfirmNext(s, c).Some?
    ensures FlashInv(ConfirmNext(s, c).value, signed) && RunInv(ConfirmNext(s, c).value)
  {
  }

  lemma HandleKeeps(s: Dev, h: CommandStep, signed: Issued)
    requires Inv(s, signed) && HandleNext(s, h).Some? && Genuine(Handle(h), signed)
    ensures Inv(HandleNext(s, h).value, signed)
  {
    var t := HandleNext(s, h).value;
    assert t.flash == s.flash && t.nvs == s.nvs && t.ota == s.ota && t.confirm == s.confirm;
    assert FlashInv(t, signed) && RunInv(t);
  }

  lemma WriteKeeps(s: Dev, o: OtaStep, signed: Issued)
    requires o.BeginWrite? || o.FinishWrite? || o.Switch? || o.StorePending?
    requires Inv(s, signed) && WorkNext(s, o).Some?
    ensures Inv(WorkNext(s, o).value, signed)
  {
    var t := WorkNext(s, o).value;
    assert FlashInv(t, signed) && RunInv(t);
  }

  /** The steps of ota_task around the commit. */
  predicate Early(o: OtaStep) {
    o.TakeJob? || o.GiveUpEarly? || o.ReportUpdating? || o.AbortWrite? || o.VerifyFails? || o.VerifyOk?
      || o.StoreTarget?
  }

  lemma EarlyKeeps(s: Dev, o: OtaStep, signed: Issued)
    requires Early(o) && Inv(s, signed) && WorkNext(s, o).Some?
    ensures Inv(WorkNext(s, o).value, signed)
  {
    var t := WorkNext(s, o).value;
    assert t.flash == s.flash;
    assert FlashInv(t, signed) && RunInv(t);
  }

  lemma LateKeeps(s: Dev, o: OtaStep, signed: Issued)
    requires o.SwitchFails? || o.UndoTarget? || o.UndoPending? || o.Restart? || o.ClearClaim? || o.ReportFailed?
    requires Inv(s, signed) && WorkNext(s, o).Some?
    ensures Inv(WorkNext(s, o).value, signed)
  {
    var t := WorkNext(s, o).value;
    assert t.flash == s.flash;
    assert FlashInv(t, signed) && RunInv(t);
  }

  lemma JobKeeps(s: Dev, o: OtaStep, signed: Issued)
    requires !o.BeginWrite? && !o.FinishWrite? && !o.Switch? && !o.StorePending?
    requires Inv(s, signed) && WorkNext(s, o).Some?
    ensures Inv(WorkNext(s, o).value, signed)
  {
    if Early(o) { EarlyKeeps(s, o, signed); } else { LateKeeps(s, o, signed); }
  }

  lemma StepKeeps(s: Dev, l: Step, signed: Issued)
    requires Inv(s, signed) && Next(s, l).Some? && Genuine(l, signed)
    ensures Inv(Next(s, l).value, signed)
  {
    match l
    case Power(p) =>
      if p.PowerCut? || p.BootUp? || p.LoadState? || p.ArmOnTrial? { BootKeeps(s, p, signed); }
      else { ArmKeeps(s, p, signed); }
    case Confirm(c) =>
      if c.TimeOut? || c.TakeConnected? || c.MarkValid? || c.MarkFails? { VerdictKeeps(s, c, signed); }
      else { BookkeepingKeeps(s, c, signed); }
    case Handle(h) => HandleKeeps(s, h, signed);
    case Work(o) =>
      if o.BeginWrite? || o.FinishWrite? || o.Switch? || o.StorePending? { WriteKeeps(s, o, signed); }
      else { JobKeeps(s, o, signed); }
  }

  // ---------------------------------------------------------------- runs

  lemma {:induction false} RunKeeps(s: Dev, ls: seq<Step>, signed: Issued)
    requires Inv(s, signed) && Exec(s, ls, signed).Some?
    ensures Inv(Exec(s, ls, signed).value, signed)
  {
    if ls != [] {
      var before := ls[..|ls| - 1];
      RunKeeps(s, before, signed);
      StepKeeps(Exec(s, before, signed).value, ls[|ls| - 1], signed);
    }
  }

  /** Some genuine run from the factory leads to s. */
  ghost predicate Reachable(s: Dev, signed: Issued) {
    exists digest: Digest, ls: seq<Step> :: Exec(Factory(digest), ls, signed) == Some(s)
  }

  /** Some genuine run leads from s to t. */
  ghost predicate Leads(s: Dev, t: Dev, signed: Issued) { exists ls: seq<Step> :: Exec(s, ls, signed) == Some(t) }

  lemma ReachableInv(s: Dev, signed: Issued)
    requires Reachable(s, signed)
    ensures Inv(s, signed)
  {
    var digest: Digest, ls: seq<Step> :| Exec(Factory(digest), ls, signed) == Some(s);
    RunKeeps(Factory(digest), ls, signed);
  }

  /** What the device runs after its power is cut and it starts again. */
  function Reboot(s: Dev): Dev { PowerNext(s.Cut(), BootUp).value }

  /**
   In every reachable state, whatever was cut off in between, there is a confirmed
   image in the slot the bootloader ends up in: the next boot runs it, or runs an
   image on trial whose failure makes the boot after that run it.
   */
  lemma ConfirmedImageSurvives(s: Dev, signed: Issued)
    requires Reachable(s, signed)
    ensures var once := Reboot(s);
            var twice := Reboot(once);
            && s.flash.Confirmed(s.flash.Fallback())
            && (once.running == s.flash.Fallback() || twice.running == s.flash.Fallback())
            && once.flash.At(s.flash.Fallback()) == twice.flash.At(s.flash.Fallback()) == s.flash.At(s.flash.Fallback())
            && once.flash.At(once.running).content.Firmware?
  {
    ReachableInv(s, signed);
  }

  lemma TrialStep(s: Dev, l: Step, signed: Issued)
    requires Inv(s, signed) && !s.boot.Off? && s.flash.At(s.running).state.PendingVerify? && Next(s, l).Some?
    ensures var t := Next(s, l).value;
            t.boot.Off? || (t.Jobs() == 0 && t.flash.At(!s.running) == s.flash.At(!s.running)
              && t.flash.selected == s.flash.selected)
  {
    match l
    case Power(p) => assert p != PowerCut ==> PowerNext(s, p).value.flash == s.flash;
    case Confirm(c) =>
    case Handle(h) => assert HandleNext(s, h).value.flash == s.flash;
    case Work(o) => assert o == ReportFailed;
  }

  /**
   While the running image is unconfirmed no command is accepted and the other
   slot, the one to roll back to, is neither written nor selected.
   */
  lemma NothingHappensOnTrial(s: Dev, l: Step, signed: Issued)
    requires Reachable(s, signed) && !s.boot.Off? && s.flash.At(s.running).state.PendingVerify?
    requires Next(s, l).Some? && !Next(s, l).value.boot.Off?
    ensures var t := Next(s, l).value;
            && t.Jobs() == 0
            && t.flash.At(!s.running) == s.flash.At(!s.running)
            && t.flash.selected == s.flash.selected
  {
    ReachableInv(s, signed);
    TrialStep(s, l, signed);
  }

  /** At most one job is accepted and not released, so the queue is empty whenever one is sent to it. */
  lemma OneJobInFlight(s: Dev, signed: Issued)
    requires Reachable(s, signed)
    ensures s.Jobs() <= 1
    ensures s.handler.Accepted? ==>
              s.queue == [] && HandleNext(s, Enqueue) == Some(s.(queue := [s.handler.cmd], handler := Idle))
    ensures s.handler.Checked? && s.Jobs() == 1 ==>
              HandleNext(s, Claim) == Some(s.(handler := Refused(s.handler.cmd, s.ram.floor, s.ram.pendingSeq)))
  {
    ReachableInv(s, signed);
    assert s.handler.Accepted? ==> s.queue + [s.handler.cmd] == [s.handler.cmd];
  }

  /**
   clear_inflight releases a claim only together with the job that holds it: whenever
   ota_task gives a job up, the claim is that job's own, it alone is released, and no
   other job is left behind without one.
   */
  lemma ReleaseIsOwn(s: Dev, signed: Issued)
    requires Reachable(s, signed) && s.ota.GivingUp?
    ensures s.ram.pendingSeq == s.ota.cmd.sequence != 0 && s.Jobs() == 1
    ensures var t := WorkNext(s, ClearClaim).value;
            t.ram == s.ram.(pendingSeq := 0) && t.Jobs() == 0 && t.queue == [] && !t.handler.Accepted?
  {
    ReachableInv(s, signed);
  }

  // ---------------------------------------------------------------- anti-downgrade

  lemma FloorRaised(s: Dev, c: ConfirmStep, signed: Issued)
    requires Inv(s, signed) && ConfirmNext(s, c).Some?
    ensures s.nvs.floor <= ConfirmNext(s, c).value.nvs.floor
  {
  }

  lemma FloorStep(s: Dev, l: Step, signed: Issued)
    requires Inv(s, signed) && Next(s, l).Some?
    ensures s.nvs.floor <= Next(s, l).value.nvs.floor
  {
    if l.Confirm? { FloorRaised(s, l.c, signed); }
  }

  lemma {:induction false} RunRaisesFloor(s: Dev, ls: seq<Step>, signed: Issued)
    requires Inv(s, signed) && Exec(s, ls, signed).Some?
    ensures s.nvs.floor <= Exec(s, ls, signed).value.nvs.floor
  {
    if ls != [] {
      var before := ls[..|ls| - 1];
      RunRaisesFloor(s, before, signed);
      RunKeeps(s, before, signed);
      FloorStep(Exec(s, before, signed).value, ls[|ls| - 1], signed);
    }
  }

  /** The persisted floor never decreases, over any stretch of any run. */
  lemma FloorNeverFalls(s: Dev, t: Dev, signed: Issued)
    requires Reachable(s, signed) && Leads(s, t, signed)
    ensures s.nvs.floor <= t.nvs.floor
  {
    ReachableInv(s, signed);
    var ls: seq<Step> :| Exec(s, ls, signed) == Some(t);
    RunRaisesFloor(s, ls, signed);
  }

  /**
   Whatever is committed to the boot partition lies strictly above both floors at
   that moment, was announced in NVS, and is the image its sequence was signed with.
   */
  lemma CommitsAboveTheFloor(s: Dev, signed: Issued)
    requires Reachable(s, signed) && WorkNext(s, Switch).Some?
    ensures var t := WorkNext(s, Switch).value;
            && s.ota.cmd.sequence > s.ram.floor
            && s.ota.cmd.sequence > s.nvs.floor
            && t.nvs.pendSeq == s.ota.cmd.sequence
            && Bears(t.flash.At(t.flash.selected).content, s.ota.cmd.sequence, signed)
  {
    ReachableInv(s, signed);
  }

  // ---------------------------------------------------------------- quarantine

  /** Sequence n sits in the persisted quarantine and nothing on the device pursues it. */
  predicate Barred(s: Dev, n: nat) {
    && n != 0
    && s.nvs.failedSeq == n
    && s.nvs.pendSeq != n
    && (s.boot.Off? || s.boot.Loading? || s.boot.Quarantining? || s.ram.failedSeq == n)
    && (s.boot.ErasingPend? || s.boot.Judging? || s.boot.Quarantining? ==> s.boot.pending != n)
    && (s.confirm.NoTask? || s.confirm.Waiting? || s.confirm.Taken?)
    && (s.handler.Checked? || s.handler.Accepted? ==> s.handler.cmd.sequence != n)
    && (forall c :: c in s.queue ==> c.sequence != n)
    && (s.ota.Claimed() ==> s.ota.cmd.sequence != n)
  }

  /** Steps that do not confirm another image or quarantine another sequence. */
  predicate Quiet(l: Step) { l != Confirm(MarkValid) && l != Power(StoreQuarantine) }

  lemma BarredPower(s: Dev, p: PowerStep, n: nat, signed: Issued)
    requires Inv(s, signed) && Barred(s, n) && Quiet(Power(p)) && PowerNext(s, p).Some?
    ensures Barred(PowerNext(s, p).value, n)
  {
  }

  lemma BarredConfirm(s: Dev, c: ConfirmStep, n: nat, signed: Issued)
    requires Inv(s, signed) && Barred(s, n) && Quiet(Confirm(c)) && ConfirmNext(s, c).Some?
    ensures Barred(ConfirmNext(s, c).value, n)
  {
  }

  lemma BarredHandle(s: Dev, h: CommandStep, n: nat, signed: Issued)
    requires Inv(s, signed) && Barred(s, n) && Quiet(Handle(h)) && HandleNext(s, h).Some?
    ensures Barred(HandleNext(s, h).value, n)
  {
  }

  lemma BarredWork(s: Dev, o: OtaStep, n: nat, signed: Issued)
    requires Inv(s, signed) && Barred(s, n) && Quiet(Work(o)) && WorkNext(s, o).Some?
    ensures Barred(WorkNext(s, o).value, n)
  {
  }

  lemma BarredStep(s: Dev, l: Step, n: nat, signed: Issued)
    requires Inv(s, signed) && Barred(s, n) && Quiet(l) && Next(s, l).Some?
    ensures Barred(Next(s, l).value, n)
  {
    match l
    case Power(p) => BarredPower(s, p, n, signed);
    case Confirm(c) => BarredConfirm(s, c, n, signed);
    case Handle(h) => BarredHandle(s, h, n, signed);
    case Work(o) => BarredWork(s, o, n, signed);
  }

  lemma QuarantineStarts(s: Dev, n: nat, signed: Issued)
    requires Inv(s, signed) && s.boot == Quarantining(n) && s.nvs.pendSeq == 0 && s.ram.failedSeq == n
    ensures Barred(PowerNext(s, StoreQuarantine).value, n)
  {
  }

  lemma {:induction false} RunBarred(s: Dev, n: nat, ms: seq<Step>, signed: Issued)
    requires Inv(s, signed) && Barred(s, n) && Exec(s, ms, signed).Some? && forall l :: l in ms ==> Quiet(l)
    ensures Barred(Exec(s, ms, signed).value, n)
  {
    if ms != [] {
      var before, l := ms[..|ms| - 1], ms[|ms| - 1];
      assert l in ms && forall k :: k in before ==> k in ms;
      RunBarred(s, n, before, signed);
      RunKeeps(s, before, signed);
      BarredStep(Exec(s, before, signed).value, l, n, signed);
    }
  }

  /** Some genuine run of quiet steps leads from s to t. */
  ghost predicate LeadsQuietly(s: Dev, t: Dev, signed: Issued) {
    exists ms: seq<Step> :: Exec(s, ms, signed) == Some(t) && forall l :: l in ms ==> Quiet(l)
  }

  /**
   Once n is persisted in the quarantine it is not accepted, queued, processed or
   committed in any later state, reboots and power cuts included, until another
   image is marked valid or another sequence is quarantined (and it is another
   one: n itself can be neither on trial nor left over).
   */
  lemma QuarantineHolds(s: Dev, n: nat, t: Dev, signed: Issued)
    requires Reachable(s, signed) && s.boot == Quarantining(n)
    requires LeadsQuietly(PowerNext(s, StoreQuarantine).value, t, signed)
    ensures Barred(t, n)
  {
    ReachableInv(s, signed);
    QuarantineStarts(s, n, signed);
    var u := PowerNext(s, StoreQuarantine).value;
    StepKeeps(s, Power(StoreQuarantine), signed);
    var ms: seq<Step> :| Exec(u, ms, signed) == Some(t) && forall l :: l in ms ==> Quiet(l);
    RunBarred(u, n, ms, signed);
  }
}
