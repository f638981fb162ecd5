/**
 A device that is left alone comes to rest: whatever its tasks do and in whatever order, it idles
 after a bounded number of steps.
 */
module DeviceRest {
  import opened Optional
  import opened DeviceOta
  import opened DeviceSafety
  import opened DeviceProgress

  /**
   The steps that are the device's own: no power cut and no new command. The broker may
   be reached or not; that it is reached once more, without any effect, does not count.
   */
  predicate Own(s: Dev, l: Step) {
    match l
    case Power(p) => !p.PowerCut? && (p.Connect? ==> s.ram.awaiting || s.ram.reportRollback)
    case Confirm(_) => true
    case Handle(h) => !h.Receive?
    case Work(_) => true
  }

  // ---------------------------------------------------------------- what is left to do

  /** A life that begins with an image on trial may end in a second one. */
  function BootLeft(s: Dev): nat {
    match s.boot
    case Off => if s.flash.At(s.flash.selected).state.New? then 16 else 8
    case Loading => if s.flash.At(s.running).state.PendingVerify? then 15 else 7
    case Arming => if s.flash.At(s.running).state.PendingVerify? then 14 else 6
    case ErasingPend(_) => 5
    case Judging(_) => 4
    case Quarantining(_) => 2
    case Starting => 1
    case Up => 0
  }

  function ConfirmLeft(s: Dev): nat {
    match s.confirm
    case NoTask => 0
    case Waiting => if s.ram.connected then 11 else 10
    case Taken => 9
    case Marked => 7
    case Advanced(_, _) => 6
    case FloorStored(_) => 5
    case FailedDropped(_) => 4
    case FailedErased(_) => 3
    case TargetErased(_) => 2
    case PendErased(_) => 1
    case Finished => 0
  }

  /** An accepted command may lead to a restart with a new image. */
  function HandlerLeft(p: HandlerPc): nat {
    match p
    case Idle => 0
    case Checked(_) => 27
    case Accepted(_) => 26
    case Refused(_, _, _) => 1
  }

  function WorkLeft(p: OtaPc): nat {
    match p
    case Resting => 0
    case Job(_) => 24
    case Downloading(_) => 23
    case Writing(_) => 22
    case Written(_, _) => 21
    case Verified(_) => 20
    case TargetStored(_) => 19
    case PendStored(_) => 18
    case Switched(_) => 17
    case UndoingTarget(_) => 4
    case UndoingPend(_) => 3
    case GivingUp(_) => 2
    case Reporting(_) => 1
  }

  function Connections(r: Ram): nat { (if r.awaiting then 2 else 0) + if r.reportRollback then 1 else 0 }

  /** An upper bound for the steps that are left. */
  function Left(s: Dev): nat {
    BootLeft(s) + ConfirmLeft(s) + Connections(s.ram) + HandlerLeft(s.handler) + 25 * |s.queue| + WorkLeft(s.ota)
  }

  const ENOUGH := 64

  lemma LeftBounded(s: Dev, signed: Issued)
    requires Inv(s, signed)
    ensures Left(s) <= ENOUGH
  {
  }

  // ---------------------------------------------------------------- every step brings the device closer

  lemma PowerCloser(s: Dev, p: PowerStep, signed: Issued)
    requires Inv(s, signed) && Own(s, Power(p)) && PowerNext(s, p).Some?
    ensures Left(PowerNext(s, p).value) < Left(s)
  {
  }

  /** A roll-back, and any other reset of the device, leaves a confirmed image selected. */
  lemma ConfirmCloser(s: Dev, c: ConfirmStep, signed: Issued)
    requires Inv(s, signed) && ConfirmNext(s, c).Some?
    ensures Left(ConfirmNext(s, c).value) < Left(s)
  {
  }

  /** What the handler leaves alone, of what is counted. */
  predicate OthersStay(s: Dev, t: Dev) {
    && t.boot == s.boot && t.flash == s.flash && t.running == s.running && t.confirm == s.confirm && t.ota == s.ota
    && t.ram.connected == s.ram.connected && t.ram.awaiting == s.ram.awaiting
        && t.ram.reportRollback == s.ram.reportRollback
  }

  lemma HandlerOnly(s: Dev, h: CommandStep)
    requires !h.Receive? && HandleNext(s, h).Some?
    ensures OthersStay(s, HandleNext(s, h).value)
  {
  }

  lemma HandlerCloser(s: Dev, h: CommandStep)
    requires !h.Receive? && HandleNext(s, h).Some?
    ensures var t := HandleNext(s, h).value;
            HandlerLeft(t.handler) + 25 * |t.queue| < HandlerLeft(s.handler) + 25 * |s.queue|
  {
  }

  lemma HandleCloser(s: Dev, h: CommandStep)
    requires !h.Receive? && HandleNext(s, h).Some?
    ensures Left(HandleNext(s, h).value) < Left(s)
  {
    HandlerOnly(s, h);
    HandlerCloser(s, h);
  }

  lemma WorkCloser(s: Dev, o: OtaStep, signed: Issued)
    requires Inv(s, signed) && WorkNext(s, o).Some?
    ensures Left(WorkNext(s, o).value) < Left(s)
  {
    if !o.Restart? { WorkAlone(s, o); }
  }

  /** ota_task leaves the other tasks as they are, until it restarts the device. */
  lemma WorkAlone(s: Dev, o: OtaStep)
    requires BootInv(s) && !o.Restart? && WorkNext(s, o).Some?
    ensures var t := WorkNext(s, o).value;
            && BootLeft(t) == BootLeft(s) == 0 && ConfirmLeft(t) == ConfirmLeft(s)
                && Connections(t.ram) == Connections(s.ram)
            && t.handler == s.handler
            && (if o.TakeJob? then |t.queue| == |s.queue| - 1 && WorkLeft(t.ota) < WorkLeft(s.ota) + 25
                else t.queue == s.queue && WorkLeft(t.ota) < WorkLeft(s.ota))
  {
  }

  lemma OwnStepCloser(s: Dev, l: Step, signed: Issued)
    requires Inv(s, signed) && Own(s, l) && Next(s, l).Some?
    ensures Left(Next(s, l).value) < Left(s)
  {
    match l
    case Power(p) => PowerCloser(s, p, signed);
    case Confirm(c) => ConfirmCloser(s, c, signed);
    case Handle(h) => HandleCloser(s, h);
    case Work(o) => WorkCloser(s, o, signed);
  }

  // ---------------------------------------------------------------- and only idling stops it

  function BootStep(s: Dev): PowerStep {
    match s.boot
    case Off => BootUp
    case Loading => LoadState
    case Arming =>
      if s.flash.At(s.running).state.PendingVerify? then ArmOnTrial
      else if s.nvs.pendSeq == 0 then ArmClean
      else ArmLeftover
    case ErasingPend(_) => ErasePend
    case Judging(_) => Judge
    case Quarantining(_) => StoreQuarantine
    case Starting => StartTasks
    case Up => StartTasks
  }

  function ConfirmStepOf(s: Dev): ConfirmStep {
    match s.confirm
    case NoTask => TimeOut
    case Waiting => if s.ram.connected then TakeConnected else TimeOut
    case Taken => MarkValid
    case Marked => AdvanceFloor
    case Advanced(_, _) => StoreFloor
    case FloorStored(_) => DropFailed
    case FailedDropped(_) => EraseFailed
    case FailedErased(_) => EraseTarget
    case TargetErased(_) => EraseConfirmed
    case PendErased(_) => ReportOk
    case Finished => TimeOut
  }

  function HandlerStep(s: Dev): CommandStep {
    match s.handler
    case Idle => Claim
    case Checked(_) => Claim
    case Accepted(_) => Enqueue
    case Refused(_, _, _) => Answer
  }

  function WorkStep(s: Dev): OtaStep {
    match s.ota
    case Resting => TakeJob
    case Job(_) => ReportUpdating
    case Downloading(_) => BeginWrite
    case Writing(cmd) => FinishWrite(cmd.digest)
    case Written(cmd, digest) => if Verifies(cmd, digest) then VerifyOk else VerifyFails
    case Verified(_) => StoreTarget
    case TargetStored(_) => StorePending
    case PendStored(_) => Switch
    case Switched(_) => Restart
    case UndoingTarget(_) => UndoTarget
    case UndoingPend(_) => UndoPending
    case GivingUp(_) => ClearClaim
    case Reporting(_) => ReportFailed
  }

  /** Some task can take a step, with or without a connection, unless the device idles. */
  function Busy(s: Dev): Step {
    if !s.boot.Up? then Power(BootStep(s))
    else if !s.confirm.NoTask? && !s.confirm.Finished? then Confirm(ConfirmStepOf(s))
    else if !s.handler.Idle? then Handle(HandlerStep(s))
    else Work(WorkStep(s))
  }

  lemma BusyUnlessIdling(s: Dev, signed: Issued)
    requires Inv(s, signed) && !Idling(s)
    ensures Own(s, Busy(s)) && Busy(s) != Power(Connect) && Next(s, Busy(s)).Some?
  {
  }

  // ---------------------------------------------------------------- over whole runs

  /** A run of the device's own steps, in any order and with any outcome. */
  ghost predicate Alone(s: Dev, ls: seq<Step>, signed: Issued) {
    ls == [] ||
    (var n := |ls| - 1;
     && Alone(s, ls[..n], signed)
     && Exec(s, ls[..n], signed).Some? && Own(Exec(s, ls[..n], signed).value, ls[n])
     && Exec(s, ls, signed).Some?)
  }

  lemma {:induction false} AloneCloser(s: Dev, ls: seq<Step>, signed: Issued)
    requires Inv(s, signed) && Alone(s, ls, signed)
    ensures Exec(s, ls, signed).Some? && Inv(Exec(s, ls, signed).value, signed)
    ensures Left(Exec(s, ls, signed).value) + |ls| <= Left(s)
  {
    if ls != [] {
      var n := |ls| - 1;
      AloneCloser(s, ls[..n], signed);
      StepKeeps(Exec(s, ls[..n], signed).value, ls[n], signed);
      OwnStepCloser(Exec(s, ls[..n], signed).value, ls[n], signed);
    }
  }

  /**
   A device that is left alone in any reachable state, in the middle of a boot, a trial, a
   download or a commit, takes no more than 64 steps, whatever its tasks do and in
   whatever order: downloads may end or fail, images verify or not, the broker may be
   reached or not. As long as it does not idle it can take another step, and where it
   stops its floors agree.
   */
  lemma LeftAloneItIdles(s: Dev, ls: seq<Step>, signed: Issued)
    requires Reachable(s, signed) && Alone(s, ls, signed)
    ensures |ls| <= ENOUGH && Exec(s, ls, signed).Some?
    ensures var t := Exec(s, ls, signed).value;
            if Idling(t) then Clean(t) else Alone(s, ls + [Busy(t)], signed)
  {
    ReachableInv(s, signed);
    LeftBounded(s, signed);
    AloneCloser(s, ls, signed);
    var t := Exec(s, ls, signed).value;
    if !Idling(t) {
      BusyUnlessIdling(t, signed);
      assert (ls + [Busy(t)])[..|ls + [Busy(t)]| - 1] == ls;
    }
  }

  lemma {:induction false} Idles(s: Dev, ls: seq<Step>, signed: Issued) returns (run: seq<Step>)
    requires Reachable(s, signed) && Alone(s, ls, signed)
    ensures Alone(s, run, signed) && |run| <= ENOUGH
    ensures Exec(s, run, signed).Some? && Clean(Exec(s, run, signed).value)
    decreases ENOUGH - |ls|
  {
    LeftAloneItIdles(s, ls, signed);
    var t := Exec(s, ls, signed).value;
    if Idling(t) {
      run := ls;
    } else {
      LeftAloneItIdles(s, ls + [Busy(t)], signed);
      run := Idles(s, ls + [Busy(t)], signed);
    }
  }

  /** So from every reachable state there is such a run to one in which the device idles. */
  lemma IdlesAgain(s: Dev, signed: Issued) returns (run: seq<Step>)
    requires Reachable(s, signed)
    ensures Alone(s, run, signed) && |run| <= ENOUGH
    ensures Exec(s, run, signed).Some? && Clean(Exec(s, run, signed).value)
  {
    run := Idles(s, [], signed);
  }
}
