/**
 The OTA half of the ESP-IDF client as a transition system.

 Every NVS write, the boot-partition switch and the mark-valid call is a step of
 its own, and the power may be cut between any two of them. The tasks of the
 firmware (start-up, confirm_task, the MQTT event handler, ota_task) carry a
 program counter each, so their steps interleave freely; the one restriction is
 that the commit of a new image does not run inside the bookkeeping of
 confirm_task, which has the higher priority.
 */
module DeviceOta {
  import opened Optional

  /** A SHA-256 digest; the digest of an image stands for the image. */
  type Digest = string

  /** An Ed25519 signature: whatever does not verify is Junk. */
  datatype Signature = Junk | Over(sequence: nat, digest: Digest)

  /** A parsed cmd/ota message. */
  datatype Command = Command(version: string, digest: Digest, signature: Signature, sequence: nat)

  // ---------------------------------------------------------------- flash

  datatype ImageState = New | PendingVerify | Valid | Invalid | Aborted

  datatype Content = Blank | Partial | Firmware(digest: Digest)

  datatype Slot = Slot(content: Content, state: ImageState)

  /** Two OTA slots and the one that the otadata partition selects. */
  datatype Flash = Flash(low: Slot, high: Slot, selected: bool) {
    function At(slot: bool): Slot { if slot then high else low }

    function Put(slot: bool, s: Slot): Flash {
      if slot then this.(high := s) else this.(low := s)
    }

    function SetState(slot: bool, state: ImageState): Flash { Put(slot, At(slot).(state := state)) }

    function SetContent(slot: bool, content: Content): Flash { Put(slot, At(slot).(content := content)) }

    /** The slot the bootloader ends up in when the selected image never confirms. */
    function Fallback(): bool {
      if At(selected).state.New? || At(selected).state.PendingVerify? then !selected else selected
    }

    /** A slot that can run and whose image was confirmed before. */
    predicate Confirmed(slot: bool) { At(slot).state.Valid? && At(slot).content.Firmware? }

    /** The bootloader with rollback enabled: an image that was already on trial is abandoned. */
    function Bootload(): Flash {
      match At(selected).state
      case New => SetState(selected, PendingVerify)
      case Valid => this
      case _ => SetState(selected, Aborted).(selected := !selected)
    }

    /** esp_ota_mark_app_invalid_rollback_and_reboot, up to the reboot. */
    function RollBack(running: bool): Flash { SetState(running, Invalid).(selected := !running) }
  }

  // ---------------------------------------------------------------- state

  /** The NVS keys otaseq, otapendseq, otafailseq and otatarget. An erased key reads as 0 or "". */
  datatype Nvs = Nvs(floor: nat, pendSeq: nat, failedSeq: nat, target: string)

  /** The static variables of the client; a reset clears them. */
  datatype Ram = Ram(floor: nat, pendingSeq: nat, failedSeq: nat, awaiting: bool, connected: bool, reportRollback: bool)

  const COLD := Ram(0, 0, 0, false, false, false)

  datatype BootPc =
    | Off
    | Loading
    | Arming
    | ErasingPend(pending: nat)
    | Judging(pending: nat)
    | Quarantining(pending: nat)
    | Starting
    | Up

  datatype ConfirmPc =
    | NoTask
    | Waiting
    | Taken
    | Marked
    | Advanced(pending: nat, store: bool)
    | FloorStored(pending: nat)
    | FailedDropped(pending: nat)
    | FailedErased(pending: nat)
    | TargetErased(pending: nat)
    | PendErased(pending: nat)
    | Finished
  {
    /** Between mark-valid and the end of the bookkeeping. */
    predicate Bookkeeping() {
      Marked? || Advanced? || FloorStored? || FailedDropped? || FailedErased? || TargetErased?
    }

    /** The image still waits for its verdict, or the claim it holds was not released yet. */
    predicate Holding() { Waiting? || Taken? || Marked? }
  }

  datatype HandlerPc =
    | Idle
    | Checked(cmd: Command)
    | Accepted(cmd: Command)
    | Refused(cmd: Command, floor: nat, inflight: nat)

  datatype OtaPc =
    | Resting
    | Job(cmd: Command)
    | Downloading(cmd: Command)
    | Writing(cmd: Command)
    | Written(cmd: Command, digest: Digest)
    | Verified(cmd: Command)
    | TargetStored(cmd: Command)
    | PendStored(cmd: Command)
    | Switched(cmd: Command)
    | UndoingTarget(cmd: Command)
    | UndoingPend(cmd: Command)
    | GivingUp(cmd: Command)
    | Reporting(cmd: Command)
  {
    /** The job still owns the in-flight slot. */
    predicate Claimed() { !Resting? && !Reporting? }

    /** Inside the commit of a verified image. */
    predicate Committing() {
      TargetStored? || PendStored? || Switched? || UndoingTarget? || UndoingPend?
    }
  }

  datatype Status = Ok | Failed | Updating

  /** What an observer of the device sees, in order. */
  datatype Event =
    | Reset
    | Booted(digest: Digest)
    | Reached
    | MarkedValid
    | Sent(status: Status, sequence: nat)

  const QUEUE_LENGTH := 2

  datatype Dev = Dev(
    flash: Flash, nvs: Nvs, ram: Ram, running: bool,
    boot: BootPc, confirm: ConfirmPc, handler: HandlerPc, queue: seq<Command>, ota: OtaPc,
    log: seq<Event>)
  {
    function Cut(): Dev {
      Dev(flash, nvs, COLD, false, Off, NoTask, Idle, [], Resting, log + [Reset])
    }

    function Report(status: Status, sequence: nat): Dev { this.(log := log + [Sent(status, sequence)]) }

    /** clear_inflight. */
    function Release(sequence: nat): Dev {
      if ram.pendingSeq == sequence then this.(ram := ram.(pendingSeq := 0)) else this
    }

    /** How many accepted jobs there are whose claim is not released yet. */
    function Jobs(): nat {
      (if handler.Accepted? then 1 else 0) + |queue| + (if ota.Claimed() then 1 else 0)
    }
  }

  /** A device as it leaves the flashing station. */
  function Factory(digest: Digest): Dev {
    Dev(Flash(Slot(Firmware(digest), Valid), Slot(Blank, Invalid), false), Nvs(0, 0, 0, ""), COLD, false,
        Off, NoTask, Idle, [], Resting, [])
  }

  // ---------------------------------------------------------------- steps

  datatype PowerStep =
    | PowerCut
    | BootUp
    | LoadState
    | ArmOnTrial
    | ArmClean
    | ArmLeftover
    | ErasePend
    | Judge
    | StoreQuarantine
    | StartTasks
    | Connect

  datatype ConfirmStep =
    | TimeOut
    | TakeConnected
    | MarkValid
    | MarkFails
    | AdvanceFloor
    | StoreFloor
    | DropFailed
    | EraseFailed
    | EraseTarget
    | EraseConfirmed
    | ReportOk

  datatype CommandStep =
    | Receive(cmd: Command)
    | Claim
    | Enqueue
    | Answer

  datatype OtaStep =
    | TakeJob
    | GiveUpEarly
    | ReportUpdating
    | BeginWrite
    | FinishWrite(digest: Digest)
    | AbortWrite
    | VerifyFails
    | VerifyOk
    | StoreTarget
    | StorePending
    | Switch
    | SwitchFails
    | UndoTarget
    | UndoPending
    | Restart
    | ClearClaim
    | ReportFailed

  datatype Step = Power(p: PowerStep) | Confirm(c: ConfirmStep) | Handle(h: CommandStep) | Work(o: OtaStep)

  /** espmanager_start, arm_confirmation and the connected event. */
  function PowerNext(s: Dev, p: PowerStep): Option<Dev> {
    match p
    case PowerCut => Some(s.Cut())
    case BootUp =>
      if !s.boot.Off? then None else
      var f := s.flash.Bootload();
      var image := match f.At(f.selected).content case Firmware(d) => d case _ => "";
      Some(s.(flash := f, running := f.selected, boot := Loading, log := s.log + [Booted(image)]))
    case LoadState =>
      if !s.boot.Loading? then None else
      Some(s.(ram := s.ram.(floor := s.nvs.floor, failedSeq := s.nvs.failedSeq), boot := Arming))
    case ArmOnTrial =>
      if !s.boot.Arming? || !s.flash.At(s.running).state.PendingVerify? then None else
      Some(s.(ram := s.ram.(pendingSeq := s.nvs.pendSeq, awaiting := true, connected := false),
           confirm := Waiting, boot := Starting))
    case ArmClean =>
      if !s.boot.Arming? || s.flash.At(s.running).state.PendingVerify? || s.nvs.pendSeq != 0 then None else
      Some(s.(boot := Starting))
    case ArmLeftover =>
      if !s.boot.Arming? || s.flash.At(s.running).state.PendingVerify? || s.nvs.pendSeq == 0 then None else
      Some(s.(nvs := s.nvs.(target := ""), boot := ErasingPend(s.nvs.pendSeq)))
    case ErasePend =>
      if !s.boot.ErasingPend? then None else
      Some(s.(nvs := s.nvs.(pendSeq := 0), boot := Judging(s.boot.pending)))
    case Judge =>
      if !s.boot.Judging? then None else
      if s.boot.pending > s.ram.floor then
        Some(s.(ram := s.ram.(reportRollback := true, failedSeq := s.boot.pending),
                boot := Quarantining(s.boot.pending)))
      else Some(s.(boot := Starting))
    case StoreQuarantine =>
      if !s.boot.Quarantining? then None else
      Some(s.(nvs := s.nvs.(failedSeq := s.boot.pending), boot := Starting))
    case StartTasks =>
      if !s.boot.Starting? then None else Some(s.(boot := Up))
    case Connect =>
      if !s.boot.Up? || !s.handler.Idle? then None else
      var s1 := s.(log := s.log + [Reached]);
      var s2 := if s1.ram.reportRollback
                then s1.(ram := s1.ram.(reportRollback := false)).Report(Failed, s1.ram.failedSeq) else s1;
      Some(if s2.ram.awaiting then s2.(ram := s2.ram.(awaiting := false, connected := true)) else s2)
  }

  /** confirm_task. */
  function ConfirmNext(s: Dev, c: ConfirmStep): Option<Dev> {
    match c
    case TimeOut =>
      if !s.confirm.Waiting? || s.ram.connected then None else
      Some(s.(flash := s.flash.RollBack(s.running)).Cut())
    case TakeConnected =>
      if !s.confirm.Waiting? || !s.ram.connected then None else
      Some(s.(ram := s.ram.(connected := false), confirm := Taken))
    case MarkValid =>
      if !s.confirm.Taken? then None else
      Some(s.(flash := s.flash.SetState(s.running, Valid), confirm := Marked, log := s.log + [MarkedValid]))
    case MarkFails =>
      if !s.confirm.Taken? then None else
      Some(s.(flash := s.flash.RollBack(s.running)).Cut())
    case AdvanceFloor =>
      if !s.confirm.Marked? then None else
      var pending := s.nvs.pendSeq;
      var advance := pending > s.ram.floor;
      Some(s.(ram := s.ram.(floor := if advance then pending else s.ram.floor, pendingSeq := 0),
           confirm := Advanced(pending, advance)))
    case StoreFloor =>
      if !s.confirm.Advanced? then None else
      Some(s.(nvs := if s.confirm.store then s.nvs.(floor := s.confirm.pending) else s.nvs,
           confirm := FloorStored(s.confirm.pending)))
    case DropFailed =>
      if !s.confirm.FloorStored? then None else
      Some(s.(ram := s.ram.(failedSeq := 0), confirm := FailedDropped(s.confirm.pending)))
    case EraseFailed =>
      if !s.confirm.FailedDropped? then None else
      Some(s.(nvs := s.nvs.(failedSeq := 0), confirm := FailedErased(s.confirm.pending)))
    case EraseTarget =>
      if !s.confirm.FailedErased? then None else
      Some(s.(nvs := s.nvs.(target := ""), confirm := TargetErased(s.confirm.pending)))
    case EraseConfirmed =>
      if !s.confirm.TargetErased? then None else
      Some(s.(nvs := s.nvs.(pendSeq := 0), confirm := PendErased(s.confirm.pending)))
    case ReportOk =>
      if !s.confirm.PendErased? then None else
      Some(s.(confirm := Finished).Report(Ok, s.confirm.pending))
  }

  /** handle_cmd_ota. */
  function HandleNext(s: Dev, h: CommandStep): Option<Dev> {
    match h
    case Receive(cmd) =>
      if !s.boot.Up? || !s.handler.Idle? then None else
      if s.ram.failedSeq != 0 && cmd.sequence == s.ram.failedSeq then Some(s.Report(Failed, cmd.sequence))
      else Some(s.(handler := Checked(cmd)))
    case Claim =>
      if !s.handler.Checked? then None else
      var cmd := s.handler.cmd;
      if cmd.sequence > s.ram.floor && s.ram.pendingSeq == 0 then
        Some(s.(ram := s.ram.(pendingSeq := cmd.sequence), handler := Accepted(cmd)))
      else Some(s.(handler := Refused(cmd, s.ram.floor, s.ram.pendingSeq)))
    case Enqueue =>
      if !s.handler.Accepted? then None else
      var cmd := s.handler.cmd;
      if |s.queue| < QUEUE_LENGTH then Some(s.(queue := s.queue + [cmd], handler := Idle))
      else Some(s.Release(cmd.sequence).(handler := Idle).Report(Failed, cmd.sequence))
    case Answer =>
      if !s.handler.Refused? then None else
      var cmd := s.handler.cmd;
      var t := s.(handler := Idle);
      if cmd.sequence < s.handler.floor then Some(t.Report(Failed, cmd.sequence))
      else if cmd.sequence == s.handler.floor then Some(t.Report(Ok, cmd.sequence))
      else if cmd.sequence == s.handler.inflight then Some(t.Report(Updating, cmd.sequence))
      else Some(t)
  }

  /** ota_task and download_verify_apply. */
  function WorkNext(s: Dev, o: OtaStep): Option<Dev> {
    var other := !s.running;
    match o
    case TakeJob =>
      if !s.boot.Up? || !s.ota.Resting? || s.queue == [] then None else
      Some(s.(ota := Job(s.queue[0]), queue := s.queue[1..]))
    case GiveUpEarly =>
      if !s.ota.Job? && !s.ota.Downloading? then None else Some(s.(ota := GivingUp(s.ota.cmd)))
    case ReportUpdating =>
      if !s.ota.Job? then None else
      Some(s.(ota := Downloading(s.ota.cmd)).Report(Updating, s.ota.cmd.sequence))
    case BeginWrite =>
      if !s.ota.Downloading? then None else
      Some(s.(flash := s.flash.SetContent(other, Partial), ota := Writing(s.ota.cmd)))
    case FinishWrite(digest) =>
      if !s.ota.Writing? then None else
      Some(s.(flash := s.flash.SetContent(other, Firmware(digest)), ota := Written(s.ota.cmd, digest)))
    case AbortWrite =>
      if !s.ota.Writing? then None else Some(s.(ota := GivingUp(s.ota.cmd)))
    case VerifyFails =>
      if !s.ota.Written? || Verifies(s.ota.cmd, s.ota.digest) then None else Some(s.(ota := GivingUp(s.ota.cmd)))
    case VerifyOk =>
      if !s.ota.Written? || !Verifies(s.ota.cmd, s.ota.digest) then None else Some(s.(ota := Verified(s.ota.cmd)))
    case StoreTarget =>
      if !s.ota.Verified? || s.confirm.Bookkeeping() then None else
      Some(s.(nvs := s.nvs.(target := s.ota.cmd.version), ota := TargetStored(s.ota.cmd)))
    case StorePending =>
      if !s.ota.TargetStored? then None else
      Some(s.(nvs := s.nvs.(pendSeq := s.ota.cmd.sequence), ota := PendStored(s.ota.cmd)))
    case Switch =>
      if !s.ota.PendStored? then None else
      Some(s.(flash := s.flash.SetState(other, New).(selected := other), ota := Switched(s.ota.cmd)))
    case SwitchFails =>
      if !s.ota.PendStored? then None else Some(s.(ota := UndoingTarget(s.ota.cmd)))
    case UndoTarget =>
      if !s.ota.UndoingTarget? then None else
      Some(s.(nvs := s.nvs.(target := ""), ota := UndoingPend(s.ota.cmd)))
    case UndoPending =>
      if !s.ota.UndoingPend? then None else
      Some(s.(nvs := s.nvs.(pendSeq := 0), ota := GivingUp(s.ota.cmd)))
    case Restart =>
      if !s.ota.Switched? then None else Some(s.Cut())
    case ClearClaim =>
      if !s.ota.GivingUp? then None else
      Some(s.Release(s.ota.cmd.sequence).(ota := Reporting(s.ota.cmd)))
    case ReportFailed =>
      if !s.ota.Reporting? then None else
      Some(s.(ota := Resting).Report(Failed, s.ota.cmd.sequence))
  }

  /** The digest check and the signature check over (sequence, digest). */
  predicate Verifies(cmd: Command, digest: Digest) {
    digest == cmd.digest && cmd.signature == Over(cmd.sequence, digest)
  }

  function Next(s: Dev, l: Step): Option<Dev> {
    match l
    case Power(p) => PowerNext(s, p)
    case Confirm(c) => ConfirmNext(s, c)
    case Handle(h) => HandleNext(s, h)
    case Work(o) => WorkNext(s, o)
  }

  /** Signatures are unforgeable: one that arrives and is not junk was issued. */
  predicate Genuine(l: Step, signed: set<(nat, Digest)>) {
    l.Handle? && l.h.Receive? && l.h.cmd.signature.Over? ==>
      (l.h.cmd.signature.sequence, l.h.cmd.signature.digest) in signed
  }

  /** The state after a sequence of steps, if each was enabled and genuine in turn. */
  function Exec(s: Dev, ls: seq<Step>, signed: set<(nat, Digest)>): Option<Dev> {
    if ls == [] then Some(s)
    else match Exec(s, ls[..|ls| - 1], signed)
      case None => None
      case Some(t) => if Genuine(ls[|ls| - 1], signed) then Next(t, ls[|ls| - 1]) else None
  }
}
