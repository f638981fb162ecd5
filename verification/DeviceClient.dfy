/**
 espmanager_client.c, statement by statement, over the state of DeviceOta.

 Each method runs one task of the firmware from one blocking point to the next.
 The ghost trail records the steps it went through, and Valid() says that the
 trail is a run of the transition system that ends in the fields of the object:
 so every intermediate state of every method is one that DeviceSafety and
 DeviceHistory speak about, and may be the last one before a power cut.
 */
module DeviceClient {
  import opened Optional
  import opened DeviceOta
  import opened DeviceSafety

  /** What the world answers to download_verify_apply. */
  datatype Download = Download(
    decodes: bool,        // the hex fields of the command decode and the key is not zero
    opens: bool,          // the server answers 200 and esp_ota_begin succeeds
    chunks: seq<string>,  // what esp_http_client_read returns
    writable: nat,        // how many chunks esp_ota_write takes
    complete: bool,       // the response was received in full and esp_ota_end succeeds
    switches: bool)       // esp_ota_set_boot_partition succeeds

  /** The digest of the chunks received in order; the ideal hash is injective, so it is its own input. */
  function Received(chunks: seq<string>): Digest {
    if chunks == [] then "" else Received(chunks[..|chunks| - 1]) + chunks[|chunks| - 1]
  }

  /** Whether a download under these answers ends in a committed image. */
  predicate Commits(cmd: Command, d: Download) {
    d.decodes && d.opens && |d.chunks| <= d.writable && d.complete && Verifies(cmd, Received(d.chunks)) && d.switches
  }

  /** What download_verify_apply makes of the device under these answers. */
  function Applied(s: Dev, cmd: Command, d: Download): Dev {
    if !d.decodes then s.(ota := GivingUp(cmd))
    else
      var t := s.Report(Updating, cmd.sequence);
      if !d.opens then t.(ota := GivingUp(cmd))
      else if |d.chunks| > d.writable || !d.complete then
        t.(flash := s.flash.SetContent(!s.running, Partial), ota := GivingUp(cmd))
      else
        var w := t.(flash := s.flash.SetContent(!s.running, Firmware(Received(d.chunks))));
        if !Verifies(cmd, Received(d.chunks)) then w.(ota := GivingUp(cmd))
        else if !d.switches then w.(nvs := w.nvs.(target := "", pendSeq := 0), ota := GivingUp(cmd))
        else
          w.(nvs := w.nvs.(target := cmd.version, pendSeq := cmd.sequence),
             flash := w.flash.SetState(!s.running, New).(selected := !s.running)).Cut()
  }

  /** All the checks of download_verify_apply but the last step, the switch. */
  predicate Sound(cmd: Command, d: Download) {
    && d.decodes && d.opens && |d.chunks| <= d.writable && d.complete
    && Received(d.chunks) == cmd.digest && cmd.signature == Over(cmd.sequence, cmd.digest)
  }

  lemma AppliedMeans(s: Dev, cmd: Command, d: Download)
    ensures Commits(cmd, d) <==> Sound(cmd, d) && d.switches
    ensures Commits(cmd, d) ==>
              var t := Applied(s, cmd, d);
              && t.flash.selected == !s.running && t.flash.At(s.running) == s.flash.At(s.running)
              && t.flash.At(!s.running) == Slot(Firmware(cmd.digest), New)
              && t.nvs == s.nvs.(target := cmd.version, pendSeq := cmd.sequence)
              && t.boot.Off? && t.confirm.NoTask? && t.handler.Idle? && t.ota.Resting? && t.ram == COLD && t.queue == []
              && t.log == s.log + [Sent(Updating, cmd.sequence), Reset]
    ensures !Commits(cmd, d) ==>
              var t := Applied(s, cmd, d);
              && t == s.(ota := GivingUp(cmd), flash := t.flash, nvs := t.nvs, log := t.log)
              && t.log == s.log + (if d.decodes then [Sent(Updating, cmd.sequence)] else [])
              && t.nvs == (if Sound(cmd, d) then s.nvs.(target := "", pendSeq := 0) else s.nvs)
              && t.flash.selected == s.flash.selected && t.flash.At(s.running) == s.flash.At(s.running)
              && (!d.decodes || !d.opens ==> t.flash == s.flash)
  {
    var n := cmd.sequence;
    assert s.log + [Sent(Updating, n)] + [Reset] == s.log + [Sent(Updating, n), Reset];
    assert s.log + [] == s.log;
  }

  /** What one cmd/ota message does: at most one of a claim and an answer. */
  function Handled(s: Dev, cmd: Command): Dev {
    if s.ram.failedSeq != 0 && cmd.sequence == s.ram.failedSeq then s.Report(Failed, cmd.sequence)
    else if cmd.sequence > s.ram.floor && s.ram.pendingSeq == 0 then
      s.(ram := s.ram.(pendingSeq := cmd.sequence), queue := s.queue + [cmd])
    else if cmd.sequence < s.ram.floor then s.Report(Failed, cmd.sequence)
    else if cmd.sequence == s.ram.floor then s.Report(Ok, cmd.sequence)
    else if cmd.sequence == s.ram.pendingSeq then s.Report(Updating, cmd.sequence)
    else s
  }

  /** In a reachable state the steps of handle_cmd_ota do what Handled says; the queue-full answer is never among it. */
  lemma StepsHandle(s: Dev, cmd: Command, signed: Issued)
    requires Inv(s, signed) && s.boot.Up? && s.handler.Idle? && Carries(cmd, signed)
    ensures var received := HandleNext(s, Receive(cmd)).value;
            if received.handler.Idle? then received == Handled(s, cmd)
            else
              var claimed := HandleNext(received, Claim).value;
              && !claimed.handler.Idle?
              && HandleNext(claimed, if claimed.handler.Accepted? then Enqueue else Answer) == Some(Handled(s, cmd))
  {
    var received := HandleNext(s, Receive(cmd)).value;
    HandleKeeps(s, Receive(cmd), signed);
    if !received.handler.Idle? {
      HandleKeeps(received, Claim, signed);
    }
  }

  lemma HandledMeans(s: Dev, cmd: Command)
    ensures var n, t := cmd.sequence, Handled(s, cmd);
            var quarantined := s.ram.failedSeq != 0 && n == s.ram.failedSeq;
            var accepted := !quarantined && n > s.ram.floor && s.ram.pendingSeq == 0;
            && (accepted ==> t.ram.pendingSeq == n && t.queue == s.queue + [cmd] && t.log == s.log)
            && (!accepted ==> t == s.(log := t.log))
            && (quarantined || n < s.ram.floor ==> t.log == s.log + [Sent(Failed, n)])
            && (!quarantined && n == s.ram.floor ==> t.log == s.log + [Sent(Ok, n)])
            && (!quarantined && n > s.ram.floor && n == s.ram.pendingSeq ==> t.log == s.log + [Sent(Updating, n)])
            && (!quarantined && n > s.ram.floor && n != s.ram.pendingSeq && s.ram.pendingSeq != 0 ==> t.log == s.log)
  {
  }

  /** arm_confirmation: the image is on trial, or a leftover pending sequence is settled. */
  function Armed(s: Dev): Dev {
    var p := s.nvs.pendSeq;
    var t := s.(boot := Starting);
    if s.flash.At(s.running).state.PendingVerify? then
      t.(ram := s.ram.(pendingSeq := p, awaiting := true, connected := false), confirm := Waiting)
    else if p == 0 then t
    else if p > s.ram.floor then
      t.(ram := s.ram.(reportRollback := true, failedSeq := p), nvs := Nvs(s.nvs.floor, 0, p, ""))
    else t.(nvs := Nvs(s.nvs.floor, 0, s.nvs.failedSeq, ""))
  }

  /** The bookkeeping of confirm_task after mark-valid. */
  function Booked(s: Dev): Dev {
    var p := s.nvs.pendSeq;
    var advance := p > s.ram.floor;
    s.(ram := s.ram.(floor := if advance then p else s.ram.floor, pendingSeq := 0, failedSeq := 0),
       nvs := Nvs(if advance then p else s.nvs.floor, 0, 0, ""),
       confirm := Finished, log := s.log + [Sent(Ok, p)])
  }

  /** Where each task stands. */
  datatype Tasks = Tasks(boot: BootPc, confirm: ConfirmPc, handler: HandlerPc, ota: OtaPc)

  class Client {
    // static variables
    var floor: nat
    var pendingSeq: nat
    var failedSeq: nat
    var awaitingConfirm: bool
    var connectedSem: bool
    var reportRollbackFailed: bool
    var otaQueue: seq<Command>
    // the NVS namespace
    var nvs: Nvs
    // flash and what was published
    var flash: Flash
    var running: bool
    var log: seq<Event>
    // where the tasks are
    ghost var at: Tasks
    // how the object got here
    ghost const factory: Digest
    ghost const signed: Issued
    ghost var trail: seq<Step>

    ghost function State(): Dev
      reads this
    {
      Dev(flash, nvs,
          Ram(floor, pendingSeq, failedSeq, awaitingConfirm, connectedSem, reportRollbackFailed), running,
          at.boot, at.confirm, at.handler, otaQueue, at.ota, log)
    }

    ghost predicate Valid()
      reads this
    {
      Exec(Factory(factory), trail, signed) == Some(State())
    }

    constructor (image: Digest, ghost signed: Issued)
      ensures Valid() && State() == Factory(image)
      ensures this.signed == signed && this.factory == image
    {
      floor, pendingSeq, failedSeq := 0, 0, 0;
      awaitingConfirm, connectedSem, reportRollbackFailed := false, false, false;
      otaQueue := [];
      nvs := Nvs(0, 0, 0, "");
      flash := Factory(image).flash;
      running, log := false, [];
      at := Tasks(Off, NoTask, Idle, Resting);
      factory := image;
      this.signed := signed;
      trail := [];
    }

    /** Enters the step that led from before to the present fields. */
    ghost method Did(l: Step, before: Dev)
      requires Exec(Factory(factory), trail, signed) == Some(before)
      requires Next(before, l) == Some(State()) && Genuine(l, signed)
      modifies `trail
      ensures Valid()
      ensures trail == old(trail) + [l]
    {
      assert (trail + [l])[..|trail|] == trail;
      trail := trail + [l];
    }

    ghost method DidPower(p: PowerStep, before: Dev)
      requires Exec(Factory(factory), trail, signed) == Some(before) && PowerNext(before, p) == Some(State())
      modifies `trail
      ensures Valid() && trail == old(trail) + [Power(p)]
    {
      Did(Power(p), before);
    }

    ghost method DidConfirm(c: ConfirmStep, before: Dev)
      requires Exec(Factory(factory), trail, signed) == Some(before) && ConfirmNext(before, c) == Some(State())
      modifies `trail
      ensures Valid() && trail == old(trail) + [Confirm(c)]
    {
      Did(Confirm(c), before);
    }

    ghost method DidWork(o: OtaStep, before: Dev)
      requires Exec(Factory(factory), trail, signed) == Some(before) && WorkNext(before, o) == Some(State())
      modifies `trail
      ensures Valid() && trail == old(trail) + [Work(o)]
    {
      Did(Work(o), before);
    }

    /** The invariant of DeviceSafety, at any state the object was in. */
    lemma Safe(past: seq<Step>, s: Dev)
      requires Exec(Factory(factory), past, signed) == Some(s)
      ensures Inv(s, signed)
    {
      FactoryInv(factory, signed);
      RunKeeps(Factory(factory), past, signed);
    }

    method ReportOta(status: Status, sequence: nat)
      modifies `log
      ensures log == old(log) + [Sent(status, sequence)]
    {
      log := log + [Sent(status, sequence)];
    }

    /** Loses RAM and every task; the flash and NVS stay. */
    method Restart()
      modifies this
      ensures State() == old(State()).Cut() && trail == old(trail)
    {
      ghost var s := State();
      floor, pendingSeq, failedSeq := 0, 0, 0;
      awaitingConfirm, connectedSem, reportRollbackFailed := false, false, false;
      otaQueue, running := [], false;
      at := Tasks(Off, NoTask, Idle, Resting);
      log := log + [Reset];
      assert State().ram == COLD;
    }

    /** clear_inflight. */
    method ClearInflight(sequence: nat)
      modifies `pendingSeq
      ensures State() == old(State()).Release(sequence)
      ensures sequence != 0 ==> pendingSeq != sequence
      ensures old(pendingSeq) != sequence ==> pendingSeq == old(pendingSeq)
    {
      if pendingSeq == sequence {
        pendingSeq := 0;
      }
    }

    /** The critical section of handle_cmd_ota that claims the in-flight slot. */
    method ClaimSlot(cmd: Command) returns (accept: bool, floorNow: nat, inflight: nat)
      requires Valid() && at.handler == Checked(cmd)
      modifies this
      ensures Valid() && HandleNext(old(State()), Claim) == Some(State())
      ensures accept == at.handler.Accepted?
      ensures !accept ==> at.handler == Refused(cmd, floorNow, inflight)
    {
      ghost var s := State();
      accept := false;
      floorNow, inflight := floor, pendingSeq;
      if cmd.sequence > floorNow && inflight == 0 {
        pendingSeq := cmd.sequence;
        accept := true;
      }
      at := at.(handler := if accept then Accepted(cmd) else Refused(cmd, floorNow, inflight));
      Did(Handle(Claim), s);
    }

    /** xQueueSend, with its fallback for a full queue. */
    method SendToQueue(cmd: Command)
      requires Valid() && at.handler == Accepted(cmd)
      modifies this
      ensures Valid() && HandleNext(old(State()), Enqueue) == Some(State())
    {
      ghost var s := State();
      at := at.(handler := Idle);
      if |otaQueue| < QUEUE_LENGTH {
        otaQueue := otaQueue + [cmd];
      } else {
        ClearInflight(cmd.sequence);
        ReportOta(Failed, cmd.sequence);
      }
      Did(Handle(Enqueue), s);
    }

    /** The replies of handle_cmd_ota to a command it did not accept. */
    method Reply(cmd: Command, floorNow: nat, inflight: nat)
      requires Valid() && at.handler == Refused(cmd, floorNow, inflight)
      modifies this
      ensures Valid() && HandleNext(old(State()), Answer) == Some(State())
    {
      ghost var s := State();
      at := at.(handler := Idle);
      if cmd.sequence < floorNow {
        ReportOta(Failed, cmd.sequence);
      } else if cmd.sequence == floorNow {
        ReportOta(Ok, cmd.sequence);
      } else if cmd.sequence == inflight {
        ReportOta(Updating, cmd.sequence);
      }
      Did(Handle(Answer), s);
    }

    /** handle_cmd_ota on a well-formed command, by what its sequence is to the floor and to the job in flight. */
    method HandleCmdOta(cmd: Command)
      requires Valid() && at.boot.Up? && at.handler.Idle? && Carries(cmd, signed)
      modifies this
      ensures Valid()
      ensures State() == Handled(old(State()), cmd)
      ensures var n := cmd.sequence;
              var quarantined := old(failedSeq) != 0 && n == old(failedSeq);
              var accepted := !quarantined && n > old(floor) && old(pendingSeq) == 0;
              && (accepted ==> pendingSeq == n && otaQueue == old(otaQueue) + [cmd] && log == old(log))
              && (!accepted ==> State() == old(State()).(log := log))
              && (quarantined || n < old(floor) ==> log == old(log) + [Sent(Failed, n)])
              && (!quarantined && n == old(floor) ==> log == old(log) + [Sent(Ok, n)])
              && (!quarantined && n > old(floor) && n == old(pendingSeq) ==> log == old(log) + [Sent(Updating, n)])
              && (!quarantined && n > old(floor) && n != old(pendingSeq) && old(pendingSeq) != 0 ==> log == old(log))
    {
      ghost var s := State();
      HandledMeans(s, cmd);
      Dispatch(cmd);
      assert State() == Handled(s, cmd);
    }

    /** The quarantine first, then the claim. */
    method Dispatch(cmd: Command)
      requires Valid() && at.boot.Up? && at.handler.Idle? && Carries(cmd, signed)
      modifies this
      ensures Valid() && State() == Handled(old(State()), cmd)
    {
      ghost var s := State();
      Safe(trail, s);
      StepsHandle(s, cmd, signed);
      if failedSeq != 0 && cmd.sequence == failedSeq {
        ReportOta(Failed, cmd.sequence);
        Did(Handle(Receive(cmd)), s);
        return;
      }
      at := at.(handler := Checked(cmd));
      Did(Handle(Receive(cmd)), s);
      var accept, floorNow, inflight := ClaimSlot(cmd);
      if accept {
        SendToQueue(cmd);
      } else {
        Reply(cmd, floorNow, inflight);
      }
    }

    /** The bootloader picks a slot and starts the client. */
    method PowerOn()
      requires Valid() && at.boot.Off?
      modifies this
      ensures Valid() && PowerNext(old(State()), BootUp) == Some(State())
      ensures running == flash.selected && nvs == old(nvs) && at.boot.Loading?
      ensures var chosen := old(flash).selected;
              match old(flash).At(chosen).state
              case Valid => flash == old(flash)
              case New => flash.selected == chosen && flash.At(chosen) == old(flash).At(chosen).(state := PendingVerify)
              case _ => flash.selected == !chosen && flash.At(chosen) == old(flash).At(chosen).(state := Aborted)
      ensures flash.At(!old(flash).selected) == old(flash).At(!old(flash).selected)
      ensures flash.At(running).content.Firmware? ==> log == old(log) + [Booted(flash.At(running).content.digest)]
    {
      ghost var s := State();
      flash := flash.Bootload();
      running := flash.selected;
      var image := match flash.At(flash.selected).content case Firmware(d) => d case _ => "";
      log := log + [Booted(image)];
      at := at.(boot := Loading);
      DidPower(BootUp, s);
    }

    /** arm_confirmation. */
    method ArmConfirmation()
      requires Valid() && at.boot.Arming?
      modifies this
      ensures Valid() && State() == Armed(old(State()))
      ensures flash == old(flash) && log == old(log) && floor == old(floor) && nvs.floor == old(nvs).floor
      ensures old(flash).At(old(running)).state.PendingVerify? ==>
        && awaitingConfirm && !connectedSem && at.confirm.Waiting? && pendingSeq == old(nvs).pendSeq
        && nvs == old(nvs) && failedSeq == old(failedSeq) && reportRollbackFailed == old(reportRollbackFailed)
      ensures !old(flash).At(old(running)).state.PendingVerify? ==>
        var p := old(nvs).pendSeq;
        && awaitingConfirm == old(awaitingConfirm) && pendingSeq == old(pendingSeq) && nvs.pendSeq == 0
        && (p > old(floor) ==> reportRollbackFailed && failedSeq == nvs.failedSeq == p && nvs.target == "")
        && (p <= old(floor) ==>
              && reportRollbackFailed == old(reportRollbackFailed) && failedSeq == old(failedSeq)
              && nvs == if p == 0 then old(nvs) else old(nvs).(pendSeq := 0, target := ""))
    {
      ghost var s := State();
      if flash.At(running).state.PendingVerify? {
        pendingSeq := nvs.pendSeq;
        connectedSem := false;
        awaitingConfirm := true;
        at := at.(confirm := Waiting, boot := Starting);
        DidPower(ArmOnTrial, s);
        return;
      }
      var pending := nvs.pendSeq;
      if pending != 0 {
        SettleLeftover(pending);
      } else {
        at := at.(boot := Starting);
        DidPower(ArmClean, s);
      }
    }

    /** The part of arm_confirmation for a pending sequence that is no longer on trial. */
    method SettleLeftover(pending: nat)
      requires Valid() && at.boot.Arming? && !flash.At(running).state.PendingVerify? && pending == nvs.pendSeq != 0
      modifies this
      ensures Valid() && State() == Armed(old(State()))
    {
      ghost var s := State();
      nvs := nvs.(target := "");
      at := at.(boot := ErasingPend(pending));
      DidPower(ArmLeftover, s);
      s := State();
      nvs := nvs.(pendSeq := 0);
      at := at.(boot := Judging(pending));
      DidPower(ErasePend, s);
      JudgeLeftover(pending);
    }

    /** Rolled back, or confirmed with the bookkeeping cut off? */
    method JudgeLeftover(pending: nat)
      requires Valid() && at.boot == Judging(pending)
      modifies this
      ensures Valid()
      ensures var s := old(State());
              State() == (if pending > s.ram.floor
                          then s.(ram := s.ram.(reportRollback := true, failedSeq := pending),
                                  nvs := s.nvs.(failedSeq := pending), boot := Starting)
                          else s.(boot := Starting))
    {
      ghost var s := State();
      if pending > floor {
        reportRollbackFailed := true;
        failedSeq := pending;
        at := at.(boot := Quarantining(pending));
        DidPower(Judge, s);
        s := State();
        nvs := nvs.(failedSeq := pending);
        at := at.(boot := Starting);
        DidPower(StoreQuarantine, s);
      } else {
        at := at.(boot := Starting);
        DidPower(Judge, s);
      }
    }

    /** espmanager_start, from the reset to the running tasks. */
    method EspmanagerStart()
      requires Valid() && at.boot.Loading?
      modifies this
      ensures Valid() && at.boot.Up?
      ensures State() == Armed(old(State()).(
        ram := old(State()).ram.(floor := old(nvs.floor), failedSeq := old(nvs.failedSeq)),
                                             boot := Arming)).(boot := Up)
      ensures floor == old(nvs).floor == nvs.floor && flash == old(flash) && log == old(log)
      ensures old(flash).At(old(running)).state.PendingVerify? ==>
        awaitingConfirm && !connectedSem && at.confirm.Waiting? && pendingSeq == old(nvs).pendSeq
        && failedSeq == old(nvs).failedSeq && nvs == old(nvs)
      ensures !old(flash).At(old(running)).state.PendingVerify? ==>
        var p := old(nvs).pendSeq;
        && nvs.pendSeq == 0 && failedSeq == nvs.failedSeq
        && failedSeq == (if p > old(nvs).floor then p else old(nvs).failedSeq)
        && (p > old(nvs).floor ==> reportRollbackFailed)
        && (p <= old(nvs).floor ==> reportRollbackFailed == old(reportRollbackFailed))
    {
      LoadFloor();
      ArmConfirmation();
      ghost var s := State();
      at := at.(boot := Up);
      DidPower(StartTasks, s);
    }

    method LoadFloor()
      requires Valid() && at.boot.Loading?
      modifies this
      ensures Valid()
      ensures State() == old(State()).(
        ram := old(State()).ram.(floor := old(nvs.floor), failedSeq := old(nvs.failedSeq)), boot := Arming)
    {
      ghost var s := State();
      floor := nvs.floor;
      failedSeq := nvs.failedSeq;
      at := at.(boot := Arming);
      DidPower(LoadState, s);
    }

    /** MQTT_EVENT_CONNECTED. */
    method OnConnected()
      requires Valid() && at.boot.Up? && at.handler.Idle?
      modifies this
      ensures Valid() && PowerNext(old(State()), Connect) == Some(State())
      ensures log == old(log) + [Reached] + if old(reportRollbackFailed) then [Sent(Failed, old(failedSeq))] else []
      ensures !reportRollbackFailed && !awaitingConfirm && connectedSem == (old(connectedSem) || old(awaitingConfirm))
      ensures floor == old(floor) && pendingSeq == old(pendingSeq) && failedSeq == old(failedSeq)
      ensures otaQueue == old(otaQueue) && nvs == old(nvs) && flash == old(flash) && running == old(running)
    {
      ghost var s := State();
      log := log + [Reached];
      if reportRollbackFailed {
        reportRollbackFailed := false;
        ReportOta(Failed, failedSeq);
      }
      if awaitingConfirm {
        awaitingConfirm := false;
        connectedSem := true;
      }
      DidPower(Connect, s);
    }

    /** esp_ota_mark_app_invalid_rollback_and_reboot. */
    method RollBackAndReboot(ghost why: ConfirmStep)
      requires Valid() && (why.TimeOut? || why.MarkFails?) && ConfirmNext(State(), why).Some?
      modifies this
      ensures Valid() && ConfirmNext(old(State()), why) == Some(State())
    {
      ghost var s := State();
      flash := flash.RollBack(running);
      Restart();
      DidConfirm(why, s);
    }

    /** confirm_task; its wait ends with the semaphore or with the deadline. */
    method ConfirmTask(markable: bool)
      requires Valid() && at.confirm.Waiting?
      modifies this
      ensures Valid()
      ensures !(old(connectedSem) && markable) ==>
        State() == old(State()).(flash := old(flash).RollBack(old(running))).Cut()
      ensures !(old(connectedSem) && markable) ==>
        && flash.selected == !old(running) && flash.At(!old(running)) == old(flash).At(!old(running))
        && flash.At(old(running)) == Slot(old(flash).At(old(running)).content, Invalid)
        && nvs == old(nvs) && at.boot.Off? && State().ram == COLD && otaQueue == [] && log == old(log) + [Reset]
      ensures old(connectedSem) && markable ==>
        && flash == old(flash).SetState(old(running), DeviceOta.Valid)
        && nvs == Nvs(if old(nvs.pendSeq) > old(floor) then old(nvs.pendSeq) else old(nvs.floor), 0, 0, "")
        && floor == (if old(nvs.pendSeq) > old(floor) then old(nvs.pendSeq) else old(floor))
        && pendingSeq == failedSeq == 0
        && at == old(at).(confirm := Finished)
        && log == old(log) + [MarkedValid, Sent(Ok, old(nvs.pendSeq))]
        && !connectedSem && awaitingConfirm == old(awaitingConfirm) && reportRollbackFailed == old(reportRollbackFailed)
        && otaQueue == old(otaQueue) && running == old(running)
    {
      ghost var s := State();
      if !connectedSem {
        RollBackAndReboot(TimeOut);
        return;
      }
      connectedSem := false;
      at := at.(confirm := Taken);
      DidConfirm(TakeConnected, s);
      if !markable {
        RollBackAndReboot(MarkFails);
        return;
      }
      MarkAppValid();
      Bookkeep();
    }

    /** esp_ota_mark_app_valid_cancel_rollback, where it succeeds. */
    method MarkAppValid()
      requires Valid() && at.confirm.Taken?
      modifies this
      ensures Valid() && ConfirmNext(old(State()), MarkValid) == Some(State())
    {
      ghost var s := State();
      flash := flash.SetState(running, DeviceOta.Valid);
      log := log + [MarkedValid];
      at := at.(confirm := Marked);
      DidConfirm(MarkValid, s);
    }

    /** The bookkeeping of confirm_task. */
    method Bookkeep()
      requires Valid() && at.confirm.Marked?
      modifies this
      ensures Valid() && State() == Booked(old(State()))
    {
      var pending := AdvanceFloors();
      EraseQuarantine(pending);
      EraseMarkers(pending);
      ghost var s := State();
      ReportOta(Ok, pending);
      at := at.(confirm := Finished);
      DidConfirm(ReportOk, s);
    }

    /** A newer image confirmed: the quarantine goes, first from RAM. */
    method EraseQuarantine(pending: nat)
      requires Valid() && at.confirm == FloorStored(pending)
      modifies this
      ensures Valid()
      ensures var s := old(State());
              State() == s.(ram := s.ram.(failedSeq := 0), nvs := s.nvs.(failedSeq := 0),
                            confirm := FailedErased(pending))
    {
      ghost var s := State();
      failedSeq := 0;
      at := at.(confirm := FailedDropped(pending));
      DidConfirm(DropFailed, s);
      s := State();
      nvs := nvs.(failedSeq := 0);
      at := at.(confirm := FailedErased(pending));
      DidConfirm(EraseFailed, s);
    }

    /** The target version and the pending sequence are no longer needed. */
    method EraseMarkers(pending: nat)
      requires Valid() && at.confirm == FailedErased(pending)
      modifies this
      ensures Valid()
      ensures var s := old(State());
              State() == s.(nvs := s.nvs.(target := "", pendSeq := 0), confirm := PendErased(pending))
    {
      ghost var s := State();
      nvs := nvs.(target := "");
      at := at.(confirm := TargetErased(pending));
      DidConfirm(EraseTarget, s);
      s := State();
      nvs := nvs.(pendSeq := 0);
      at := at.(confirm := PendErased(pending));
      DidConfirm(EraseConfirmed, s);
    }

    /** The floor moves in RAM first, together with the release of the claim, and then in NVS. */
    method AdvanceFloors() returns (pending: nat)
      requires Valid() && at.confirm.Marked?
      modifies this
      ensures Valid() && pending == old(nvs.pendSeq)
      ensures var s := old(State());
              var advance := s.nvs.pendSeq > s.ram.floor;
              State() == s.(ram := s.ram.(floor := if advance then pending else s.ram.floor, pendingSeq := 0),
                            nvs := if advance then s.nvs.(floor := pending) else s.nvs,
                            confirm := FloorStored(pending))
    {
      var advance;
      pending, advance := RaiseFloor();
      ghost var s := State();
      if advance {
        nvs := nvs.(floor := pending);
      }
      at := at.(confirm := FloorStored(pending));
      DidConfirm(StoreFloor, s);
    }

    /** The critical section of confirm_task. */
    method RaiseFloor() returns (pending: nat, advance: bool)
      requires Valid() && at.confirm.Marked?
      modifies this
      ensures Valid() && pending == nvs.pendSeq == old(nvs.pendSeq) && advance == (pending > old(floor))
      ensures var s := old(State());
              State() == s.(ram := s.ram.(floor := if advance then pending else s.ram.floor, pendingSeq := 0),
                            confirm := Advanced(pending, advance))
    {
      ghost var s := State();
      pending := nvs.pendSeq;
      advance := pending > floor;
      if advance {
        floor := pending;
      }
      pendingSeq := 0;
      at := at.(confirm := Advanced(pending, advance));
      DidConfirm(AdvanceFloor, s);
    }

    /** The body of the download loop and what follows it, up to esp_ota_end. */
    method WriteImage(cmd: Command, d: Download) returns (ok: bool)
      requires Valid() && at.ota == Downloading(cmd)
      modifies this
      ensures Valid()
      ensures ok == (|d.chunks| <= d.writable && d.complete)
      ensures var s := old(State());
              State() == if ok
                         then s.(flash := s.flash.SetContent(!s.running, Firmware(Received(d.chunks))),
                                 ota := Written(cmd, Received(d.chunks)))
                         else s.(flash := s.flash.SetContent(!s.running, Partial), ota := GivingUp(cmd))
    {
      ghost var s := State();
      flash := flash.SetContent(!running, Partial);
      at := at.(ota := Writing(cmd));
      DidWork(BeginWrite, s);
      ok := true;
      var hashed: Digest := "";
      var i := 0;
      while i < |d.chunks|
        invariant 0 <= i <= |d.chunks|
        invariant hashed == Received(d.chunks[..i])
        invariant ok && i <= d.writable
        modifies {}
      {
        if i >= d.writable {
          ok := false;
          break;
        }
        hashed := hashed + d.chunks[i];
        assert d.chunks[..i + 1][..i] == d.chunks[..i];
        i := i + 1;
      }
      assert ok ==> d.chunks[..i] == d.chunks;
      if !d.complete {
        ok := false;
      }
      s := State();
      if ok {
        flash := flash.SetContent(!running, Firmware(hashed));
        at := at.(ota := Written(cmd, hashed));
        DidWork(FinishWrite(hashed), s);
      } else {
        at := at.(ota := GivingUp(cmd));
        DidWork(AbortWrite, s);
      }
    }

    /** Stores the target and the pending sequence; only then may the boot partition switch. */
    method AnnounceImage(cmd: Command)
      requires Valid() && at.ota == Verified(cmd) && !at.confirm.Bookkeeping()
      modifies this
      ensures Valid()
      ensures var s := old(State());
              State() == s.(nvs := s.nvs.(target := cmd.version, pendSeq := cmd.sequence), ota := PendStored(cmd))
    {
      ghost var s := State();
      nvs := nvs.(target := cmd.version);
      at := at.(ota := TargetStored(cmd));
      DidWork(StoreTarget, s);
      s := State();
      nvs := nvs.(pendSeq := cmd.sequence);
      at := at.(ota := PendStored(cmd));
      DidWork(StorePending, s);
    }

    /** esp_ota_set_boot_partition and the restart into the new image. */
    method SwitchAndRestart(cmd: Command)
      requires Valid() && at.ota == PendStored(cmd)
      modifies this
      ensures Valid()
      ensures var s := old(State());
              State() == s.(flash := s.flash.SetState(!s.running, New).(selected := !s.running)).Cut()
    {
      SetBootPartition(cmd);
      ghost var s := State();
      Restart();
      DidWork(OtaStep.Restart, s);
    }

    method SetBootPartition(cmd: Command)
      requires Valid() && at.ota == PendStored(cmd)
      modifies this
      ensures Valid()
      ensures var s := old(State());
              State() == s.(flash := s.flash.SetState(!s.running, New).(selected := !s.running), ota := Switched(cmd))
    {
      ghost var s := State();
      flash := flash.SetState(!running, New).(selected := !running);
      at := at.(ota := Switched(cmd));
      DidWork(Switch, s);
    }

    /** The boot partition could not be switched: the announcement is taken back. */
    method TakeBack(cmd: Command)
      requires Valid() && at.ota == PendStored(cmd)
      modifies this
      ensures Valid()
      ensures var s := old(State());
              State() == s.(nvs := s.nvs.(target := "", pendSeq := 0), ota := GivingUp(cmd))
    {
      ghost var s := State();
      at := at.(ota := UndoingTarget(cmd));
      DidWork(SwitchFails, s);
      EraseAnnouncement(cmd);
    }

    method EraseAnnouncement(cmd: Command)
      requires Valid() && at.ota == UndoingTarget(cmd)
      modifies this
      ensures Valid()
      ensures var s := old(State());
              State() == s.(nvs := s.nvs.(target := "", pendSeq := 0), ota := GivingUp(cmd))
    {
      ghost var s := State();
      nvs := nvs.(target := "");
      at := at.(ota := UndoingPend(cmd));
      DidWork(UndoTarget, s);
      s := State();
      nvs := nvs.(pendSeq := 0);
      at := at.(ota := GivingUp(cmd));
      DidWork(UndoPending, s);
    }

    /** The hex fields, the "updating" report and the HTTP request. */
    method OpenDownload(cmd: Command, d: Download) returns (ok: bool)
      requires Valid() && at.ota == Job(cmd)
      modifies this
      ensures Valid() && ok == (d.decodes && d.opens)
      ensures var s := old(State());
              State() == (if ok then s.(ota := Downloading(cmd)) else s.(ota := GivingUp(cmd))).(log := log)
      ensures log == old(log) + if d.decodes then [Sent(Updating, cmd.sequence)] else []
    {
      ghost var s := State();
      if d.decodes {
        ReportOta(Updating, cmd.sequence);
        at := at.(ota := Downloading(cmd));
        DidWork(ReportUpdating, s);
        s := State();
      }
      ok := d.decodes && d.opens;
      if !ok {
        at := at.(ota := GivingUp(cmd));
        DidWork(GiveUpEarly, s);
      }
    }

    /** Compares the digests and checks the signature. */
    method VerifyImage(cmd: Command, digest: Digest) returns (ok: bool)
      requires Valid() && at.ota == Written(cmd, digest)
      modifies this
      ensures Valid() && ok == Verifies(cmd, digest)
      ensures State() == old(State()).(ota := if ok then Verified(cmd) else GivingUp(cmd))
    {
      ghost var s := State();
      ok := digest == cmd.digest && cmd.signature == Over(cmd.sequence, digest);
      at := at.(ota := if ok then Verified(cmd) else GivingUp(cmd));
      DidWork(if ok then VerifyOk else VerifyFails, s);
    }

    /**
     download_verify_apply. It restarts into the new image exactly if everything went
     well. If it returns instead, the slot to boot from, the running image, the floor, the
     claim and the quarantine are what they were, and so are the markers unless the
     switch failed.
     */
    method DownloadVerifyApply(cmd: Command, d: Download) returns (restarted: bool)
      requires Valid() && at.ota == Job(cmd) && !at.confirm.Bookkeeping()
      modifies this
      ensures Valid()
      ensures State() == Applied(old(State()), cmd, d) && restarted == Commits(cmd, d)
      ensures var sound := d.decodes && d.opens && |d.chunks| <= d.writable && d.complete
                           && Received(d.chunks) == cmd.digest && cmd.signature == Over(cmd.sequence, cmd.digest);
              && (restarted <==> sound && d.switches)
              && (!restarted ==>
                    && State() == old(State()).(ota := GivingUp(cmd), flash := flash, nvs := nvs, log := log)
                    && log == old(log) + (if d.decodes then [Sent(Updating, cmd.sequence)] else [])
                    && nvs == (if sound then old(nvs).(target := "", pendSeq := 0) else old(nvs))
                    && flash.selected == old(flash).selected && flash.At(running) == old(flash).At(running)
                    && (!d.decodes || !d.opens ==> flash == old(flash)))
      ensures restarted ==>
        && at.boot.Off? && at.confirm.NoTask? && at.handler.Idle? && at.ota.Resting?
        && State().ram == COLD && otaQueue == []
        && flash.selected == !old(running) && flash.At(old(running)) == old(flash).At(old(running))
        && flash.At(!old(running)) == Slot(Firmware(cmd.digest), New)
        && nvs == old(nvs).(target := cmd.version, pendSeq := cmd.sequence)
        && log == old(log) + [Sent(Updating, cmd.sequence), Reset]
    {
      AppliedMeans(State(), cmd, d);
      restarted := Apply(cmd, d);
    }

    /** Download, checks and switch, each of which may end it. */
    method Apply(cmd: Command, d: Download) returns (restarted: bool)
      requires Valid() && at.ota == Job(cmd) && !at.confirm.Bookkeeping()
      modifies this
      ensures Valid()
      ensures State() == Applied(old(State()), cmd, d) && restarted == Commits(cmd, d)
    {
      restarted := false;
      var ok := OpenDownload(cmd, d);
      if !ok {
        return;
      }
      ok := WriteImage(cmd, d);
      if !ok {
        return;
      }
      ok := VerifyImage(cmd, Received(d.chunks));
      if !ok {
        return;
      }
      AnnounceImage(cmd);
      if !d.switches {
        TakeBack(cmd);
        return;
      }
      SwitchAndRestart(cmd);
      restarted := true;
    }

    /** xQueueReceive: in every reachable state the one job in the queue is the one that was claimed. */
    method TakeFromQueue() returns (cmd: Command)
      requires Valid() && at.boot.Up? && at.ota.Resting? && otaQueue != []
      modifies this
      ensures Valid() && [cmd] == old(otaQueue) && cmd.sequence == pendingSeq
      ensures State() == old(State()).(queue := [], ota := Job(cmd))
    {
      ghost var s := State();
      Safe(trail, s);
      cmd := otaQueue[0];
      otaQueue := otaQueue[1..];
      at := at.(ota := Job(cmd));
      DidWork(TakeJob, s);
    }

    method ReleaseClaim(cmd: Command)
      requires Valid() && at.ota == GivingUp(cmd)
      modifies this
      ensures Valid() && WorkNext(old(State()), ClearClaim) == Some(State())
    {
      ghost var s := State();
      ClearInflight(cmd.sequence);
      at := at.(ota := Reporting(cmd));
      DidWork(ClearClaim, s);
    }

    /** The claim of a job that failed is released before the failure is reported. */
    method FailJob(cmd: Command)
      requires Valid() && at.ota == GivingUp(cmd)
      modifies this
      ensures Valid()
      ensures State() == old(State()).Release(cmd.sequence).(ota := Resting).Report(Failed, cmd.sequence)
    {
      ReleaseClaim(cmd);
      ghost var s := State();
      ReportOta(Failed, cmd.sequence);
      at := at.(ota := Resting);
      DidWork(ReportFailed, s);
    }

    /** One round of ota_task. */
    method OtaTask(d: Download)
      requires Valid() && at.boot.Up? && at.ota.Resting? && otaQueue != [] && !at.confirm.Bookkeeping()
      modifies this
      ensures Valid()
      ensures var cmd := old(otaQueue)[0];
              && cmd.sequence == old(pendingSeq)
              && (Commits(cmd, d) ==>
                    && at.boot.Off? && flash.selected == !old(running) && State().ram == COLD && otaQueue == []
                    && flash.At(!old(running)) == Slot(Firmware(cmd.digest), New)
                    && flash.At(old(running)) == old(flash).At(old(running))
                    && nvs == old(nvs).(target := cmd.version, pendSeq := cmd.sequence)
                    && log == old(log) + [Sent(Updating, cmd.sequence), Reset])
              && (!Commits(cmd, d) ==>
                    && State() == old(State()).(ram := State().ram, queue := [], flash := flash, nvs := nvs, log := log)
                    && State().ram == old(State()).ram.(pendingSeq := 0)
                    && flash.selected == old(flash).selected && flash.At(running) == old(flash).At(running)
                    && nvs == (if Sound(cmd, d) then old(nvs).(target := "", pendSeq := 0) else old(nvs))
                    && log == old(log) + (if d.decodes then [Sent(Updating, cmd.sequence)] else [])
                       + [Sent(Failed, cmd.sequence)])
    {
      var cmd := TakeFromQueue();
      var restarted := DownloadVerifyApply(cmd, d);
      if !restarted {
        FailJob(cmd);
      }
    }
  }
}
