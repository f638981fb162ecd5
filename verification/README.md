# Verified model of the OTA rollout system

A Dafny model of espmanager's over-the-air updates: the ESP-IDF client that applies an
image and confirms it or rolls it back, the server that rolls a version out batch by
batch, the stores behind it, credential rotation, publishing, and onboarding over a
serial line. `dafny verify dfyconfig.toml` checks everything.

## How it is built

* **Device.** `DeviceOta` is a transition system with one step for every NVS write, boot
  switch, mark-valid and power cut. `DeviceSafety` proves its invariant and what follows
  for whole runs, `DeviceHistory` what a report tells about the past, `DeviceProgress`
  that updates can succeed and roll back, `DeviceRest` that a device that is left alone
  comes to rest, `DeviceAnswers` what it answers and reports. `DeviceClient` is the client
  itself as a class with the firmware's variables; its ghost trail says that every method
  walks along runs of that system, so the theorems hold at each of its intermediate states.
* **Rollout.** `BatchRules` and `DeployService` hold the loops, statements and operations
  as methods, each against `DeploySpec`. `RolloutProtocol` takes those specifications as
  the steps of a state machine over all deploys; `RolloutEffects`, `RolloutResume`,
  `RolloutScope`, `RolloutSettles` and `DeployView` build on it, and `RolloutProgress`
  shows runs that complete, pause and recover.
* **Whole system.** `EndToEnd` puts server, a fleet of devices and a hostile network
  together: any report a device ever sent may arrive any number of times, and the
  command of any published artifact may reach any device, damaged or not. Reports and
  sequences travel as the text `WireCodec` models. `DeviceReports` carries what a device
  has to keep for that, and `SystemProgress` shows runs from publishing to completion, to
  a failure, and to a success whose first report was lost.
* **Enrollment and credentials.** `EnrollSpec` and `EnrollService` are the tables and the
  operations, `ClaimProtocol` claims that interleave, `Rotation` device and server during
  a rotation.
* **Publishing.** `ArtifactProtocol` takes any number of Store calls at the same time apart
  into steps over the tables of `ArtifactSpec`, `ArtifactRuns` follows single calls, and
  `ArtifactService` is the service itself.
* **Onboarding.** `SerialText`, `ProvisionAgent`, `ProvisionScript` and `SerialHost` are
  the line protocol, the agent on the device, what the host says to it, and the host;
  `SerialRetry` is about a second attempt after a time-out.

## What the code does not promise

Where a comment or an expectation goes further than the code, the code was followed:

* A comment in confirm_task of espmanager_client.c says that an earlier quarantine is
  below the floor once an image confirms. It need not be
  (`DeviceProgress.QuarantineForgotten`), and that decides whether its sequence can be
  accepted again (`DroppedQuarantine`).
* arm_confirmation takes a floor that never advanced for a rollback. If the power is cut
  between mark-valid and the write of the floor, a confirmed image is quarantined and
  reported as failed while it runs (`DeviceAnswers.CutInTheBooks`).
* "At most one rejected connection" holds between power cuts (`Rotation.RejectionsPaid`,
  `CutCostsARejection`). Rejections whose reply is lost are not noticed and not counted.
* A pass of reconcile over a list that was read before a cancel can undo the cancel
  (`RolloutScope.StaleListUndoesCancel`, `RolloutProgress.CancelledThenCompleted`).
* The page explains a pause with the unclamped threshold (`DeployView.ExplanationUnclamped`,
  `PageBlamesTheCanary`).
* A claim may be told that the device is enrolled where a claim done at one moment would
  not (`ClaimProtocol.AnswerIsIdeal`, `WrongKind`, `SlowerIsMisled`).
* A write that stops half-way, by an error or a crash, makes its version impossible to
  publish again (`ArtifactProtocol.AbandonedBlocks`, `ArtifactRuns.SomeWriteStops`). If
  the delete that is to make up for a failed write fails too, its error is dropped and the
  row stays (`ArtifactService.StoreSucceeds`).
* provision does not match replies to its lines, and values that are too long are cut
  short silently (`ProvisionScript.StaleReplies`, `SerialRetry.RetryIsMisled`,
  `ProvisionScript.ProvisionedExactly`).
* hex_to_bytes takes more than hexadecimal text (`WireCodec.DecodeFaithful`,
  `SpaceIsDecoded`, `SignsAreDecoded`).

## Assumptions

* A rollout, one reconcile pass, a resume and a cancel are one step each, and inserting a
  target succeeds; reports come between any two steps. Concurrent passes and the stale
  list above are outside these runs. Each step reads the clock once.
* The bookkeeping of confirm_task is not interleaved with a commit, because of its higher
  priority; a power cut may split either. NVS writes happen or the power is cut.
* Signatures cannot be forged, hashes are injective, bcrypt matches exactly the password
  that was hashed, and minted tokens are fresh.
* Authenticate is one step, the password of a device is used by that device alone, and
  a device is neither revoked nor provisioned again during the runs considered.
* Trimming and lower-casing are those of ASCII text; the serial stream is ASCII and
  loses nothing. Times are nanoseconds, stored to the millisecond.

## Model

| member | source | states |
|---|---|---|
| DeviceSafety.StepKeeps | client/esp-idf/example/components/espmanager_client/espmanager_client.c:282-535 | Every step of the device, each NVS write, boot switch, mark-valid and power cut on its own, keeps the invariant that ties flash, NVS, RAM, the in-flight claim and the program counters together |
| DeviceSafety.ConfirmedImageSurvives | client/esp-idf/example/components/espmanager_client/espmanager_client.c:357-363 | In every reachable state the slot the bootloader falls back to holds a confirmed image, one or two reboots end in it, and no reboot touches it |
| DeviceSafety.NothingHappensOnTrial | client/esp-idf/example/components/espmanager_client/espmanager_client.c:445-452 | While the running image is unconfirmed no command is accepted and the other slot is neither written nor selected |
| DeviceSafety.OneJobInFlight | client/esp-idf/example/components/espmanager_client/espmanager_client.c:501-533 | At most one accepted job is unreleased, whatever is redelivered; an accepted command always finds the queue empty, so the queue-full branch is dead, and a second command is refused |
| DeviceSafety.FloorNeverFalls | client/esp-idf/example/components/espmanager_client/espmanager_client.c:416-426 | The persisted floor never decreases over any stretch of any run, power cuts included |
| DeviceSafety.CommitsAboveTheFloor | client/esp-idf/example/components/espmanager_client/espmanager_client.c:346-363 | What is committed to the boot partition lies strictly above the RAM and the NVS floor at that moment, was announced in NVS before, and is an image signed with its sequence |
| DeviceSafety.QuarantineHolds | client/esp-idf/example/components/espmanager_client/espmanager_client.c:457-468 | Once a sequence is in the persisted quarantine it is not accepted, queued, processed or committed until another image is marked valid or another sequence is quarantined |
| DeviceProgress.DroppedQuarantine | client/esp-idf/example/components/espmanager_client/espmanager_client.c:424-430 | From the moment the floor of the confirmed image is stored, some later run accepts the quarantined sequence again if and only if it lies above that floor |
| DeviceProgress.QuarantineForgotten | client/esp-idf/example/components/espmanager_client/espmanager_client.c:427-430 | The comment at 427 fails: there is a run in which a higher sequence is quarantined, a lower one is confirmed, and the higher one is acceptable again |
| DeviceProgress.UpdateSucceeds | client/esp-idf/example/components/espmanager_client/espmanager_client.c:282-435 | From any idle state a genuine command above the floor has a run to a confirmed image, the raised floor and the report "ok" |
| DeviceProgress.UpdateRollsBack | client/esp-idf/example/components/espmanager_client/espmanager_client.c:401-407 | An image that never connects ends in the old slot with its sequence quarantined and the floor unchanged |
| DeviceAnswers.RollbackEnds | client/esp-idf/example/components/espmanager_client/espmanager_client.c:401-589 | And it goes on to an idle device in the old image whose last word is "failed" for that sequence |
| DeviceAnswers.CutInTheBooks | client/esp-idf/example/components/espmanager_client/espmanager_client.c:414-469 | A power cut in the bookkeeping of confirm_task: the device comes up in the confirmed image, and takes it for rolled back, quarantines its sequence and will report it as failed, if and only if the stored floor does not cover it yet |
| DeviceProgress.IdlingIsClean | client/esp-idf/example/components/espmanager_client/espmanager_client.c:796-798 | Whenever the device idles its two floors agree |
| DeviceRest.LeftAloneItIdles | client/esp-idf/example/components/espmanager_client/espmanager_client.c:282-469 | From every reachable state at most 64 steps of the device's own are possible, in any order and with any outcome, and as long as it does not idle another one is |
| DeviceRest.IdlesAgain | client/esp-idf/example/components/espmanager_client/espmanager_client.c:282-469 | So from every reachable state, in the middle of a boot, a trial, a download or a commit, there is such a run to an idle state whose floors agree |
| DeviceHistory.StepRemembers | client/esp-idf/example/components/espmanager_client/espmanager_client.c:401-533 | Every step keeps the sequences the device may call "ok" backed by its history |
| DeviceHistory.OkMeansConfirmed | client/esp-idf/example/components/espmanager_client/espmanager_client.c:401-435 | Every "ok" for a nonzero sequence n is preceded, in this order and without a reset in between, by a boot of an image signed as n, a connection to the broker and a mark-valid |
| DeviceClient.StepsHandle | client/esp-idf/example/components/espmanager_client/espmanager_client.c:471-536 | In a reachable state the locked steps of handle_cmd_ota amount to Handled, and the answer for a full queue is not among it |
| DeviceClient.Client.HandleCmdOta | client/esp-idf/example/components/espmanager_client/espmanager_client.c:471-536 | After one cmd/ota message n: quarantined or below the floor, exactly "failed" is sent; equal to the floor, exactly "ok"; in flight, exactly "updating"; another one during a job, nothing. None of these changes anything else; the rest is claimed and queued without an answer |
| DeviceAnswers.CommandAnswered | client/esp-idf/example/components/espmanager_client/espmanager_client.c:471-536 | In every reachable state, whatever the handler does with a command from its arrival until it is idle again, those are its answers: it has no other way to go on |
| DeviceSafety.ReleaseIsOwn | client/esp-idf/example/components/espmanager_client/espmanager_client.c:370-388 | Whenever ota_task gives a job up, the claim clear_inflight releases is that job's own, and no other job is left without one |
| DeviceClient.Client.ArmConfirmation | client/esp-idf/example/components/espmanager_client/espmanager_client.c:445-469 | The trial is armed, a leftover pending sequence is settled and quarantined, or nothing changes |
| DeviceClient.Client.EspmanagerStart | client/esp-idf/example/components/espmanager_client/espmanager_client.c:796-815 | Start-up from reset to running: floor and quarantine are loaded before the confirmation is armed |
| DeviceClient.Client.OnConnected | client/esp-idf/example/components/espmanager_client/espmanager_client.c:568-589 | The connected event: one event more, and exactly after a rollback the "failed" of the quarantined sequence, whose flag is cleared; a waiting confirmation is released, and nothing else changes |
| DeviceAnswers.RollbackIsReported | client/esp-idf/example/components/espmanager_client/espmanager_client.c:580-583 | In every reachable state with a rollback to report, the next connection sends exactly "failed" for the quarantined sequence |
| DeviceAnswers.ReportedOnce | client/esp-idf/example/components/espmanager_client/espmanager_client.c:580-583 | No later connection of the same life says more than that the broker was reached |
| DeviceClient.Client.ConfirmTask | client/esp-idf/example/components/espmanager_client/espmanager_client.c:401-435 | Either the slot is rolled back and the device restarts, or the image is valid, the floor covers it, quarantine and markers are gone and "ok" is the last word |
| DeviceClient.Client.WriteImage | client/esp-idf/example/components/espmanager_client/espmanager_client.c:321-360 | The download loop: it succeeds exactly if every chunk was written and the response was complete, and then the other slot holds the bytes that were hashed |
| DeviceClient.Client.AnnounceImage | client/esp-idf/example/components/espmanager_client/espmanager_client.c:357-358 | Target and pending sequence are in NVS before the switch is possible |
| DeviceClient.Client.DownloadVerifyApply | client/esp-idf/example/components/espmanager_client/espmanager_client.c:282-368 | It commits exactly if every check passes, and then the other slot holds the new image, selected, with target and pending sequence in NVS; otherwise slot, image, floor, claim and quarantine stay, and the markers go exactly if the switch failed; "updating" is reported exactly if the fields decode |
| DeviceClient.Client.OtaTask | client/esp-idf/example/components/espmanager_client/espmanager_client.c:378-388 | One job: commit and restart, or its claim alone is released and "failed" is its last report, with everything else kept |
| DeployModel.Clamped | internal/deploy/service.go:46-57 | The options after clamping lie in their ranges, options already there are unchanged, and one out of range gets the nearest bound or its default |
| BatchRules.SortBatches | internal/deploy/service.go:417-432 | The in-place insertion sort yields ascending order and keeps the elements |
| BatchRules.ComputeBatches | internal/deploy/service.go:417-432 | Batches returns the strictly ascending list of exactly the batch numbers present |
| BatchRules.BatchListUnique | internal/deploy/service.go:417-432 | There is only one such list, so its order does not depend on the rows' order |
| BatchRules.GroupsPartition | internal/deploy/service.go:435-443 | The groups of all batches together are the targets, as multisets |
| BatchRules.CountFailures | internal/deploy/service.go:471-482 | The loop answers whether the batch is over the threshold |
| BatchRules.VerdictMeaning | internal/deploy/service.go:262-277 | The batch loop's verdict is the one and only one that holds of the rows: complete, pause at, wait at or promote the first batch that did not pass |
| BatchRules.VerdictIgnoresOrder | internal/deploy/service.go:262-277 | Any permutation of the rows gives the same verdict |
| BatchRules.CanaryIsCeiling | internal/deploy/service.go:111-117 | The canary is the ceiling of n*p/100 and lies in 1..n, so both later clamps are dead |
| DeploySpec.SecondAdvance | internal/store/sqlite/deploy_repo.go:35-44 | The first terminal status of a row stands, and a status reported again moves neither row nor stamp; the rows of other devices never move |
| DeployService.DeployRepository.AdvanceTargetStatusBySequence | internal/store/sqlite/deploy_repo.go:46-59 | In one newest deploy that has a matching row, each matching row gets exactly the reported status and stamp, and every other row of every deploy is as it was; without such a deploy nothing changes |
| DeployService.DeployRepository.LatestTargetForDevice | internal/store/sqlite/deploy_repo.go:61-75 | Finds a deploy with a row of the device exactly if there is one; none with such a row was created later, and of those created at the same time none has a younger stamp |
| DeploySpec.ResetConserves | internal/store/sqlite/deploy_repo.go:112-121 | A reset loses and invents nothing: no failure is left, the pending targets are those of before plus the failed ones, every other row is as it was, and a second reset changes nothing |
| DeployService.Service.Rollout | internal/deploy/service.go:85-145 | The deploy stored under its driver, version, state and creation time; one row per device in order, the first n*p/100 rounded up in batch 0; each of these sent one command and failed if it could not be reached, triggered otherwise; the others pending; an error for exactly the unreached; no other deploy touched |
| DeployService.Service.SweepTargets | internal/deploy/service.go:233-260 | Exactly the overdue rows are marked lost, and a device is sent its command once more exactly if the artifact is found and its row is triggered, not overdue and less than 90 seconds old |
| DeployService.Service.Judge | internal/deploy/service.go:262-277 | The batch loop computes the verdict and the group to promote |
| DeployService.Service.ReconcileOne | internal/deploy/service.go:224-289 | One pass, row by row: overdue rows are lost, the pending rows of the promoted batch failed or triggered by whether the device could be reached, all else unchanged; how often each device is sent a command, the state of the deploy, and that no other deploy changes |
| DeployService.Service.Resume | internal/deploy/service.go:172-193 | Only a paused deploy is resumed; exactly its failed and lost rows become pending with the new stamp |
| DeployService.Service.Cancel | internal/deploy/service.go:195-211 | Only an in-progress or paused deploy is cancelled |
| DeployService.Service.OnStatus | internal/deploy/service.go:337-388 | A tagged report gives each matching row of one newest deploy, an untagged one the device's row in its newest, exactly the reported status and stamp; nothing else changes, an unmapped word changes nothing, and nothing is passed over |
| DeployService.ReportWords | internal/deploy/service.go:402-413 | The nine words a device may report, in either case and with white space around them, and no others, mean succeeded, failed and downloading |
| DeploySpec.PassKeepsTargets | internal/deploy/service.go:224-289 | A pass changes no identifying column and keeps devices unique |
| DeploySpec.SameVerdict | internal/deploy/service.go:231-277 | The snapshot reconcile judges and the store it promotes in agree on verdict and group although their times differ |
| RolloutProtocol.StepKeeps | internal/deploy/service.go:85-388 | Every step of every operation, in any interleaving over any deploys, keeps the gate and the meaning of the states |
| RolloutProtocol.CanaryGate | internal/deploy/service.go:119-142 | In every reachable state a triggered target has every earlier batch settled within the threshold, resumes included |
| RolloutProtocol.NoCommandBeforeTheGate | internal/deploy/service.go:247-289 | A pass sends or resends a command only to a device all of whose earlier batches have settled within the threshold at that moment |
| RolloutProtocol.TerminalRowsStay | internal/store/sqlite/deploy_repo.go:35-44 | A terminal row changes only by the resume of its own deploy |
| RolloutProtocol.PausedMeans | internal/deploy/service.go:264-268 | A paused deploy has a settled batch over the threshold with everything before it within |
| RolloutProtocol.CompletedMeans | internal/deploy/service.go:262-278 | A completed deploy is settled within the threshold in every batch and over its whole fleet |
| RolloutProtocol.CompletedForever | internal/deploy/service.go:277-277 | After completion neither the deploy nor any of its rows ever changes |
| RolloutProtocol.CancelledForever | internal/deploy/service.go:195-211 | After a cancel the deploy stays cancelled and no device is sent its command any more |
| RolloutEffects.ReportTakesEffect | internal/deploy/service.go:353-363 | In every reachable state a tagged report, of whatever status, takes effect: its row has that status and stamp, and every other row of every deploy stays |
| RolloutEffects.UntaggedTakesEffect | internal/deploy/service.go:370-388 | So does an untagged one, unless the row is terminal already or has the status |
| RolloutEffects.NextPassResends | internal/deploy/service.go:247-260 | A row triggered less than 90 seconds ago and not overdue is sent its command exactly once more by the next pass that finds the artifact, and stays as it is |
| RolloutEffects.OldCommandsRest | internal/deploy/service.go:247-260 | One that is 90 seconds old or older is not sent again, so commands are not repeated until the timeout |
| RolloutEffects.StoppedIsPaused | internal/deploy/service.go:262-268 | Where a settled batch is over the threshold after passed ones, the next pass pauses the deploy |
| RolloutEffects.UnreachableCanaryPauses | internal/deploy/service.go:139-142 | For thresholds below 100 a deploy none of whose canary could be reached is paused by its first pass, which sends nothing |
| RolloutEffects.VersionsAgree | internal/deploy/service.go:106-133 | In every reachable state each target carries the version of its deploy |
| RolloutEffects.DeployStaysItself | internal/deploy/service.go:106-106 | Driver, version and creation time a deploy was rolled out with never change |
| RolloutResume.ResumeRetries | internal/deploy/service.go:172-193 | The pass after a resume, whenever it comes, neither pauses again nor moves on: it promotes the first batch with failed or lost targets, and exactly those of the batch are pending |
| RolloutProgress.SomeRolloutCompletes | internal/deploy/service.go:85-278 | There are runs to a completed deploy, so what is proved about completed deploys is about something |
| RolloutProgress.SomeRolloutPauses | internal/deploy/service.go:264-268 | There are runs in which a deploy is paused by its canary without ever having been resumed |
| RolloutProgress.SomeRolloutRecovers | internal/deploy/service.go:172-193 | From there a resume, a second command and a success complete the deploy |
| RolloutScope.OneDeployPerSequence | internal/store/sqlite/deploy_repo.go:46-59 | With one rollout per artifact the rows of one sequence belong to one deploy |
| RolloutScope.BlastRadius | internal/deploy/service.go:111-142 | A never-resumed deploy paused at its canary has attempted a command to exactly the devices of the canary, the ceiling of the configured share |
| RolloutScope.ReportIsolation | internal/store/sqlite/deploy_repo.go:46-59 | With one rollout per artifact a report tagged n changes at most one row, that of its device in the deploy that ships n |
| RolloutScope.StaleListUndoesCancel | internal/store/sqlite/deploy_repo.go:143-147 | A pass over a list read before a cancel leaves the cancel in force exactly if its verdict is to wait or to promote |
| RolloutProgress.CancelledThenCompleted | internal/store/sqlite/deploy_repo.go:143-147 | Such a cancel is lost in a run that exists: a pass that was possible before the cancel completes the deploy after it |
| RolloutSettles.EveryRolloutSettles | internal/deploy/service.go:231-278 | With passes at a bounded gap and no resume or cancel, an in-progress deploy is younger than one gap and two (timeout plus gap) for each batch, whatever devices report |
| RolloutSettles.SettlesByThen | internal/deploy/service.go:231-278 | In numbers: in every run, however long it goes on, a deploy has settled once more than four timeouts and five gaps have gone by |
| RolloutSettles.SettledForGood | internal/deploy/service.go:224-278 | And it keeps the state it settled in over any continuation without a resume or cancel |
| RolloutSettles.TimeGoesOn | internal/deploy/service.go:224-278 | Such runs do go on: after a deploy has settled the clock can reach any later time |
| DeployView.CountTargets | internal/httpapi/deploys.go:27-44 | Each column is the number of rows with its status, triggered and downloading together being in flight |
| DeployView.CountsAddUp | internal/httpapi/deploys.go:207-220 | In every column the counts of the batches add up to those of the deploy |
| DeployView.PercentagesWithinHundred | internal/httpapi/deploys.go:48-53 | The four floored percentages never add up to more than 100 |
| DeployView.PercentIsFloor | internal/httpapi/deploys.go:48-53 | A percentage is the share of the total, rounded down, and 0 for no targets |
| DeployView.AtRiskMeans | internal/httpapi/deploys.go:46-46 | A view is at risk exactly if some row is failed or lost |
| DeployView.Detail | internal/httpapi/deploys.go:196-232 | One view per batch, whose columns count its rows by status; a paused deploy is explained by the first settled batch over the threshold with its label and counts, if there is one, and no other deploy is |
| DeployView.ExplanationIsTheStop | internal/httpapi/deploys.go:207-230 | For a threshold of 0 to 100 the page names exactly the batch reconcile stopped at |
| DeployView.ExplanationUnclamped | internal/httpapi/deploys.go:161-182 | The page uses the unclamped threshold; it still names that batch exactly if the configured threshold is not negative or the batch is the first |
| DeployView.PageBlamesTheCanary | internal/httpapi/deploys.go:207-230 | Where it does not: a reachable deploy of two devices, paused at batch 1 because the second failed, whose page names the canary, which succeeded |
| DeployView.PassStops | internal/deploy/service.go:262-268 | A pass whose verdict is to pause at a batch leaves the deploy stopped at it, by what the rows say |
| DeployView.PauseStaysExplained | internal/httpapi/deploys.go:207-230 | From the pass that pauses a deploy until its resume the page names the same batch, whatever is reported |
| WireCodec.DeviceMessage | client/esp-idf/example/components/espmanager_client/espmanager_client.c:346-350 | The device's shift loop fills in the bytes the server signed, which are defined by repeated division |
| WireCodec.Uint64Spells | internal/artifact/service.go:113-116 | The eight bytes in front of the hash are those, and no others, that spell the sequence as an uint64 |
| WireCodec.MessageInjective | internal/artifact/service.go:113-118 | The signed message determines sequence and hash, for every int64 |
| WireCodec.HexToBytes | client/esp-idf/example/components/espmanager_client/espmanager_client.c:144-158 | hex_to_bytes succeeds exactly if the length fits and every pair is accepted, and then holds the decoded bytes |
| WireCodec.HexRoundTrip | client/esp-idf/example/components/espmanager_client/espmanager_client.c:144-158 | What the server encodes in hexadecimal the device decodes to the same bytes |
| WireCodec.DecodeFaithful | client/esp-idf/example/components/espmanager_client/espmanager_client.c:151-156 | strtol takes signs and blanks: the decoded bytes encode back to the text, up to case, exactly if the text is hexadecimal throughout |
| WireCodec.SpaceIsDecoded | client/esp-idf/example/components/espmanager_client/espmanager_client.c:151-156 | Such a text is a blank and a 5, which decodes to the byte that is encoded as 05 |
| WireCodec.SignsAreDecoded | client/esp-idf/example/components/espmanager_client/espmanager_client.c:151-156 | So are +5 as 05 and -5 as fb, while 0x is refused |
| WireCodec.CommandSequenceSurvives | client/esp-idf/example/components/espmanager_client/espmanager_client.c:482-491 | Every uint64 sequence the server prints is read back by the device, and nothing larger is |
| WireCodec.ReportSequenceSurvives | client/esp-idf/example/components/espmanager_client/espmanager_client.c:164-172 | Every sequence up to 2^63-1 a device prints is read back by the server; larger ones read as untagged |
| WireCodec.TaggedExactly | internal/deploy/service.go:391-400 | A report is tagged n exactly if its field is, quotes, plus sign and leading zeros aside, what is printed for n, and n lies in 1..2^63-1 |
| EndToEnd.OnStatusIsAStep | internal/deploy/service.go:337-369 | What OnStatus does with a report it maps is an enabled step of the rollout machine, with exactly the effect the service has |
| EndToEnd.ArrivesTagged | client/esp-idf/example/components/espmanager_client/espmanager_client.c:164-178 | Every report of a fleet device reaches the server tagged with the sequence and status the device meant |
| EndToEnd.RunKeeps | internal/deploy/service.go:337-369 | In every run of server, fleet and a network that loses, delays, duplicates, reorders and damages, the invariant of all three holds |
| EndToEnd.SucceededMeansConfirmed | internal/deploy/service.go:353-368 | A target recorded as succeeded with sequence N means that its device had booted exactly the image published as N, reached the broker with it and marked it valid |
| EndToEnd.CompletedMeansConfirmed | internal/deploy/service.go:262-278 | In a completed deploy every target that did not fail has confirmed the deploy's image, and failures are within the threshold |
| SystemProgress.SomeTargetSucceeds | internal/deploy/service.go:337-369 | For every device, artifact and fleet there is one run of server, device and network from the empty tables to a target recorded as succeeded |
| SystemProgress.SomeDeployCompletes | internal/deploy/service.go:262-278 | And one in which the next pass completes that deploy |
| SystemProgress.SomeTargetFails | client/esp-idf/example/components/espmanager_client/espmanager_client.c:401-589 | There is one in which the image never connects, the device is rolled back and reports it, and the row reads failed |
| SystemProgress.LostOkIsRepeated | client/esp-idf/example/components/espmanager_client/espmanager_client.c:525-528 | In every reachable state of the system a device that runs image n, has not quarantined n and whose row is still open answers a repeated command with "ok", and delivering that records the row as succeeded |
| SystemProgress.NoOtherAnswer | client/esp-idf/example/components/espmanager_client/espmanager_client.c:525-528 | It has no other answer to give |
| SystemProgress.SomeLostOkIsRepeated | internal/deploy/service.go:247-260 | And there is such a run from publishing on: confirmed, the report lost, the command repeated, the row succeeded |
| EnrollService.EnrollRepository.Claim | internal/store/sqlite/enroll_repo.go:54-89 | Invalid exactly if the token is unknown, expired or bound to another device; else enrolled exactly if the device is; on success exactly the token goes and the credentials come, otherwise nothing changes |
| EnrollService.Service.Claim | internal/enroll/service.go:79-110 | Which of the four answers a lone claim gets, each exactly characterised, and the tables after it |
| EnrollService.Service.Rotate | internal/enroll/service.go:116-137 | Only where nothing is pending is a new hash staged; the one in force stays |
| EnrollService.Service.Authenticate | internal/enroll/service.go:152-167 | Accepts the password in force and the pending one, and promotes the pending one when it is seen |
| EnrollService.Service.Revoke | internal/enroll/service.go:141-150 | The credentials are gone, and revoking nobody is an error |
| EnrollService.Service.MintFor | internal/enroll/service.go:59-77 | A token bound to the normalized MAC is stored with its expiry; of the others exactly the expired ones are dropped |
| EnrollService.Service.Mint | internal/enroll/service.go:53-57 | The same for a token any device may claim with |
| EnrollService.NormalizeReadsMac | internal/enroll/service.go:33-39 | A MAC in any usual notation is read as the id the firmware computes for itself |
| EnrollService.NormalizedIsMac | internal/enroll/service.go:33-39 | What it accepts is always the id of some MAC: twelve lower-case hexadecimal digits, and nothing else is accepted |
| ClaimProtocol.StepKeeps | internal/enroll/service.go:79-110 | Every step of interleaved claims, mints, revokes and rotations keeps tokens, calls and enrollments consistent |
| ClaimProtocol.OneSuccessPerToken | internal/store/sqlite/enroll_repo.go:63-72 | Under any interleaving a token yields at most one success |
| ClaimProtocol.OnlyItsDevice | internal/store/sqlite/enroll_repo.go:40-52 | A success used a minted token, bound to that device if to any, and unexpired when the claim began |
| ClaimProtocol.FailedClaimsLeaveNothing | internal/store/sqlite/enroll_repo.go:54-89 | No step of a claim changes the tables except the one that makes it succeed |
| ClaimProtocol.EnrolledIsTheBalance | internal/store/sqlite/enroll_repo.go:74-89 | Successful claims minus successful revokes of a device are 1 while it is enrolled and 0 while it is not |
| ClaimProtocol.ClaimsAreAtomic | internal/enroll/service.go:79-110 | Replaying the completed claims one after the other, each at one moment, leads to the same tables |
| ClaimProtocol.EachClaimOnce | internal/enroll/service.go:79-110 | Each finished claim is exactly one of these actions, with the answer its caller got |
| ClaimProtocol.AnswerIsIdeal | internal/enroll/service.go:84-108 | Apart from storage failures the answer is that of a claim done at the moment it is given, if and only if it is not the second check for an enrolled device that gives it while the token is no longer valid |
| ClaimProtocol.WrongKind | internal/enroll/service.go:96-101 | From any state in which two claims of one device with one valid token have begun, the slower one can be told what no claim done at one moment would be told at any time of it |
| ClaimProtocol.SlowerIsMisled | internal/enroll/service.go:84-108 | And such a run exists from the empty tables on, for every device and every token that is valid for it |
| Rotation.CredentialClient.HandleCmdCred | client/esp-idf/example/components/espmanager_client/espmanager_client.c:538-557 | A password of 1 to 95 characters replaces the working one, which is kept beside it, and the device restarts; any other changes nothing |
| Rotation.CredentialClient.OnConnected | client/esp-idf/example/components/espmanager_client/espmanager_client.c:568-571 | The old password is dropped only after the new one was accepted |
| Rotation.CredentialClient.OnRefused | client/esp-idf/example/components/espmanager_client/espmanager_client.c:598-613 | A rejected device goes back to its old password once |
| Rotation.RunKeeps | client/esp-idf/example/components/espmanager_client/espmanager_client.c:538-613 | Every step of device and server, power cuts between writes and lost replies included, keeps one of the device's passwords in force |
| Rotation.NeverLockedOut | internal/enroll/service.go:116-167 | At every moment the server accepts the password in NVS or the one kept beside it, whatever credential messages arrive |
| Rotation.RejectionsPaid | client/esp-idf/example/components/espmanager_client/espmanager_client.c:598-613 | Over any stretch the device is rejected at most once more than it replaced its password and lost power in it |
| Rotation.OneRejectionPerCredential | client/esp-idf/example/components/espmanager_client/espmanager_client.c:598-613 | Without a power cut or another credential at most one connection is rejected |
| Rotation.CutCostsARejection | client/esp-idf/example/components/espmanager_client/espmanager_client.c:605-611 | The power cuts in the bound are needed: a run with one replaced password and one cut that is rejected twice |
| Rotation.ReachesAWorkingPassword | client/esp-idf/example/components/espmanager_client/espmanager_client.c:538-613 | From every reachable state, in the middle of a rotation or a rollback too, a device left alone has a session with the password in force after at most twelve steps and one rejection |
| Rotation.OnwardIsARun | client/esp-idf/example/components/espmanager_client/espmanager_client.c:538-613 | That continuation is a run of the device's own steps, as many as its distance says, without a cut, a rotation or another password |
| Rotation.RotationCompletes | internal/enroll/service.go:157-166 | A pending credential that arrives is in force six of the device's own steps later, without a rejection, and the one before no longer works |
| ArtifactSpec.PathInjective | internal/artifact/service.go:109-111 | Different artifacts have different files |
| ArtifactService.Service.WriteFile | internal/artifact/service.go:120-132 | Exclusive create: an existing file is never touched, and a write that stops leaves a prefix |
| ArtifactService.Service.Store | internal/artifact/service.go:48-103 | One Store has the effect and the answer of its steps taken one after the other; on success the row holds driver, version, hash, size, a new number and the signature of number and hash, and the file the content |
| ArtifactService.StoreSucceeds | internal/artifact/service.go:48-103 | A lone Store succeeds exactly if the input is well-formed, version and file are new and no lookup, statement, signature or write fails; else the rows are as before, unless the compensating delete fails too |
| ArtifactService.StoreErrors | internal/artifact/service.go:48-103 | Which error a well-formed input gets for each thing that can go wrong, and whether it uses up a number |
| ArtifactService.StoreRefuses | internal/artifact/service.go:49-60 | Malformed input is refused with the error of the first check it fails, and nothing is read or written |
| ArtifactRuns.AloneIsARun | internal/artifact/service.go:48-103 | Such a lone Store is one of the runs all the theorems speak of |
| ArtifactProtocol.StepKeeps | internal/artifact/service.go:48-103 | Every step of interleaved Store calls, failures and crashes included, keeps rows, files, numbers and signatures consistent |
| ArtifactProtocol.SequencesDistinct | internal/store/sqlite/artifact_repo.go:34-52 | Nonzero stored sequences are pairwise distinct, and no two messages are signed for one sequence |
| ArtifactProtocol.NumbersAreFresh | internal/store/sqlite/artifact_repo.go:34-52 | A number handed out exceeds every number stored, signed or held by any call |
| ArtifactProtocol.CounterNeverFalls | internal/store/sqlite/artifact_repo.go:34-52 | Numbers are never reused |
| ArtifactProtocol.StoredForever | internal/artifact/service.go:95-102 | What Store returned stays: its row, its file with exactly the hashed bytes, and its one signed message |
| ArtifactProtocol.UndoIsOwn | internal/artifact/service.go:98-101 | The compensating delete removes the row its own call inserted and no row of a call that succeeded |
| ArtifactProtocol.StopAbandons | internal/artifact/service.go:120-132 | A write that stops half-way, by an error or because the process ends, leaves a file no call owns |
| ArtifactProtocol.AbandonedBlocks | internal/artifact/service.go:120-132 | After that step no Store of the version ever succeeds, in any continuation, because the file is never removed |
| ArtifactRuns.SomeWriteStops | internal/artifact/service.go:95-132 | Every version that is new in the table and on disk can be lost like that: there is a run to such a step |
| ProvisionAgent.Agent.Run | client/esp-idf/example/components/espmanager_client/espmanager_client.c:697-764 | The byte loop over its line buffer computes the agent's state and everything it sends |
| ProvisionAgent.TakesALine | client/esp-idf/example/components/espmanager_client/espmanager_client.c:700-707 | A line and its newline get the answer to what the 200-byte buffer kept of the line |
| ProvisionAgent.ReturnIsIgnored | client/esp-idf/example/components/espmanager_client/espmanager_client.c:700-702 | A carriage return makes no difference wherever it comes |
| ProvisionAgent.NothingAfterStored | client/esp-idf/example/components/espmanager_client/espmanager_client.c:754-760 | After the values are stored the agent reads and answers nothing more |
| ProvisionAgent.CommandMeans | client/esp-idf/example/components/espmanager_client/espmanager_client.c:709-755 | The reply to every line and when it stores the values: only for PROVISION with ssid, host and token set |
| ProvisionAgent.SetMeans | client/esp-idf/example/components/espmanager_client/espmanager_client.c:710-736 | What SET does for each key: texts are cut to 32, 64, 79 and 63 characters, a bad port or an unknown key changes nothing and is answered with its error |
| ProvisionScript.SetCommand | client/esp-idf/example/components/espmanager_client/espmanager_client.c:712-718 | The key ends at the first blank, the value is all that follows, and without a blank it is empty |
| ProvisionAgent.PortExactly | client/esp-idf/example/components/espmanager_client/espmanager_client.c:722-731 | A text is the port p exactly if it is, blanks, plus sign and leading zeros aside, what is printed for p, and p lies in 1..65535 |
| SerialHost.EspmSerial.ReadLine | web/src/lib/serial.ts:123-153 | A line, and what is left after it, depend on the bytes sent alone, not on their chunks, timeouts or reads kept in flight |
| SerialHost.EspmSerial.ReadReply | web/src/lib/serial.ts:162-171 | It takes whole lines up to the next acknowledgement and no further |
| SerialHost.EspmSerial.Provision | web/src/lib/serial.ts:195-212 | If it returns and no reply was waiting, NVS holds the values, and exactly the configuration if and only if every value fits its buffer |
| ProvisionScript.PortSurvives | client/esp-idf/example/components/espmanager_client/espmanager_client.c:722-731 | A port survives its text form exactly if it lies in 1..65535 |
| ProvisionScript.ProvisionedExactly | client/esp-idf/example/components/espmanager_client/espmanager_client.c:695-747 | From a quiet line success is possible exactly for valid ports and nonempty ssid, host and token; values too long are cut short silently |
| ProvisionScript.StaleReplies | web/src/lib/serial.ts:162-193 | Replies are not matched to lines: success can be trusted exactly if the replies already waiting are none or not all acceptable |
| SerialRetry.LateReply | web/src/lib/serial.ts:162-193 | Whenever the host gives up on a line the agent answers, on a quiet connection, exactly that answer is left waiting |
| SerialRetry.RetryIsTrusted | web/src/lib/serial.ts:162-212 | So success of a second attempt on that connection can be trusted exactly if that answer was no acknowledgement |
| SerialRetry.RetryIsMisled | web/src/lib/serial.ts:189-212 | Such an attempt exists: after one late reply provision returns although the agent refused to commit and stored nothing |

## Left out

- HTTP routing, sessions, server-sent events, the React pages, the MQTT library, WiFi, flashing and the build queue: plumbing around what is modelled.
- The Arduino client: its accept check and its floor write are not ordered by an in-flight claim, so the invariants of the ESP-IDF client do not carry over.
- JSON parsing: commands and reports enter as their fields; a payload that does not parse does nothing on either side.
- Database errors outside Store and Claim: the code logs them and tries again at the next tick.
- Statement-level interleavings inside one reconcile pass: a report between publishing and the triggered write can move a row from downloading back to triggered.
- Re-provisioning during a run (it resets the floor on purpose), revoking during a rotation, and redelivery of a credential staged while a device is offline.
- The bootloader and the otadata partition: selection, rollback and the states of the two slots are modelled, not the sectors they are kept in.
- KEY_TARGET: its writes are modelled; nothing in the client reads it.
- The clearing of credentials and OTA state by a PROVISION command: it starts the run that DeviceOta begins with.
- Commit, environment and creation time of an artifact: they are carried along, and nothing depends on them.
- A counter beyond 2^63-1, and clocks that go backwards in the settling bound.
- RolloutSettles.EveryRolloutSettles: does not bound a deploy whose artifact cannot be looked up or has no sequence, because the code then waits without limit.
- EndToEnd.SucceededMeansConfirmed: does not cover rows of devices outside the fleet, whose reports are taken at their word.
- RolloutScope.BlastRadius: does not speak about a deploy that was resumed, because a resume may legitimately reach batch 1.
