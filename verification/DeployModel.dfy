/** The records of internal/deploy/deploy.go. */
module DeployModel {
  type DeployId = string
  type DeviceId = string

  /** Nanoseconds; the store keeps milliseconds. */
  type Time = int

  const MILLISECOND: int := 1_000_000

  function Stored(at: Time): (r: Time)
    ensures r <= at < r + 1_000_000 && r % 1_000_000 == 0
  {
    at - at % MILLISECOND
  }

  datatype Status = Pending | Triggered | Downloading | Succeeded | Failed | Lost {
    predicate Terminal() { Succeeded? || Failed? || Lost? }

    predicate InFlight() { Triggered? || Downloading? }

    predicate Failure() { Failed? || Lost? }
  }

  datatype State = InProgress | Paused | Completed | Cancelled

  datatype Deploy = Deploy(driver: string, version: string, state: State, createdAt: Time)

  /** A row of deploy_targets; the rows are kept per deploy. */
  datatype Target = Target(device: DeviceId, version: string, sequence: int, batch: int, status: Status,
                           updatedAt: Time)
  {
    /** The columns that no statement updates. */
    predicate SameTarget(t: Target) {
      device == t.device && version == t.version && sequence == t.sequence && batch == t.batch
    }
  }

  datatype Options = Options(canaryPercent: int, failureThreshold: int, targetTimeout: int)

  const FIVE_MINUTES: int := 300_000_000_000
  const RESEND_GRACE_PERIOD: int := 90_000_000_000

  /** NewService. */
  function Clamped(o: Options): (c: Options)
    ensures 1 <= c.canaryPercent <= 100 && 0 <= c.failureThreshold <= 100 && c.targetTimeout >= 1
    ensures 1 <= o.canaryPercent <= 100 && 0 <= o.failureThreshold <= 100 && o.targetTimeout >= 1 ==> c == o
    ensures c.canaryPercent != o.canaryPercent ==> c.canaryPercent == 100
    ensures c.failureThreshold <= o.failureThreshold ==>
      c.failureThreshold == o.failureThreshold || c.failureThreshold == 100
    ensures c.failureThreshold > o.failureThreshold ==> c.failureThreshold == 0
    ensures c.targetTimeout == if o.targetTimeout <= 0 then 300_000_000_000 else o.targetTimeout
  {
    Options(
      if o.canaryPercent <= 0 || o.canaryPercent > 100 then 100 else o.canaryPercent,
      if o.failureThreshold < 0 then 0 else if o.failureThreshold > 100 then 100 else o.failureThreshold,
      if o.targetTimeout <= 0 then FIVE_MINUTES else o.targetTimeout)
  }
}
