/** The tables of internal/store/sqlite/enroll_repo.go and what each statement does to them. */
module EnrollSpec {
  import opened Optional
  import opened DeployModel

  /** device is the device a token is bound to; an unbound token has none. */
  datatype Token = Token(expiresAt: Time, device: Option<DeviceId>)

  /** bcrypt as an ideal matcher: a hash is matched by its own password and no other. */
  datatype Hash = HashOf(password: string)

  datatype Credentials = Credentials(hash: Hash, pending: Option<Hash>) {
    predicate Accepts(password: string) { hash == HashOf(password) || pending == Some(HashOf(password)) }

    /** SetPendingHash: only where nothing is pending. */
    function Staged(h: Hash): Credentials { if pending.None? then this.(pending := Some(h)) else this }

    /** Authenticate, as one step: a password that matches the pending hash alone promotes it. */
    function Seen(password: string): Credentials {
      if hash != HashOf(password) && pending == Some(HashOf(password)) then Credentials(pending.value, None) else this
    }
  }

  datatype Store = Store(tokens: map<string, Token>, creds: map<DeviceId, Credentials>)

  datatype Error =
    | InvalidDevice
    | InvalidToken
    | InvalidMAC
    | AlreadyEnrolled
    | NotEnrolled
    | RotationPending
    | Unavailable

  predicate DeviceChar(c: char) { 'A' <= c <= 'Z' || 'a' <= c <= 'z' || '0' <= c <= '9' || c == '_' || c == '-' }

  predicate DevicePattern(s: string) { 3 <= |s| <= 64 && forall i :: 0 <= i < |s| ==> DeviceChar(s[i]) }

  /** The guard that TokenValid and the deletion in Claim share. Times are compared as stored, to the millisecond. */
  predicate ValidFor(s: Store, token: string, device: DeviceId, now: Time) {
    && token in s.tokens
    && s.tokens[token].expiresAt > Stored(now)
    && (s.tokens[token].device.None? || s.tokens[token].device.value == device)
  }

  function Claimed(s: Store, device: DeviceId, token: string, password: string): Store {
    Store(s.tokens - {token}, s.creds[device := Credentials(HashOf(password), None)])
  }

  /** CreateToken removes what has expired by the clock of the database and inserts the new token. */
  function Minted(s: Store, value: string, t: Token, dbNow: Time): Store {
    s.(tokens := (map v | v in s.tokens && s.tokens[v].expiresAt > Stored(dbNow) :: s.tokens[v])
                 [value := t.(expiresAt := Stored(t.expiresAt))])
  }

  function Revoked(s: Store, device: DeviceId): Store { s.(creds := s.creds - {device}) }

  function Put(s: Store, device: DeviceId, c: Credentials): Store { s.(creds := s.creds[device := c]) }
}
