/** internal/enroll/service.go over its repository, one call at a time. */
module EnrollService {
  import opened Optional
  import opened DeployModel
  import opened EnrollSpec
  import WireCodec

  class EnrollRepository {
    var tokens: map<string, Token>
    var creds: map<DeviceId, Credentials>
    var devices: set<DeviceId>

    ghost function Content(): Store
      reads this
    {
      Store(tokens, creds)
    }

    constructor ()
      ensures Content() == Store(map[], map[]) && devices == {}
    {
      tokens, creds, devices := map[], map[], {};
    }

    method CreateToken(value: string, t: Token, dbNow: Time)
      modifies `tokens
      ensures Content() == Minted(old(Content()), value, t, dbNow)
      ensures value in tokens && tokens[value].expiresAt == Stored(t.expiresAt) && tokens[value].device == t.device
      ensures forall v :: v != value ==>
        (v in tokens <==> v in old(tokens) && old(tokens)[v].expiresAt > Stored(dbNow))
        && (v in tokens ==> tokens[v] == old(tokens)[v])
    {
      tokens := map v | v in tokens && tokens[v].expiresAt > Stored(dbNow) :: tokens[v];
      tokens := tokens[value := t.(expiresAt := Stored(t.expiresAt))];
    }

    method TokenValid(token: string, device: DeviceId, now: Time) returns (valid: bool)
      ensures valid == ValidFor(Content(), token, device, now)
    {
      valid := token in tokens && tokens[token].expiresAt > Stored(now)
        && (tokens[token].device.None? || tokens[token].device.value == device);
    }

    /** One transaction: the deletion of the token is rolled back if the device turns out to be enrolled. */
    method Claim(device: DeviceId, token: string, hash: Hash, now: Time) returns (error: Option<Error>)
      modifies this
      ensures error == if !ValidFor(old(Content()), token, device, now) then Some(InvalidToken)
                       else if device in old(creds) then Some(AlreadyEnrolled) else None
      ensures error.Some? ==> Content() == old(Content()) && devices == old(devices)
      ensures error.None? ==>
        Content() == Claimed(old(Content()), device, token, hash.password) && devices == old(devices) + {device}
      ensures var open := token in old(tokens) && old(tokens)[token].expiresAt > Stored(now)
                          && (old(tokens)[token].device.None? || old(tokens)[token].device == Some(device));
              && ((error == Some(InvalidToken)) <==> !open)
              && ((error == Some(AlreadyEnrolled)) <==> open && device in old(creds))
              && (error.None? <==> open && device !in old(creds))
      ensures error.None? ==> tokens == old(tokens) - {token} && creds == old(creds)[device := Credentials(hash, None)]
    {
      var left := tokens;
      if !(token in left && left[token].expiresAt > Stored(now)
        && (left[token].device.None? || left[token].device.value == device)) {
        return Some(InvalidToken);
      }
      left := left - {token};
      if device in creds {
        return Some(AlreadyEnrolled);
      }
      creds := creds[device := Credentials(hash, None)];
      devices := devices + {device};
      tokens := left;
      return None;
    }

    method Revoke(device: DeviceId) returns (existed: bool)
      modifies `creds
      ensures existed == (device in old(creds)) && Content() == Revoked(old(Content()), device)
      ensures creds == old(creds) - {device}
    {
      existed := device in creds;
      creds := creds - {device};
    }

    method SetPendingHash(device: DeviceId, h: Hash) returns (updated: bool)
      modifies `creds
      ensures updated == (device in old(creds) && old(creds)[device].pending.None?)
      ensures creds == if updated then old(creds)[device := Credentials(old(creds)[device].hash, Some(h))]
        else old(creds)
    {
      updated := device in creds && creds[device].pending.None?;
      if updated {
        creds := creds[device := creds[device].(pending := Some(h))];
      }
    }

    method PromotePending(device: DeviceId)
      modifies `creds
      ensures creds == if device in old(creds) && old(creds)[device].pending.Some?
                       then old(creds)[device := Credentials(old(creds)[device].pending.value, None)] else old(creds)
    {
      if device in creds && creds[device].pending.Some? {
        creds := creds[device := Credentials(creds[device].pending.value, None)];
      }
    }
  }

  datatype Result = Issued(secret: string) | Refused(error: Error)

  /** The secrets come from id.New and are passed in; ttl and now are those of the service. */
  class Service {
    const repo: EnrollRepository
    const ttl: int

    constructor (repo: EnrollRepository, ttl: int)
      ensures this.repo == repo && this.ttl == ttl
    {
      this.repo, this.ttl := repo, ttl;
    }

    /** MintFor; the token value is fresh. */
    method MintFor(mac: string, value: string, now: Time, dbNow: Time) returns (r: Result)
      modifies repo
      ensures NormalizeMAC(mac).None? ==> r == Refused(InvalidMAC) && repo.Content() == old(repo.Content())
      ensures NormalizeMAC(mac).Some? ==>
        && r == Issued(value)
        && repo.Content() == Minted(old(repo.Content()), value, Token(now + ttl, NormalizeMAC(mac)), dbNow)
      ensures r.Issued? ==>
        && r.secret == value && repo.creds == old(repo.creds) && value in repo.tokens
        && repo.tokens[value].expiresAt == Stored(now + ttl) && repo.tokens[value].device == NormalizeMAC(mac)
        && (forall v :: v != value ==>
              (v in repo.tokens <==> v in old(repo.tokens) && old(repo.tokens)[v].expiresAt > Stored(dbNow))
              && (v in repo.tokens ==> repo.tokens[v] == old(repo.tokens)[v]))
    {
      var device := NormalizeMAC(mac);
      if device.None? {
        return Refused(InvalidMAC);
      }
      repo.CreateToken(value, Token(now + ttl, device), dbNow);
      return Issued(value);
    }

    /** Mint: a token any device may claim with. */
    method Mint(value: string, now: Time, dbNow: Time) returns (r: Result)
      modifies repo
      ensures r == Issued(value) && repo.creds == old(repo.creds) && value in repo.tokens
      ensures repo.tokens[value].expiresAt == Stored(now + ttl) && repo.tokens[value].device.None?
      ensures forall v :: v != value ==>
        (v in repo.tokens <==> v in old(repo.tokens) && old(repo.tokens)[v].expiresAt > Stored(dbNow))
        && (v in repo.tokens ==> repo.tokens[v] == old(repo.tokens)[v])
    {
      repo.CreateToken(value, Token(now + ttl, None), dbNow);
      return Issued(value);
    }

    method Claim(device: DeviceId, token: string, secret: string, now: Time) returns (r: Result)
      modifies repo
      ensures r.Refused? ==> repo.Content() == old(repo.Content()) && repo.devices == old(repo.devices)
      ensures r == if !DevicePattern(device) then Refused(InvalidDevice)
                   else if !ValidFor(old(repo.Content()), token, device, now) then Refused(InvalidToken)
                   else if device in old(repo.creds) then Refused(AlreadyEnrolled)
                   else Issued(secret)
      ensures r.Issued? ==> repo.Content() == Claimed(old(repo.Content()), device, token, secret)
      ensures var named := 3 <= |device| <= 64 && forall i :: 0 <= i < |device| ==> DeviceChar(device[i]);
              var open := token in old(repo.tokens) && old(repo.tokens)[token].expiresAt > Stored(now)
                          && (old(repo.tokens)[token].device.None? || old(repo.tokens)[token].device == Some(device));
              && ((r == Refused(InvalidDevice)) <==> !named)
              && ((r == Refused(InvalidToken)) <==> named && !open)
              && ((r == Refused(AlreadyEnrolled)) <==> named && open && device in old(repo.creds))
              && ((r == Issued(secret)) <==> named && open && device !in old(repo.creds))
      ensures r.Issued? ==>
        && repo.tokens == old(repo.tokens) - {token}
        && repo.creds == old(repo.creds)[device := Credentials(hash := HashOf(secret), pending := None)]
    {
      if !DevicePattern(device) {
        return Refused(InvalidDevice);
      }
      var valid := repo.TokenValid(token, device, now);
      if !valid {
        return Refused(InvalidToken);
      }
      if device in repo.creds {
        return Refused(AlreadyEnrolled);
      }
      var error := repo.Claim(device, token, HashOf(secret), now);
      match error {
        case Some(e) => return Refused(e);
        case None => return Issued(secret);
      }
    }

    method Rotate(device: DeviceId, secret: string) returns (r: Result)
      modifies repo`creds
      ensures r == if device !in old(repo.creds) then Refused(NotEnrolled)
                   else if old(repo.creds)[device].pending.Some? then Refused(RotationPending)
                   else Issued(secret)
      ensures repo.Content() == if device in old(repo.creds)
                                then Put(old(repo.Content()), device, old(repo.creds)[device].Staged(HashOf(secret)))
                                else old(repo.Content())
      ensures r.Refused? ==> repo.creds == old(repo.creds)
      ensures r.Issued? ==>
        repo.creds == old(repo.creds)[device := Credentials(hash := old(repo.creds)[device].hash,
                                                            pending := Some(HashOf(secret)))]
    {
      if device !in repo.creds {
        return Refused(NotEnrolled);
      }
      assert repo.creds[device := repo.creds[device]] == repo.creds;
      var ok := repo.SetPendingHash(device, HashOf(secret));
      return if ok then Issued(secret) else Refused(RotationPending);
    }

    method Revoke(device: DeviceId) returns (error: Option<Error>)
      modifies repo`creds
      ensures error == if device in old(repo.creds) then None else Some(NotEnrolled)
      ensures repo.Content() == Revoked(old(repo.Content()), device)
      ensures repo.creds == old(repo.creds) - {device}
    {
      var existed := repo.Revoke(device);
      return if existed then None else Some(NotEnrolled);
    }

    method Authenticate(device: DeviceId, password: string) returns (accepted: bool)
      modifies repo`creds
      ensures accepted == (device in old(repo.creds) && old(repo.creds)[device].Accepts(password))
      ensures repo.Content() == if device in old(repo.creds)
                                then Put(old(repo.Content()), device, old(repo.creds)[device].Seen(password))
                                else old(repo.Content())
      ensures accepted <==>
        device in old(repo.creds)
        && (old(repo.creds)[device].hash == HashOf(password)
            || old(repo.creds)[device].pending == Some(HashOf(password)))
      ensures repo.creds ==
        if accepted && old(repo.creds)[device].hash != HashOf(password)
        then old(repo.creds)[device := Credentials(hash := HashOf(password), pending := None)] else old(repo.creds)
    {
      if device !in repo.creds {
        return false;
      }
      var c := repo.creds[device];
      assert repo.creds[device := c] == repo.creds;
      if c.hash == HashOf(password) {
        return true;
      }
      if c.pending == Some(HashOf(password)) {
        repo.PromotePending(device);
        return true;
      }
      return false;
    }
  }

  // ---------------------------------------------------------------- device ids

  predicate Separator(c: char) { c == ':' || c == '-' || c == '.' || c == ' ' }

  function Stripped(s: string): string {
    if s == "" then "" else Stripped(s[..|s| - 1]) + if Separator(s[|s| - 1]) then "" else [s[|s| - 1]]
  }

  predicate MacPattern(s: string) { |s| == 12 && HexText(s) }

  function NormalizeMAC(raw: string): Option<DeviceId> {
    var mac := Stripped(WireCodec.Normal(raw));
    if MacPattern(mac) then Some(mac) else None
  }

  /** A MAC address as people write it: the bytes in hexadecimal, separated, in either case. */
  function Written(mac: seq<WireCodec.byte>, separator: string): string {
    if |mac| <= 1 then WireCodec.HexEncode(mac)
    else Written(mac[..|mac| - 1], separator) + separator + WireCodec.HexEncode(mac[|mac| - 1..])
  }

  lemma {:induction false} StrippedJoins(a: string, b: string)
    ensures Stripped(a + b) == Stripped(a) + Stripped(b)
  {
    if b == "" {
      assert a + b == a;
    } else {
      StrippedJoins(a, b[..|b| - 1]);
      assert (a + b)[..|a + b| - 1] == a + b[..|b| - 1];
    }
  }

  predicate HexChar(c: char) { '0' <= c <= '9' || 'a' <= c <= 'f' }

  predicate HexText(s: string) { forall i :: 0 <= i < |s| ==> HexChar(s[i]) }

  lemma {:induction false} PlainStays(s: string)
    requires HexText(s)
    ensures Stripped(s) == s
  {
    if s != "" {
      PlainStays(s[..|s| - 1]);
      assert s == s[..|s| - 1] + [s[|s| - 1]];
    }
  }

  lemma HexDigits(b: WireCodec.byte)
    ensures HexText(WireCodec.HexByte(b))
  {
    assert forall d :: 0 <= d < 16 ==> HexChar(WireCodec.HEX[d]);
  }

  lemma {:induction false} HexIsPlain(bs: seq<WireCodec.byte>)
    ensures HexText(WireCodec.HexEncode(bs))
  {
    if bs != [] {
      HexIsPlain(bs[..|bs| - 1]);
      HexDigits(bs[|bs| - 1]);
    }
  }

  lemma OneByte(bs: seq<WireCodec.byte>)
    requires bs != []
    ensures WireCodec.HexEncode(bs) == WireCodec.HexEncode(bs[..|bs| - 1]) + WireCodec.HexEncode(bs[|bs| - 1..])
  {
    var last := bs[|bs| - 1..];
    assert last[..0] == [] && WireCodec.HexEncode(last[..0]) == "";
    assert WireCodec.HexEncode(last) == WireCodec.HexByte(last[0]);
  }

  lemma {:induction false} SeparatorsVanish(mac: seq<WireCodec.byte>, separator: string)
    requires separator == "" || (|separator| == 1 && Separator(separator[0]))
    ensures Stripped(Written(mac, separator)) == WireCodec.HexEncode(mac)
  {
    HexIsPlain(mac);
    PlainStays(WireCodec.HexEncode(mac));
    if |mac| > 1 {
      var init, last := mac[..|mac| - 1], mac[|mac| - 1..];
      SeparatorsVanish(init, separator);
      HexIsPlain(last);
      PlainStays(WireCodec.HexEncode(last));
      OneByte(mac);
      StrippedJoins(Written(init, separator) + separator, WireCodec.HexEncode(last));
      StrippedJoins(Written(init, separator), separator);
      SeparatorAlone(separator);
    }
  }

  lemma SeparatorAlone(separator: string)
    requires separator == "" || (|separator| == 1 && Separator(separator[0]))
    ensures Stripped(separator) == ""
  {
    if separator != "" { assert separator[..|separator| - 1] == ""; }
  }

  /** Nothing else is taken for one: what is left must be twelve hexadecimal digits, and is read as itself. */
  lemma NormalizedIsMac(raw: string)
    ensures NormalizeMAC(raw).Some? ==>
              var m := NormalizeMAC(raw).value;
              && |m| == 12 && m == Stripped(WireCodec.Normal(raw))
              && forall i :: 0 <= i < 12 ==> m[i] in "0123456789abcdef"
    ensures NormalizeMAC(raw).None? ==>
              var m := Stripped(WireCodec.Normal(raw));
              |m| != 12 || exists i :: 0 <= i < 12 && m[i] !in "0123456789abcdef"
  {
    var m := Stripped(WireCodec.Normal(raw));
    forall i | 0 <= i < |m| ensures HexChar(m[i]) <==> m[i] in "0123456789abcdef" { HexCharIs(m[i]); }
  }

  lemma HexCharIs(c: char)
    ensures HexChar(c) <==> c in "0123456789abcdef"
  {
    var digits := "0123456789abcdef";
    if '0' <= c <= '9' { assert digits[c as int - '0' as int] == c; }
    if 'a' <= c <= 'f' { assert digits[c as int - 'a' as int + 10] == c; }
  }

  /**
   A MAC in any of the usual notations is read as the id the firmware computes for
   itself, so the token the wizard binds to it is one the device can claim with.
   */
  lemma NormalizeReadsMac(mac: seq<WireCodec.byte>, separator: string, raw: string)
    requires |mac| == 6 && (separator == "" || (|separator| == 1 && Separator(separator[0])))
    requires WireCodec.Normal(raw) == Written(mac, separator)
    ensures NormalizeMAC(raw) == Some(WireCodec.HexEncode(mac))
    ensures DevicePattern(NormalizeMAC(raw).value)
  {
    SeparatorsVanish(mac, separator);
    HexIsPlain(mac);
  }
}
