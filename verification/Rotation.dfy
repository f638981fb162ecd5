/**
 Credential rotation between one device and its server. The server keeps a hash and
 at most one pending hash, the device keeps its password and the one before. Every
 NVS write is a step, the power may be cut between any two, replies to connection
 attempts may be lost, and any credential message may arrive: new, stale, repeated,
 or one that was never issued.
 */
module Rotation {
  import opened Optional
  import opened EnrollSpec

  datatype Phase =
    | Off
    | Connecting
    | Greeted                    // the broker accepted, the connected event is due
    | Session
    | Received(next: string)
    | OldKept(next: string)
    | Replaced
    | Rejected                   // the refusal arrived
    | RollingBack(previous: string)
    | PassRestored
    | OldDropped

  /** NVS keys KEY_PASS and KEY_OLDPASS ("" when erased), and s_password in RAM. */
  datatype Device = Device(pass: string, oldPass: string, password: string, phase: Phase)

  /** The counters only record what happened. */
  datatype Sys = Sys(creds: Credentials, dev: Device, replaced: nat, cuts: nat, rejections: nat)

  /** sizeof(s_password), the terminator included. */
  const PASSWORD_SIZE := 96

  datatype Step =
    | PowerCut
    | Boot
    | Connect(replied: bool)
    | DropOld
    | Disconnect
    | Receive(next: string)
    | KeepOld
    | Replace
    | Restart
    | ReadOld
    | RestorePass
    | ClearOld
    | Rotate(secret: string)

  /** handle_cmd_cred looks at nothing but the form of the password. */
  predicate WellFormed(password: string) { password != "" && |password| < PASSWORD_SIZE }

  // ---------------------------------------------------------------- the device

  function Cut(d: Device): Device { d.(password := "", phase := Off) }

  function DeviceNext(d: Device, l: Step): Option<Device> {
    match l
    case PowerCut => Some(Cut(d))
    case Boot => if d.phase.Off? then Some(d.(password := d.pass, phase := Connecting)) else None
    case DropOld => if d.phase.Greeted? then Some(d.(oldPass := "", phase := Session)) else None
    case Disconnect => if d.phase.Session? then Some(d.(phase := Connecting)) else None
    case Receive(next) =>
      if d.phase.Session? then Some(if WellFormed(next) then d.(phase := Received(next)) else d) else None
    case KeepOld => if d.phase.Received? then Some(d.(oldPass := d.password, phase := OldKept(d.phase.next))) else None
    case Replace => if d.phase.OldKept? then Some(d.(pass := d.phase.next, phase := Replaced)) else None
    case Restart => if d.phase.Replaced? || d.phase.OldDropped? then Some(Cut(d)) else None
    case ReadOld =>
      if d.phase.Rejected? then Some(d.(phase := if d.oldPass == "" then Connecting else RollingBack(d.oldPass)))
      else None
    case RestorePass => if d.phase.RollingBack? then Some(d.(pass := d.phase.previous, phase := PassRestored)) else None
    case ClearOld => if d.phase.PassRestored? then Some(d.(oldPass := "", phase := OldDropped)) else None
    case Connect(_) => None
    case Rotate(_) => None
  }

  function DeviceRun(d: Device, ls: seq<Step>): Option<Device> {
    if ls == [] then Some(d)
    else match DeviceRun(d, ls[..|ls| - 1])
      case None => None
      case Some(e) => DeviceNext(e, ls[|ls| - 1])
  }

  lemma RunOneMore(d: Device, ls: seq<Step>, l: Step)
    ensures DeviceRun(d, ls + [l]) == match DeviceRun(d, ls) case None => None case Some(e) => DeviceNext(e, l)
  {
    assert (ls + [l])[..|ls + [l]| - 1] == ls;
  }

  /** The handlers of the client that touch the credential, with every write a step of its own. */
  class CredentialClient {
    var nvsPass: string
    var nvsOldPass: string
    var password: string
    var phase: Phase
    ghost const made: Device
    ghost var trail: seq<Step>

    ghost function State(): Device
      reads this
    {
      Device(nvsPass, nvsOldPass, password, phase)
    }

    /** The fields are what the steps taken so far lead to. */
    ghost predicate Valid()
      reads this
    {
      DeviceRun(made, trail) == Some(State())
    }

    constructor (nvsPass: string, nvsOldPass: string)
      ensures Valid() && State() == Device(nvsPass, nvsOldPass, "", Off) && trail == []
    {
      this.nvsPass, this.nvsOldPass, password, phase := nvsPass, nvsOldPass, "", Off;
      made, trail := Device(nvsPass, nvsOldPass, "", Off), [];
    }

    ghost method Took(l: Step)
      requires DeviceRun(made, trail).Some? && DeviceNext(DeviceRun(made, trail).value, l) == Some(State())
      modifies `trail
      ensures Valid() && trail == old(trail) + [l]
    {
      RunOneMore(made, trail, l);
      trail := trail + [l];
    }

    method Start()
      requires Valid() && phase.Off?
      modifies this
      ensures Valid() && trail == old(trail) + [Boot] && phase.Connecting? && password == nvsPass == old(nvsPass)
    {
      password, phase := nvsPass, Connecting;
      Took(Boot);
    }

    /** The part of MQTT_EVENT_CONNECTED that concerns the credential. */
    method OnConnected()
      requires Valid() && phase.Greeted?
      modifies this
      ensures Valid() && trail == old(trail) + [DropOld]
      ensures nvsOldPass == "" && nvsPass == old(nvsPass) && password == old(password) && phase.Session?
    {
      nvsOldPass, phase := "", Session;
      Took(DropOld);
    }

    method HandleCmdCred(next: string)
      requires Valid() && phase.Session?
      modifies this
      ensures Valid()
      ensures trail ==
        old(trail) + if WellFormed(next) then [Receive(next), KeepOld, Replace, Restart] else [Receive(next)]
      ensures 1 <= |next| <= 95 ==> nvsPass == next && nvsOldPass == old(password) && password == "" && phase.Off?
      ensures !(1 <= |next| <= 95) ==> State() == old(State())
    {
      var ok := next != "" && |next| < PASSWORD_SIZE;
      if ok {
        phase := Received(next);
      }
      Took(Receive(next));
      if ok {
        StoreCredential();
        EspRestart();
      }
    }

    /** The working credential is kept before it is replaced. */
    method StoreCredential()
      requires Valid() && phase.Received?
      modifies this
      ensures Valid() && trail == old(trail) + [KeepOld, Replace]
      ensures State() == Device(old(phase).next, old(password), old(password), Replaced)
    {
      var next := phase.next;
      nvsOldPass, phase := password, OldKept(next);
      Took(KeepOld);
      nvsPass, phase := next, Replaced;
      Took(Replace);
    }

    method EspRestart()
      requires Valid() && (phase.Replaced? || phase.OldDropped?)
      modifies this
      ensures Valid() && trail == old(trail) + [Restart] && State() == Cut(old(State()))
    {
      password, phase := "", Off;
      Took(Restart);
    }

    /** MQTT_EVENT_ERROR for a refused credential: back to the last working password, once. */
    method OnRefused()
      requires Valid() && phase.Rejected?
      modifies this
      ensures Valid()
      ensures trail ==
        old(trail) + if old(nvsOldPass) != "" then [ReadOld, RestorePass, ClearOld, Restart] else [ReadOld]
      ensures State() ==
        if old(nvsOldPass) != "" then Device(old(nvsOldPass), "", "", Off) else old(State()).(phase := Connecting)
    {
      var previous := nvsOldPass;
      phase := if previous == "" then Connecting else RollingBack(previous);
      Took(ReadOld);
      if previous != "" {
        RestoreCredential();
        EspRestart();
      }
    }

    method RestoreCredential()
      requires Valid() && phase.RollingBack?
      modifies this
      ensures Valid() && trail == old(trail) + [RestorePass, ClearOld]
      ensures State() == Device(old(phase).previous, "", old(password), OldDropped)
    {
      var previous := phase.previous;
      nvsPass, phase := previous, PassRestored;
      Took(RestorePass);
      nvsOldPass, phase := "", OldDropped;
      Took(ClearOld);
    }
  }

  // ---------------------------------------------------------------- device and server

  /** Authenticate, and what the device learns of it. */
  function Attempt(s: Sys, replied: bool): Sys {
    var password := s.dev.password;
    var t := s.(creds := s.creds.Seen(password));
    if !replied then t
    else if s.creds.Accepts(password) then t.(dev := s.dev.(phase := Greeted))
    else t.(dev := s.dev.(phase := Rejected), rejections := s.rejections + 1)
  }

  function Counted(s: Sys, l: Step): Sys {
    if l.Replace? then s.(replaced := s.replaced + 1) else if l.PowerCut? then s.(cuts := s.cuts + 1) else s
  }

  function Next(s: Sys, l: Step): Option<Sys> {
    match l
    case Connect(replied) => if s.dev.phase.Connecting? then Some(Attempt(s, replied)) else None
    case Rotate(secret) => if secret != "" then Some(s.(creds := s.creds.Staged(HashOf(secret)))) else None
    case _ =>
      match DeviceNext(s.dev, l)
      case None => None
      case Some(d) =>
        Some(Counted(s, l).(dev := d))
  }

  /** The device has stored the password of its claim and was then restarted. */
  function Start(password: string): Sys {
    Sys(Credentials(HashOf(password), None), Device(password, "", "", Off), 0, 0, 0)
  }

  function Exec(password: string, ls: seq<Step>): Option<Sys> {
    if ls == [] then Some(Start(password))
    else match Exec(password, ls[..|ls| - 1])
      case None => None
      case Some(s) => Next(s, ls[|ls| - 1])
  }

  // ---------------------------------------------------------------- the invariant

  predicate Works(s: Sys, password: string) { password != "" && s.creds.hash == HashOf(password) }

  /** The hash is that of the password in NVS or of the one kept beside it; by phase it is known which. */
  predicate Inv(s: Sys) {
    var d := s.dev;
    && (Works(s, d.pass) || Works(s, d.oldPass))
    && s.creds.pending != Some(HashOf(""))
    && d.pass != ""
    && (match d.phase
        case Off => true
        case Connecting => d.password == d.pass
        case Greeted => d.password == d.pass && Works(s, d.pass)
        case Session => d.password == d.pass && Works(s, d.pass)
        case Received(next) => d.password == d.pass && Works(s, d.pass) && next != ""
        case OldKept(next) => Works(s, d.pass) && Works(s, d.oldPass) && next != ""
        case Replaced => Works(s, d.oldPass)
        case Rejected => d.password == d.pass && !Works(s, d.pass)
        case RollingBack(previous) => previous == d.oldPass && Works(s, previous) && !Works(s, d.pass)
        case PassRestored => Works(s, d.pass)
        case OldDropped => Works(s, d.pass))
  }

  lemma StepKeeps(s: Sys, l: Step)
    requires Inv(s) && Next(s, l).Some?
    ensures Inv(Next(s, l).value)
  {
  }

  lemma {:induction false} RunKeeps(password: string, ls: seq<Step>)
    requires password != "" && Exec(password, ls).Some?
    ensures Inv(Exec(password, ls).value)
  {
    if ls != [] {
      RunKeeps(password, ls[..|ls| - 1]);
      StepKeeps(Exec(password, ls[..|ls| - 1]).value, ls[|ls| - 1]);
    }
  }

  // ---------------------------------------------------------------- the theorems

  /** Never locked out: at every moment the server accepts the password in NVS or the one kept beside it. */
  lemma NeverLockedOut(password: string, ls: seq<Step>)
    requires password != "" && Exec(password, ls).Some?
    ensures var s := Exec(password, ls).value;
            s.creds.Accepts(s.dev.pass) || (s.dev.oldPass != "" && s.creds.Accepts(s.dev.oldPass))
  {
    RunKeeps(password, ls);
  }

  /** One rejection is due: the password in NVS does not work and its rejection was not noticed in this life. */
  function Due(s: Sys): int {
    if Works(s, s.dev.pass) || s.dev.phase.Rejected? || s.dev.phase.RollingBack? then 0 else 1
  }

  lemma StepPays(s: Sys, l: Step)
    requires Inv(s) && Next(s, l).Some?
    ensures var t := Next(s, l).value;
            t.rejections + Due(t) - t.replaced - t.cuts <= s.rejections + Due(s) - s.replaced - s.cuts
  {
  }

  /**
   Over any stretch of any run the device is rejected at most once more than it
   replaced its password and lost power within the stretch.
   */
  lemma {:induction false} RejectionsPaid(password: string, ls: seq<Step>, ms: seq<Step>)
    requires password != "" && Exec(password, ls).Some? && Exec(password, ls + ms).Some?
    ensures var s, t := Exec(password, ls).value, Exec(password, ls + ms).value;
            t.rejections + Due(t) - s.rejections <= (t.replaced - s.replaced) + (t.cuts - s.cuts) + Due(s)
  {
    if ms == [] {
      assert ls + ms == ls;
    } else {
      var before, l := ms[..|ms| - 1], ms[|ms| - 1];
      assert (ls + ms)[..|ls + ms| - 1] == ls + before;
      RejectionsPaid(password, ls, before);
      RunKeeps(password, ls + before);
      StepPays(Exec(password, ls + before).value, l);
    }
  }

  lemma {:induction false} CountersStand(password: string, ls: seq<Step>, ms: seq<Step>)
    requires Exec(password, ls).Some? && Exec(password, ls + ms).Some?
    requires forall l :: l in ms ==> !l.PowerCut? && !l.Replace?
    ensures Exec(password, ls + ms).value.replaced == Exec(password, ls).value.replaced
    ensures Exec(password, ls + ms).value.cuts == Exec(password, ls).value.cuts
  {
    if ms == [] {
      assert ls + ms == ls;
    } else {
      var before, l := ms[..|ms| - 1], ms[|ms| - 1];
      assert (ls + ms)[..|ls + ms| - 1] == ls + before;
      assert l in ms && forall k :: k in before ==> k in ms;
      CountersStand(password, ls, before);
    }
  }

  /** Between a stored credential and the next one, with the power on, at most one connection is rejected. */
  lemma OneRejectionPerCredential(password: string, ls: seq<Step>, ms: seq<Step>)
    requires password != "" && Exec(password, ls).Some? && Exec(password, ls + ms).Some?
    requires forall l :: l in ms ==> !l.PowerCut? && !l.Replace?
    ensures Exec(password, ls + ms).value.rejections <= Exec(password, ls).value.rejections + 1
  {
    RejectionsPaid(password, ls, ms);
    CountersStand(password, ls, ms);
  }

  // ---------------------------------------------------------------- undisturbed

  /** What the device does next by itself, with the power on and every connection attempt answered. */
  function OwnStep(p: Phase): Option<Step> {
    match p
    case Off => Some(Boot)
    case Connecting => Some(Connect(true))
    case Greeted => Some(DropOld)
    case Session => None
    case Received(_) => Some(KeepOld)
    case OldKept(_) => Some(Replace)
    case Replaced => Some(Restart)
    case Rejected => Some(ReadOld)
    case RollingBack(_) => Some(RestorePass)
    case PassRestored => Some(ClearOld)
    case OldDropped => Some(Restart)
  }

  /** How many of these steps are left until a session, where the server does not rotate meanwhile. */
  function Distance(s: Sys): nat {
    var works := s.creds.Accepts(s.dev.pass);
    match s.dev.phase
    case Session => 0
    case Greeted => 1
    case Connecting => if works then 2 else 8
    case Off => if works then 3 else 9
    case OldDropped => 4
    case PassRestored => 5
    case RollingBack(_) => 6
    case Rejected => 7
    case Replaced => if works then 4 else 10
    case OldKept(next) => if s.creds.Accepts(next) then 5 else 11
    case Received(next) => if s.creds.Accepts(next) then 6 else 12
  }

  /** Rejections the device may still run into: the one that is due, or the one a new password may bring. */
  function Allowance(s: Sys): int {
    if s.dev.phase.Received? || s.dev.phase.OldKept? then 1 else Due(s)
  }

  lemma OwnStepCloser(s: Sys)
    requires Inv(s) && !s.dev.phase.Session?
    ensures var next := Next(s, OwnStep(s.dev.phase).value);
            && next.Some? && Inv(next.value)
            && Distance(next.value) == Distance(s) - 1
            && next.value.rejections + Allowance(next.value) <= s.rejections + Allowance(s)
  {
  }

  /** The state after the device was left alone until it has a session. */
  function Onward(s: Sys): Sys
    requires Inv(s)
    decreases Distance(s)
  {
    if s.dev.phase.Session? then s
    else
      OwnStepCloser(s);
      Onward(Next(s, OwnStep(s.dev.phase).value).value)
  }

  lemma {:induction false} OnwardArrives(s: Sys)
    requires Inv(s)
    ensures Inv(Onward(s)) && Onward(s).dev.phase.Session?
    ensures Onward(s).rejections <= s.rejections + Allowance(s)
    decreases Distance(s)
  {
    if !s.dev.phase.Session? {
      OwnStepCloser(s);
      OnwardArrives(Next(s, OwnStep(s.dev.phase).value).value);
    }
  }

  /**
   From wherever it is, in the middle of a rotation or a rollback too, a device that is
   left alone continues to a session after at most twelve steps and at most one
   rejection, and holds the password that is in force.
   */
  lemma ReachesAWorkingPassword(password: string, ls: seq<Step>)
    requires password != "" && Exec(password, ls).Some?
    ensures var s := Exec(password, ls).value;
            && Inv(s) && Distance(s) <= 12
            && Onward(s).dev.phase.Session?
            && Works(Onward(s), Onward(s).dev.pass) && Onward(s).dev.password == Onward(s).dev.pass
            && Onward(s).rejections <= s.rejections + 1
  {
    RunKeeps(password, ls);
    OnwardArrives(Exec(password, ls).value);
  }

  lemma OneMore(password: string, ls: seq<Step>, l: Step)
    requires Exec(password, ls).Some?
    ensures Exec(password, ls + [l]) == Next(Exec(password, ls).value, l)
  {
    assert (ls + [l])[..|ls|] == ls;
  }

  /** What Onward describes is a run of the device's own steps, as many as Distance says. */
  lemma {:induction false} OnwardIsARun(password: string, ls: seq<Step>) returns (run: seq<Step>)
    requires Exec(password, ls).Some? && Inv(Exec(password, ls).value)
    ensures ls <= run && |run| == |ls| + Distance(Exec(password, ls).value)
    ensures Exec(password, run) == Some(Onward(Exec(password, ls).value))
    ensures forall k :: |ls| <= k < |run| ==> !run[k].PowerCut? && !run[k].Rotate? && !run[k].Receive?
    decreases Distance(Exec(password, ls).value)
  {
    var s := Exec(password, ls).value;
    run := ls;
    if !s.dev.phase.Session? {
      OwnStepCloser(s);
      var l := OwnStep(s.dev.phase).value;
      OneMore(password, ls, l);
      run := OnwardIsARun(password, ls + [l]);
      assert run[..|ls| + 1] == ls + [l];
    }
  }

  ghost predicate Reachable(password: string, s: Sys) { exists ls: seq<Step> :: Exec(password, ls) == Some(s) }

  lemma Go(password: string, s: Sys, l: Step, t: Sys)
    requires Reachable(password, s) && Next(s, l) == Some(t)
    ensures Reachable(password, t)
  {
    var ls: seq<Step> :| Exec(password, ls) == Some(s);
    OneMore(password, ls, l);
  }

  /** From the start to a session. */
  lemma HasSession(password: string) returns (s: Sys)
    requires password != ""
    ensures Reachable(password, s) && s == Start(password).(dev := Device(password, "", password, Session))
  {
    s := Start(password);
    assert Exec(password, []) == Some(s);
    var t := s.(dev := Device(password, "", password, Connecting));
    Go(password, s, Boot, t);
    s := t.(dev := t.dev.(phase := Greeted));
    Go(password, t, Connect(true), s);
    t := s.(dev := s.dev.(phase := Session));
    Go(password, s, DropOld, t);
    s := t;
  }

  /** A session, and then a password the server never issued is stored. */
  lemma StoresStray(password: string, stray: string) returns (s: Sys)
    requires password != "" && WellFormed(stray)
    ensures Reachable(password, s)
    ensures s == Start(password).(dev := Device(stray, password, "", Off), replaced := 1)
  {
    s := HasSession(password);
    var t := s.(dev := s.dev.(phase := Received(stray)));
    Go(password, s, Receive(stray), t);
    s := t.(dev := t.dev.(oldPass := password, phase := OldKept(stray)));
    Go(password, t, KeepOld, s);
    t := s.(dev := s.dev.(pass := stray, phase := Replaced), replaced := 1);
    Go(password, s, Replace, t);
    s := t.(dev := Cut(t.dev));
    Go(password, t, Restart, s);
  }

  /** A device that starts with a password the server refuses is rejected. */
  lemma IsRejected(password: string, s: Sys) returns (t: Sys)
    requires Reachable(password, s) && s.dev.phase.Off? && !s.creds.Accepts(s.dev.pass)
    ensures Reachable(password, t)
    ensures t == s.(dev := s.dev.(password := s.dev.pass, phase := Rejected), rejections := s.rejections + 1)
  {
    var u := s.(dev := s.dev.(password := s.dev.pass, phase := Connecting));
    Go(password, s, Boot, u);
    t := u.(dev := u.dev.(phase := Rejected), rejections := s.rejections + 1);
    Go(password, u, Connect(true), t);
  }

  /**
   The power cuts in the bound are needed. There is a run in which the device replaces
   its password once, by one the server never issued, loses power once, between the
   rejection and the rollback, and is rejected twice.
   */
  lemma CutCostsARejection(password: string, stray: string) returns (s: Sys)
    requires password != "" && WellFormed(stray) && stray != password
    ensures Reachable(password, s)
    ensures s.replaced == 1 && s.cuts == 1 && s.rejections == 2 && s.dev.phase.Rejected?
  {
    s := StoresStray(password, stray);
    s := IsRejected(password, s);
    var t := s.(dev := Cut(s.dev), cuts := 1);
    Go(password, s, PowerCut, t);
    s := IsRejected(password, t);
  }

  /**
   A pending credential that arrives is, once the device was left alone, the one in
   force, and the one before it no longer works.
   */
  lemma RotationCompletes(s: Sys, next: string)
    requires Inv(s) && s.dev.phase.Session? && WellFormed(next) && s.creds.pending == Some(HashOf(next))
      && next != s.dev.pass
    ensures var t := Next(s, Receive(next)).value;
            && Inv(t) && Distance(t) == 6
            && Onward(t).dev.phase.Session? && Onward(t).dev.pass == next && Onward(t).rejections == s.rejections
            && Onward(t).creds == Credentials(HashOf(next), None)
            && !Onward(t).creds.Accepts(s.dev.pass)
  {
    var t := Next(s, Receive(next)).value;
    var d := Device(next, s.dev.pass, "", Off);
    var u := t.(dev := d, replaced := t.replaced + 1);
    Adopts(t, next);
    Connects(u, next);
  }

  lemma OnwardOne(s: Sys, t: Sys)
    requires Inv(s) && !s.dev.phase.Session? && Next(s, OwnStep(s.dev.phase).value) == Some(t)
    ensures Inv(t) && Onward(s) == Onward(t)
  {
    OwnStepCloser(s);
  }

  /** The steps that store the new password, up to the restart. */
  lemma Adopts(t: Sys, next: string)
    requires Inv(t) && t.dev.phase == Received(next)
    ensures var u := t.(dev := Device(next, t.dev.password, "", Off), replaced := t.replaced + 1);
            Inv(u) && Onward(t) == Onward(u)
  {
    var t1 := t.(dev := t.dev.(oldPass := t.dev.password, phase := OldKept(next)));
    OnwardOne(t, t1);
    var t2 := t1.(dev := t1.dev.(pass := next, phase := Replaced), replaced := t.replaced + 1);
    OnwardOne(t1, t2);
    OnwardOne(t2, t2.(dev := Cut(t2.dev)));
  }

  lemma Connects(u: Sys, next: string)
    requires Inv(u) && u.dev.phase.Off? && u.dev.pass == next && u.creds.pending == Some(HashOf(next))
      && u.creds.hash != HashOf(next)
    ensures Onward(u) == u.(creds := Credentials(HashOf(next), None), dev := Device(next, "", next, Session))
  {
    var u1 := u.(dev := u.dev.(password := next, phase := Connecting));
    OnwardOne(u, u1);
    var u2 := u1.(creds := Credentials(HashOf(next), None), dev := u1.dev.(phase := Greeted));
    OnwardOne(u1, u2);
    OnwardOne(u2, u2.(dev := Device(next, "", next, Session)));
  }
}
