/**
 Claims that run at the same time. A claim is four steps (the token is checked, the
 credentials are checked, a secret is made, the transaction commits) and other claims,
 mints, revokes and rotations may come between any two of them.
 */
module ClaimProtocol {
  import opened Optional
  import opened DeployModel
  import opened EnrollSpec
  import opened EnrollService

  datatype Answer = Success | Failure(error: Error)

  datatype Phase = Begun | TokenSeen | VacancySeen | Done(answer: Answer)

  /** now is read once, when the claim begins. */
  datatype Call = Call(device: DeviceId, token: string, now: Time, phase: Phase)

  datatype Event = Enrolled(device: DeviceId) | Dropped(device: DeviceId)

  datatype Sys = Sys(store: Store, minted: map<string, Token>, calls: map<nat, Call>, log: seq<Event>)

  const EMPTY := Sys(Store(map[], map[]), map[], map[], [])

  datatype Step =
    | Begin(id: nat, device: DeviceId, token: string, now: Time)
    | CheckToken(id: nat)
    | CheckVacancy(id: nat)
    | Commit(id: nat, password: string)
    | Fail(id: nat)
    | Mint(value: string, t: Token, dbNow: Time)
    | Revoke(device: DeviceId)
    | Stage(device: DeviceId, h: Hash)
    | Promote(device: DeviceId, password: string)

  predicate OfCall(l: Step) { l.Begin? || l.CheckToken? || l.CheckVacancy? || l.Commit? || l.Fail? }

  function Moved(s: Sys, id: nat, phase: Phase): Sys
    requires id in s.calls
  {
    s.(calls := s.calls[id := s.calls[id].(phase := phase)])
  }

  predicate Running(s: Sys, id: nat, phase: Phase) { id in s.calls && s.calls[id].phase == phase }

  /** The answer of the transaction. */
  function CommitAnswer(s: Store, c: Call): Answer {
    if !ValidFor(s, c.token, c.device, c.now) then Failure(InvalidToken)
    else if c.device in s.creds then Failure(AlreadyEnrolled)
    else Success
  }

  function Next(s: Sys, l: Step): Option<Sys> {
    match l
    case Begin(id, device, token, now) =>
      if id in s.calls then None else
      var phase := if DevicePattern(device) then Begun else Done(Failure(InvalidDevice));
      Some(s.(calls := s.calls[id := Call(device, token, now, phase)]))
    case CheckToken(id) =>
      if !Running(s, id, Begun) then None else
      var c := s.calls[id];
      Some(Moved(s, id, if ValidFor(s.store, c.token, c.device, c.now) then TokenSeen else Done(Failure(InvalidToken))))
    case CheckVacancy(id) =>
      if !Running(s, id, TokenSeen) then None else
      Some(Moved(s, id, if s.calls[id].device in s.store.creds then Done(Failure(AlreadyEnrolled)) else VacancySeen))
    case Commit(id, password) =>
      if !Running(s, id, VacancySeen) then None else
      var c := s.calls[id];
      var answer := CommitAnswer(s.store, c);
      var t := Moved(s, id, Done(answer));
      Some(if answer.Success?
           then t.(store := Claimed(s.store, c.device, c.token, password), log := s.log + [Enrolled(c.device)]) else t)
    case Fail(id) =>
      if id !in s.calls || s.calls[id].phase.Done? then None else Some(Moved(s, id, Done(Failure(Unavailable))))
    case Mint(value, t, dbNow) =>
      if value in s.minted then None else
      Some(s.(store := Minted(s.store, value, t, dbNow), minted := s.minted[value := t]))
    case Revoke(device) =>
      Some(s.(store := Revoked(s.store, device),
              log := if device in s.store.creds then s.log + [Dropped(device)] else s.log))
    case Stage(device, h) =>
      if device !in s.store.creds then Some(s)
      else Some(s.(store := Put(s.store, device, s.store.creds[device].Staged(h))))
    case Promote(device, password) =>
      if device !in s.store.creds then Some(s)
      else Some(s.(store := Put(s.store, device, s.store.creds[device].Seen(password))))
  }

  function Exec(ls: seq<Step>): Option<Sys> {
    if ls == [] then Some(EMPTY)
    else match Exec(ls[..|ls| - 1])
      case None => None
      case Some(s) => Next(s, ls[|ls| - 1])
  }

  // ---------------------------------------------------------------- invariant

  /** Successful claims minus successful revokes. */
  function Balance(log: seq<Event>, device: DeviceId): int {
    if log == [] then 0
    else
      var e := log[|log| - 1];
      Balance(log[..|log| - 1], device) + if e.device != device then 0 else if e.Enrolled? then 1 else -1
  }

  predicate TokensMinted(s: Sys) {
    forall v :: v in s.store.tokens ==>
      v in s.minted && s.store.tokens[v] == s.minted[v].(expiresAt := Stored(s.minted[v].expiresAt))
  }

  predicate Succeeded(s: Sys, id: nat) { Running(s, id, Done(Success)) }

  /** A successful claim used up a token that was made for its device and had not expired. */
  predicate Earned(s: Sys, c: Call) {
    && DevicePattern(c.device)
    && c.token in s.minted && c.token !in s.store.tokens
    && (s.minted[c.token].device.None? || s.minted[c.token].device.value == c.device)
    && Stored(s.minted[c.token].expiresAt) > Stored(c.now)
  }

  predicate CallsEarned(s: Sys) {
    forall id :: id in s.calls && s.calls[id].phase == Done(Success) ==> Earned(s, s.calls[id])
  }

  predicate PatternsKnown(s: Sys) {
    forall id :: id in s.calls && s.calls[id].phase != Done(Failure(InvalidDevice)) ==>
      DevicePattern(s.calls[id].device)
  }

  predicate TokensOnce(s: Sys) {
    forall i, j ::
      i in s.calls && j in s.calls && i != j
      && s.calls[i].phase == Done(Success) && s.calls[j].phase == Done(Success) ==>
      s.calls[i].token != s.calls[j].token
  }

  predicate Balanced(s: Sys, device: DeviceId) { Balance(s.log, device) == if device in s.store.creds then 1 else 0 }

  ghost predicate AllBalanced(s: Sys) { forall device :: Balanced(s, device) }

  ghost predicate Inv(s: Sys) {
    TokensMinted(s) && PatternsKnown(s) && CallsEarned(s) && TokensOnce(s) && AllBalanced(s)
  }

  lemma BalanceGrows(log: seq<Event>, e: Event, device: DeviceId)
    ensures Balance(log + [e], device) ==
              Balance(log, device) + if e.device != device then 0 else if e.Enrolled? then 1 else -1
  {
    assert (log + [e])[..|log|] == log;
  }

  lemma CommitKeeps(s: Sys, id: nat, password: string)
    requires Inv(s) && Running(s, id, VacancySeen)
    ensures Inv(Next(s, Commit(id, password)).value)
  {
    var c := s.calls[id];
    var t := Next(s, Commit(id, password)).value;
    if CommitAnswer(s.store, c).Success? {
      assert forall j :: j in s.calls && s.calls[j].phase == Done(Success) ==>
        Earned(s, s.calls[j]) && s.calls[j].token != c.token;
      forall device ensures Balanced(t, device) {
        assert Balanced(s, device);
        BalanceGrows(s.log, Enrolled(c.device), device);
      }
    } else {
      assert forall device :: Balanced(s, device) ==> Balanced(t, device);
    }
  }

  lemma RevokeKeeps(s: Sys, device: DeviceId)
    requires Inv(s)
    ensures Inv(Next(s, Revoke(device)).value)
  {
    var t := Next(s, Revoke(device)).value;
    forall other ensures Balanced(t, other) {
      assert Balanced(s, other);
      BalanceGrows(s.log, Dropped(device), other);
    }
  }

  lemma MintKeeps(s: Sys, l: Step)
    requires Inv(s) && l.Mint? && Next(s, l).Some?
    ensures Inv(Next(s, l).value)
  {
    var t := Next(s, l).value;
    forall id | id in t.calls && t.calls[id].phase == Done(Success) ensures Earned(t, t.calls[id]) {
      assert Earned(s, s.calls[id]);
    }
    assert forall device :: Balanced(s, device) ==> Balanced(t, device);
  }

  /** Rotations change no token, no call and no enrollment. */
  lemma RotationKeeps(s: Sys, t: Sys)
    requires Inv(s) && t == s.(store := t.store) && t.store.tokens == s.store.tokens
      && t.store.creds.Keys == s.store.creds.Keys
    ensures Inv(t)
  {
    assert forall device :: Balanced(s, device) ==> Balanced(t, device);
    assert forall c :: Earned(s, c) ==> Earned(t, c);
  }

  /** A call that moves on without success. */
  lemma CheckKeeps(s: Sys, l: Step)
    requires Inv(s) && (l.Begin? || l.CheckToken? || l.CheckVacancy? || l.Fail?) && Next(s, l).Some?
    ensures Inv(Next(s, l).value)
  {
    var t := Next(s, l).value;
    assert t.store == s.store && t.log == s.log && t.minted == s.minted;
    assert !(t.calls[l.id].phase == Done(Success));
    assert forall device :: Balanced(s, device) ==> Balanced(t, device);
    assert forall c :: Earned(s, c) ==> Earned(t, c);
  }

  lemma StepKeeps(s: Sys, l: Step)
    requires Inv(s) && Next(s, l).Some?
    ensures Inv(Next(s, l).value)
  {
    var t := Next(s, l).value;
    match l
    case Commit(id, password) => CommitKeeps(s, id, password);
    case Revoke(device) => RevokeKeeps(s, device);
    case Mint(_, _, _) => MintKeeps(s, l);
    case Stage(device, _) => RotationKeeps(s, t);
    case Promote(device, _) => RotationKeeps(s, t);
    case _ => CheckKeeps(s, l);
  }

  lemma {:induction false} RunKeeps(ls: seq<Step>)
    requires Exec(ls).Some?
    ensures Inv(Exec(ls).value)
  {
    if ls != [] {
      RunKeeps(ls[..|ls| - 1]);
      StepKeeps(Exec(ls[..|ls| - 1]).value, ls[|ls| - 1]);
    }
  }

  // ---------------------------------------------------------------- the theorems

  /** Under any interleaving a token yields at most one success. */
  lemma {:induction false} OneSuccessPerToken(ls: seq<Step>, i: nat, j: nat)
    requires Exec(ls).Some? && Succeeded(Exec(ls).value, i) && Succeeded(Exec(ls).value, j)
    requires Exec(ls).value.calls[i].token == Exec(ls).value.calls[j].token
    ensures i == j
  {
    RunKeeps(ls);
  }

  /** A successful claim had a token that was minted, for its device if for any, and unexpired when the claim began. */
  lemma {:induction false} OnlyItsDevice(ls: seq<Step>, id: nat)
    requires Exec(ls).Some? && Succeeded(Exec(ls).value, id)
    ensures Earned(Exec(ls).value, Exec(ls).value.calls[id])
  {
    RunKeeps(ls);
  }

  /** No step of a claim changes tokens or credentials except the one that makes it succeed. */
  lemma {:induction false} FailedClaimsLeaveNothing(ls: seq<Step>, l: Step)
    requires OfCall(l) && Exec(ls).Some? && Exec(ls + [l]).Some? && !Succeeded(Exec(ls + [l]).value, l.id)
    ensures Exec(ls + [l]).value.store == Exec(ls).value.store
  {
    assert (ls + [l])[..|ls + [l]| - 1] == ls;
  }

  /** Successful claims minus successful revokes of a device are 1 while it is enrolled and 0 while it is not. */
  lemma {:induction false} EnrolledIsTheBalance(ls: seq<Step>, device: DeviceId)
    requires Exec(ls).Some?
    ensures Balance(Exec(ls).value.log, device) == if device in Exec(ls).value.store.creds then 1 else 0
  {
    RunKeeps(ls);
    assert Balanced(Exec(ls).value, device);
  }

  // ---------------------------------------------------------------- refinement

  /** What a claim looks like from outside: it happens at one moment, with an answer. */
  datatype Action =
    | ClaimAt(id: nat, device: DeviceId, token: string, now: Time, answer: Answer, password: string)
    | Admin(l: Step)

  /** Which answers the state at that moment allows. */
  predicate Allowed(s: Store, device: DeviceId, token: string, now: Time, answer: Answer) {
    match answer
    case Success => DevicePattern(device) && ValidFor(s, token, device, now) && device !in s.creds
    case Failure(InvalidDevice) => !DevicePattern(device)
    case Failure(InvalidToken) => DevicePattern(device) && !ValidFor(s, token, device, now)
    case Failure(AlreadyEnrolled) => DevicePattern(device) && device in s.creds
    case Failure(Unavailable) => true
    case Failure(_) => false
  }

  function Act(s: Store, a: Action): Option<Store> {
    match a
    case ClaimAt(_, device, token, now, answer, password) =>
      if !Allowed(s, device, token, now, answer) then None
      else Some(if answer.Success? then Claimed(s, device, token, password) else s)
    case Admin(Mint(value, t, dbNow)) => Some(Minted(s, value, t, dbNow))
    case Admin(Revoke(device)) => Some(Revoked(s, device))
    case Admin(Stage(device, h)) => Some(if device in s.creds then Put(s, device, s.creds[device].Staged(h)) else s)
    case Admin(Promote(device, password)) =>
      Some(if device in s.creds then Put(s, device, s.creds[device].Seen(password)) else s)
    case Admin(_) => None
  }

  function ActAll(actions: seq<Action>): Option<Store> {
    if actions == [] then Some(Store(map[], map[]))
    else match ActAll(actions[..|actions| - 1])
      case None => None
      case Some(s) => Act(s, actions[|actions| - 1])
  }

  /** The action a step completes; most steps of a claim complete none. */
  function Completed(t: Sys, l: Step): seq<Action> {
    if !OfCall(l) then [Admin(l)]
    else if l.id in t.calls && t.calls[l.id].phase.Done? then
      var c := t.calls[l.id];
      [ClaimAt(l.id, c.device, c.token, c.now, c.phase.answer, if l.Commit? then l.password else "")]
    else []
  }

  /** The actions of a run, in the order in which they were completed. */
  function Actions(ls: seq<Step>): seq<Action>
    requires Exec(ls).Some?
  {
    if ls == [] then [] else Actions(ls[..|ls| - 1]) + Completed(Exec(ls).value, ls[|ls| - 1])
  }

  lemma StepRefines(s: Sys, l: Step)
    requires Inv(s) && Next(s, l).Some?
    ensures var t := Next(s, l).value;
            var done := Completed(t, l);
            (done == [] && t.store == s.store) || (|done| == 1 && Act(s.store, done[0]) == Some(t.store))
  {
  }

  lemma ActOne(actions: seq<Action>, a: Action)
    ensures ActAll(actions + [a]) == match ActAll(actions) case None => None case Some(s) => Act(s, a)
  {
    assert (actions + [a])[..|actions + [a]| - 1] == actions;
  }

  /**
   The interleaved claims refine claims that happen at one moment: replaying the
   completed actions one after the other leads to the same tables.
   */
  lemma {:induction false} ClaimsAreAtomic(ls: seq<Step>)
    requires Exec(ls).Some?
    ensures ActAll(Actions(ls)) == Some(Exec(ls).value.store)
  {
    if ls != [] {
      var before, l := ls[..|ls| - 1], ls[|ls| - 1];
      RunKeeps(before);
      ClaimsAreAtomic(before);
      StepRefines(Exec(before).value, l);
      var done := Completed(Exec(ls).value, l);
      if done == [] {
        assert Actions(ls) == Actions(before);
      } else {
        assert done == [done[0]];
        ActOne(Actions(before), done[0]);
      }
    }
  }

  predicate Answers(a: Action, id: nat, c: Call) {
    a.ClaimAt? && a.id == id && a.device == c.device && a.token == c.token && a.now == c.now
      && c.phase == Done(a.answer)
  }

  /** How many actions of the sequence are those of call id. */
  function CountOf(actions: seq<Action>, id: nat): nat {
    if actions == [] then 0
    else
      var last := actions[|actions| - 1];
      CountOf(actions[..|actions| - 1], id) + if last.ClaimAt? && last.id == id then 1 else 0
  }

  predicate Finished(s: Sys, id: nat) { id in s.calls && s.calls[id].phase.Done? }

  predicate AnsweredIn(actions: seq<Action>, id: nat, s: Sys) {
    forall k :: 0 <= k < |actions| && actions[k].ClaimAt? && actions[k].id == id ==>
      id in s.calls && Answers(actions[k], id, s.calls[id])
  }

  lemma StepCompletes(s: Sys, l: Step, id: nat)
    requires Next(s, l).Some?
    ensures var t := Next(s, l).value;
            && |Completed(t, l)| <= 1
            && (Finished(s, id) ==> Finished(t, id) && t.calls[id] == s.calls[id])
            && CountOf(Completed(t, l), id) == (if Finished(t, id) then 1 else 0) - (if Finished(s, id) then 1 else 0)
            && AnsweredIn(Completed(t, l), id, t)
  {
    var t := Next(s, l).value;
    var done := Completed(t, l);
    if done != [] { assert done[..0] == [] && done == [done[0]]; }
  }

  /** Each finished claim is exactly one of the actions, with the answer its caller got; an unfinished one is none. */
  lemma {:induction false} EachClaimOnce(ls: seq<Step>, id: nat)
    requires Exec(ls).Some?
    ensures CountOf(Actions(ls), id) == if Finished(Exec(ls).value, id) then 1 else 0
    ensures AnsweredIn(Actions(ls), id, Exec(ls).value)
  {
    if ls != [] {
      var before, l := ls[..|ls| - 1], ls[|ls| - 1];
      EachClaimOnce(before, id);
      StepCompletes(Exec(before).value, l, id);
      CountJoins(Actions(before), Completed(Exec(ls).value, l), id);
      AnswersJoin(Actions(before), Completed(Exec(ls).value, l), id, Exec(before).value, Exec(ls).value);
    }
  }

  lemma CountJoins(actions: seq<Action>, done: seq<Action>, id: nat)
    requires |done| <= 1
    ensures CountOf(actions + done, id) == CountOf(actions, id) + CountOf(done, id)
  {
    if done == [] {
      assert actions + done == actions;
    } else {
      assert (actions + done)[..|actions + done| - 1] == actions;
      assert done[..0] == [];
    }
  }

  lemma AnswersJoin(actions: seq<Action>, done: seq<Action>, id: nat, s: Sys, t: Sys)
    requires AnsweredIn(actions, id, s) && AnsweredIn(done, id, t)
    requires Finished(s, id) ==> Finished(t, id) && t.calls[id] == s.calls[id]
    ensures AnsweredIn(actions + done, id, t)
  {
    var all := actions + done;
    forall k | 0 <= k < |all| && all[k].ClaimAt? && all[k].id == id
      ensures id in t.calls && Answers(all[k], id, t.calls[id])
    {
      if k < |actions| { assert all[k] == actions[k]; } else { assert all[k] == done[k - |actions|]; }
    }
  }

  // ---------------------------------------------------------------- which error

  /** The answer of a claim that does all its checks at one moment. */
  function Ideal(s: Store, device: DeviceId, token: string, now: Time): Answer {
    if !DevicePattern(device) then Failure(InvalidDevice)
    else if !ValidFor(s, token, device, now) then Failure(InvalidToken)
    else if device in s.creds then Failure(AlreadyEnrolled)
    else Success
  }

  /**
   Storage failures aside, the answer of a claim is the ideal one for the moment it
   completes, except in one case, which its second check could have noticed: that check
   finds the device enrolled and does not look at the token again, which is no longer
   valid.
   */
  lemma AnswerIsIdeal(s: Sys, l: Step)
    requires Inv(s) && OfCall(l) && !l.Fail? && Next(s, l).Some? && Next(s, l).value.calls[l.id].phase.Done?
    ensures var c := Next(s, l).value.calls[l.id];
            c.phase.answer == Ideal(s.store, c.device, c.token, c.now) <==>
              !(l.CheckVacancy? && !ValidFor(s.store, c.token, c.device, c.now))
  {
  }

  predicate NotEnrolledYet(s: Sys, device: DeviceId, token: string, now: Time) {
    Ideal(s.store, device, token, now) != Failure(AlreadyEnrolled)
  }

  /**
   The exception is real. From any state in which two claims of one device with one
   valid token have just begun there is a run in which the slower one is told that
   the device is enrolled, which a claim done at one moment would say at no time of
   it: until the faster one commits it would succeed, and from then on the token is
   invalid.
   */
  lemma WrongKind(s: Sys, slow: nat, fast: nat, password: string) returns (s1: Sys, s2: Sys, s3: Sys, s4: Sys, s5: Sys)
    requires slow != fast && Running(s, slow, Begun) && Running(s, fast, Begun) && s.calls[slow] == s.calls[fast]
    requires DevicePattern(s.calls[slow].device)
    requires Ideal(s.store, s.calls[slow].device, s.calls[slow].token, s.calls[slow].now).Success?
    ensures Next(s, CheckToken(slow)) == Some(s1) && Next(s1, CheckToken(fast)) == Some(s2)
    ensures Next(s2, CheckVacancy(fast)) == Some(s3) && Next(s3, Commit(fast, password)) == Some(s4)
    ensures Next(s4, CheckVacancy(slow)) == Some(s5) && Running(s5, slow, Done(Failure(AlreadyEnrolled)))
    ensures var c := s.calls[slow];
            && NotEnrolledYet(s, c.device, c.token, c.now) && NotEnrolledYet(s1, c.device, c.token, c.now)
            && NotEnrolledYet(s2, c.device, c.token, c.now) && NotEnrolledYet(s3, c.device, c.token, c.now)
            && NotEnrolledYet(s4, c.device, c.token, c.now) && NotEnrolledYet(s5, c.device, c.token, c.now)
  {
    s1 := Moved(s, slow, TokenSeen);
    s2 := Moved(s1, fast, TokenSeen);
    s3 := Moved(s2, fast, VacancySeen);
    s4 := Next(s3, Commit(fast, password)).value;
    s5 := Moved(s4, slow, Done(Failure(AlreadyEnrolled)));
  }

  // ---------------------------------------------------------------- the race happens

  ghost predicate Reachable(s: Sys) { exists ls: seq<Step> :: Exec(ls) == Some(s) }

  lemma Go(s: Sys, l: Step) returns (t: Sys)
    requires Reachable(s) && Next(s, l).Some?
    ensures t == Next(s, l).value && Reachable(t)
  {
    t := Next(s, l).value;
    var ls: seq<Step> :| Exec(ls) == Some(s);
    assert (ls + [l])[..|ls + [l]| - 1] == ls;
    assert Exec(ls + [l]) == Some(t);
  }

  /** Any device with any token that is not expired can be claimed twice at the same time. */
  lemma RaceBegins(device: DeviceId, token: string, t: Token, now: Time, dbNow: Time) returns (s: Sys)
    requires DevicePattern(device) && Stored(t.expiresAt) > Stored(now) && (t.device.None? || t.device.value == device)
    ensures Reachable(s) && Running(s, 0, Begun) && Running(s, 1, Begun)
    ensures s.calls[0] == s.calls[1] == Call(device, token, now, Begun)
    ensures Ideal(s.store, device, token, now).Success?
  {
    assert Exec([]) == Some(EMPTY);
    s := Go(EMPTY, Mint(token, t, dbNow));
    s := Go(s, Begin(0, device, token, now));
    s := Go(s, Begin(1, device, token, now));
  }

  /**
   The slower of the two is told what no claim done at one moment would be told at any
   time of that run, from its beginning to its answer.
   */
  lemma SlowerIsMisled(device: DeviceId, token: string, t: Token, now: Time, dbNow: Time, password: string)
    returns (run: seq<Sys>)
    requires DevicePattern(device) && Stored(t.expiresAt) > Stored(now) && (t.device.None? || t.device.value == device)
    ensures |run| == 6 && forall i :: 0 <= i < 6 ==> Reachable(run[i]) && NotEnrolledYet(run[i], device, token, now)
    ensures Running(run[0], 0, Begun) && run[0].calls[0] == Call(device, token, now, Begun)
    ensures Running(run[5], 0, Done(Failure(AlreadyEnrolled))) && Running(run[5], 1, Done(Success))
  {
    var b := RaceBegins(device, token, t, now, dbNow);
    var s1, s2, s3, s4, s5 := WrongKind(b, 0, 1, password);
    var r1 := Go(b, CheckToken(0));
    var r2 := Go(r1, CheckToken(1));
    var r3 := Go(r2, CheckVacancy(1));
    var r4 := Go(r3, Commit(1, password));
    var r5 := Go(r4, CheckVacancy(0));
    run := [b, r1, r2, r3, r4, r5];
  }
}
