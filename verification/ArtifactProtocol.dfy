/** Any number of Store calls at the same time, each failing wherever it can, and the process dying in between. */
module ArtifactProtocol {
  import opened Optional
  import opened ArtifactSpec

  datatype Result = Stored(a: Artifact) | Failed(error: Error)

  datatype Phase =
    | Absent                    // Get found no such artifact
    | Known                     // and its driver exists
    | Numbered(sequence: int)
    | Signed(a: Artifact)
    | Created(a: Artifact)
    | Opened(a: Artifact)
    | Undoing(a: Artifact)      // the file failed, the row is to be deleted
    | Done(result: Result)
    | Dead                      // the process died

  datatype Call = Call(input: NewArtifact, phase: Phase)

  datatype Sys = Sys(disk: Disk, calls: map<nat, Call>)

  datatype Step =
    | Begin(id: nat, input: NewArtifact, readable: bool)
    | CheckDriver(id: nat, exists_: bool)
    | Allocate(id: nat)
    | Sign(id: nat, answered: bool)
    | Create(id: nat)
    | OpenFile(id: nat)
    | Write(id: nat)
    | WritePart(id: nat, length: nat)
    | Undo(id: nat, worked: bool)
    | Fail(id: nat, error: Error)
    | Crash

  predicate OfCall(l: Step) { !l.Begin? && !l.Crash? }

  /** A statement or the signer fails before anything was done. */
  predicate CanFail(p: Phase) { p.Absent? || p.Known? || p.Numbered? || p.Signed? }

  datatype Outcome = Outcome(disk: Disk, phase: Phase)

  /** A step of one call: what it does to the disk and where the call goes. */
  function CallNext(d: Disk, c: NewArtifact, p: Phase, l: Step): Option<Outcome> {
    var k := c.At();
    match l
    case CheckDriver(_, exists_) =>
      if !p.Absent? then None else Some(Outcome(d, if exists_ then Known else Done(Failed(UnknownDriver))))
    case Allocate(_) =>
      if !p.Known? then None else Some(Outcome(d.(counter := d.counter + 1), Numbered(d.counter + 1)))
    case Sign(_, answered) =>
      if !p.Numbered? then None else
      var a := Described(c, p.sequence);
      Some(Outcome(d.(signed := d.signed + {a.signed}), if answered then Signed(a) else Done(Failed(SignerFailed))))
    case Create(_) =>
      if !p.Signed? then None else
      if k in d.rows then Some(Outcome(d, Done(Failed(AlreadyExists))))
      else Some(Outcome(d.(rows := d.rows[k := p.a]), Created(p.a)))
    case OpenFile(_) =>
      if !p.Created? then None else
      if Path(k) in d.files then Some(Outcome(d, Undoing(p.a)))
      else Some(Outcome(d.(files := d.files[Path(k) := []]), Opened(p.a)))
    case Write(_) =>
      if !p.Opened? then None else Some(Outcome(d.(files := d.files[Path(k) := c.content]), Done(Stored(p.a))))
    case WritePart(_, length) =>
      if !p.Opened? || length >= |c.content| then None else
      Some(Outcome(d.(files := d.files[Path(k) := c.content[..length]]), Undoing(p.a)))
    case Undo(_, worked) =>
      if !p.Undoing? then None else
      Some(Outcome(if worked then d.(rows := d.rows - {k}) else d, Done(Failed(FileFailed))))
    case Fail(_, error) =>
      if p.Created? then Some(Outcome(d, Undoing(p.a)))
      else if CanFail(p) then Some(Outcome(d, Done(Failed(error)))) else None
    case _ => None
  }

  /** The checks, and the lookup of the artifact. */
  function FirstPhase(d: Disk, c: NewArtifact, readable: bool): Phase {
    if Objection(c).Some? then Done(Failed(Objection(c).value))
    else if !readable then Done(Failed(Unavailable))
    else if c.At() in d.rows then Done(Failed(AlreadyExists)) else Absent
  }

  function Killed(c: Call): Call { if c.phase.Done? then c else c.(phase := Dead) }

  function Next(s: Sys, l: Step): Option<Sys> {
    match l
    case Begin(id, input, readable) =>
      if id in s.calls then None else Some(s.(calls := s.calls[id := Call(input, FirstPhase(s.disk, input, readable))]))
    case Crash =>
      Some(s.(calls := map id | id in s.calls :: Killed(s.calls[id])))
    case _ =>
      if l.id !in s.calls then None else
      match CallNext(s.disk, s.calls[l.id].input, s.calls[l.id].phase, l)
      case None => None
      case Some(o) => Some(Sys(o.disk, s.calls[l.id := s.calls[l.id].(phase := o.phase)]))
  }

  /** The tables a server may start with: old rows have sequence 0, the others distinct ones up to the counter. */
  predicate Initial(d: Disk) {
    && d.counter >= 0
    && (forall k :: k in d.rows ==> DriverPattern(k.driver) && 0 <= d.rows[k].sequence <= d.counter)
    && RowsDistinct(d)
    && (forall m :: m in d.signed ==> m.sequence <= d.counter)
    && SignedOnce(d)
  }

  function Exec(d: Disk, ls: seq<Step>): Option<Sys> {
    if ls == [] then Some(Sys(d, map[]))
    else match Exec(d, ls[..|ls| - 1])
      case None => None
      case Some(s) => Next(s, ls[|ls| - 1])
  }

  // ---------------------------------------------------------------- the invariant

  predicate RowsDistinct(d: Disk) {
    forall k, l :: k in d.rows && l in d.rows && k != l && d.rows[k].sequence != 0 ==>
      d.rows[k].sequence != d.rows[l].sequence
  }

  predicate SignedOnce(d: Disk) { forall m, n :: m in d.signed && n in d.signed && m.sequence == n.sequence ==> m == n }

  /** The number a call holds. */
  function Holds(p: Phase): Option<int> {
    match p
    case Numbered(sequence) => Some(sequence)
    case Signed(a) => Some(a.sequence)
    case Created(a) => Some(a.sequence)
    case Opened(a) => Some(a.sequence)
    case Undoing(a) => Some(a.sequence)
    case Done(Stored(a)) => Some(a.sequence)
    case _ => None
  }

  /** The artifact of a call whose row is in the table. */
  function Owns(p: Phase): Option<Artifact> {
    match p
    case Created(a) => Some(a)
    case Opened(a) => Some(a)
    case Undoing(a) => Some(a)
    case Done(Stored(a)) => Some(a)
    case _ => None
  }

  predicate CallFits(c: NewArtifact, p: Phase, d: Disk) {
    && (!p.Done? || p.result.Stored? ==> Objection(c).None?)
    && (Holds(p).Some? ==> 0 < Holds(p).value <= d.counter)
    && (p.Numbered? ==> Unused(d, p.sequence))
    && (p.Signed? ==> p.a == Described(c, p.a.sequence) && p.a.signed in d.signed && Unplaced(d, p.a.sequence))
    && (Owns(p).Some? ==>
          && Owns(p).value == Described(c, Owns(p).value.sequence)
          && Owns(p).value.signed in d.signed
          && c.At() in d.rows && d.rows[c.At()] == Owns(p).value)
    && (p.Opened? ==> Path(c.At()) in d.files)
    && (p.Done? && p.result.Stored? ==> Path(c.At()) in d.files && d.files[Path(c.At())] == c.content)
  }

  predicate CallInv(s: Sys, id: nat)
    requires id in s.calls
  {
    CallFits(s.calls[id].input, s.calls[id].phase, s.disk)
  }

  /** No row has this number. */
  predicate Unplaced(d: Disk, n: int) { forall k :: k in d.rows ==> d.rows[k].sequence != n }

  predicate Unused(d: Disk, n: int) { Unplaced(d, n) && forall m :: m in d.signed ==> m.sequence != n }

  predicate DiskInv(d: Disk) {
    && d.counter >= 0
    && (forall k :: k in d.rows ==> DriverPattern(k.driver) && 0 <= d.rows[k].sequence <= d.counter)
    && (forall m :: m in d.signed ==> m.sequence <= d.counter)
    && RowsDistinct(d) && SignedOnce(d)
  }

  /** No two calls hold the same number or own the same row. */
  predicate ApartCalls(a: Call, b: Call) {
    && (Holds(a.phase).Some? ==> Holds(a.phase) != Holds(b.phase))
    && (Owns(a.phase).Some? && Owns(b.phase).Some? ==> a.input.At() != b.input.At())
  }

  predicate ApartPair(s: Sys, i: nat, j: nat)
    requires i in s.calls && j in s.calls
  {
    ApartCalls(s.calls[i], s.calls[j])
  }

  predicate Apart(s: Sys) { forall i, j :: i in s.calls && j in s.calls && i != j ==> ApartPair(s, i, j) }

  predicate Inv(s: Sys) {
    DiskInv(s.disk) && Apart(s) && forall id :: id in s.calls ==> CallInv(s, id)
  }

  /** What a step of a call leaves alone, and what it may add. */
  predicate Beside(d: Disk, e: Disk, c: NewArtifact, p: Phase) {
    var k := c.At();
    && d.counter <= e.counter
    && (e.rows == d.rows || (Owns(p).Some? && e.rows == d.rows - {k})
        || (p.Signed? && k !in d.rows && e.rows == d.rows[k := p.a]))
    && (e.files == d.files || (Owns(p).Some? && Path(k) in e.files && e.files == d.files[Path(k) := e.files[Path(k)]]))
    && (e.signed == d.signed || (p.Numbered? && e.signed == d.signed + {Message(p.sequence, DigestOf(c.content))}))
  }

  predicate Goes(d: Disk, k: Key, p: Phase, q: Phase) {
    && (Holds(q) == Holds(p) || Holds(q).None? || Holds(q) == Some(d.counter + 1))
    && (Owns(q) == Owns(p) || Owns(q).None? || (Owns(p).None? && k !in d.rows))
  }

  lemma CallKeepsDisk(d: Disk, c: NewArtifact, p: Phase, l: Step)
    requires DiskInv(d) && CallFits(c, p, d) && CallNext(d, c, p, l).Some?
    ensures DiskInv(CallNext(d, c, p, l).value.disk)
  {
  }

  lemma CallKeepsFit(d: Disk, c: NewArtifact, p: Phase, l: Step)
    requires DiskInv(d) && CallFits(c, p, d) && CallNext(d, c, p, l).Some?
    ensures CallFits(c, CallNext(d, c, p, l).value.phase, CallNext(d, c, p, l).value.disk)
  {
  }

  lemma CallShape(d: Disk, c: NewArtifact, p: Phase, l: Step)
    requires DiskInv(d) && CallFits(c, p, d) && CallNext(d, c, p, l).Some?
    ensures Beside(d, CallNext(d, c, p, l).value.disk, c, p)
    ensures Goes(d, c.At(), p, CallNext(d, c, p, l).value.phase)
  {
    CallGoes(d, c, p, l);
  }

  lemma CallGoes(d: Disk, c: NewArtifact, p: Phase, l: Step)
    requires CallFits(c, p, d) && CallNext(d, c, p, l).Some?
    ensures Goes(d, c.At(), p, CallNext(d, c, p, l).value.phase)
  {
  }

  lemma HoldsBounded(s: Sys)
    requires Inv(s)
    ensures forall id :: id in s.calls && Holds(s.calls[id].phase).Some? ==>
      Holds(s.calls[id].phase).value <= s.disk.counter
    ensures forall id :: id in s.calls && Owns(s.calls[id].phase).Some? ==> s.calls[id].input.At() in s.disk.rows
  {
    forall id | id in s.calls
      ensures Holds(s.calls[id].phase).Some? ==> Holds(s.calls[id].phase).value <= s.disk.counter
      ensures Owns(s.calls[id].phase).Some? ==> s.calls[id].input.At() in s.disk.rows
    {
      assert CallInv(s, id);
    }
  }

  lemma ApartChanges(s: Sys, t: Sys, id: nat)
    requires Apart(s) && id in t.calls && s.calls.Keys <= t.calls.Keys <= s.calls.Keys + {id}
    requires forall i :: i in s.calls && i != id ==> t.calls[i] == s.calls[i]
    requires forall i :: i in s.calls && i != id ==> ApartPair(t, id, i) && ApartPair(t, i, id)
    ensures Apart(t)
  {
    forall i, j | i in t.calls && j in t.calls && i != j ensures ApartPair(t, i, j) {
      if i != id && j != id { assert ApartPair(s, i, j); }
    }
  }

  lemma StepKeepsApart(s: Sys, l: Step)
    requires Inv(s) && OfCall(l) && Next(s, l).Some?
    ensures Apart(Next(s, l).value)
  {
    var t := Next(s, l).value;
    HoldsBounded(s);
    assert CallInv(s, l.id);
    CallShape(s.disk, s.calls[l.id].input, s.calls[l.id].phase, l);
    forall i | i in s.calls && i != l.id ensures ApartPair(t, l.id, i) && ApartPair(t, i, l.id) {
      assert ApartPair(s, l.id, i) && ApartPair(s, i, l.id);
    }
    ApartChanges(s, t, l.id);
  }

  /** What a call needs from the tables and files survives a step of another call. */
  lemma StepKeepsOther(s: Sys, l: Step, id: nat)
    requires Inv(s) && OfCall(l) && Next(s, l).Some? && id in s.calls && l.id != id
    ensures CallInv(Next(s, l).value, id)
  {
    assert CallInv(s, id) && CallInv(s, l.id);
    assert ApartPair(s, id, l.id) && ApartPair(s, l.id, id);
    CallShape(s.disk, s.calls[l.id].input, s.calls[l.id].phase, l);
    StaysPut(s.calls[id], s.disk, Next(s, l).value.disk, s.calls[l.id].input, s.calls[l.id].phase);
  }

  lemma StaysPut(call: Call, d: Disk, e: Disk, other: NewArtifact, p: Phase)
    requires CallFits(call.input, call.phase, d) && CallFits(other, p, d) && Beside(d, e, other, p)
    requires Holds(p).Some? ==> Holds(p) != Holds(call.phase)
    requires Owns(p).Some? && Owns(call.phase).Some? ==> other.At() != call.input.At()
    ensures CallFits(call.input, call.phase, e)
  {
    if Owns(p).Some? && Owns(call.phase).Some? && Path(other.At()) == Path(call.input.At()) {
      PathInjective(other.At(), call.input.At());
    }
  }

  lemma FirstFits(d: Disk, c: NewArtifact, readable: bool)
    ensures CallFits(c, FirstPhase(d, c, readable), d)
    ensures Holds(FirstPhase(d, c, readable)).None? && Owns(FirstPhase(d, c, readable)).None?
  {
  }

  lemma BeginKeeps(s: Sys, l: Step)
    requires Inv(s) && l.Begin? && Next(s, l).Some?
    ensures Inv(Next(s, l).value)
  {
    var t := Next(s, l).value;
    FirstFits(s.disk, l.input, l.readable);
    forall id | id in t.calls ensures CallInv(t, id) {
      if id != l.id { assert CallInv(s, id); }
    }
    forall i, j | i in t.calls && j in t.calls && i != j ensures ApartPair(t, i, j) {
      if i != l.id && j != l.id { assert ApartPair(s, i, j); }
    }
  }

  lemma KilledFits(c: Call, d: Disk)
    requires CallFits(c.input, c.phase, d)
    ensures CallFits(Killed(c).input, Killed(c).phase, d)
  {
  }

  lemma KilledApart(a: Call, b: Call)
    requires ApartCalls(a, b)
    ensures ApartCalls(Killed(a), Killed(b))
  {
  }

  lemma CrashKeeps(s: Sys)
    requires Inv(s)
    ensures Inv(Next(s, Crash).value)
  {
    var t := Next(s, Crash).value;
    forall i, j | i in t.calls && j in t.calls && i != j ensures ApartPair(t, i, j) {
      assert ApartPair(s, i, j);
      KilledApart(s.calls[i], s.calls[j]);
    }
    forall id | id in t.calls ensures CallInv(t, id) {
      assert CallInv(s, id);
      KilledFits(s.calls[id], s.disk);
    }
  }

  lemma StepKeeps(s: Sys, l: Step)
    requires Inv(s) && Next(s, l).Some?
    ensures Inv(Next(s, l).value)
  {
    if OfCall(l) {
      var t := Next(s, l).value;
      assert CallInv(s, l.id);
      CallKeepsDisk(s.disk, s.calls[l.id].input, s.calls[l.id].phase, l);
      StepKeepsApart(s, l);
      forall id | id in t.calls ensures CallInv(t, id) {
        if l.id != id { StepKeepsOther(s, l, id); }
        else { CallKeepsFit(s.disk, s.calls[id].input, s.calls[id].phase, l); }
      }
    } else {
      if l.Begin? { BeginKeeps(s, l); } else { CrashKeeps(s); }
    }
  }

  lemma {:induction false} RunKeeps(d: Disk, ls: seq<Step>)
    requires Initial(d) && Exec(d, ls).Some?
    ensures Inv(Exec(d, ls).value)
  {
    if ls != [] {
      RunKeeps(d, ls[..|ls| - 1]);
      StepKeeps(Exec(d, ls[..|ls| - 1]).value, ls[|ls| - 1]);
    }
  }

  // ---------------------------------------------------------------- the theorems

  /** Nonzero sequences of stored artifacts are pairwise distinct, and no two messages are signed for one sequence. */
  lemma SequencesDistinct(d: Disk, ls: seq<Step>)
    requires Initial(d) && Exec(d, ls).Some?
    ensures RowsDistinct(Exec(d, ls).value.disk) && SignedOnce(Exec(d, ls).value.disk)
  {
    RunKeeps(d, ls);
  }

  /**
   A number that is handed out exceeds every number in the table, every number ever signed and
   every number any call holds.
   */
  lemma NumbersAreFresh(d: Disk, ls: seq<Step>, id: nat)
    requires Initial(d) && Exec(d, ls).Some? && Exec(d, ls + [Allocate(id)]).Some?
    ensures var s, t := Exec(d, ls).value, Exec(d, ls + [Allocate(id)]).value;
            && id in t.calls && t.calls[id].phase.Numbered?
            && var n := t.calls[id].phase.sequence;
            && n == s.disk.counter + 1
            && (forall k :: k in s.disk.rows ==> s.disk.rows[k].sequence < n)
            && (forall m :: m in s.disk.signed ==> m.sequence < n)
            && (forall i :: i in s.calls && Holds(s.calls[i].phase).Some? ==> Holds(s.calls[i].phase).value < n)
  {
    assert (ls + [Allocate(id)])[..|ls|] == ls;
    RunKeeps(d, ls);
    HoldsBounded(Exec(d, ls).value);
  }

  /** Numbers are never reused: the counter never falls. */
  lemma {:induction false} CounterNeverFalls(d: Disk, ls: seq<Step>, ms: seq<Step>)
    requires Initial(d) && Exec(d, ls).Some? && Exec(d, ls + ms).Some?
    ensures Exec(d, ls).value.disk.counter <= Exec(d, ls + ms).value.disk.counter
  {
    if ms == [] {
      assert ls + ms == ls;
    } else {
      assert (ls + ms)[..|ls + ms| - 1] == ls + ms[..|ms| - 1];
      CounterNeverFalls(d, ls, ms[..|ms| - 1]);
    }
  }

  predicate Succeeded(s: Sys, id: nat, c: NewArtifact, a: Artifact) {
    id in s.calls && s.calls[id] == Call(c, Done(Stored(a)))
  }

  lemma {:induction false} StaysSucceeded(d: Disk, ls: seq<Step>, ms: seq<Step>, id: nat, c: NewArtifact, a: Artifact)
    requires Initial(d) && Exec(d, ls).Some? && Exec(d, ls + ms).Some? && Succeeded(Exec(d, ls).value, id, c, a)
    ensures Succeeded(Exec(d, ls + ms).value, id, c, a)
  {
    if ms == [] {
      assert ls + ms == ls;
    } else {
      assert (ls + ms)[..|ls + ms| - 1] == ls + ms[..|ms| - 1];
      StaysSucceeded(d, ls, ms[..|ms| - 1], id, c, a);
    }
  }

  /**
   Once Store has returned an artifact, whatever other calls do, fail at or undo, and
   through crashes: its row stays, its file stays exactly the bytes that were hashed,
   and the message over its sequence and that hash is the one that was signed.
   */
  lemma StoredForever(d: Disk, ls: seq<Step>, ms: seq<Step>, id: nat, c: NewArtifact, a: Artifact)
    requires Initial(d) && Exec(d, ls).Some? && Exec(d, ls + ms).Some? && Succeeded(Exec(d, ls).value, id, c, a)
    ensures var disk := Exec(d, ls + ms).value.disk;
            && c.At() in disk.rows && disk.rows[c.At()] == a
            && Path(c.At()) in disk.files && disk.files[Path(c.At())] == c.content
            && a.digest == DigestOf(c.content) && a.size == |c.content| && a.sequence > 0
            && (forall m :: m in disk.signed && m.sequence == a.sequence <==> m == Message(a.sequence, a.digest))
  {
    StaysSucceeded(d, ls, ms, id, c, a);
    RunKeeps(d, ls + ms);
    assert CallInv(Exec(d, ls + ms).value, id);
  }

  lemma OwnerAlone(s: Sys, id: nat, j: nat)
    requires Inv(s) && id in s.calls && j in s.calls && s.calls[id].phase.Undoing?
    requires s.calls[j].phase.Done? && s.calls[j].phase.result.Stored?
    ensures s.calls[j].input.At() != s.calls[id].input.At()
  {
    assert ApartPair(s, id, j);
  }

  /** The compensating delete removes the row this very call inserted, and no row of a call that succeeded. */
  lemma UndoIsOwn(d: Disk, ls: seq<Step>, id: nat)
    requires Initial(d) && Exec(d, ls).Some? && Exec(d, ls + [Undo(id, true)]).Some?
    ensures var s, t := Exec(d, ls).value, Exec(d, ls + [Undo(id, true)]).value;
            && id in s.calls && s.calls[id].phase.Undoing?
            && var k := s.calls[id].input.At();
            && k in s.disk.rows && s.disk.rows[k] == s.calls[id].phase.a
            && t.disk.rows == s.disk.rows - {k}
            && forall j :: j in s.calls && s.calls[j].phase.Done? && s.calls[j].phase.result.Stored? ==>
                s.calls[j].input.At() != k
  {
    assert (ls + [Undo(id, true)])[..|ls|] == ls;
    RunKeeps(d, ls);
    var s := Exec(d, ls).value;
    assert CallInv(s, id);
    forall j | j in s.calls && s.calls[j].phase.Done? && s.calls[j].phase.result.Stored?
      ensures s.calls[j].input.At() != s.calls[id].input.At()
    {
      OwnerAlone(s, id, j);
    }
  }

  // ---------------------------------------------------------------- what a failed write leaves behind

  /** A file that no successful call wrote and none is writing. */
  predicate Abandoned(s: Sys, k: Key) {
    && Path(k) in s.disk.files
    && forall id :: id in s.calls && s.calls[id].input.At() == k ==>
         !s.calls[id].phase.Opened? && !(s.calls[id].phase.Done? && s.calls[id].phase.result.Stored?)
  }

  lemma StaysAbandoned(s: Sys, l: Step, k: Key)
    requires Abandoned(s, k) && Next(s, l).Some?
    ensures Abandoned(Next(s, l).value, k)
  {
    var t := Next(s, l).value;
    if OfCall(l) { FilesStay(s.disk, s.calls[l.id].input, s.calls[l.id].phase, l); }
    forall id | id in t.calls && t.calls[id].input.At() == k
      ensures !t.calls[id].phase.Opened? && !(t.calls[id].phase.Done? && t.calls[id].phase.result.Stored?)
    {
      if l.Crash? { assert t.calls[id] == Killed(s.calls[id]); }
    }
  }

  lemma FilesStay(d: Disk, c: NewArtifact, p: Phase, l: Step)
    requires CallNext(d, c, p, l).Some?
    ensures d.files.Keys <= CallNext(d, c, p, l).value.disk.files.Keys
    ensures var q := CallNext(d, c, p, l).value.phase;
            q.Opened? || (q.Done? && q.result.Stored?) ==> p.Opened? || Path(c.At()) !in d.files
  {
  }

  lemma {:induction false} AbandonedStays(d: Disk, ls: seq<Step>, ms: seq<Step>, k: Key)
    requires Exec(d, ls).Some? && Exec(d, ls + ms).Some? && Abandoned(Exec(d, ls).value, k)
    ensures Abandoned(Exec(d, ls + ms).value, k)
  {
    if ms == [] {
      assert ls + ms == ls;
    } else {
      var before := ms[..|ms| - 1];
      assert (ls + ms)[..|ls + ms| - 1] == ls + before;
      AbandonedStays(d, ls, before, k);
      StaysAbandoned(Exec(d, ls + before).value, ms[|ms| - 1], k);
    }
  }

  /**
   The step at which the file of call id stops short: a write error, or the end of the process
   after the file was created.
   */
  predicate StopsShort(s: Sys, l: Step, id: nat) {
    id in s.calls && ((l.WritePart? && l.id == id) || (l.Crash? && s.calls[id].phase.Opened?))
  }

  lemma OnlyOwner(s: Sys, id: nat, j: nat)
    requires Inv(s) && id in s.calls && j in s.calls && id != j && s.calls[id].phase.Opened?
    requires Owns(s.calls[j].phase).Some?
    ensures s.calls[j].input.At() != s.calls[id].input.At()
  {
    assert ApartPair(s, id, j);
  }

  /** Such a step leaves a file behind that belongs to nobody. */
  lemma StopAbandons(s: Sys, l: Step, id: nat)
    requires Inv(s) && Next(s, l).Some? && StopsShort(s, l, id)
    ensures Abandoned(Next(s, l).value, s.calls[id].input.At())
  {
    var t := Next(s, l).value;
    assert CallInv(s, id);
    forall j | j in t.calls && t.calls[j].input.At() == s.calls[id].input.At()
      ensures !t.calls[j].phase.Opened? && !(t.calls[j].phase.Done? && t.calls[j].phase.result.Stored?)
    {
      if l.Crash? { assert t.calls[j] == Killed(s.calls[j]); }
      if j != id && Owns(s.calls[j].phase).Some? { OnlyOwner(s, id, j); }
    }
  }

  /**
   Store never removes a file and never overwrites one. So once a write has stopped
   half-way, by an error or because the process ended, no call that stores that version
   ever succeeds, in any continuation, although the row may be gone.
   */
  lemma AbandonedBlocks(d: Disk, ls: seq<Step>, l: Step, ms: seq<Step>, id: nat, other: nat, c: NewArtifact,
                        a: Artifact)
    requires Initial(d) && Exec(d, ls).Some? && Exec(d, ls + [l]).Some? && Exec(d, ls + [l] + ms).Some?
    requires StopsShort(Exec(d, ls).value, l, id) && c.At() == Exec(d, ls).value.calls[id].input.At()
    ensures !Succeeded(Exec(d, ls + [l] + ms).value, other, c, a)
  {
    assert (ls + [l])[..|ls|] == ls;
    RunKeeps(d, ls);
    StopAbandons(Exec(d, ls).value, l, id);
    AbandonedStays(d, ls + [l], ms, c.At());
  }
}
