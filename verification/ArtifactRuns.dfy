/**
 Runs of Store that exist: a call on its own, whatever the outside world does to it, and a write
 that stops half-way.
 */
module ArtifactRuns {
  import opened Optional
  import opened ArtifactSpec
  import opened ArtifactProtocol

  // ---------------------------------------------------------------- a version that is lost

  /** The state with a single call. */
  function Solo(d: Disk, c: NewArtifact, p: Phase): Sys { Sys(d, map[0 := Call(c, p)]) }

  lemma Begins(d: Disk, c: NewArtifact, readable: bool) returns (run: seq<Step>)
    ensures Exec(d, run) == Some(Solo(d, c, FirstPhase(d, c, readable)))
  {
    run := [Begin(0, c, readable)];
    assert run[..0] == [] && Exec(d, []) == Some(Sys(d, map[]));
  }

  lemma OneMore(d: Disk, ls: seq<Step>, e: Disk, c: NewArtifact, p: Phase, l: Step, o: Outcome) returns (run: seq<Step>)
    requires Exec(d, ls) == Some(Solo(e, c, p)) && OfCall(l) && l.id == 0 && CallNext(e, c, p, l) == Some(o)
    ensures ls <= run && Exec(d, run) == Some(Solo(o.disk, c, o.phase))
  {
    run := ls + [l];
    assert run[..|run| - 1] == ls;
    assert Solo(e, c, p).calls[0 := Call(c, o.phase)] == Solo(o.disk, c, o.phase).calls;
  }

  /** One call gets as far as its signature. */
  lemma SomeCallSigns(d: Disk, c: NewArtifact) returns (run: seq<Step>, e: Disk)
    requires Objection(c).None? && c.At() !in d.rows
    ensures Exec(d, run) == Some(Solo(e, c, Signed(Described(c, d.counter + 1))))
    ensures e.rows == d.rows && e.files == d.files
  {
    var n := d.counter + 1;
    run := Begins(d, c, true);
    run := OneMore(d, run, d, c, Absent, CheckDriver(0, true), Outcome(d, Known));
    e := d.(counter := n);
    run := OneMore(d, run, d, c, Known, Allocate(0), Outcome(e, Numbered(n)));
    var a := Described(c, n);
    var f := e.(signed := e.signed + {a.signed});
    run := OneMore(d, run, e, c, Numbered(n), Sign(0, true), Outcome(f, Signed(a)));
    e := f;
  }

  /**
   Any version that is new in the table and on disk can be lost like that, by a write error or by
   the end of the process.
   */
  lemma SomeWriteStops(d: Disk, c: NewArtifact, n: nat) returns (run: seq<Step>)
    requires Objection(c).None? && c.At() !in d.rows && Path(c.At()) !in d.files && n < |c.content|
    ensures Exec(d, run).Some? && 0 in Exec(d, run).value.calls && Exec(d, run).value.calls[0].input == c
    ensures forall l :: l == WritePart(0, n) || l == Crash ==>
              StopsShort(Exec(d, run).value, l, 0) && Next(Exec(d, run).value, l).Some?
  {
    var a := Described(c, d.counter + 1);
    var e;
    run, e := SomeCallSigns(d, c);
    var f := e.(rows := e.rows[c.At() := a]);
    run := OneMore(d, run, e, c, Signed(a), Create(0), Outcome(f, Created(a)));
    var g := f.(files := f.files[Path(c.At()) := []]);
    run := OneMore(d, run, f, c, Created(a), OpenFile(0), Outcome(g, Opened(a)));
  }

  // ---------------------------------------------------------------- one call on its own

  /**
   How the outside world treats one call: whether each lookup and statement works, what
   the driver lookup says, whether the signer signs, and after how many bytes the write
   fails if it does.
   */
  datatype Luck = Luck(readable: bool, driver: Option<bool>, counts: bool, signs: bool, inserts: bool, cut: Option<nat>,
                       deletes: bool)

  /** The next step of a call that nothing disturbs. */
  function Usual(c: NewArtifact, p: Phase, luck: Luck): Step {
    match p
    case Absent => if luck.driver.Some? then CheckDriver(0, luck.driver.value) else Fail(0, Unavailable)
    case Known => if luck.counts then Allocate(0) else Fail(0, Unavailable)
    case Numbered(_) => Sign(0, luck.signs)
    case Signed(_) => if luck.inserts then Create(0) else Fail(0, Unavailable)
    case Created(_) => OpenFile(0)
    case Opened(_) => if luck.cut.Some? && luck.cut.value < |c.content| then WritePart(0, luck.cut.value) else Write(0)
    case Undoing(_) => Undo(0, luck.deletes)
    case Done(_) => Crash
    case Dead => Crash
  }

  function StepsLeft(p: Phase): nat {
    match p
    case Absent => 7
    case Known => 6
    case Numbered(_) => 5
    case Signed(_) => 4
    case Created(_) => 3
    case Opened(_) => 2
    case Undoing(_) => 1
    case Done(_) => 0
    case Dead => 0
  }

  /** The usual steps, one after the other. */
  function Continue(d: Disk, c: NewArtifact, p: Phase, luck: Luck): (Disk, Result)
    requires !p.Dead?
    decreases StepsLeft(p)
  {
    if p.Done? then (d, p.result)
    else
      var o := CallNext(d, c, p, Usual(c, p, luck)).value;
      Continue(o.disk, c, o.phase, luck)
  }

  function Alone(d: Disk, c: NewArtifact, luck: Luck): (Disk, Result) {
    Continue(d, c, FirstPhase(d, c, luck.readable), luck)
  }

  /** What Continue describes is a run of the steps, for the one call there is. */
  lemma {:induction false} ContinueIsARun(d: Disk, ls: seq<Step>, e: Disk, c: NewArtifact, p: Phase, luck: Luck)
    returns (run: seq<Step>)
    requires Exec(d, ls) == Some(Solo(e, c, p)) && !p.Dead?
    ensures var (f, r) := Continue(e, c, p, luck);
            ls <= run && Exec(d, run) == Some(Solo(f, c, Done(r)))
    decreases StepsLeft(p)
  {
    run := ls;
    if !p.Done? {
      var o := CallNext(e, c, p, Usual(c, p, luck)).value;
      ContinueOne(e, c, p, luck);
      run := OneMore(d, ls, e, c, p, Usual(c, p, luck), o);
      run := ContinueIsARun(d, run, o.disk, c, o.phase, luck);
    }
  }

  /** So what is proved of every run holds of a Store on its own. */
  lemma AloneIsARun(d: Disk, c: NewArtifact, luck: Luck) returns (run: seq<Step>)
    ensures var (f, r) := Alone(d, c, luck);
            Exec(d, run) == Some(Solo(f, c, Done(r)))
  {
    run := Begins(d, c, luck.readable);
    run := ContinueIsARun(d, run, d, c, FirstPhase(d, c, luck.readable), luck);
  }

  predicate CutShort(c: NewArtifact, luck: Luck) { luck.cut.Some? && luck.cut.value < |c.content| }

  lemma ContinueOne(d: Disk, c: NewArtifact, p: Phase, luck: Luck)
    requires !p.Dead? && !p.Done?
    ensures var o := CallNext(d, c, p, Usual(c, p, luck)).value;
            !o.phase.Dead? && Continue(d, c, p, luck) == Continue(o.disk, c, o.phase, luck)
  {
  }

  lemma ContinueCreated(d: Disk, c: NewArtifact, a: Artifact, luck: Luck)
    ensures var path := Path(c.At());
            var undone := if luck.deletes then d.(rows := d.rows - {c.At()}) else d;
            Continue(d, c, Created(a), luck) ==
              if path in d.files then (undone, Failed(FileFailed))
              else if CutShort(c, luck) then (undone.(files := d.files[path := c.content[..luck.cut.value]]),
                                              Failed(FileFailed))
              else (d.(files := d.files[path := c.content]), Stored(a))
  {
    var path := Path(c.At());
    var empty := d.(files := d.files[path := []]);
    assert empty.files[path := c.content] == d.files[path := c.content];
    if CutShort(c, luck) {
      assert empty.files[path := c.content[..luck.cut.value]] == d.files[path := c.content[..luck.cut.value]];
    }
    ContinueOne(d, c, Created(a), luck);
    if path !in d.files { ContinueOne(empty, c, Opened(a), luck); }
  }

  lemma ContinueNumbered(d: Disk, c: NewArtifact, n: int, luck: Luck)
    ensures var a := Described(c, n);
            var e := d.(signed := d.signed + {a.signed});
            Continue(d, c, Numbered(n), luck) ==
              if !luck.signs then (e, Failed(SignerFailed))
              else if !luck.inserts then (e, Failed(Unavailable))
              else if c.At() in d.rows then (e, Failed(AlreadyExists))
              else Continue(e.(rows := d.rows[c.At() := a]), c, Created(a), luck)
  {
    var a := Described(c, n);
    ContinueOne(d, c, Numbered(n), luck);
    if luck.signs { ContinueOne(d.(signed := d.signed + {a.signed}), c, Signed(a), luck); }
  }
}
