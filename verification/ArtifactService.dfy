/** internal/artifact/service.go, one Store at a time. */
module ArtifactService {
  import opened Optional
  import opened ArtifactSpec
  import opened ArtifactProtocol
  import opened ArtifactRuns

  class ArtifactRepository {
    var counter: int
    var rows: map<Key, Artifact>

    constructor ()
      ensures counter == 0 && rows == map[]
    {
      counter, rows := 0, map[];
    }

    method NextSequence() returns (next: int)
      modifies `counter
      ensures next == counter == old(counter) + 1
    {
      counter := counter + 1;
      next := counter;
    }

    method Create(k: Key, a: Artifact) returns (ok: bool)
      modifies `rows
      ensures ok == (k !in old(rows)) && rows == if ok then old(rows)[k := a] else old(rows)
    {
      ok := k !in rows;
      if ok {
        rows := rows[k := a];
      }
    }

    method Delete(k: Key)
      modifies `rows
      ensures rows == old(rows) - {k}
    {
      rows := rows - {k};
    }
  }

  class Service {
    const repo: ArtifactRepository
    var files: map<string, Bytes>
    /** Everything the signer signed. */
    ghost var signed: set<Message>

    constructor (repo: ArtifactRepository)
      ensures this.repo == repo && files == map[] && signed == {}
    {
      this.repo := repo;
      files, signed := map[], {};
    }

    ghost function Content(): Disk
      reads this, repo
    {
      Disk(repo.counter, repo.rows, files, signed)
    }

    /** writeFile: the file must not exist; the write may stop after some bytes. */
    method WriteFile(k: Key, content: Bytes, cut: Option<nat>) returns (ok: bool)
      modifies `files
      ensures ok == (Path(k) !in old(files) && !(cut.Some? && cut.value < |content|))
      ensures files == if Path(k) in old(files) then old(files)
                       else old(files)[Path(k) := if ok then content else content[..cut.value]]
    {
      if Path(k) in files {
        return false;
      }
      ok := !(cut.Some? && cut.value < |content|);
      files := files[Path(k) := if ok then content else content[..cut.value]];
    }

    /** Sign, insert and write; the caller has a number already. */
    method Publish(c: NewArtifact, sequence: int, luck: Luck) returns (r: Result)
      modifies this, repo`rows
      ensures (Content(), r) == Continue(old(Content()), c, Numbered(sequence), luck)
    {
      ContinueNumbered(Content(), c, sequence, luck);
      var a := Described(c, sequence);
      signed := signed + {a.signed};
      if !luck.signs {
        return Failed(SignerFailed);
      }
      if !luck.inserts {
        return Failed(Unavailable);
      }
      var created := repo.Create(c.At(), a);
      if !created {
        return Failed(AlreadyExists);
      }
      r := WriteOrUndo(c, a, luck);
    }

    /** The file, and the compensating delete when it fails. */
    method WriteOrUndo(c: NewArtifact, a: Artifact, luck: Luck) returns (r: Result)
      modifies `files, repo`rows
      ensures (Content(), r) == Continue(old(Content()), c, Created(a), luck)
    {
      ContinueCreated(Content(), c, a, luck);
      var written := WriteFile(c.At(), c.content, luck.cut);
      if !written {
        if luck.deletes {
          repo.Delete(c.At());
        }
        return Failed(FileFailed);
      }
      return Stored(a);
    }

    /**
     Store: its effect and its answer are those of its steps taken one after the other.
     What it stores describes the input under the next number; it refuses malformed input
     and a version that is in the table before anything is touched.
     */
    method Store(c: NewArtifact, luck: Luck) returns (r: Result)
      modifies this, repo
      ensures (Content(), r) == Alone(old(Content()), c, luck)
      ensures r.Stored? ==>
        && r.a.driver == c.driver && r.a.version == c.version && r.a.digest == DigestOf(c.content)
        && r.a.size == |c.content| && r.a.sequence == repo.counter == old(repo.counter) + 1
        && r.a.signed == Message(sequence := r.a.sequence, digest := DigestOf(c.content))
        && repo.rows == old(repo.rows)[Key(driver := c.driver, version := c.version) := r.a]
        && files == old(files)[c.driver + "/" + c.version + ".bin" := c.content]
        && signed == old(signed) + {r.a.signed}
      ensures (r == Failed(Invalid)) <==>
        c.driver == "" || c.version == "" || c.content == [] || |c.driver| != 16
        || exists i :: 0 <= i < |c.driver| && c.driver[i] !in "0123456789abcdef"
      ensures r != Failed(Invalid) ==>
        ((r == Failed(BadVersion)) <==>
           |c.version| > 64 || exists i :: 0 <= i < |c.version| && !VersionChar(c.version[i]))
      ensures r == Failed(Invalid) || r == Failed(BadVersion) ==> Content() == old(Content())
      ensures Key(driver := c.driver, version := c.version) in old(repo.rows) ==>
        r.Failed? && Content() == old(Content())
    {
      StoreSucceeds(Content(), c, luck);
      StoreRefuses(Content(), c, luck);
      r := StoreSteps(c, luck);
    }

    method StoreSteps(c: NewArtifact, luck: Luck) returns (r: Result)
      modifies this, repo
      ensures (Content(), r) == Alone(old(Content()), c, luck)
    {
      if c.driver == "" || c.version == "" || |c.content| == 0 || !DriverPattern(c.driver) {
        return Failed(Invalid);
      }
      if !VersionPattern(c.version) {
        return Failed(BadVersion);
      }
      if !luck.readable {
        return Failed(Unavailable);
      }
      if c.At() in repo.rows {
        return Failed(AlreadyExists);
      }
      if luck.driver.None? {
        return Failed(Unavailable);
      }
      if !luck.driver.value {
        return Failed(UnknownDriver);
      }
      if !luck.counts {
        return Failed(Unavailable);
      }
      var sequence := repo.NextSequence();
      r := Publish(c, sequence, luck);
    }
  }

  /** Nothing outside the service fails. */
  predicate Lucky(c: NewArtifact, luck: Luck) {
    luck.readable && luck.driver == Some(true) && luck.counts && luck.signs && luck.inserts && !CutShort(c, luck)
  }

  lemma HexDigits(s: string)
    ensures (forall i :: 0 <= i < |s| ==> 'a' <= s[i] <= 'f' || '0' <= s[i] <= '9') <==>
            (forall i :: 0 <= i < |s| ==> s[i] in "0123456789abcdef")
  {
    forall i | 0 <= i < |s| ensures ('a' <= s[i] <= 'f' || '0' <= s[i] <= '9') <==> s[i] in "0123456789abcdef" {
      HexDigit(s[i]);
    }
  }

  lemma HexDigit(c: char)
    ensures ('a' <= c <= 'f' || '0' <= c <= '9') <==> c in "0123456789abcdef"
  {
    var digits := "0123456789abcdef";
    if '0' <= c <= '9' { assert digits[c as int - '0' as int] == c; }
    if 'a' <= c <= 'f' { assert digits[c as int - 'a' as int + 10] == c; }
  }

  /** Which error a well-formed input gets, and whether it used up a number. */
  lemma StoreErrors(d: Disk, c: NewArtifact, luck: Luck)
    requires Objection(c).None?
    ensures var (e, r) := Alone(d, c, luck);
            if !luck.readable then r == Failed(Unavailable) && e == d
            else if c.At() in d.rows then r == Failed(AlreadyExists) && e == d
            else if luck.driver.None? then r == Failed(Unavailable) && e == d
            else if !luck.driver.value then r == Failed(UnknownDriver) && e == d
            else if !luck.counts then r == Failed(Unavailable) && e == d
            else
              && e.counter == d.counter + 1
              && e.signed == d.signed + {Message(sequence := d.counter + 1, digest := DigestOf(c.content))}
              && (if !luck.signs then r == Failed(SignerFailed)
                  else if !luck.inserts then r == Failed(Unavailable)
                  else if Path(c.At()) in d.files || CutShort(c, luck) then r == Failed(FileFailed)
                  else r.Stored?)
  {
    var p := FirstPhase(d, c, luck.readable);
    if p.Absent? {
      ContinueOne(d, c, p, luck);
      if luck.driver == Some(true) {
        ContinueOne(d, c, Known, luck);
        if luck.counts {
          var e := d.(counter := d.counter + 1);
          var a := Described(c, d.counter + 1);
          ContinueNumbered(e, c, d.counter + 1, luck);
          ContinueCreated(e.(signed := d.signed + {a.signed}, rows := d.rows[c.At() := a]), c, a, luck);
        }
      }
    }
  }

  /** What is malformed, or in the table already, is refused before anything is touched. */
  lemma StoreRefuses(d: Disk, c: NewArtifact, luck: Luck)
    ensures var (e, r) := Alone(d, c, luck);
            && ((r == Failed(Invalid)) <==>
                  c.driver == "" || c.version == "" || c.content == [] || |c.driver| != 16
                  || exists i :: 0 <= i < |c.driver| && c.driver[i] !in "0123456789abcdef")
            && (r != Failed(Invalid) ==>
                  ((r == Failed(BadVersion)) <==>
                     |c.version| > 64 || exists i :: 0 <= i < |c.version| && !VersionChar(c.version[i])))
            && (r == Failed(Invalid) || r == Failed(BadVersion) || c.At() in d.rows ==> r.Failed? && e == d)
  {
    HexDigits(c.driver);
    var p := FirstPhase(d, c, luck.readable);
    if !p.Done? { NotRefused(d, c, p, luck); }
  }

  lemma {:induction false} NotRefused(d: Disk, c: NewArtifact, p: Phase, luck: Luck)
    requires !p.Dead? && (p.Done? ==> p.result != Failed(Invalid) && p.result != Failed(BadVersion))
    ensures var (e, r) := Continue(d, c, p, luck); r != Failed(Invalid) && r != Failed(BadVersion)
    decreases StepsLeft(p)
  {
    if !p.Done? {
      ContinueOne(d, c, p, luck);
      var o := CallNext(d, c, p, Usual(c, p, luck)).value;
      NotRefused(o.disk, c, o.phase, luck);
    }
  }

  /**
   When one Store on its own succeeds: exactly if the input is well-formed, the version
   is new in the table and on disk, and nothing outside fails. Then the tables hold the
   artifact under the next number; else the rows are as before, unless the file failed
   and so did the delete that was to make up for it.
   */
  lemma StoreSucceeds(d: Disk, c: NewArtifact, luck: Luck)
    ensures var (e, r) := Alone(d, c, luck);
            && (r.Stored? <==> Objection(c).None? && c.At() !in d.rows && Path(c.At()) !in d.files && Lucky(c, luck))
            && (r.Stored? ==>
                  && r.a == Described(c, d.counter + 1) && e.counter == d.counter + 1
                  && e.rows == d.rows[c.At() := r.a] && e.files == d.files[Path(c.At()) := c.content]
                  && e.signed == d.signed + {r.a.signed})
            && (r.Failed? ==>
                  && d.counter <= e.counter
                  && e.rows == if r.error.FileFailed? && !luck.deletes
                               then d.rows[c.At() := Described(c, d.counter + 1)] else d.rows)
  {
    var p := FirstPhase(d, c, luck.readable);
    var a := Described(c, d.counter + 1);
    var e := d.(counter := d.counter + 1);
    var f := e.(signed := d.signed + {a.signed}, rows := d.rows[c.At() := a]);
    if !p.Done? {
      ContinueOne(d, c, p, luck);
      if luck.driver == Some(true) {
        ContinueOne(d, c, Known, luck);
        ContinueNumbered(e, c, d.counter + 1, luck);
        ContinueCreated(f, c, a, luck);
      }
      assert f.rows - {c.At()} == d.rows;
    }
  }
}
