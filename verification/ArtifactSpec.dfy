/** Publishing: the tables of artifact_repo.go, the artifact directory, and the steps of Store. */
module ArtifactSpec {
  import opened Optional
  import W = WireCodec

  type Bytes = seq<int>

  /** SHA-256 as an ideal hash: the digest stands for the content. */
  datatype Digest = DigestOf(content: Bytes)

  /** A signed message: the sequence and the digest, as signedMessage lays them out. */
  datatype Message = Message(sequence: int, digest: Digest)

  datatype Artifact = Artifact(driver: string, version: string, digest: Digest, signed: Message, sequence: int,
                               size: int)

  datatype Key = Key(driver: string, version: string)

  datatype NewArtifact = NewArtifact(driver: string, version: string, content: Bytes) {
    function At(): Key { Key(driver, version) }
  }

  datatype Error = Invalid | BadVersion | UnknownDriver | AlreadyExists | SignerFailed | Unavailable | FileFailed

  /** The counter, the rows, the files, and every message the signer ever signed. */
  datatype Disk = Disk(counter: int, rows: map<Key, Artifact>, files: map<string, Bytes>, signed: set<Message>)

  predicate DriverPattern(s: string) {
    |s| == 16 && forall i :: 0 <= i < |s| ==> 'a' <= s[i] <= 'f' || '0' <= s[i] <= '9'
  }

  predicate VersionChar(c: char) {
    'A' <= c <= 'Z' || 'a' <= c <= 'z' || '0' <= c <= '9' || c == '.' || c == '_' || c == '-'
  }

  predicate VersionPattern(s: string) { 1 <= |s| <= 64 && forall i :: 0 <= i < |s| ==> VersionChar(s[i]) }

  /** The checks of Store before it touches anything. */
  function Objection(a: NewArtifact): Option<Error> {
    if a.driver == "" || a.version == "" || a.content == [] then Some(Invalid)
    else if !DriverPattern(a.driver) then Some(Invalid)
    else if !VersionPattern(a.version) then Some(BadVersion)
    else None
  }

  /** Path, below the artifact directory. */
  function Path(k: Key): string { k.driver + "/" + k.version + ".bin" }

  /** Different artifacts have different files. */
  lemma PathInjective(k: Key, l: Key)
    requires DriverPattern(k.driver) && DriverPattern(l.driver) && Path(k) == Path(l)
    ensures k == l
  {
    assert Path(k) == k.driver + ("/" + k.version + ".bin") && Path(l) == l.driver + ("/" + l.version + ".bin");
    W.PartsEqual(k.driver, l.driver, "/" + k.version + ".bin", "/" + l.version + ".bin");
    assert ("/" + k.version + ".bin")[1..|k.version| + 1] == k.version;
    assert ("/" + l.version + ".bin")[1..|l.version| + 1] == l.version;
  }

  function Described(a: NewArtifact, sequence: int): Artifact {
    Artifact(a.driver, a.version, DigestOf(a.content), Message(sequence, DigestOf(a.content)), sequence, |a.content|)
  }
}
