/** Lines in a stream of characters, and the replies among them. */
module SerialText {

  /** The position of the first newline, or the length if there is none. */
  function LineEnd(u: string): (n: nat)
    ensures n <= |u| && '\n' !in u[..n] && (n < |u| ==> u[n] == '\n')
  {
    if u == "" || u[0] == '\n' then 0 else 1 + LineEnd(u[1..])
  }

  predicate HasLine(u: string) { LineEnd(u) < |u| }

  function WithoutCR(s: string): string { if s != "" && s[|s| - 1] == '\r' then s[..|s| - 1] else s }

  function FirstLine(u: string): string { WithoutCR(u[..LineEnd(u)]) }

  function Rest(u: string): (r: string)
    requires HasLine(u)
    ensures |r| < |u|
  {
    u[LineEnd(u) + 1..]
  }

  predicate IsReply(line: string) { "ESPM:OK" <= line || "ESPM:ERR" <= line }

  /** The replies among the complete lines of a text. */
  function Replies(u: string): seq<string>
    decreases |u|
  {
    if !HasLine(u) then []
    else (if IsReply(FirstLine(u)) then [FirstLine(u)] else []) + Replies(Rest(u))
  }

  /** Nothing, or text that ends with a newline. */
  predicate Whole(u: string) { u == "" || u[|u| - 1] == '\n' }

  lemma {:induction false} LineEndIs(u: string, n: nat)
    requires n <= |u| && '\n' !in u[..n] && (n < |u| ==> u[n] == '\n')
    ensures LineEnd(u) == n
  {
    assert n > 0 ==> u[..n][0] == u[0];
    if u != "" && u[0] != '\n' {
      assert u[1..][..n - 1] == u[..n][1..];
      LineEndIs(u[1..], n - 1);
    }
  }

  /** Appending to a text does not change its first line. */
  lemma FirstLineStays(u: string, v: string)
    requires HasLine(u)
    ensures HasLine(u + v) && FirstLine(u + v) == FirstLine(u) && Rest(u + v) == Rest(u) + v
  {
    var n := LineEnd(u);
    assert (u + v)[..n] == u[..n] && (u + v)[n] == u[n];
    LineEndIs(u + v, n);
  }

  lemma WholeHasLine(u: string)
    requires Whole(u) && u != ""
    ensures HasLine(u) && Whole(Rest(u))
  {
    assert u[..|u|] == u && '\n' in u;
  }

  lemma Regroups(a: seq<string>, b: seq<string>, c: seq<string>)
    ensures a + (b + c) == (a + b) + c
  {
  }

  /** Where whole lines end, the replies of a text split. */
  lemma {:induction false} RepliesSplit(u: string, v: string)
    requires Whole(u)
    ensures Replies(u + v) == Replies(u) + Replies(v)
    decreases |u|
  {
    if u == "" {
      assert u + v == v;
    } else {
      WholeHasLine(u);
      FirstLineStays(u, v);
      RepliesSplit(Rest(u), v);
      var first := if IsReply(FirstLine(u)) then [FirstLine(u)] else [];
      Regroups(first, Replies(Rest(u)), Replies(v));
    }
  }

  lemma OneLine(l: string)
    requires '\n' !in l
    ensures Replies(l + "\n") == if IsReply(WithoutCR(l)) then [WithoutCR(l)] else []
  {
    assert (l + "\n")[..|l|] == l;
    LineEndIs(l + "\n", |l|);
    assert Rest(l + "\n") == "";
  }
}
