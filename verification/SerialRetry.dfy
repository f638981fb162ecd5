/** What a time-out leaves behind, and how a second attempt on the same connection is misled by it. */
module SerialRetry {
  import opened Optional
  import opened SerialText
  import opened ProvisionAgent
  import opened ProvisionScript
  import opened SerialHost

  // ---------------------------------------------------------------- the reply that was not waited for

  /** What writing a line does to a link whose agent waits for one. */
  lemma WrittenIs(a: Link, ready: string, l: string)
    requires Ready(a.agent) && Plain(l)
    ensures var r := Respond(a.agent.now, ready, Kept(l));
            Written(a, ready, l) ==
              Link(State("", r.now, if r.commit then Some(r.now) else None, a.agent.out + r.reply), a.unread + r.reply)
  {
    TakesALine(a.agent, ready, l);
  }

  lemma WholeRest(lines: string, rest: string)
    requires Whole(lines + rest)
    ensures Whole(rest)
  {
    if rest != "" { assert (lines + rest)[|lines + rest| - 1] == rest[|rest| - 1]; }
  }

  /** An answer that no one took is still there. */
  lemma LeftWaiting(u: string, answer: string, v: string)
    requires Quiet(u) && CleanReply(answer) && Consumed(u + (answer + "\n"), v, [])
    ensures Whole(v) && Replies(v) == [answer]
  {
    var all := u + (answer + "\n");
    OneArrives(u, answer);
    var lines: string :| all == lines + v && Whole(lines) && Replies(lines) == [];
    RepliesSplit(lines, v);
    WholeRest(lines, v);
    assert Replies(all) == [] + [answer] == [answer] && [] + Replies(v) == Replies(v);
  }

  /** The host gave up on a line that the agent answers, on a link on which no reply was waiting. */
  ghost predicate GaveUp(a: Link, ready: string, l: string, w: Settings, answer: string, b: Link) {
    && Ready(a.agent) && Quiet(a.unread) && CleanReply(answer)
    && Answered(ready, a.agent.now, l, w, answer)
    && (Exchanged(a, ready, l, TimedOut, b) || Exchanged(a, ready, l, Disconnected, b))
  }

  lemma WrittenAnswered(a: Link, ready: string, l: string, w: Settings, answer: string)
    requires Ready(a.agent) && Answered(ready, a.agent.now, l, w, answer)
    ensures Ready(Written(a, ready, l).agent) && Written(a, ready, l).unread == a.unread + (answer + "\n")
  {
    WrittenIs(a, ready, l);
  }

  /** Then that answer is left waiting, and it is all that waits. */
  lemma LateReply(a: Link, ready: string, l: string, w: Settings, answer: string, b: Link)
    requires GaveUp(a, ready, l, w, answer, b)
    ensures Ready(b.agent) && Whole(b.unread) && Replies(b.unread) == [answer]
  {
    WrittenAnswered(a, ready, l, w, answer);
    LeftWaiting(a.unread, answer, b.unread);
  }

  /** So a second attempt on the same link can be trusted exactly if that answer was not an acknowledgement. */
  lemma RetryIsTrusted(a: Link, ready: string, l: string, w: Settings, answer: string, b: Link)
    requires GaveUp(a, ready, l, w, answer, b)
    ensures Trustworthy(b.agent, ready, b.unread) <==> answer != OK
  {
    LateReply(a, ready, l, w, answer, b);
    StaleReplies(b.agent, ready, b.unread);
    OneMisleads(answer);
  }

  lemma OneMisleads(answer: string)
    ensures Misleading([answer]) <==> answer == OK
  {
    assert [answer][0] == answer;
  }

  // ---------------------------------------------------------------- such a second attempt

  /** setKey for one line after the other, each acknowledged; the links are those before and after. */
  ghost predicate Sets(links: seq<Link>, ready: string, lines: seq<string>) {
    && |links| == |lines| + 1
    && forall k :: 0 <= k < |lines| ==> Exchanged(links[k], ready, lines[k], Line(OK), links[k + 1])
  }

  const WAITING := "ESPM:OK\n"

  /** A link on which one acknowledgement is waiting. */
  function Behind(v: Settings, out: string): Link { Link(State("", v, None, out), WAITING) }

  lemma OneWaits()
    ensures WAITING == OK + "\n" && Whole(WAITING) && Replies(WAITING) == [OK] && IsReply(OK)
  {
    OneLine(OK);
    assert WithoutCR(OK) == OK;
    assert WAITING == OK + "\n";
  }

  /** The host takes the acknowledgement that was waiting, and the one of its own line waits in its place. */
  lemma TakesTheWrongOne(ready: string, v: Settings, out: string, l: string, w: Settings)
    requires Answered(ready, v, l, w, OK)
    ensures Exchanged(Behind(v, out), ready, l, Line(OK), Behind(w, out + WAITING))
  {
    OneWaits();
    WrittenIs(Behind(v, out), ready, l);
    assert Consumed(WAITING + WAITING, WAITING, [OK]);
  }

  function Links(values: seq<Settings>, out: string): (links: seq<Link>)
    ensures |links| == |values|
  {
    if values == [] then []
    else
      var n := |values| - 1;
      Links(values[..n], out) + [Behind(values[n], Outs(out, n))]
  }

  /** What the agent has sent after n more acknowledgements. */
  function Outs(out: string, n: nat): string { if n == 0 then out else Outs(out, n - 1) + WAITING }

  lemma {:induction false} LinkAt(values: seq<Settings>, out: string, k: nat)
    requires k < |values|
    ensures Links(values, out)[k] == Behind(values[k], Outs(out, k))
  {
    if k < |values| - 1 { LinkAt(values[..|values| - 1], out, k); }
  }

  lemma SetMisled(ready: string, lines: seq<string>, values: seq<Settings>, answers: seq<string>, out: string, k: nat)
    requires Conversation(ready, lines, values, answers) && k < |lines| && answers[k] == OK
    ensures var links := Links(values, out); Exchanged(links[k], ready, lines[k], Line(OK), links[k + 1])
  {
    assert Answered(ready, values[k], lines[k], values[k + 1], answers[k]);
    LinkAt(values, out, k);
    LinkAt(values, out, k + 1);
    TakesTheWrongOne(ready, values[k], Outs(out, k), lines[k], values[k + 1]);
  }

  lemma SetsMisled(ready: string, lines: seq<string>, values: seq<Settings>, answers: seq<string>, out: string)
    requires Conversation(ready, lines, values, answers) && forall k :: 0 <= k < |answers| ==> answers[k] == OK
    ensures Sets(Links(values, out), ready, lines)
  {
    forall k | 0 <= k < |lines|
      ensures Exchanged(Links(values, out)[k], ready, lines[k], Line(OK), Links(values, out)[k + 1])
    {
      SetMisled(ready, lines, values, answers, out, k);
    }
  }

  /** The last line is refused, and the host reads the acknowledgement of the one before. */
  lemma CommitMisled(ready: string, v: Settings, out: string) returns (b: Link)
    requires v.ssid != "" && v.host != "" && v.token == ""
    ensures Exchanged(Behind(v, out), ready, COMMIT, Line(OK), b) && b.agent.stored.None?
  {
    OneWaits();
    CommitResponds(v, ready, NO_TOKEN);
    WrittenIs(Behind(v, out), ready, COMMIT);
    var refusal := CommitAnswer(NO_TOKEN) + "\n";
    b := Link(State("", v, None, out + refusal), refusal);
    assert Consumed(WAITING + refusal, refusal, [OK]);
  }

  /** On a fresh link the host gives up on a key that the agent accepts. */
  lemma FirstTimesOut(now: Settings, out: string, ready: string, l: string, w: Settings)
    requires Answered(ready, now, l, w, OK)
    ensures Exchanged(Link(State("", now, None, out), ""), ready, l, TimedOut, Behind(w, out + WAITING))
  {
    OneWaits();
    WrittenIs(Link(State("", now, None, out), ""), ready, l);
    NothingConsumed(WAITING);
    assert "" + WAITING == WAITING;
  }

  lemma SsidTimesOut(now: Settings, out: string, ready: string) returns (v: Settings)
    ensures Exchanged(Link(State("", now, None, out), ""), ready, SetLines(NO_TOKEN)[0], TimedOut,
                      Behind(v, out + WAITING))
  {
    v := now.(ssid := Fitted("s", SSID_SIZE));
    SsidSets(ready, now, "s");
    FirstTimesOut(now, out, ready, SetLine("ssid", "s"), v);
  }

  lemma NoTokenValues(now: Settings)
    ensures SetAnswers(NO_TOKEN) == SIX_OKS
    ensures var v := SetValues(now, NO_TOKEN)[6]; v.ssid == "s" && v.host == "h" && v.token == ""
  {
  }

  /** The six keys of the second attempt. */
  lemma KeysMisled(v: Settings, out: string, ready: string) returns (links: seq<Link>, w: Settings, last: string)
    ensures Sets(links, ready, SetLines(NO_TOKEN)) && links[0] == Behind(v, out) && links[6] == Behind(w, last)
    ensures w.ssid != "" && w.host != "" && w.token == ""
  {
    var values := SetValues(v, NO_TOKEN);
    SetLinesTalk(v, ready, NO_TOKEN);
    NoTokenValues(v);
    SetsMisled(ready, SetLines(NO_TOKEN), values, SetAnswers(NO_TOKEN), out);
    LinkAt(values, out, 0);
    LinkAt(values, out, 6);
    links, w, last := Links(values, out), values[6], Outs(out, 6);
  }

  lemma BehindMisleads(v: Settings, out: string)
    ensures Misleading(Replies(Behind(v, out).unread))
  {
    OneWaits();
    OneMisleads(OK);
  }

  /**
   The waiting replies are real. On a fresh link provision gives up on its first key,
   whose acknowledgement comes late; the same provision is tried again on that link and
   returns, although the agent refused it and stored nothing.
   */
  lemma RetryIsMisled(now: Settings, out: string, ready: string) returns (links: seq<Link>, end: Link)
    ensures Sets(links, ready, SetLines(NO_TOKEN))
    ensures Exchanged(Link(State("", now, None, out), ""), ready, SetLines(NO_TOKEN)[0], TimedOut, links[0])
    ensures Misleading(Replies(links[0].unread))
    ensures Exchanged(links[6], ready, COMMIT, Line(OK), end) && end.agent.stored.None?
  {
    var v := SsidTimesOut(now, out, ready);
    var w, last;
    links, w, last := KeysMisled(v, out + WAITING, ready);
    BehindMisleads(v, out + WAITING);
    end := CommitMisled(ready, w, last);
  }
}
