/** EspmSerial of web/src/lib/serial.ts, with the device at the other end of a reliable stream. */
module SerialHost {
  import opened Optional
  import opened SerialText
  import opened ProvisionAgent
  import opened ProvisionScript

  datatype ReadResult = Chunk(text: string) | Late | Gone

  /** The serial port: what the device sent and the host has not read arrives in chunks of any size, at any time. */
  class SerialPort {
    const agent: Agent
    var unread: string
    /** A read is in flight; a reader rejects a second one. */
    var reading: bool

    ghost predicate Valid()
      reads this, agent, agent.line
    {
      agent.Valid()
    }

    constructor (agent: Agent, unread: string)
      requires agent.Valid()
      ensures Valid() && this.agent == agent && this.unread == unread && !reading
    {
      this.agent, this.unread, reading := agent, unread, false;
    }

    method Write(text: string)
      requires Valid()
      modifies `unread, agent, agent.line
      ensures Valid()
      ensures agent.Content() == FeedAll(old(agent.Content()), agent.ready, text)
      ensures old(agent.out) <= agent.out && unread == old(unread) + agent.out[|old(agent.out)|..]
    {
      var before := |agent.out|;
      OutGrows(agent.Content(), agent.ready, text);
      agent.Run(text);
      unread := unread + agent.out[before..];
    }

    method StartRead()
      requires !reading
      modifies `reading
      ensures reading
    {
      reading := true;
    }

    /** The read against a timer: a chunk, nothing in time (the read stays in flight), or the end of the stream. */
    method Await() returns (r: ReadResult)
      requires reading
      modifies `unread, `reading
      ensures match r
              case Chunk(text) => text != "" && old(unread) == text + unread && !reading
              case Late => unread == old(unread) && reading
              case Gone => unread == old(unread) && !reading
    {
      var gone: bool := *;
      if gone {
        reading := false;
        return Gone;
      }
      var late: bool := *;
      if late || unread == "" {
        return Late;
      }
      var n :| 1 <= n <= |unread|;
      r := Chunk(unread[..n]);
      unread, reading := unread[n..], false;
    }
  }

  lemma {:induction false} OutGrows(s: State, ready: string, text: string)
    ensures s.out <= FeedAll(s, ready, text).out
  {
    if text != "" { OutGrows(s, ready, text[..|text| - 1]); }
  }

  datatype LineResult = Line(text: string) | TimedOut | Disconnected

  /** The two ends of the connection: the agent, and what it sent that no line was taken from yet. */
  datatype Link = Link(agent: State, unread: string)

  /** The connection after a line was written to the agent. */
  function Written(a: Link, ready: string, line: string): Link {
    var t := FeedAll(a.agent, ready, line + "\n");
    OutGrows(a.agent, ready, line + "\n");
    Link(t, a.unread + t.out[|a.agent.out|..])
  }

  /** What an exchange can come to: a reply is taken, and whole lines before it, or the host gives up and none is. */
  ghost predicate Exchanged(a: Link, ready: string, line: string, r: LineResult, b: Link) {
    var w := Written(a, ready, line);
    b.agent == w.agent && Consumed(w.unread, b.unread, if r.Line? then [r.text] else [])
  }

  class EspmSerial {
    const port: SerialPort
    var buf: string
    var pending: bool
    var closed: bool

    ghost predicate Valid()
      reads this, port, port.agent, port.agent.line
    {
      port.Valid() && pending == port.reading
    }

    /** What the device sent and no line was taken from yet, wherever it is now. */
    ghost function Unread(): string
      reads this, port
    {
      buf + port.unread
    }

    ghost function Ends(): Link
      reads this, port, port.agent, port.agent.line
      requires Valid()
    {
      Link(port.agent.Content(), Unread())
    }

    constructor (port: SerialPort)
      requires port.Valid() && !port.reading
      ensures Valid() && this.port == port && buf == "" && !closed
    {
      this.port, buf, pending, closed := port, "", false, false;
    }

    /** readLine: the line depends on the bytes sent alone, not on how they were cut into chunks. */
    method ReadLine() returns (r: LineResult)
      requires Valid()
      modifies this, port`unread, port`reading
      ensures Valid()
      ensures r.Line? ==>
        HasLine(old(Unread())) && r.text == FirstLine(old(Unread())) && Unread() == Rest(old(Unread()))
      ensures !r.Line? ==> Unread() == old(Unread())
    {
      if closed {
        return Disconnected;
      }
      while true
        invariant Valid() && Unread() == old(Unread())
        decreases |port.unread|
      {
        var nl := LineEnd(buf);
        if nl < |buf| {
          FirstLineStays(buf, port.unread);
          r := Line(WithoutCR(buf[..nl]));
          buf := buf[nl + 1..];
          return;
        }
        var expired: bool := *;
        if expired {
          return TimedOut;
        }
        if !pending {
          port.StartRead();
          pending := true;
        }
        var result := port.Await();
        match result {
          case Late => return TimedOut;
          case Gone =>
            pending, closed := false, true;
            return Disconnected;
          case Chunk(text) =>
            pending := false;
            assert (buf + text) + port.unread == buf + (text + port.unread);
            buf := buf + text;
        }
      }
    }

    /** readReply: skips everything but acknowledgements. */
    method ReadReply() returns (r: LineResult)
      requires Valid()
      modifies this, port`unread, port`reading
      ensures Valid()
      ensures Consumed(old(Unread()), Unread(), if r.Line? then [r.text] else [])
    {
      NothingConsumed(Unread());
      while true
        invariant Valid() && Consumed(old(Unread()), Unread(), [])
        decreases |Unread()|
      {
        ghost var before := Unread();
        var expired: bool := *;
        if expired {
          return TimedOut;
        }
        r := ReadLine();
        if !r.Line? {
          return;
        }
        LineConsumed(old(Unread()), before);
        if "ESPM:OK" <= r.text || "ESPM:ERR" <= r.text {
          return;
        }
      }
    }

    /** Since the host had u unread and the agent was in state s, it was sent this text and gave these replies. */
    ghost predicate Talked(u: string, s: State, sent: string, replies: seq<string>)
      reads this, port, port.agent, port.agent.line
      requires Valid()
    {
      && port.agent.Content() == FeedAll(s, port.agent.ready, sent)
      && s.out <= port.agent.out
      && Consumed(u + port.agent.out[|s.out|..], Unread(), replies)
    }

    /** The first k of the lines are sent and acknowledged. */
    ghost predicate Acknowledged(u: string, s: State, lines: seq<string>, k: nat)
      reads this, port, port.agent, port.agent.line
      requires Valid() && k <= |lines|
    {
      Talked(u, s, Sent(lines[..k]), Oks(k))
    }

    /** send, and the reply to it. */
    method Exchange(line: string, ghost u: string, ghost s: State, ghost sent: string, ghost replies: seq<string>)
      returns (r: LineResult)
      requires Valid() && Talked(u, s, sent, replies)
      modifies this, port`unread, port`reading, port.agent, port.agent.line
      ensures Valid() && Exchanged(old(Ends()), port.agent.ready, line, r, Ends())
      ensures r.Line? ==> Talked(u, s, sent + (line + "\n"), replies + [r.text])
    {
      ghost var rest, was := Unread(), port.agent.out;
      FeedJoins(s, port.agent.ready, sent, line + "\n");
      port.Write(line + "\n");
      ghost var all := port.agent.out;
      assert Unread() == rest + all[|was|..];
      r := ReadReply();
      if r.Line? { ExchangeAnswered(u, s.out, was, all, rest, replies, Unread(), r.text); }
    }

    /** setKey, for line k of the lines to be sent; all before were acknowledged. */
    method SetKey(key: string, value: string, ghost u: string, ghost s: State, ghost lines: seq<string>, ghost k: nat)
      returns (ok: bool)
      requires Valid() && k < |lines| && lines[k] == SetLine(key, value) && Acknowledged(u, s, lines, k)
      modifies this, port`unread, port`reading, port.agent, port.agent.line
      ensures Valid()
      ensures ok ==> Acknowledged(u, s, lines, k + 1)
    {
      SentPrefix(lines, k);
      var r := Exchange(SetLine(key, value), u, s, Sent(lines[..k]), Oks(k));
      ok := r == Line(OK);
    }

    /** Two calls of setKey, one after the other. */
    method SetPair(key: string, value: string, next: string, other: string,
                   ghost u: string, ghost s: State, ghost lines: seq<string>, ghost k: nat) returns (ok: bool)
      requires Valid() && k + 1 < |lines| && Acknowledged(u, s, lines, k)
      requires lines[k] == SetLine(key, value) && lines[k + 1] == SetLine(next, other)
      modifies this, port`unread, port`reading, port.agent, port.agent.line
      ensures Valid()
      ensures ok ==> Acknowledged(u, s, lines, k + 2)
    {
      ok := SetKey(key, value, u, s, lines, k);
      if !ok { return; }
      ok := SetKey(next, other, u, s, lines, k + 1);
    }

    /** The calls of setKey in provision. */
    method SetAll(cfg: Settings, ghost u: string, ghost s: State, ghost lines: seq<string>) returns (ok: bool)
      requires Valid() && |lines| == 6 && Acknowledged(u, s, lines, 0)
      requires lines[0] == SetLine("ssid", cfg.ssid) && lines[1] == SetLine("pass", cfg.pass)
      requires lines[2] == SetLine("host", cfg.host) && lines[3] == SetLine("hport", PortText(cfg.hport))
      requires lines[4] == SetLine("mport", PortText(cfg.mport)) && lines[5] == SetLine("token", cfg.token)
      modifies this, port`unread, port`reading, port.agent, port.agent.line
      ensures Valid()
      ensures ok ==> Acknowledged(u, s, lines, 6)
    {
      ok := SetPair("ssid", cfg.ssid, "pass", cfg.pass, u, s, lines, 0);
      if !ok { return; }
      ok := SetPair("host", cfg.host, "hport", PortText(cfg.hport), u, s, lines, 2);
      if !ok { return; }
      ok := SetPair("mport", PortText(cfg.mport), "token", cfg.token, u, s, lines, 4);
    }

    /** provision; the source throws where ok is false. */
    method Provision(cfg: Settings) returns (ok: bool)
      requires Valid()
      modifies this, port`unread, port`reading, port.agent, port.agent.line
      ensures Valid()
      ensures ok ==>
        && port.agent.Content() == FeedAll(old(port.agent.Content()), port.agent.ready, Script(cfg))
        && Passed(Replies(old(Unread()) + Heard(old(port.agent.Content()), port.agent.ready, cfg)))
      ensures ok && Ready(old(port.agent.Content())) && Quiet(old(Unread())) && Typable(cfg) ==>
        port.agent.stored == Some(Clipped(cfg)) && (port.agent.stored == Some(cfg) <==> Fits(cfg))
    {
      ghost var u, s := Unread(), port.agent.Content();
      NothingConsumed(u);
      assert u + port.agent.out[|s.out|..] == u;
      ok := SetAll(cfg, u, s, SetLines(cfg));
      if !ok { return; }
      ok := Commit(cfg, u, s);
      if ok && Ready(s) && Quiet(u) && Typable(cfg) { ProvisionedExactly(s, port.agent.ready, u, cfg); }
    }

    /** The last line of the script and the reply to it. */
    method Commit(cfg: Settings, ghost u: string, ghost s: State) returns (ok: bool)
      requires Valid() && Acknowledged(u, s, SetLines(cfg), 6)
      modifies this, port`unread, port`reading, port.agent, port.agent.line
      ensures Valid()
      ensures ok ==>
        && port.agent.Content() == FeedAll(s, port.agent.ready, Script(cfg))
        && Passed(Replies(u + Heard(s, port.agent.ready, cfg)))
    {
      assert SetLines(cfg)[..6] == SetLines(cfg);
      SentMore(SetLines(cfg), COMMIT);
      var r := Exchange(COMMIT, u, s, Sent(SetLines(cfg)), Oks(6));
      ok := r.Line? && OK <= r.text;
      if ok {
        assert port.agent.out[|s.out|..] == Heard(s, port.agent.ready, cfg);
        SixOks();
        SevenReplies(u + Heard(s, port.agent.ready, cfg), Unread(), r.text);
      }
    }
  }

  // ---------------------------------------------------------------- taking whole lines

  /** v is what is left of u after whole lines with these replies were taken. */
  ghost predicate Consumed(u: string, v: string, replies: seq<string>) {
    exists lines: string :: u == lines + v && Whole(lines) && Replies(lines) == replies
  }

  lemma NothingConsumed(u: string)
    ensures Consumed(u, u, [])
  {
    assert u == "" + u && Replies("") == [];
  }

  lemma SplitsLine(v: string)
    requires HasLine(v)
    ensures var line := v[..LineEnd(v)];
            v == (line + "\n") + Rest(v) && Whole(line + "\n")
            && Replies(line + "\n") == if IsReply(FirstLine(v)) then [FirstLine(v)] else []
  {
    var n := LineEnd(v);
    SplitsAt(v, n);
    OneLine(v[..n]);
  }

  lemma SplitsAt(v: string, n: nat)
    requires n < |v| && v[n] == '\n'
    ensures v == (v[..n] + "\n") + v[n + 1..]
  {
    assert v[..n] + "\n" == v[..n + 1];
  }

  lemma LineConsumed(u: string, v: string)
    requires Consumed(u, v, []) && HasLine(v)
    ensures Consumed(u, Rest(v), if IsReply(FirstLine(v)) then [FirstLine(v)] else [])
  {
    SplitsLine(v);
    var line := v[..LineEnd(v)] + "\n";
    var lines: string :| u == lines + v && Whole(lines) && Replies(lines) == [];
    LineFollows(u, lines, v, line, Rest(v));
  }

  lemma LineFollows(u: string, lines: string, v: string, line: string, w: string)
    requires u == lines + v && Whole(lines) && Replies(lines) == []
    requires v == line + w && Whole(line)
    ensures Consumed(u, w, Replies(line))
  {
    assert u == (lines + line) + w;
    RepliesSplit(lines, line);
    WholeJoins(lines, line);
    assert Replies(lines) + Replies(line) == Replies(line);
  }

  lemma WholeJoins(a: string, b: string)
    requires Whole(a) && Whole(b)
    ensures Whole(a + b)
  {
  }

  lemma Regroup(u: string, lines: string, v: string, more: string, others: string, w: string)
    requires u == lines + v && v + more == others + w
    ensures u + more == (lines + others) + w
  {
    assert u + more == lines + (v + more);
  }

  lemma ThenConsumed(u: string, v: string, rs: seq<string>, more: string, w: string, qs: seq<string>)
    requires Consumed(u, v, rs) && Consumed(v + more, w, qs)
    ensures Consumed(u + more, w, rs + qs)
  {
    var lines: string :| u == lines + v && Whole(lines) && Replies(lines) == rs;
    var others: string :| v + more == others + w && Whole(others) && Replies(others) == qs;
    RepliesSplit(lines, others);
    WholeJoins(lines, others);
    Regroup(u, lines, v, more, others, w);
  }

  /** One more exchange: was and all are what the agent had sent before it and after it. */
  lemma ExchangeAnswered(u: string, first: string, was: string, all: string, rest: string, rs: seq<string>,
                         left: string, reply: string)
    requires first <= was <= all
    requires Consumed(u + was[|first|..], rest, rs) && Consumed(rest + all[|was|..], left, [reply])
    ensures Consumed(u + all[|first|..], left, rs + [reply])
  {
    ThenConsumed(u + was[|first|..], rest, rs, all[|was|..], left, [reply]);
    assert all[|first|..] == was[|first|..] + all[|was|..];
    assert u + was[|first|..] + all[|was|..] == u + all[|first|..];
  }

  lemma SevenReplies(u: string, v: string, last: string)
    requires Consumed(u, v, SIX_OKS + [last]) && OK <= last
    ensures Passed(Replies(u))
  {
    var lines: string :| u == lines + v && Whole(lines) && Replies(lines) == SIX_OKS + [last];
    RepliesSplit(lines, v);
    var rs := SIX_OKS + [last] + Replies(v);
    assert rs[..6] == SIX_OKS && rs[6] == last;
  }
}
