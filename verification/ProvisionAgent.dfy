/** provision_agent: the serial onboarding channel of the device. */
module ProvisionAgent {
  import opened Optional
  import W = WireCodec

  /** The six values the wizard sets. */
  datatype Settings = Settings(ssid: string, pass: string, host: string, token: string, hport: int, mport: int)

  const LINE_SIZE := 200
  const SSID_SIZE := 33
  const PASS_SIZE := 65
  const HOST_SIZE := 80
  const TOKEN_SIZE := 64

  /** strlcpy. */
  function Fitted(s: string, size: nat): (r: string)
    requires size > 0
    ensures |r| < size && r <= s && (r == s <==> |s| < size)
  {
    if |s| < size then s else s[..size - 1]
  }

  /** A char array up to its terminator. */
  function CString(s: string): string { if s == "" || s[0] == '\0' then "" else [s[0]] + CString(s[1..]) }

  /** The position of the first space, or the length. */
  function Space(s: string): (n: nat)
    ensures n <= |s| && ' ' !in s[..n] && (n < |s| ==> s[n] == ' ')
  {
    if s == "" || s[0] == ' ' then 0 else 1 + Space(s[1..])
  }

  /** strtol in base 10, if all of the text is consumed and the result is a port. */
  function Port(text: string): Option<int> {
    var s := W.Unspaced(text);
    var digits := if W.Signed(s) then s[1..] else s;
    if digits == "" || !W.Digits(digits) || s[0] == '-' || W.Value(digits) < 1 || W.Value(digits) > 65535 then None
    else Some(W.Value(digits))
  }

  /** What one line does to the values, the reply to it, and whether it commits them. */
  datatype Response = Response(now: Settings, reply: string, commit: bool)

  function Set(now: Settings, key: string, val: string): Response {
    if key == "ssid" then Response(now.(ssid := Fitted(val, SSID_SIZE)), "ESPM:OK\n", false)
    else if key == "pass" then Response(now.(pass := Fitted(val, PASS_SIZE)), "ESPM:OK\n", false)
    else if key == "host" then Response(now.(host := Fitted(val, HOST_SIZE)), "ESPM:OK\n", false)
    else if key == "token" then Response(now.(token := Fitted(val, TOKEN_SIZE)), "ESPM:OK\n", false)
    else if key == "hport" || key == "mport" then
      if Port(val).None? then Response(now, "ESPM:ERR port\n", false)
      else if key == "hport" then Response(now.(hport := Port(val).value), "ESPM:OK\n", false)
      else Response(now.(mport := Port(val).value), "ESPM:OK\n", false)
    else Response(now, "ESPM:ERR key\n", false)
  }

  function Respond(now: Settings, ready: string, line: string): Response {
    if !("ESPM:" <= line) then Response(now, "", false)
    else
      var cmd := line[5..];
      if cmd == "GETMAC" then Response(now, ready, false)
      else if "SET " <= cmd then
        var kv := cmd[4..];
        Set(now, kv[..Space(kv)], if Space(kv) < |kv| then kv[Space(kv) + 1..] else "")
      else if cmd == "PROVISION" then
        if now.ssid == "" || now.host == "" || now.token == "" then Response(now, "ESPM:ERR incomplete\n", false)
        else Response(now, "ESPM:OK PROVISIONED\n", true)
      else Response(now, "ESPM:ERR cmd\n", false)
  }

  /** What a line means to the agent, but for the values it may set. */
  lemma CommandMeans(now: Settings, ready: string, line: string)
    ensures var r := Respond(now, ready, line);
            && (!("ESPM:" <= line) ==> r == Response(now, "", false))
            && (line == "ESPM:GETMAC" ==> r == Response(now, ready, false))
            && (line == "ESPM:PROVISION" ==>
                  r == if now.ssid != "" && now.host != "" && now.token != ""
                       then Response(now, "ESPM:OK PROVISIONED\n", true)
                       else Response(now, "ESPM:ERR incomplete\n", false))
            && ("ESPM:" <= line && line != "ESPM:GETMAC" && line != "ESPM:PROVISION" && !("ESPM:SET " <= line) ==>
                  r == Response(now, "ESPM:ERR cmd\n", false))
            && ("ESPM:SET " <= line ==> !r.commit)
  {
    if "ESPM:" <= line {
      var cmd := line[5..];
      assert line == "ESPM:" + cmd;
      assert "ESPM:SET " == "ESPM:" + "SET " && "ESPM:GETMAC" == "ESPM:" + "GETMAC";
      assert "ESPM:PROVISION" == "ESPM:" + "PROVISION";
      SamePrefix("ESPM:", "SET ", cmd);
      SameText("ESPM:", cmd, "GETMAC");
      SameText("ESPM:", cmd, "PROVISION");
      assert "GETMAC"[0] == 'G' && "PROVISION"[0] == 'P' && "SET "[0] == 'S';
    }
  }

  /** At most n characters of a text. */
  function First(s: string, n: nat): string { if |s| <= n then s else s[..n] }

  /** What setting a value does: a text goes up to the size of its field, a port must be one. */
  lemma SetMeans(now: Settings, key: string, val: string)
    ensures var r := Set(now, key, val);
            && !r.commit
            && (key == "ssid" ==> r.now == now.(ssid := First(val, 32)))
            && (key == "pass" ==> r.now == now.(pass := First(val, 64)))
            && (key == "host" ==> r.now == now.(host := First(val, 79)))
            && (key == "token" ==> r.now == now.(token := First(val, 63)))
            && (key == "hport" ==> r.now == if Port(val).Some? then now.(hport := Port(val).value) else now)
            && (key == "mport" ==> r.now == if Port(val).Some? then now.(mport := Port(val).value) else now)
            && (key == "ssid" || key == "pass" || key == "host" || key == "token" ==> r.reply == "ESPM:OK\n")
            && (key == "hport" || key == "mport" ==>
                  r.reply == if Port(val).Some? then "ESPM:OK\n" else "ESPM:ERR port\n")
            && (key !in {"ssid", "pass", "host", "token", "hport", "mport"} ==>
                  r.now == now && r.reply == "ESPM:ERR key\n")
  {
    assert "ssid"[0] == 's' && "pass"[0] == 'p' && "host"[0] == 'h' && "token"[0] == 't' && "mport"[0] == 'm';
    assert |"hport"| == 5 && |"host"| == 4;
  }

  /** A text is the port p exactly if it is, blanks, a plus sign and leading zeros aside, what is printed for p. */
  lemma PortExactly(text: string, p: nat)
    requires p > 0
    ensures Port(text) == Some(p) <==>
            var body := W.Unspaced(text);
            var digits := if body != "" && body[0] == '+' then body[1..] else body;
            p <= 65535 && W.Unzeroed(digits) == W.Decimal(p)
  {
    var body := W.Unspaced(text);
    var digits := if body != "" && body[0] == '+' then body[1..] else body;
    W.DigitsOf(digits, p);
    if body != "" && body[0] == '-' { assert !W.Digits(body); }
    assert digits == "" ==> !(W.Digits(digits) && W.Value(digits) == p);
  }

  lemma SamePrefix(a: string, b: string, c: string)
    ensures b <= c <==> a + b <= a + c
  {
    if b <= c { assert c == b + c[|b|..]; assert a + c == (a + b) + c[|b|..]; }
    if a + b <= a + c {
      forall i | 0 <= i < |b| ensures b[i] == c[i] { assert (a + b)[|a| + i] == (a + c)[|a| + i]; }
    }
  }

  lemma SameText(a: string, b: string, c: string)
    ensures b == c <==> a + b == a + c
  {
    if a + b == a + c { assert b == (a + b)[|a|..] && c == (a + c)[|a|..]; }
  }

  /** The agent between two bytes; once the values are stored it restarts and reads no more. */
  datatype State = State(line: string, now: Settings, stored: Option<Settings>, out: string)

  function Feed(s: State, ready: string, ch: char): State {
    if s.stored.Some? || ch == '\r' then s
    else if ch != '\n' then (if |s.line| < LINE_SIZE - 1 then s.(line := s.line + [ch]) else s)
    else
      var r := Respond(s.now, ready, CString(s.line));
      State("", r.now, if r.commit then Some(r.now) else None, s.out + r.reply)
  }

  function FeedAll(s: State, ready: string, text: string): State {
    if text == "" then s else Feed(FeedAll(s, ready, text[..|text| - 1]), ready, text[|text| - 1])
  }

  class Agent {
    const ready: string
    const line: array<char>
    var len: nat
    var now: Settings
    var stored: Option<Settings>
    /** Everything the agent has sent. */
    var out: string

    ghost predicate Valid()
      reads this, line
    {
      line.Length == LINE_SIZE && len < LINE_SIZE
    }

    ghost function Content(): State
      reads this, line
      requires Valid()
    {
      State(line[..len], now, stored, out)
    }

    constructor (ready: string, hport: int, mport: int)
      ensures Valid() && fresh(line) && this.ready == ready
      ensures Content() == State("", Settings("", "", "", "", hport, mport), None, ready)
    {
      this.ready := ready;
      line := new char[LINE_SIZE];
      len, now, stored, out := 0, Settings("", "", "", "", hport, mport), None, ready;
      new;
      assert line[..0] == "";
    }

    method Receive(ch: char)
      requires Valid()
      modifies this, line
      ensures Valid() && Content() == Feed(old(Content()), ready, ch)
      ensures old(stored).Some? || ch == '\r' ==> Content() == old(Content())
      ensures old(stored).None? && ch != '\r' && ch != '\n' ==>
        && line[..len] == (if old(len) < 199 then old(line[..len]) + [ch] else old(line[..len]))
        && now == old(now) && stored == old(stored) && out == old(out)
      ensures old(stored).None? && ch == '\n' ==> len == 0 && old(out) <= out && (stored.Some? ==> stored == Some(now))
    {
      if stored.Some? || ch == '\r' {
        return;
      }
      if ch != '\n' {
        if len < LINE_SIZE - 1 {
          line[len] := ch;
          len := len + 1;
        }
        return;
      }
      var text := line[..len];
      len := 0;
      Execute(text);
    }

    /** A complete line. */
    method Execute(text: string)
      requires Valid() && len == 0 && stored.None?
      modifies this
      ensures Valid() && len == 0
      ensures var r := Respond(old(now), ready, CString(text));
              now == r.now && stored == (if r.commit then Some(r.now) else None) && out == old(out) + r.reply
      ensures var line := CString(text);
              && (!("ESPM:" <= line) ==> now == old(now) && stored.None? && out == old(out))
              && (line == "ESPM:GETMAC" ==> now == old(now) && stored.None? && out == old(out) + ready)
              && (line == "ESPM:PROVISION" ==>
                    && now == old(now)
                    && (if now.ssid != "" && now.host != "" && now.token != ""
                        then stored == Some(now) && out == old(out) + "ESPM:OK PROVISIONED\n"
                        else stored.None? && out == old(out) + "ESPM:ERR incomplete\n"))
              && ("ESPM:" <= line && line != "ESPM:GETMAC" && line != "ESPM:PROVISION" && !("ESPM:SET " <= line) ==>
                    now == old(now) && stored.None? && out == old(out) + "ESPM:ERR cmd\n")
              && ("ESPM:SET " <= line ==> stored.None?)
    {
      CommandMeans(now, ready, CString(text));
      var r := Respond(now, ready, CString(text));
      now, out := r.now, out + r.reply;
      if r.commit {
        stored := Some(now);
      }
    }

    /** The endless loop, for the bytes that have arrived. */
    method Run(text: string)
      requires Valid()
      modifies this, line
      ensures Valid() && Content() == FeedAll(old(Content()), ready, text)
    {
      for i := 0 to |text|
        invariant Valid() && Content() == FeedAll(old(Content()), ready, text[..i])
      {
        assert text[..i + 1][..i] == text[..i];
        Receive(text[i]);
      }
      assert text[..|text|] == text;
    }
  }

  // ---------------------------------------------------------------- lines

  /** Characters that mean nothing to the line protocol. */
  predicate Plain(s: string) { forall i :: 0 <= i < |s| ==> s[i] != '\n' && s[i] != '\r' && s[i] != '\0' }

  function Kept(l: string): string { Fitted(l, LINE_SIZE) }

  lemma {:induction false} PlainIsItself(s: string)
    requires Plain(s)
    ensures CString(s) == s
  {
    if s != "" { PlainIsItself(s[1..]); }
  }

  lemma {:induction false} Gathers(s: State, ready: string, l: string)
    requires s.line == "" && s.stored.None? && Plain(l)
    ensures FeedAll(s, ready, l) == s.(line := Kept(l))
  {
    if l == "" {
      assert Kept(l) == "";
    } else {
      var before := l[..|l| - 1];
      Gathers(s, ready, before);
      if |l| < LINE_SIZE { assert l == before + [l[|l| - 1]]; } else { assert Kept(l) == Kept(before); }
    }
  }

  /** A line and its newline: the agent answers to what its buffer kept of the line. */
  lemma TakesALine(s: State, ready: string, l: string)
    requires s.line == "" && s.stored.None? && Plain(l)
    ensures var r := Respond(s.now, ready, Kept(l));
            FeedAll(s, ready, l + "\n") == State("", r.now, if r.commit then Some(r.now) else None, s.out + r.reply)
  {
    Gathers(s, ready, l);
    PlainIsItself(Kept(l));
    assert (l + "\n")[..|l|] == l;
  }

  /** A carriage return is ignored wherever it comes. */
  lemma ReturnIsIgnored(s: State, ready: string, a: string, b: string)
    ensures FeedAll(s, ready, a + "\r" + b) == FeedAll(s, ready, a + b)
  {
    FeedJoins(s, ready, a + "\r", b);
    FeedJoins(s, ready, a, b);
    assert (a + "\r")[..|a|] == a;
  }

  /** Once the values are stored the device restarts, and the agent reads no more. */
  lemma {:induction false} NothingAfterStored(s: State, ready: string, text: string)
    requires s.stored.Some?
    ensures FeedAll(s, ready, text) == s
  {
    if text != "" { NothingAfterStored(s, ready, text[..|text| - 1]); }
  }

  lemma {:induction false} FeedJoins(s: State, ready: string, a: string, b: string)
    ensures FeedAll(s, ready, a + b) == FeedAll(FeedAll(s, ready, a), ready, b)
  {
    if b == "" {
      assert a + b == a;
    } else {
      assert (a + b)[..|a + b| - 1] == a + b[..|b| - 1];
      FeedJoins(s, ready, a, b[..|b| - 1]);
    }
  }
}
