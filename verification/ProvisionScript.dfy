/** What provision says to the agent, what the agent answers, and what ends up in NVS. */
module ProvisionScript {
  import opened Optional
  import opened SerialText
  import opened ProvisionAgent
  import W = WireCodec

  /** Lines as they travel. */
  function Sent(lines: seq<string>): string {
    if lines == [] then "" else Sent(lines[..|lines| - 1]) + (lines[|lines| - 1] + "\n")
  }

  lemma SentMore(lines: seq<string>, l: string)
    ensures Sent(lines + [l]) == Sent(lines) + (l + "\n")
  {
    assert (lines + [l])[..|lines|] == lines;
  }

  lemma SentPrefix(lines: seq<string>, k: nat)
    requires k < |lines|
    ensures Sent(lines[..k + 1]) == Sent(lines[..k]) + (lines[k] + "\n")
  {
    assert lines[..k + 1] == lines[..k] + [lines[k]];
    SentMore(lines[..k], lines[k]);
  }

  lemma Assoc(a: string, b: string, c: string)
    ensures a + (b + c) == (a + b) + c
  {
  }

  /** String(port). */
  function PortText(p: int): string { if p < 0 then "-" + W.Decimal(-p) else W.Decimal(p) }

  function SetLine(key: string, value: string): string { "ESPM:SET " + key + " " + value }

  const COMMIT := "ESPM:PROVISION"

  /** The six values, in the order of provision. */
  function SetLines(cfg: Settings): seq<string> {
    [SetLine("ssid", cfg.ssid), SetLine("pass", cfg.pass), SetLine("host", cfg.host),
     SetLine("hport", PortText(cfg.hport)), SetLine("mport", PortText(cfg.mport)), SetLine("token", cfg.token)]
  }

  function Script(cfg: Settings): string { Sent(SetLines(cfg) + [COMMIT]) }

  const OK := "ESPM:OK"

  const SIX_OKS := [OK, OK, OK, OK, OK, OK]

  function Oks(k: nat): seq<string> { if k == 0 then [] else Oks(k - 1) + [OK] }

  lemma SixOks()
    ensures Oks(6) == SIX_OKS
  {
    assert Oks(2) == [OK, OK];
    assert Oks(4) == [OK, OK, OK, OK];
  }

  /** The replies with which provision returns. */
  predicate Passed(replies: seq<string>) { |replies| >= 7 && replies[..6] == SIX_OKS && OK <= replies[6] }

  // ---------------------------------------------------------------- conversations

  /** A line that sets a value: it moves the values from v to w and is answered by a. */
  predicate Answered(ready: string, v: Settings, l: string, w: Settings, a: string) {
    Plain(l) && Respond(v, ready, Kept(l)) == Response(w, a + "\n", false)
  }

  predicate Conversation(ready: string, lines: seq<string>, values: seq<Settings>, answers: seq<string>) {
    && |values| == |lines| + 1 && |answers| == |lines|
    && forall i :: 0 <= i < |lines| ==> Answered(ready, values[i], lines[i], values[i + 1], answers[i])
  }

  /** The agent waits for a line and has not stored anything yet. */
  predicate Ready(s: State) { s.line == "" && s.stored.None? }

  /** One more line after some text. */
  lemma TakesOneMore(s: State, ready: string, sent: string, l: string)
    requires Ready(FeedAll(s, ready, sent)) && Plain(l)
    ensures var t := FeedAll(s, ready, sent);
            var r := Respond(t.now, ready, Kept(l));
            FeedAll(s, ready, sent + (l + "\n")) ==
              State("", r.now, if r.commit then Some(r.now) else None, t.out + r.reply)
  {
    FeedJoins(s, ready, sent, l + "\n");
    TakesALine(FeedAll(s, ready, sent), ready, l);
  }

  lemma {:induction false} AfterLines(s: State, ready: string, lines: seq<string>, values: seq<Settings>,
                                      answers: seq<string>)
    requires Ready(s) && Conversation(ready, lines, values, answers) && values[0] == s.now
    ensures FeedAll(s, ready, Sent(lines)) == State("", values[|lines|], None, s.out + Sent(answers))
  {
    if lines == [] {
      assert s.out + "" == s.out;
    } else {
      var n := |lines| - 1;
      AfterLines(s, ready, lines[..n], values[..n + 1], answers[..n]);
      assert Answered(ready, values[n], lines[n], values[n + 1], answers[n]);
      TakesOneMore(s, ready, Sent(lines[..n]), lines[n]);
      Assoc(s.out, Sent(answers[..n]), answers[n] + "\n");
    }
  }

  /** A reply, free of anything that readLine would cut. */
  predicate CleanReply(a: string) { IsReply(a) && '\n' !in a && WithoutCR(a) == a }

  lemma OneArrives(before: string, a: string)
    requires Whole(before) && CleanReply(a)
    ensures Whole(before + (a + "\n")) && Replies(before + (a + "\n")) == Replies(before) + [a]
  {
    OneLine(a);
    RepliesSplit(before, a + "\n");
  }

  lemma Appended(rs: seq<string>, answers: seq<string>)
    requires answers != []
    ensures rs + answers[..|answers| - 1] + [answers[|answers| - 1]] == rs + answers
  {
  }

  lemma {:induction false} AnswersArrive(u: string, answers: seq<string>)
    requires Whole(u) && forall i :: 0 <= i < |answers| ==> CleanReply(answers[i])
    ensures Whole(u + Sent(answers)) && Replies(u + Sent(answers)) == Replies(u) + answers
  {
    if answers == [] {
      assert u + "" == u;
    } else {
      var init, last := answers[..|answers| - 1], answers[|answers| - 1];
      AnswersArrive(u, init);
      OneArrives(u + Sent(init), last);
      Assoc(u, Sent(init), last + "\n");
      Appended(Replies(u), answers);
    }
  }

  /** Lines that set values, and a last one that may commit them. */
  lemma AfterAll(s: State, ready: string, lines: seq<string>, values: seq<Settings>, answers: seq<string>,
                 last: string, answer: string, commit: bool)
    requires Ready(s) && Conversation(ready, lines, values, answers) && values[0] == s.now
    requires Plain(last)
    requires Respond(values[|lines|], ready, Kept(last)) == Response(values[|lines|], answer + "\n", commit)
    ensures FeedAll(s, ready, Sent(lines + [last])) ==
              State("", values[|lines|], if commit then Some(values[|lines|]) else None,
                    s.out + Sent(answers + [answer]))
  {
    AfterLines(s, ready, lines, values, answers);
    TakesOneMore(s, ready, Sent(lines), last);
    SentMore(lines, last);
    SentMore(answers, answer);
    Assoc(s.out, Sent(answers), answer + "\n");
  }

  // ---------------------------------------------------------------- one line

  lemma KeptSetLine(key: string, value: string)
    requires |key| <= 5
    ensures Kept(SetLine(key, value)) == SetLine(key, Fitted(value, 190 - |key|))
  {
  }

  /** How the agent takes a set line apart. */
  lemma SetLineParts(key: string, val: string)
    requires ' ' !in key
    ensures var l := SetLine(key, val);
            var kv := key + " " + val;
            "ESPM:" <= l && l[5..] == "SET " + kv && l[5..][4..] == kv
  {
    var l := SetLine(key, val);
    assert l[5..] == "SET " + (key + " " + val);
  }

  lemma KeyAndValue(key: string, val: string)
    requires ' ' !in key
    ensures var kv := key + " " + val;
            Space(kv) == |key| && |key| < |kv| && kv[..|key|] == key && kv[|key| + 1..] == val
  {
    var kv := key + " " + val;
    assert kv[..|key|] == key && kv[|key| + 1..] == val;
    SpaceIs(kv, |key|);
  }

  /** A set line as the line buffer of the agent keeps it. */
  lemma SetResponds(now: Settings, ready: string, key: string, value: string)
    requires |key| <= 5 && ' ' !in key
    ensures Respond(now, ready, Kept(SetLine(key, value))) == Set(now, key, Fitted(value, 190 - |key|))
  {
    var val := Fitted(value, 190 - |key|);
    KeptSetLine(key, value);
    SetLineParts(key, val);
    KeyAndValue(key, val);
    assert "SET "[0] == 'S' && "GETMAC"[0] == 'G';
  }

  lemma {:induction false} SpaceIs(s: string, n: nat)
    requires n <= |s| && ' ' !in s[..n] && (n < |s| ==> s[n] == ' ')
    ensures Space(s) == n
  {
    assert n > 0 ==> s[..n][0] == s[0];
    if s != "" && s[0] != ' ' {
      assert s[1..][..n - 1] == s[..n][1..];
      SpaceIs(s[1..], n - 1);
    }
  }

  /** A set command is a key up to the first blank and a value after it, or a key alone. */
  lemma SetCommand(now: Settings, ready: string, key: string, val: string)
    requires ' ' !in key
    ensures Respond(now, ready, SetLine(key, val)) == Set(now, key, val)
    ensures Respond(now, ready, "ESPM:SET " + key) == Set(now, key, "")
  {
    SetLineParts(key, val);
    KeyAndValue(key, val);
    var l := "ESPM:SET " + key;
    assert "ESPM:" <= l && l[5..] == "SET " + key && l[5..][4..] == key;
    SpaceIs(key, |key|);
    assert key[..|key|] == key;
    assert "SET "[0] == 'S' && "GETMAC"[0] == 'G';
  }

  lemma FittedTwice(s: string, wide: nat, size: nat)
    requires 0 < size <= wide
    ensures Fitted(Fitted(s, wide), size) == Fitted(s, size)
  {
  }

  function Pow10(k: nat): nat { if k == 0 then 1 else 10 * Pow10(k - 1) }

  lemma {:induction false} DecimalLength(n: nat, k: nat)
    requires k >= 1 && n < Pow10(k)
    ensures |W.Decimal(n)| <= k
  {
    if n >= 10 { DecimalLength(n / 10, k - 1); }
  }

  /** Number.isSafeInteger. */
  predicate SafeInteger(p: int) { -0x20_0000_0000_0000 < p < 0x20_0000_0000_0000 }

  lemma SafeIsShort(p: int)
    requires SafeInteger(p)
    ensures |PortText(p)| <= 17
  {
    assert Pow10(2) == 100 && Pow10(4) == 10_000 && Pow10(6) == 1_000_000 && Pow10(8) == 100_000_000;
    assert Pow10(10) == 10_000_000_000 && Pow10(12) == 1_000_000_000_000 && Pow10(14) == 100_000_000_000_000;
    assert Pow10(16) == 10_000_000_000_000_000;
    DecimalLength(if p < 0 then -p else p, 16);
  }

  predicate PortOk(p: int) { 1 <= p <= 65535 }

  /** A port survives the text form exactly if it is one. */
  lemma PortSurvives(p: int)
    ensures Port(PortText(p)) == if PortOk(p) then Some(p) else None
    ensures Plain(PortText(p))
  {
    var n := if p < 0 then -p else p;
    W.ValueOfDecimal(n);
    var text := PortText(p);
    assert p >= 0 ==> '0' <= text[0] <= '9';
    assert W.Unspaced(text) == text;
    if p < 0 { assert text[1..] == W.Decimal(n); }
  }

  // ---------------------------------------------------------------- the whole script

  /** Single-line text and ports that a browser form can hold. */
  predicate Typable(cfg: Settings) {
    && Plain(cfg.ssid) && Plain(cfg.pass) && Plain(cfg.host) && Plain(cfg.token)
    && SafeInteger(cfg.hport) && SafeInteger(cfg.mport)
  }

  /** What the device makes of values that are too long. */
  function Clipped(cfg: Settings): Settings {
    Settings(Fitted(cfg.ssid, SSID_SIZE), Fitted(cfg.pass, PASS_SIZE), Fitted(cfg.host, HOST_SIZE),
             Fitted(cfg.token, TOKEN_SIZE),
             cfg.hport, cfg.mport)
  }

  predicate Fits(cfg: Settings) {
    |cfg.ssid| < SSID_SIZE && |cfg.pass| < PASS_SIZE && |cfg.host| < HOST_SIZE && |cfg.token| < TOKEN_SIZE
  }

  predicate Complete(cfg: Settings) { cfg.ssid != "" && cfg.host != "" && cfg.token != "" }

  predicate PortsOk(cfg: Settings) { PortOk(cfg.hport) && PortOk(cfg.mport) }

  function PortAnswer(p: int): string { if PortOk(p) then OK else "ESPM:ERR port" }

  function SetAnswers(cfg: Settings): seq<string> { [OK, OK, OK, PortAnswer(cfg.hport), PortAnswer(cfg.mport), OK] }

  function CommitAnswer(cfg: Settings): string {
    if Complete(cfg) then "ESPM:OK PROVISIONED" else "ESPM:ERR incomplete"
  }

  /** The values after each of the six lines. */
  function SetValues(now: Settings, cfg: Settings): (vs: seq<Settings>)
    ensures |vs| == 7
  {
    var c := Clipped(cfg);
    var v1 := now.(ssid := c.ssid);
    var v2 := v1.(pass := c.pass);
    var v3 := v2.(host := c.host);
    var v4 := if PortOk(cfg.hport) then v3.(hport := cfg.hport) else v3;
    var v5 := if PortOk(cfg.mport) then v4.(mport := cfg.mport) else v4;
    [now, v1, v2, v3, v4, v5, v5.(token := c.token)]
  }

  lemma LineSets(ready: string, v: Settings, key: string, value: string, w: Settings, a: string)
    requires Plain(key) && Plain(value) && |key| <= 5 && ' ' !in key
    requires Set(v, key, Fitted(value, 190 - |key|)) == Response(w, a + "\n", false)
    ensures Answered(ready, v, SetLine(key, value), w, a)
  {
    SetResponds(v, ready, key, value);
    PlainSetLine(key, value);
  }

  lemma PlainSetLine(key: string, value: string)
    requires Plain(key) && Plain(value)
    ensures Plain(SetLine(key, value))
  {
    PlainJoins("ESPM:SET ", key);
    PlainJoins("ESPM:SET " + key, " ");
    PlainJoins("ESPM:SET " + key + " ", value);
  }

  lemma PlainJoins(a: string, b: string)
    requires Plain(a) && Plain(b)
    ensures Plain(a + b)
  {
  }

  lemma SetTexts(v: Settings, val: string)
    ensures Set(v, "ssid", val) == Response(v.(ssid := Fitted(val, SSID_SIZE)), OK + "\n", false)
    ensures Set(v, "pass", val) == Response(v.(pass := Fitted(val, PASS_SIZE)), OK + "\n", false)
    ensures Set(v, "host", val) == Response(v.(host := Fitted(val, HOST_SIZE)), OK + "\n", false)
    ensures Set(v, "token", val) == Response(v.(token := Fitted(val, TOKEN_SIZE)), OK + "\n", false)
  {
    assert OK + "\n" == "ESPM:OK\n";
    assert "ssid"[0] == 's' && "pass"[0] == 'p' && "host"[0] == 'h' && "token"[0] == 't';
  }

  lemma SetPorts(v: Settings, val: string)
    ensures Set(v, "hport", val) == if Port(val).Some? then Response(v.(hport := Port(val).value), OK + "\n", false)
                                    else Response(v, "ESPM:ERR port" + "\n", false)
    ensures Set(v, "mport", val) == if Port(val).Some? then Response(v.(mport := Port(val).value), OK + "\n", false)
                                    else Response(v, "ESPM:ERR port" + "\n", false)
  {
    assert OK + "\n" == "ESPM:OK\n" && "ESPM:ERR port" + "\n" == "ESPM:ERR port\n";
    assert "ssid"[0] == 's' && "pass"[0] == 'p' && "host"[0] == 'h' && "token"[0] == 't' && "mport"[0] == 'm';
    assert |"hport"| == 5 && |"host"| == 4;
  }

  lemma PortSets(ready: string, v: Settings, key: string, p: int)
    requires SafeInteger(p) && (key == "hport" || key == "mport")
    ensures Answered(ready, v, SetLine(key, PortText(p)),
              if !PortOk(p) then v else if key == "hport" then v.(hport := p) else v.(mport := p), PortAnswer(p))
  {
    SafeIsShort(p);
    PortSurvives(p);
    SetPorts(v, PortText(p));
    assert "mport"[0] == 'm' && "hport"[0] == 'h';
    var w := if !PortOk(p) then v else if key == "hport" then v.(hport := p) else v.(mport := p);
    LineSets(ready, v, key, PortText(p), w, PortAnswer(p));
  }

  lemma SsidSets(ready: string, v: Settings, value: string)
    requires Plain(value)
    ensures Answered(ready, v, SetLine("ssid", value), v.(ssid := Fitted(value, SSID_SIZE)), OK)
  {
    SetTexts(v, Fitted(value, 186));
    FittedTwice(value, 186, SSID_SIZE);
    LineSets(ready, v, "ssid", value, v.(ssid := Fitted(value, SSID_SIZE)), OK);
  }

  lemma PassSets(ready: string, v: Settings, value: string)
    requires Plain(value)
    ensures Answered(ready, v, SetLine("pass", value), v.(pass := Fitted(value, PASS_SIZE)), OK)
  {
    SetTexts(v, Fitted(value, 186));
    FittedTwice(value, 186, PASS_SIZE);
    LineSets(ready, v, "pass", value, v.(pass := Fitted(value, PASS_SIZE)), OK);
  }

  lemma HostSets(ready: string, v: Settings, value: string)
    requires Plain(value)
    ensures Answered(ready, v, SetLine("host", value), v.(host := Fitted(value, HOST_SIZE)), OK)
  {
    SetTexts(v, Fitted(value, 186));
    FittedTwice(value, 186, HOST_SIZE);
    LineSets(ready, v, "host", value, v.(host := Fitted(value, HOST_SIZE)), OK);
  }

  lemma TokenSets(ready: string, v: Settings, value: string)
    requires Plain(value)
    ensures Answered(ready, v, SetLine("token", value), v.(token := Fitted(value, TOKEN_SIZE)), OK)
  {
    SetTexts(v, Fitted(value, 185));
    FittedTwice(value, 185, TOKEN_SIZE);
    LineSets(ready, v, "token", value, v.(token := Fitted(value, TOKEN_SIZE)), OK);
  }

  lemma SetLinesTalk(now: Settings, ready: string, cfg: Settings)
    requires Typable(cfg)
    ensures Conversation(ready, SetLines(cfg), SetValues(now, cfg), SetAnswers(cfg))
  {
    var vs := SetValues(now, cfg);
    SsidSets(ready, vs[0], cfg.ssid);
    PassSets(ready, vs[1], cfg.pass);
    HostSets(ready, vs[2], cfg.host);
    PortSets(ready, vs[3], "hport", cfg.hport);
    PortSets(ready, vs[4], "mport", cfg.mport);
    TokenSets(ready, vs[5], cfg.token);
  }

  lemma CommitResponds(now: Settings, ready: string, cfg: Settings)
    requires (now.ssid == "") == (cfg.ssid == "") && (now.host == "") == (cfg.host == "")
      && (now.token == "") == (cfg.token == "")
    ensures Plain(COMMIT) && Respond(now, ready, Kept(COMMIT)) == Response(now, CommitAnswer(cfg) + "\n", Complete(cfg))
  {
    assert Kept(COMMIT) == COMMIT && COMMIT[5..] == "PROVISION";
    assert COMMIT[5..][0] == 'P' && "GETMAC"[0] == 'G' && "SET "[0] == 'S';
    if Complete(cfg) { assert "ESPM:OK PROVISIONED\n" == "ESPM:OK PROVISIONED" + "\n"; }
    else { assert "ESPM:ERR incomplete\n" == "ESPM:ERR incomplete" + "\n"; }
  }

  /** The agent after the whole script, and everything it said. */
  lemma AfterScript(s: State, ready: string, cfg: Settings)
    requires Ready(s) && Typable(cfg)
    ensures FeedAll(s, ready, Script(cfg)).stored == if Complete(cfg) then Some(SetValues(s.now, cfg)[6]) else None
    ensures FeedAll(s, ready, Script(cfg)).out == s.out + Sent(SetAnswers(cfg) + [CommitAnswer(cfg)])
  {
    var vs := SetValues(s.now, cfg);
    SetLinesTalk(s.now, ready, cfg);
    CommitResponds(vs[6], ready, cfg);
    AfterAll(s, ready, SetLines(cfg), vs, SetAnswers(cfg), COMMIT, CommitAnswer(cfg), Complete(cfg));
  }

  lemma AnswersClean(cfg: Settings)
    ensures forall i :: 0 <= i < 7 ==> CleanReply((SetAnswers(cfg) + [CommitAnswer(cfg)])[i])
  {
    assert CleanReply(OK) && CleanReply("ESPM:ERR port") && CleanReply("ESPM:OK PROVISIONED")
      && CleanReply("ESPM:ERR incomplete");
  }

  // ---------------------------------------------------------------- the theorems

  /** No reply is waiting, and what has arrived ends with a line. */
  predicate Quiet(u: string) { Whole(u) && Replies(u) == [] }

  /** What the agent sends from state s on, in reply to the script. */
  function Heard(s: State, ready: string, cfg: Settings): string {
    var out := FeedAll(s, ready, Script(cfg)).out;
    if |s.out| <= |out| then out[|s.out|..] else ""
  }

  /** The replies the host can have seen when it is done: those that were waiting, then those to the script. */
  lemma HeardReplies(s: State, ready: string, u: string, cfg: Settings)
    requires Ready(s) && Whole(u) && Typable(cfg)
    ensures Replies(u + Heard(s, ready, cfg)) == Replies(u) + (SetAnswers(cfg) + [CommitAnswer(cfg)])
  {
    var answers := SetAnswers(cfg) + [CommitAnswer(cfg)];
    AfterScript(s, ready, cfg);
    assert Heard(s, ready, cfg) == Sent(answers);
    AnswersClean(cfg);
    AnswersArrive(u, answers);
  }

  lemma PassedWhen(cfg: Settings)
    ensures Passed(SetAnswers(cfg) + [CommitAnswer(cfg)]) <==> PortsOk(cfg) && Complete(cfg)
  {
    var rs := SetAnswers(cfg) + [CommitAnswer(cfg)];
    assert rs[..6] == SetAnswers(cfg) && rs[6] == CommitAnswer(cfg);
    assert "ESPM:ERR port" != OK && OK <= "ESPM:OK PROVISIONED";
    assert "ESPM:ERR incomplete"[5] != OK[5];
    assert SetAnswers(cfg)[3] == PortAnswer(cfg.hport) && SetAnswers(cfg)[4] == PortAnswer(cfg.mport);
  }

  lemma StoredValues(now: Settings, cfg: Settings)
    requires PortsOk(cfg)
    ensures SetValues(now, cfg)[6] == Clipped(cfg)
    ensures Clipped(cfg) == cfg <==> Fits(cfg)
  {
  }

  /**
   If no reply was waiting, provision can return only if the values were stored, and then
   NVS holds the configuration itself exactly if every value fits its buffer (it is cut
   short silently otherwise).
   */
  lemma ProvisionedExactly(s: State, ready: string, u: string, cfg: Settings)
    requires Ready(s) && Quiet(u) && Typable(cfg)
    ensures Passed(Replies(u + Heard(s, ready, cfg))) <==> PortsOk(cfg) && Complete(cfg)
    ensures Passed(Replies(u + Heard(s, ready, cfg))) ==>
              && FeedAll(s, ready, Script(cfg)).stored == Some(Clipped(cfg))
              && (FeedAll(s, ready, Script(cfg)).stored == Some(cfg) <==> Fits(cfg))
  {
    HeardReplies(s, ready, u, cfg);
    assert [] + (SetAnswers(cfg) + [CommitAnswer(cfg)]) == SetAnswers(cfg) + [CommitAnswer(cfg)];
    PassedWhen(cfg);
    AfterScript(s, ready, cfg);
    if PortsOk(cfg) { StoredValues(s.now, cfg); }
  }

  predicate Honest(s: State, ready: string, u: string, cfg: Settings) {
    Passed(Replies(u + Heard(s, ready, cfg))) ==> FeedAll(s, ready, Script(cfg)).stored == Some(Clipped(cfg))
  }

  /** Whatever is provisioned from here, if the host reports success the values were stored. */
  ghost predicate Trustworthy(s: State, ready: string, u: string) {
    forall cfg :: Typable(cfg) ==> Honest(s, ready, u, cfg)
  }

  /** Replies that are waiting and that the host would take for replies to its own lines. */
  predicate Misleading(waiting: seq<string>) {
    && waiting != []
    && (forall k :: 0 <= k < |waiting| && k < 6 ==> waiting[k] == OK)
    && (|waiting| > 6 ==> OK <= waiting[6])
  }

  /** Everything is in order but the token is empty. */
  const NO_TOKEN := Settings("s", "", "h", "", 80, 1883)

  lemma StillPasses(waiting: seq<string>, last: string)
    requires Misleading(waiting)
    ensures Passed(waiting + (SIX_OKS + [last]))
  {
    var rs := waiting + (SIX_OKS + [last]);
    forall k | 0 <= k < 6 ensures rs[k] == OK {
      if k >= |waiting| { assert rs[k] == SIX_OKS[k - |waiting|]; }
    }
    assert rs[6] == if |waiting| > 6 then waiting[6] else SIX_OKS[6 - |waiting|];
    assert rs[..6] == SIX_OKS;
  }

  lemma MisledByNoToken(s: State, ready: string, u: string)
    requires Ready(s) && Whole(u) && Misleading(Replies(u))
    ensures Typable(NO_TOKEN) && !Honest(s, ready, u, NO_TOKEN)
  {
    HeardReplies(s, ready, u, NO_TOKEN);
    AfterScript(s, ready, NO_TOKEN);
    assert SetAnswers(NO_TOKEN) == SIX_OKS;
    StillPasses(Replies(u), CommitAnswer(NO_TOKEN));
  }

  lemma NotPassed(waiting: seq<string>, more: seq<string>)
    requires waiting != [] && !Misleading(waiting)
    ensures !Passed(waiting + more)
  {
    var rs := waiting + more;
    if k :| 0 <= k < |waiting| && k < 6 && waiting[k] != OK {
      if |rs| >= 7 { assert rs[..6][k] == waiting[k] && SIX_OKS[k] == OK; }
    } else {
      assert rs[6] == waiting[6];
    }
  }

  /**
   The host does not match replies to its lines. Its success can be trusted, whatever
   is provisioned, exactly if no reply was waiting, or such replies that it would not
   take them all for its own (then it never succeeds).
   */
  lemma StaleReplies(s: State, ready: string, u: string)
    requires Ready(s) && Whole(u)
    ensures Trustworthy(s, ready, u) <==> !Misleading(Replies(u))
  {
    if Misleading(Replies(u)) {
      MisledByNoToken(s, ready, u);
    } else {
      forall cfg | Typable(cfg) ensures Honest(s, ready, u, cfg) {
        if Replies(u) == [] {
          ProvisionedExactly(s, ready, u, cfg);
        } else {
          HeardReplies(s, ready, u, cfg);
          NotPassed(Replies(u), SetAnswers(cfg) + [CommitAnswer(cfg)]);
        }
      }
    }
  }
}
