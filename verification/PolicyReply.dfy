/**
  Reading the pod's answer to a policy command out of raw console output (internal/serialconsole/policy.go):
  the line editor echoes the command, log lines interleave, and for a set the echo reads like the reply.
*/
module PolicyReply {
  import opened Outcomes
  import opened Text
  import opened Sequences
  import opened ConsoleText

  const UNKNOWN := "unknown command"

  /** keys is -1 when the pod reports no number. */
  datatype Answer =
    | Unsupported
    | NoReply
    | RefusedWith(why: string)
    | PolicyIs(policy: string, keys: int)

  predicate SaysUnknown(l: string) {
    Contains(l, UNKNOWN)
  }

  predicate IsReply(l: string, cmd: string) {
    HasPrefix(l, cmd + " ")
  }

  function ReplyText(l: string, cmd: string): string
    requires IsReply(l, cmd)
  {
    TrimSpace(l[|cmd| + 1..])
  }

  /** Where the echo is: the first copy of the command line. */
  function EchoAt(ls: seq<string>, line: string): Option<nat> {
    if ls == [] then None
    else if EchoAt(ls[..|ls| - 1], line).Some? then EchoAt(ls[..|ls| - 1], line)
    else if ls[|ls| - 1] == line then Some(|ls| - 1)
    else None
  }

  /** The last reply line that is not the echo. */
  function LastReply(ls: seq<string>, cmd: string, line: string): (r: Option<string>)
    ensures r.Some? ==> IsReply(r.value, cmd)
  {
    if ls == [] then None
    else
      var front, l := ls[..|ls| - 1], ls[|ls| - 1];
      if IsReply(l, cmd) && (EchoAt(front, line).Some? || l != line) then Some(l) else LastReply(front, cmd, line)
  }

  /** What the words of a reply mean. */
  function Meaning(text: string): Answer {
    var f := Fields(text);
    if f == [] then NoReply
    else if f[0] == "error" then
      var why := TrimSpace(if HasPrefix(text, "error") then text[5..] else text);
      RefusedWith(if why == "" then "refused" else why)
    else
      var n := if |f| > 1 then Atoi(f[1]) else None;
      PolicyIs(f[0], if n.Some? then n.value else -1)
  }

  /** The answer in the clean lines of the output. */
  function Read(ls: seq<string>, cmd: string, line: string): Answer {
    if exists i | 0 <= i < |ls| :: SaysUnknown(ls[i]) then Unsupported
    else
      var r := LastReply(ls, cmd, line);
      if r.None? then NoReply else Meaning(ReplyText(r.value, cmd))
  }

  // ── what a console prints ──

  /**
    A printed line: junk the prompt and the line editor leave, the text, space after it, and its end: any run of CR
    and LF. The text is empty on a blank line.
  */
  datatype Printed = Printed(junk: string, text: string, trail: string, end: string)

  predicate WellPrinted(p: Printed) {
    && All(p.junk, IsJunk) && (p.text == "" || Neat(p.text)) && All(p.trail, IsSpace)
    && (forall i | 0 <= i < |p.trail| :: !IsBreak(p.trail[i]))
    && p.end != "" && All(p.end, IsBreak)
  }

  predicate AllWellPrinted(ps: seq<Printed>) {
    forall i | 0 <= i < |ps| :: WellPrinted(ps[i])
  }

  function Body(p: Printed): string {
    p.junk + p.text + p.trail
  }

  function Output(ps: seq<Printed>): string {
    if ps == [] then "" else Body(ps[0]) + ps[0].end + Output(ps[1..])
  }

  /** The text of a line that is not blank. */
  function TextOf(p: Printed): seq<string> {
    if p.text == "" then [] else [p.text]
  }

  function Texts(ps: seq<Printed>): seq<string> {
    if ps == [] then [] else TextOf(ps[0]) + Texts(ps[1..])
  }

  lemma {:induction false} TextsOfSum(a: seq<Printed>, b: seq<Printed>)
    ensures Texts(a + b) == Texts(a) + Texts(b)
  {
    if a == [] {
      assert a + b == b;
    } else {
      TextsOfSum(a[1..], b);
      assert (a + b)[1..] == a[1..] + b;
      Assoc(TextOf(a[0]), Texts(a[1..]), Texts(b));
    }
  }

  lemma TextsOfOne(p: Printed)
    ensures Texts([p]) == TextOf(p)
  {
    assert [p][1..] == [];
  }

  lemma TranscriptTexts(pre: seq<Printed>, echo: Printed, mid: seq<Printed>, reply: Printed, post: seq<Printed>)
    ensures Texts(pre + [echo] + mid + [reply] + post)
         == Texts(pre) + TextOf(echo) + Texts(mid) + TextOf(reply) + Texts(post)
  {
    TextsOfSum(pre, [echo]);
    TextsOfSum(pre + [echo], mid);
    TextsOfSum(pre + [echo] + mid, [reply]);
    TextsOfSum(pre + [echo] + mid + [reply], post);
    TextsOfOne(echo);
    TextsOfOne(reply);
  }

  lemma {:induction false} LineThenRest(body: string, end: string, rest: string)
    requires forall i | 0 <= i < |body| :: !IsBreak(body[i])
    requires end != "" && All(end, IsBreak)
    ensures Cleaned(Lines(body + end + rest)) == CleanedLine(body) + Cleaned(Lines(rest))
    decreases |end|
  {
    var later := end[1..] + rest;
    assert body + end + rest == body + [end[0]] + later;
    OneLine(body);
    CleanedOne(body);
    LinesOfSum(body, end[0], later);
    CleanedOfSum([body], Lines(later));
    if |end| == 1 {
      assert later == rest;
    } else {
      LineThenRest("", end[1..], rest);
      assert "" + end[1..] + rest == later;
    }
  }

  lemma PrintedLine(p: Printed, rest: string)
    requires WellPrinted(p)
    ensures Cleaned(Lines(Body(p) + p.end + rest)) == TextOf(p) + Cleaned(Lines(rest))
  {
    var body := Body(p);
    assert forall i | 0 <= i < |body| :: !IsBreak(body[i]);
    if p.text == "" {
      assert body == p.junk + p.trail;
      CleanBlank(p.junk, p.trail);
    } else {
      CleanNeat(p.junk, p.text, p.trail);
    }
    LineThenRest(body, p.end, rest);
  }

  lemma OutputStep(ps: seq<Printed>, prompt: string)
    requires ps != []
    ensures Output(ps) + prompt == Body(ps[0]) + ps[0].end + (Output(ps[1..]) + prompt)
  {
    Assoc(Body(ps[0]) + ps[0].end, Output(ps[1..]), prompt);
  }

  /**
    The parser sees exactly the texts printed, whatever the mix of line ends, blank lines, junk and trailing space,
    and a prompt at the end.
  */
  lemma {:induction false} OutputLines(ps: seq<Printed>, prompt: string)
    requires AllWellPrinted(ps)
    requires All(prompt, IsJunk)
    ensures Cleaned(Lines(Output(ps) + prompt)) == Texts(ps)
  {
    if ps == [] {
      assert Output(ps) + prompt == prompt;
      PromptLines(prompt);
    } else {
      OutputLines(ps[1..], prompt);
      PrintedLine(ps[0], Output(ps[1..]) + prompt);
      OutputStep(ps, prompt);
    }
  }

  lemma PromptLines(prompt: string)
    requires All(prompt, IsJunk)
    ensures Cleaned(Lines(prompt)) == []
  {
    OneLine(prompt);
    CleanBlank(prompt, "");
    assert prompt + "" == prompt;
    CleanedOne(prompt);
  }

  // ── finding the reply ──

  /** A log line the parser can tell from the pod's answers. */
  predicate IsLog(l: string, cmd: string, line: string) {
    !IsReply(l, cmd) && l != line && !SaysUnknown(l)
  }

  predicate Logs(ls: seq<string>, cmd: string, line: string) {
    forall i | 0 <= i < |ls| :: IsLog(ls[i], cmd, line)
  }

  lemma {:induction false} LogsAfter(ls: seq<string>, logs: seq<string>, cmd: string, line: string)
    requires Logs(logs, cmd, line)
    ensures EchoAt(ls + logs, line) == EchoAt(ls, line) && LastReply(ls + logs, cmd, line) == LastReply(ls, cmd, line)
  {
    if logs == [] {
      assert ls + logs == ls;
    } else {
      var front := logs[..|logs| - 1];
      LogsAfter(ls, front, cmd, line);
      assert (ls + logs)[..|ls + logs| - 1] == ls + front;
      assert (ls + logs)[|ls + logs| - 1] == logs[|logs| - 1];
    }
  }

  lemma OneMoreLine(ls: seq<string>, l: string, cmd: string, line: string)
    ensures EchoAt(ls + [l], line)
         == if EchoAt(ls, line).Some? then EchoAt(ls, line) else if l == line then Some(|ls|) else None
    ensures LastReply(ls + [l], cmd, line)
         == if IsReply(l, cmd) && (EchoAt(ls, line).Some? || l != line) then Some(l) else LastReply(ls, cmd, line)
  {
    assert (ls + [l])[..|ls|] == ls;
  }

  /**
    Logs, the echo, logs, the reply and logs: the parser finds the reply, even when the echo of a set is
    identical to it.
  */
  lemma ReplyAfterEcho(pre: seq<string>, mid: seq<string>, post: seq<string>, reply: string, cmd: string, line: string)
    requires Logs(pre, cmd, line) && Logs(mid, cmd, line) && Logs(post, cmd, line)
    requires IsReply(reply, cmd) && !SaysUnknown(reply) && !SaysUnknown(line)
    ensures Read(pre + [line] + mid + [reply] + post, cmd, line) == Meaning(ReplyText(reply, cmd))
  {
    var ls := pre + [line] + mid + [reply] + post;
    LogsAfter([], pre, cmd, line);
    assert [] + pre == pre;
    OneMoreLine(pre, line, cmd, line);
    LogsAfter(pre + [line], mid, cmd, line);
    OneMoreLine(pre + [line] + mid, reply, cmd, line);
    LogsAfter(pre + [line] + mid + [reply], post, cmd, line);
    forall i | 0 <= i < |ls| ensures !SaysUnknown(ls[i]) {
      assert ls[i] in pre || ls[i] == line || ls[i] in mid || ls[i] == reply || ls[i] in post;
    }
  }

  /** When the echo was lost, the reply is found exactly when it differs from the command line. */
  lemma WithoutEchoIff(pre: seq<string>, post: seq<string>, reply: string, cmd: string, line: string)
    requires Logs(pre, cmd, line) && Logs(post, cmd, line) && IsReply(reply, cmd) && !SaysUnknown(reply)
    ensures LastReply(pre + [reply] + post, cmd, line) == if reply != line then Some(reply) else None
    ensures reply == line ==> Read(pre + [reply] + post, cmd, line) == NoReply
    ensures reply != line ==> Read(pre + [reply] + post, cmd, line) == Meaning(ReplyText(reply, cmd))
  {
    var ls := pre + [reply] + post;
    LogsAfter([], pre, cmd, line);
    assert [] + pre == pre;
    OneMoreLine(pre, reply, cmd, line);
    LogsAfter(pre + [reply], post, cmd, line);
    forall i | 0 <= i < |ls| ensures !SaysUnknown(ls[i]) {
      assert ls[i] in pre || ls[i] == reply || ls[i] in post;
    }
  }

  // ── reading it ──

  lemma OneWord(policy: string)
    requires IsWord(policy) && policy != "error"
    ensures Meaning(policy) == PolicyIs(policy, -1)
  {
    WordFirst(policy, "");
    assert policy + "" == policy;
  }

  lemma TwoFields(first: string, second: string)
    requires IsWord(first) && IsWord(second)
    ensures Fields(first + " " + second) == [first, second]
  {
    WordFirst(first, " " + second);
    assert first + (" " + second) == first + " " + second;
    SkipSpace(' ', second);
    WordFirst(second, "");
    assert second + "" == second;
  }

  lemma DigitsAreWord(n: nat)
    ensures IsWord(Itoa(n))
  {
    var s := Itoa(n);
    forall i | 0 <= i < |s| ensures !IsSpace(s[i]) {
      assert IsDigit(s[i]);
    }
  }

  lemma TwoWords(policy: string, digits: string, keys: nat)
    requires IsWord(policy) && policy != "error" && IsWord(digits) && Atoi(digits) == Some(keys)
    ensures Meaning(policy + " " + digits) == PolicyIs(policy, keys)
  {
    TwoFields(policy, digits);
  }

  lemma TextAfterCommand(cmd: string, text: string)
    requires text != "" && !IsSpace(text[0]) && !IsSpace(text[|text| - 1])
    ensures IsReply(cmd + " " + text, cmd) && ReplyText(cmd + " " + text, cmd) == text
  {
    var reply := cmd + " " + text;
    assert reply[..|cmd| + 1] == cmd + " " && reply[|cmd| + 1..] == text;
  }

  /** "<policy>", "<policy> <keys>" and "error <why>" are read back as they were printed. */
  lemma PolicyReadBack(cmd: string, policy: string, keys: Option<nat>)
    requires IsWord(policy) && policy != "error" && (keys.Some? ==> keys.value <= MAX_INT64)
    ensures var reply := cmd + " " + (policy + if keys.Some? then " " + Itoa(keys.value) else "");
            IsReply(reply, cmd)
            && Meaning(ReplyText(reply, cmd)) == PolicyIs(policy, if keys.Some? then keys.value else -1)
  {
    if keys.None? {
      assert policy + "" == policy;
      OneWord(policy);
      TextAfterCommand(cmd, policy);
    } else {
      DigitsAreWord(keys.value);
      AtoiItoa(keys.value);
      TwoWords(policy, Itoa(keys.value), keys.value);
      assert policy + (" " + Itoa(keys.value)) == policy + " " + Itoa(keys.value);
      TextAfterCommand(cmd, policy + " " + Itoa(keys.value));
    }
  }

  lemma TrimOneSpace(text: string)
    requires Neat(text)
    ensures TrimSpace(" " + text) == text
  {
    assert (" " + text)[1..] == text;
    assert TrimLeftSpace(" " + text) == TrimLeftSpace(text) == text;
  }

  lemma ErrorMeaning(text: string, why: string)
    requires Neat(why) && text == "error" + (" " + why)
    ensures Meaning(text) == RefusedWith(why)
  {
    WordFirst("error", " " + why);
    TrimOneSpace(why);
    var f := Fields(text);
    assert f != [] && f[0] == "error";
    assert text[..5] == "error" && text[5..] == " " + why;
    assert HasPrefix(text, "error") && TrimSpace(text[5..]) == why;
  }

  lemma RefusalReadBack(cmd: string, why: string)
    requires Neat(why)
    ensures var reply := cmd + " " + ("error" + (" " + why));
            IsReply(reply, cmd) && Meaning(ReplyText(reply, cmd)) == RefusedWith(why)
  {
    ErrorMeaning("error" + (" " + why), why);
    TextAfterCommand(cmd, "error" + (" " + why));
  }

  /** The same, with no line to echo when the command line is empty. */
  lemma ReplyAfterBlank(pre: seq<string>, echo: seq<string>, mid: seq<string>, post: seq<string>, reply: string,
                        cmd: string, line: string)
    requires Logs(pre, cmd, line) && Logs(mid, cmd, line) && Logs(post, cmd, line)
    requires IsReply(reply, cmd) && !SaysUnknown(reply) && !SaysUnknown(line)
    requires echo == if line == "" then [] else [line]
    ensures Read(pre + echo + mid + [reply] + post, cmd, line) == Meaning(ReplyText(reply, cmd))
  {
    if line == "" {
      assert pre + echo == pre;
      WithoutEchoIff(pre + mid, post, reply, cmd, line);
    } else {
      ReplyAfterEcho(pre, mid, post, reply, cmd, line);
    }
  }

  /** A refusal without a reason is read as refused. */
  lemma BareRefusal(cmd: string)
    ensures var reply := cmd + " " + "error";
            IsReply(reply, cmd) && Meaning(ReplyText(reply, cmd)) == RefusedWith("refused")
  {
    TextAfterCommand(cmd, "error");
    WordFirst("error", "");
    assert "error" + "" == "error" && "error"[..5] == "error" && "error"[5..] == "";
    assert TrimSpace("") == "";
  }

  /** parsePolicyReply inverts what the firmware prints around a reply, whatever the console adds. */
  lemma PolicyRoundTrip(pre: seq<Printed>, echo: Printed, mid: seq<Printed>, reply: Printed, post: seq<Printed>,
                        ps: seq<Printed>, prompt: string, cmd: string, line: string)
    requires ps == pre + [echo] + mid + [reply] + post && AllWellPrinted(ps) && All(prompt, IsJunk)
    requires Logs(Texts(pre), cmd, line) && Logs(Texts(mid), cmd, line) && Logs(Texts(post), cmd, line)
    requires echo.text == line && IsReply(reply.text, cmd) && !SaysUnknown(reply.text) && !SaysUnknown(line)
    ensures Read(Cleaned(Lines(Output(ps) + prompt)), cmd, line) == Meaning(ReplyText(reply.text, cmd))
  {
    OutputLines(ps, prompt);
    TranscriptTexts(pre, echo, mid, reply, post);
    ReplyAfterBlank(Texts(pre), TextOf(echo), Texts(mid), Texts(post), reply.text, cmd, line);
    assert TextOf(reply) == [reply.text];
  }

  // ── the code ──

  /** Every reply line has a first word, so taking it cannot fail. */
  lemma ReplyHasWord(x: string, cmd: string)
    requires IsReply(Clean(x), cmd)
    ensures Fields(ReplyText(Clean(x), cmd)) != []
  {
    var l := Clean(x);
    var rest := l[|cmd| + 1..];
    TrimEnds(TrimJunk(x));
    assert l[|cmd|] == l[..|cmd| + 1][|cmd|] == ' ';
    assert rest[|rest| - 1] == l[|l| - 1];
    TrimEnds(rest);
    FieldsOfText(TrimSpace(rest));
  }

  /** What the loop has found in the clean lines seen so far. */
  predicate Scanned(seen: seq<string>, cmd: string, line: string, echoSeen: bool, found: bool, reply: string) {
    && (forall k | 0 <= k < |seen| :: !SaysUnknown(seen[k]))
    && echoSeen == EchoAt(seen, line).Some?
    && found == LastReply(seen, cmd, line).Some?
    && (found ==> reply == ReplyText(LastReply(seen, cmd, line).value, cmd))
  }

  lemma ScanStep(seen: seq<string>, cmd: string, line: string, echoSeen: bool, found: bool, reply: string, l: string)
    requires Scanned(seen, cmd, line, echoSeen, found, reply) && !SaysUnknown(l)
    ensures !echoSeen && l == line ==> Scanned(seen + [l], cmd, line, true, found, reply)
    ensures (echoSeen || l != line) && IsReply(l, cmd) ==>
              Scanned(seen + [l], cmd, line, echoSeen, true, ReplyText(l, cmd))
    ensures (echoSeen || l != line) && !IsReply(l, cmd) ==> Scanned(seen + [l], cmd, line, echoSeen, found, reply)
  {
    OneMoreLine(seen, l, cmd, line);
  }

  lemma AheadStep(all: seq<string>, seen: seq<string>, rest: seq<string>, later: seq<string>, c: string)
    requires all == seen + rest && rest == (if c == "" then [] else [c]) + later
    ensures c == "" ==> all == seen + later
    ensures c != "" ==> all == (seen + [c]) + later && c in all
  {
    if c != "" {
      assert all[|seen|] == c;
    }
  }

  lemma UnknownIn(ls: seq<string>, l: string, cmd: string, line: string)
    requires l in ls && SaysUnknown(l)
    ensures Read(ls, cmd, line) == Unsupported
  {
  }

  /** parsePolicyReply. */
  method ParsePolicyReply(raw: string, cmd: string, line: string) returns (res: Answer)
    ensures res == Read(Cleaned(Lines(raw)), cmd, line)
  {
    var lines := Split(CrToLf(CrLfToLf(raw)));
    NormalisedLines(raw);
    res := Scan(lines, cmd, line);
  }

  /** The loop over the lines. */
  method Scan(lines: seq<string>, cmd: string, line: string) returns (res: Answer)
    ensures res == Read(Cleaned(lines), cmd, line)
  {
    var echoSeen, found, reply := false, false, "";
    ghost var all, seen: seq<string> := Cleaned(lines), [];
    var i := 0;
    assert lines[i..] == lines;
    while i < |lines|
      invariant i <= |lines| && all == seen + Cleaned(lines[i..])
      invariant Scanned(seen, cmd, line, echoSeen, found, reply)
    {
      var ln := Clean(lines[i]);
      CleanedHead(lines, i);
      AheadStep(all, seen, Cleaned(lines[i..]), Cleaned(lines[i + 1..]), ln);
      i := i + 1;
      if ln == "" {
        continue;
      }
      if Contains(ln, UNKNOWN) {
        UnknownIn(all, ln, cmd, line);
        return Unsupported;
      }
      ScanStep(seen, cmd, line, echoSeen, found, reply, ln);
      seen := seen + [ln];
      if !echoSeen && ln == line {
        echoSeen := true;
        continue;
      }
      if HasPrefix(ln, cmd + " ") {
        reply, found := TrimSpace(ln[|cmd| + 1..]), true;
      }
    }
    assert seen == all;
    res := if found then Meaning(reply) else NoReply;
  }
}
