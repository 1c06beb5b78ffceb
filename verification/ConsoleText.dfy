/** The parts of Go's strings package the console parsers use, over ASCII text. */
module ConsoleText {
  import opened Outcomes
  import opened Sequences

  predicate IsSpace(c: char) {
    c == ' ' || c == '\t' || c == '\n' || c == '\U{0B}' || c == '\U{0C}' || c == '\r'
  }

  predicate IsBreak(c: char) {
    c == '\n' || c == '\r'
  }

  /** The characters a prompt and the line editor leave before a line. */
  predicate IsJunk(c: char) {
    c == '>' || c == ' ' || c == '\t' || c == '\U{08}'
  }

  predicate All(s: string, p: char -> bool) {
    forall i | 0 <= i < |s| :: p(s[i])
  }

  /** strings.ReplaceAll(s, "\r\n", "\n"). */
  function CrLfToLf(s: string): string {
    if s == "" then ""
    else if |s| >= 2 && s[0] == '\r' && s[1] == '\n' then "\n" + CrLfToLf(s[2..])
    else [s[0]] + CrLfToLf(s[1..])
  }

  /** strings.ReplaceAll(s, "\r", "\n"). */
  function CrToLf(s: string): string {
    if s == "" then "" else [if s[0] == '\r' then '\n' else s[0]] + CrToLf(s[1..])
  }

  /** strings.Split(s, "\n"). */
  function Split(s: string): (r: seq<string>)
    ensures r != []
  {
    if s == "" then [""]
    else
      var rest := Split(s[1..]);
      if s[0] == '\n' then [""] + rest else [[s[0]] + rest[0]] + rest[1..]
  }

  /** One more character before the lines. */
  function Before(c: char, lines: seq<string>): (r: seq<string>)
    requires lines != []
    ensures r != []
  {
    if IsBreak(c) then [""] + lines else [[c] + lines[0]] + lines[1..]
  }

  /** The reference: a line ends at any CR or LF. */
  function Lines(s: string): (r: seq<string>)
    ensures r != []
  {
    if s == "" then [""] else Before(s[0], Lines(s[1..]))
  }

  function TrimJunk(s: string): string {
    if s != "" && IsJunk(s[0]) then TrimJunk(s[1..]) else s
  }

  function TrimLeftSpace(s: string): string {
    if s != "" && IsSpace(s[0]) then TrimLeftSpace(s[1..]) else s
  }

  function TrimRightSpace(s: string): string {
    if s != "" && IsSpace(s[|s| - 1]) then TrimRightSpace(s[..|s| - 1]) else s
  }

  /** strings.TrimSpace. */
  function TrimSpace(s: string): string {
    TrimRightSpace(TrimLeftSpace(s))
  }

  /** What a parser looks at: the line without junk before it and space around it. */
  function Clean(s: string): string {
    TrimSpace(TrimJunk(s))
  }

  /** The clean lines that are not empty. */
  function Cleaned(ls: seq<string>): seq<string> {
    if ls == [] then [] else CleanedLine(ls[0]) + Cleaned(ls[1..])
  }

  /** What one line adds to the clean lines. */
  function CleanedLine(l: string): seq<string> {
    if Clean(l) == "" then [] else [Clean(l)]
  }

  lemma {:induction false} CleanedOfSum(a: seq<string>, b: seq<string>)
    ensures Cleaned(a + b) == Cleaned(a) + Cleaned(b)
  {
    if a == [] {
      assert a + b == b;
    } else {
      CleanedOfSum(a[1..], b);
      assert (a + b)[1..] == a[1..] + b;
      Assoc(CleanedLine(a[0]), Cleaned(a[1..]), Cleaned(b));
    }
  }

  lemma CleanedOne(l: string)
    ensures Cleaned([l]) == CleanedLine(l)
  {
    assert [l][1..] == [];
  }

  lemma CleanedHead(ls: seq<string>, i: nat)
    requires i < |ls|
    ensures Cleaned(ls[i..]) == CleanedLine(ls[i]) + Cleaned(ls[i + 1..])
  {
    assert ls[i..][1..] == ls[i + 1..];
  }

  lemma {:induction false} SplitIsLines(s: string)
    ensures Split(CrToLf(s)) == Lines(s)
  {
    if s != "" {
      SplitIsLines(s[1..]);
    }
  }

  /** The clean lines of lines that agree on the first and on the clean rest. */
  predicate Alike(a: seq<string>, b: seq<string>)
    requires a != [] && b != []
  {
    a[0] == b[0] && Cleaned(a[1..]) == Cleaned(b[1..])
  }

  lemma AlikeClean(a: seq<string>, b: seq<string>)
    requires a != [] && b != [] && Alike(a, b)
    ensures Cleaned(a) == Cleaned(b)
  {
  }

  lemma AlikeBefore(c: char, a: seq<string>, b: seq<string>)
    requires a != [] && b != [] && Alike(a, b)
    ensures Alike(Before(c, a), Before(c, b))
  {
    AlikeClean(a, b);
    if IsBreak(c) {
      assert Before(c, a)[1..] == a && Before(c, b)[1..] == b;
    } else {
      assert Before(c, a)[1..] == a[1..] && Before(c, b)[1..] == b[1..];
    }
  }

  /** An empty line more after a line end makes no difference. */
  lemma AlikeCrLf(a: seq<string>, b: seq<string>)
    requires a != [] && b != [] && Alike(a, b)
    ensures Alike(Before('\n', a), Before('\r', Before('\n', b)))
  {
    AlikeClean(a, b);
    var two := Before('\r', Before('\n', b));
    assert Before('\n', a)[1..] == a && two[1..] == [""] + b && ([""] + b)[1..] == b;
    assert CleanedLine("") == [];
  }

  lemma {:induction false} CrLfLines(s: string)
    ensures Alike(Lines(CrLfToLf(s)), Lines(s))
  {
    if s == "" {
    } else if |s| >= 2 && s[0] == '\r' && s[1] == '\n' {
      var t := s[2..];
      CrLfLines(t);
      AlikeCrLf(Lines(CrLfToLf(t)), Lines(t));
      assert s[1..][1..] == t && CrLfToLf(s)[1..] == CrLfToLf(t);
    } else {
      CrLfLines(s[1..]);
      AlikeBefore(s[0], Lines(CrLfToLf(s[1..])), Lines(s[1..]));
      assert CrLfToLf(s)[1..] == CrLfToLf(s[1..]);
    }
  }

  /** Normalising the line ends and splitting at LF gives the same clean lines as ending a line at any CR or LF. */
  lemma NormalisedLines(s: string)
    ensures Cleaned(Split(CrToLf(CrLfToLf(s)))) == Cleaned(Lines(s))
  {
    SplitIsLines(CrLfToLf(s));
    CrLfLines(s);
    AlikeClean(Lines(CrLfToLf(s)), Lines(s));
  }

  lemma BeforeSum(c: char, x: seq<string>, y: seq<string>)
    requires x != []
    ensures Before(c, x + y) == Before(c, x) + y
  {
    assert (x + y)[1..] == x[1..] + y;
  }

  lemma {:induction false} LinesOfSum(a: string, c: char, b: string)
    requires IsBreak(c)
    ensures Lines(a + [c] + b) == Lines(a) + Lines(b)
  {
    var s := a + [c] + b;
    if a == "" {
      assert s[0] == c && s[1..] == b;
    } else {
      LinesOfSum(a[1..], c, b);
      assert s[0] == a[0] && s[1..] == a[1..] + [c] + b;
      BeforeSum(a[0], Lines(a[1..]), Lines(b));
    }
  }

  lemma {:induction false} OneLine(a: string)
    requires forall i | 0 <= i < |a| :: !IsBreak(a[i])
    ensures Lines(a) == [a]
  {
    if a != "" {
      OneLine(a[1..]);
      assert a == [a[0]] + a[1..];
    }
  }

  // ── clean text ──

  /** Text a parser sees unchanged: no line break, and neither junk nor space at its ends. */
  predicate Neat(s: string) {
    && s != "" && !IsJunk(s[0]) && !IsSpace(s[0]) && !IsSpace(s[|s| - 1])
    && forall i | 0 <= i < |s| :: !IsBreak(s[i])
  }

  lemma {:induction false} TrimSpaceAfter(s: string, trail: string)
    requires s == "" || !IsSpace(s[|s| - 1])
    requires All(trail, IsSpace)
    ensures TrimRightSpace(s + trail) == s
  {
    if trail == "" {
      assert s + trail == s;
    } else {
      assert (s + trail)[..|s + trail| - 1] == s + trail[..|trail| - 1];
      TrimSpaceAfter(s, trail[..|trail| - 1]);
    }
  }

  lemma CleanNeat(junk: string, s: string, trail: string)
    requires All(junk, IsJunk) && Neat(s) && All(trail, IsSpace)
    ensures Clean(junk + s + trail) == s
  {
    assert junk + s + trail == junk + (s + trail);
    TrimJunkThrough(junk, s + trail);
    assert (s + trail)[0] == s[0];
    TrimSpaceAfter(s, trail);
  }

  lemma {:induction false} TrimJunkThrough(junk: string, s: string)
    requires All(junk, IsJunk)
    ensures TrimJunk(junk + s) == TrimJunk(s)
  {
    if junk == "" {
      assert junk + s == s;
    } else {
      assert (junk + s)[1..] == junk[1..] + s;
      TrimJunkThrough(junk[1..], s);
    }
  }

  lemma {:induction false} TrimJunkOfSpace(s: string)
    requires All(s, IsSpace)
    ensures All(TrimJunk(s), IsSpace)
  {
    if s != "" && IsJunk(s[0]) {
      TrimJunkOfSpace(s[1..]);
    }
  }

  lemma {:induction false} TrimLeftOfSpace(s: string)
    requires All(s, IsSpace)
    ensures TrimLeftSpace(s) == ""
  {
    if s != "" {
      TrimLeftOfSpace(s[1..]);
    }
  }

  /** Nothing is left of a line of junk and space. */
  lemma CleanBlank(junk: string, trail: string)
    requires All(junk, IsJunk) && All(trail, IsSpace)
    ensures Clean(junk + trail) == ""
  {
    TrimJunkThrough(junk, trail);
    TrimJunkOfSpace(trail);
    TrimLeftOfSpace(TrimJunk(trail));
  }

  /** Trimming leaves no space at the ends, and leaves something of text that does not end in space. */
  lemma {:induction false} TrimLeftEnds(s: string)
    ensures var t := TrimLeftSpace(s);
            && (t != "" ==> !IsSpace(t[0]) && t[|t| - 1] == s[|s| - 1])
            && (s != "" && !IsSpace(s[|s| - 1]) ==> t != "")
  {
    if s != "" && IsSpace(s[0]) {
      TrimLeftEnds(s[1..]);
    }
  }

  lemma {:induction false} TrimRightEnds(s: string)
    ensures var t := TrimRightSpace(s);
            && (t != "" ==> !IsSpace(t[|t| - 1]) && t[0] == s[0])
            && (s != "" && !IsSpace(s[|s| - 1]) ==> t == s)
  {
    if s != "" && IsSpace(s[|s| - 1]) {
      TrimRightEnds(s[..|s| - 1]);
    }
  }

  lemma TrimEnds(s: string)
    ensures var t := TrimSpace(s);
            && (t != "" ==> !IsSpace(t[0]) && !IsSpace(t[|t| - 1]))
            && (s != "" && !IsSpace(s[|s| - 1]) ==> t != "")
  {
    TrimLeftEnds(s);
    TrimRightEnds(TrimLeftSpace(s));
  }

  // ── words ──

  function WordLength(s: string): (n: nat)
    ensures n <= |s|
    ensures forall i | 0 <= i < n :: !IsSpace(s[i])
    ensures n < |s| ==> IsSpace(s[n])
  {
    if s == "" || IsSpace(s[0]) then 0 else 1 + WordLength(s[1..])
  }

  /** strings.Fields. */
  function Fields(s: string): seq<string> {
    if s == "" then []
    else if IsSpace(s[0]) then Fields(s[1..])
    else [s[..WordLength(s)]] + Fields(s[WordLength(s)..])
  }

  lemma SkipSpace(c: char, s: string)
    requires IsSpace(c)
    ensures Fields([c] + s) == Fields(s)
  {
    assert ([c] + s)[1..] == s;
  }

  predicate IsWord(w: string) {
    w != "" && forall i | 0 <= i < |w| :: !IsSpace(w[i])
  }

  lemma WordFirst(w: string, rest: string)
    requires IsWord(w) && (rest == "" || IsSpace(rest[0]))
    ensures Fields(w + rest) == [w] + Fields(rest)
  {
    var s := w + rest;
    var n := WordLength(s);
    assert forall i | 0 <= i < |w| :: s[i] == w[i];
    assert rest != "" ==> s[|w|] == rest[0];
    assert n == |w|;
    assert s[..n] == w && s[n..] == rest;
  }

  /** Trimmed text that is not empty has a first word. */
  lemma FieldsOfText(s: string)
    requires s != "" && !IsSpace(s[0])
    ensures Fields(s) != []
  {
  }

  // ── decimal numbers ──

  predicate IsDigit(c: char) {
    '0' <= c <= '9'
  }

  function Natural(s: string): nat
    requires All(s, IsDigit)
  {
    if s == "" then 0 else 10 * Natural(s[..|s| - 1]) + (s[|s| - 1] - '0') as int
  }

  const MAX_INT64: int := 0x7FFF_FFFF_FFFF_FFFF

  /** strconv.Atoi on a 64-bit platform. */
  function Atoi(s: string): Option<int> {
    var neg := s != "" && s[0] == '-';
    var digits := if s != "" && (s[0] == '-' || s[0] == '+') then s[1..] else s;
    if digits == "" || !All(digits, IsDigit) then None
    else
      var n: int := Natural(digits);
      if neg && n <= MAX_INT64 + 1 then Some(-n) else if !neg && n <= MAX_INT64 then Some(n) else None
  }

  /** %d of a number that is not negative. */
  function Itoa(n: nat): (s: string)
    ensures s != "" && All(s, IsDigit)
  {
    (if n < 10 then "" else Itoa(n / 10)) + [(n % 10) as char + '0']
  }

  lemma {:induction false} NaturalItoa(n: nat)
    ensures Natural(Itoa(n)) == n
  {
    var s := Itoa(n);
    if n >= 10 {
      NaturalItoa(n / 10);
      assert s[..|s| - 1] == Itoa(n / 10);
    } else {
      assert s[..|s| - 1] == "";
    }
  }

  lemma AtoiItoa(n: nat)
    requires n <= MAX_INT64
    ensures Atoi(Itoa(n)) == Some(n)
  {
    NaturalItoa(n);
  }
}
