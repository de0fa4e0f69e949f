/**
 Command lines of the Windows launcher: the quoter, and the rules by which a
 Microsoft C program splits its command line ("Parsing C command-line arguments").
 */
module WindowsQuoting {
  const NUL := '\0'

  function Backslashes(n: nat): (s: string)
    ensures |s| == n
  {
    seq(n, _ => '\\')
  }

  predicate IsBlank(c: char) {
    c == ' ' || c == '\t'
  }

  // ----- the quoter -----

  /** What the quoter still writes when `pending` backslashes are held back and `s` is left. */
  function QuoteFrom(s: string, pending: nat): string {
    if s == "" then Backslashes(2 * pending) + "\""
    else if s[0] == '\\' then QuoteFrom(s[1..], pending + 1)
    else if s[0] == '\"' then Backslashes(2 * pending + 1) + "\"" + QuoteFrom(s[1..], 0)
    else Backslashes(pending) + [s[0]] + QuoteFrom(s[1..], 0)
  }

  function Quoted(value: string): string {
    "\"" + QuoteFrom(value, 0)
  }

  method Quote(value: string) returns (quoted: string)
    ensures quoted == Quoted(value)
    ensures SplitArguments(quoted) == [value]
  {
    quoted := "\"";
    var backslashes := 0;
    for i := 0 to |value|
      invariant quoted + QuoteFrom(value[i..], backslashes) == Quoted(value)
    {
      var character := value[i];
      assert value[i..][1..] == value[i + 1..];
      if character == '\\' {
        backslashes := backslashes + 1;
      } else if character == '\"' {
        quoted := quoted + Backslashes(backslashes * 2 + 1) + [character];
        backslashes := 0;
      } else {
        quoted := quoted + Backslashes(backslashes) + [character];
        backslashes := 0;
      }
    }
    quoted := quoted + Backslashes(backslashes * 2) + "\"";
    QuotedParsesBack(value, "");
    assert quoted + "" == quoted;
  }

  // ----- the parser of arguments after argv[0] -----

  /** The length of the run of backslashes at the front. */
  function Run(s: string): (n: nat)
    ensures n <= |s|
    ensures s[..n] == Backslashes(n)
    ensures n < |s| ==> s[n] != '\\'
  {
    if s == "" || s[0] != '\\' then 0 else
      var n := 1 + Run(s[1..]);
      assert s[..n] == [s[0]] + s[1..][..n - 1];
      n
  }

  /**
   Reads the rest of one argument after `acc`: an even run of backslashes before a quote halves and
   the quote delimits, an odd run halves and the quote is literal, other backslashes are literal, and
   a doubled quote inside a quoted part is one literal quote.
   */
  function ReadArgument(s: string, inQuotes: bool, acc: string): (r: (string, string))
    ensures |r.1| <= |s|
    ensures s != "" && (inQuotes || !IsBlank(s[0])) ==> |r.1| < |s|
    decreases |s|
  {
    if s == "" || (!inQuotes && IsBlank(s[0])) then (acc, s)
    else if s[0] == '\\' then
      var n := Run(s);
      if n == |s| || s[n] != '\"' then ReadArgument(s[n..], inQuotes, acc + Backslashes(n))
      else if n % 2 == 0 then ReadArgument(s[n..], inQuotes, acc + Backslashes(n / 2))
      else ReadArgument(s[n + 1..], inQuotes, acc + Backslashes(n / 2) + "\"")
    else if s[0] == '\"' then
      if inQuotes && |s| > 1 && s[1] == '\"' then ReadArgument(s[2..], inQuotes, acc + "\"")
      else ReadArgument(s[1..], !inQuotes, acc)
    else ReadArgument(s[1..], inQuotes, acc + [s[0]])
  }

  function SplitArguments(s: string): seq<string>
    decreases |s|
  {
    if s == "" then []
    else if IsBlank(s[0]) then SplitArguments(s[1..])
    else
      var (argument, rest) := ReadArgument(s, false, "");
      [argument] + SplitArguments(rest)
  }

  // ----- quoting is undone -----

  lemma {:induction false} RunOf(n: nat, tail: string)
    requires tail != "" && tail[0] != '\\'
    ensures Run(Backslashes(n) + tail) == n
    ensures (Backslashes(n) + tail)[n..] == tail
  {
    if n > 0 {
      assert (Backslashes(n) + tail)[1..] == Backslashes(n - 1) + tail;
      RunOf(n - 1, tail);
    }
  }

  /** Backslashes before anything but a quote are literal. */
  lemma {:induction false} ReadLiteralRun(n: nat, tail: string, inQuotes: bool, acc: string)
    requires tail != "" && tail[0] != '\\' && tail[0] != '\"'
    ensures ReadArgument(Backslashes(n) + tail, inQuotes, acc) == ReadArgument(tail, inQuotes, acc + Backslashes(n))
  {
    RunOf(n, tail);
    assert n == 0 ==> Backslashes(n) + tail == tail && acc + Backslashes(n) == acc;
  }

  /** An even run before a quote halves and leaves the quote to be read. */
  lemma {:induction false} ReadEvenRun(n: nat, tail: string, inQuotes: bool, acc: string)
    requires tail != "" && tail[0] == '\"'
    ensures ReadArgument(Backslashes(2 * n) + tail, inQuotes, acc)
         == ReadArgument(tail, inQuotes, acc + Backslashes(n))
  {
    RunOf(2 * n, tail);
    assert n == 0 ==> Backslashes(2 * n) + tail == tail && acc + Backslashes(n) == acc;
  }

  /** An odd run before a quote halves and makes the quote literal. */
  lemma {:induction false} ReadOddRun(n: nat, tail: string, inQuotes: bool, acc: string)
    ensures ReadArgument(Backslashes(2 * n + 1) + "\"" + tail, inQuotes, acc)
         == ReadArgument(tail, inQuotes, acc + Backslashes(n) + "\"")
  {
    var text := Backslashes(2 * n + 1) + "\"" + tail;
    assert text == Backslashes(2 * n + 1) + ("\"" + tail);
    RunOf(2 * n + 1, "\"" + tail);
    assert text[2 * n + 2..] == tail;
    assert (2 * n + 1) / 2 == n;
  }

  lemma {:induction false} ReadOrdinary(c: char, tail: string, inQuotes: bool, acc: string)
    requires c != '\\' && c != '\"' && (inQuotes || !IsBlank(c))
    ensures ReadArgument([c] + tail, inQuotes, acc) == ReadArgument(tail, inQuotes, acc + [c])
  {
    assert ([c] + tail)[1..] == tail;
  }

  predicate EndsArgument(tail: string) {
    tail == "" || IsBlank(tail[0])
  }

  lemma {:induction false} ReadClosingQuote(tail: string, acc: string)
    requires EndsArgument(tail)
    ensures ReadArgument("\"" + tail, true, acc) == (acc, tail)
  {
    assert ("\"" + tail)[1..] == tail;
  }

  lemma {:induction false} QuoteFromParsesBack(s: string, pending: nat, tail: string, acc: string)
    requires EndsArgument(tail)
    ensures ReadArgument(QuoteFrom(s, pending) + tail, true, acc) == (acc + Backslashes(pending) + s, tail)
    decreases |s|
  {
    var text := QuoteFrom(s, pending) + tail;
    var held := acc + Backslashes(pending);
    if s == "" {
      assert text == Backslashes(2 * pending) + ("\"" + tail);
      ReadEvenRun(pending, "\"" + tail, true, acc);
      ReadClosingQuote(tail, held);
      assert held + s == held;
    } else {
      var rest := QuoteFrom(s[1..], 0) + tail;
      assert s == [s[0]] + s[1..];
      if s[0] == '\\' {
        QuoteFromParsesBack(s[1..], pending + 1, tail, acc);
        assert acc + Backslashes(pending + 1) + s[1..] == held + s;
      } else if s[0] == '\"' {
        assert text == Backslashes(2 * pending + 1) + "\"" + rest;
        ReadOddRun(pending, rest, true, acc);
        QuoteFromParsesBack(s[1..], 0, tail, held + "\"");
        assert held + "\"" + Backslashes(0) + s[1..] == held + s;
      } else {
        assert text == Backslashes(pending) + ([s[0]] + rest);
        ReadLiteralRun(pending, [s[0]] + rest, true, acc);
        ReadOrdinary(s[0], rest, true, held);
        QuoteFromParsesBack(s[1..], 0, tail, held + [s[0]]);
        assert held + [s[0]] + Backslashes(0) + s[1..] == held + s;
      }
    }
  }

  /** Whatever the value holds, its quoted form is read back as that one argument. */
  lemma {:induction false} QuotedParsesBack(value: string, tail: string)
    requires EndsArgument(tail)
    ensures SplitArguments(Quoted(value) + tail) == [value] + SplitArguments(tail)
  {
    var text := Quoted(value) + tail;
    assert text == "\"" + (QuoteFrom(value, 0) + tail);
    assert text[1..] == QuoteFrom(value, 0) + tail;
    QuoteFromParsesBack(value, 0, tail, "");
    assert "" + Backslashes(0) + value == value;
  }

  // ----- argument tails -----

  datatype Token = Value(text: string) | Flag(text: string) {
    /** Flags are written bare, values are quoted. */
    function Written(): string {
      match this
      case Value(text) => Quoted(text)
      case Flag(text) => text
    }

    predicate Valid() {
      Flag? ==> text != "" && Bare(text)
    }
  }

  predicate Bare(text: string) {
    forall i :: 0 <= i < |text| ==> !IsBlank(text[i]) && text[i] != '\\' && text[i] != '\"'
  }

  function Tail(tokens: seq<Token>): string {
    if tokens == [] then "" else " " + tokens[0].Written() + Tail(tokens[1..])
  }

  function Texts(tokens: seq<Token>): seq<string> {
    if tokens == [] then [] else [tokens[0].text] + Texts(tokens[1..])
  }

  lemma {:induction false} FlagParsesBack(flag: string, tail: string, acc: string)
    requires EndsArgument(tail)
    requires Bare(flag)
    ensures ReadArgument(flag + tail, false, acc) == (acc + flag, tail)
    decreases |flag|
  {
    if flag == "" {
      assert flag + tail == tail && acc + flag == acc;
    } else {
      assert flag + tail == [flag[0]] + (flag[1..] + tail);
      ReadOrdinary(flag[0], flag[1..] + tail, false, acc);
      FlagParsesBack(flag[1..], tail, acc + [flag[0]]);
      assert acc + [flag[0]] + flag[1..] == acc + flag;
    }
  }

  /** Any list of values and flags, written with one space before each, splits back into its texts. */
  lemma {:induction false} TailParsesBack(tokens: seq<Token>)
    requires forall i :: 0 <= i < |tokens| ==> tokens[i].Valid()
    ensures EndsArgument(Tail(tokens))
    ensures SplitArguments(Tail(tokens)) == Texts(tokens)
  {
    if tokens != [] {
      var head, rest := tokens[0], Tail(tokens[1..]);
      assert head.Valid();
      TailParsesBack(tokens[1..]);
      var text := head.Written() + rest;
      assert Tail(tokens) == " " + text;
      assert Tail(tokens)[1..] == text;
      match head
      case Value(value) => QuotedParsesBack(value, rest);
      case Flag(flag) =>
        FlagParsesBack(flag, rest, "");
        assert "" + flag == flag;
    }
  }

  // ----- the whole command line -----

  /** argv[0] has its own rule: quotes only group, backslashes are never special. */
  function ReadProgramName(s: string, inQuotes: bool, acc: string): (string, string) {
    if s == "" || (!inQuotes && IsBlank(s[0])) then (acc, s)
    else if s[0] == '\"' then ReadProgramName(s[1..], !inQuotes, acc)
    else ReadProgramName(s[1..], inQuotes, acc + [s[0]])
  }

  function ParseCommandLine(s: string): seq<string> {
    var (name, rest) := ReadProgramName(s, false, "");
    [name] + SplitArguments(rest)
  }

  /** What a reader of a NUL-terminated buffer sees. */
  function CString(buffer: string): string {
    if buffer == "" || buffer[0] == NUL then "" else [buffer[0]] + CString(buffer[1..])
  }

  function ProbeCommand(probe: string, deniedFile: string, pipe: string): string {
    Quoted(probe) + " --probe " + Quoted(deniedFile) + " " + Quoted(pipe)
  }

  /** The backslashes held back at the end of a value. */
  function Held(s: string, pending: nat): nat {
    if s == "" then pending else if s[0] == '\\' then Held(s[1..], pending + 1) else Held(s[1..], 0)
  }

  lemma {:induction false} HeldIsTrailing(s: string, pending: nat)
    ensures Held(s, pending) > 0 <==> if s == "" then pending > 0 else s[|s| - 1] == '\\'
  {
    if s != "" {
      HeldIsTrailing(s[1..], if s[0] == '\\' then pending + 1 else 0);
    }
  }

  lemma {:induction false} QuoteFreeForm(s: string, pending: nat)
    requires '\"' !in s
    ensures QuoteFrom(s, pending) == Backslashes(pending) + s + Backslashes(Held(s, pending)) + "\""
  {
    if s == "" {
    } else {
      assert s == [s[0]] + s[1..];
      if s[0] == '\\' {
        QuoteFreeForm(s[1..], pending + 1);
        assert Backslashes(pending + 1) + s[1..] == Backslashes(pending) + s;
      } else {
        QuoteFreeForm(s[1..], 0);
        assert Backslashes(0) + s[1..] == s[1..];
      }
    }
  }

  lemma {:induction false} ReadQuotedName(body: string, tail: string, acc: string)
    requires '\"' !in body && EndsArgument(tail)
    ensures ReadProgramName(body + "\"" + tail, true, acc) == (acc + body, tail)
    decreases |body|
  {
    var text := body + "\"" + tail;
    if body == "" {
      assert text[1..] == tail && acc + body == acc;
    } else {
      assert text[1..] == body[1..] + "\"" + tail;
      ReadQuotedName(body[1..], tail, acc + [body[0]]);
      assert acc + [body[0]] + body[1..] == acc + body;
    }
  }

  lemma {:induction false} NameHasNoQuote(s: string, inQuotes: bool, acc: string)
    requires '\"' !in acc
    ensures '\"' !in ReadProgramName(s, inQuotes, acc).0
    decreases |s|
  {
    if s == "" || (!inQuotes && IsBlank(s[0])) {
    } else if s[0] == '\"' {
      NameHasNoQuote(s[1..], !inQuotes, acc);
    } else {
      NameHasNoQuote(s[1..], inQuotes, acc + [s[0]]);
    }
  }

  /** A quote-free program name comes back with its trailing backslashes doubled. */
  lemma ProgramNameParsed(probe: string, tail: string)
    requires '\"' !in probe && EndsArgument(tail)
    ensures ReadProgramName(Quoted(probe) + tail, false, "") == (probe + Backslashes(Held(probe, 0)), tail)
  {
    var body := probe + Backslashes(Held(probe, 0));
    QuoteFreeForm(probe, 0);
    assert QuoteFrom(probe, 0) == body + "\"" by {
      assert Backslashes(0) + probe == probe;
    }
    assert (Quoted(probe) + tail)[1..] == body + "\"" + tail;
    ReadQuotedName(body, tail, "");
    assert "" + body == body;
  }

  // ----- NUL characters -----

  lemma {:induction false} CStringHasNoNul(buffer: string)
    ensures NUL !in CString(buffer)
  {
    if buffer != "" && buffer[0] != NUL {
      CStringHasNoNul(buffer[1..]);
    }
  }

  lemma {:induction false} CStringOfNulFree(text: string)
    requires NUL !in text
    ensures CString(text + [NUL]) == text
  {
    if text != "" {
      assert (text + [NUL])[1..] == text[1..] + [NUL];
      CStringOfNulFree(text[1..]);
    }
  }

  lemma {:induction false} QuoteFromHasNoNul(s: string, pending: nat)
    requires NUL !in s
    ensures NUL !in QuoteFrom(s, pending)
  {
    if s != "" {
      QuoteFromHasNoNul(s[1..], if s[0] == '\\' then pending + 1 else 0);
    }
  }

  lemma {:induction false} NameHasNoNul(s: string, inQuotes: bool, acc: string)
    requires NUL !in s && NUL !in acc
    ensures NUL !in ReadProgramName(s, inQuotes, acc).0 && NUL !in ReadProgramName(s, inQuotes, acc).1
    decreases |s|
  {
    if s == "" || (!inQuotes && IsBlank(s[0])) {
    } else if s[0] == '\"' {
      NameHasNoNul(s[1..], !inQuotes, acc);
    } else {
      NameHasNoNul(s[1..], inQuotes, acc + [s[0]]);
    }
  }

  lemma {:induction false} ArgumentHasNoNul(s: string, inQuotes: bool, acc: string)
    requires NUL !in s && NUL !in acc
    ensures NUL !in ReadArgument(s, inQuotes, acc).0 && NUL !in ReadArgument(s, inQuotes, acc).1
    decreases |s|
  {
    if s == "" || (!inQuotes && IsBlank(s[0])) {
    } else if s[0] == '\\' {
      var n := Run(s);
      if n == |s| || s[n] != '\"' {
        ArgumentHasNoNul(s[n..], inQuotes, acc + Backslashes(n));
      } else if n % 2 == 0 {
        ArgumentHasNoNul(s[n..], inQuotes, acc + Backslashes(n / 2));
      } else {
        ArgumentHasNoNul(s[n + 1..], inQuotes, acc + Backslashes(n / 2) + "\"");
      }
    } else if s[0] == '\"' {
      if inQuotes && |s| > 1 && s[1] == '\"' {
        ArgumentHasNoNul(s[2..], inQuotes, acc + "\"");
      } else {
        ArgumentHasNoNul(s[1..], !inQuotes, acc);
      }
    } else {
      ArgumentHasNoNul(s[1..], inQuotes, acc + [s[0]]);
    }
  }

  lemma {:induction false} ArgumentsHaveNoNul(s: string)
    requires NUL !in s
    ensures forall argument :: argument in SplitArguments(s) ==> NUL !in argument
    decreases |s|
  {
    if s == "" {
    } else if IsBlank(s[0]) {
      ArgumentsHaveNoNul(s[1..]);
    } else {
      ArgumentHasNoNul(s, false, "");
      ArgumentsHaveNoNul(ReadArgument(s, false, "").1);
    }
  }

  /**
   The probe command line is read back as the program and its three arguments exactly when
   no part holds a NUL and the program path has no quote and no trailing backslash; the
   other two values may hold anything else.
   */
  lemma ProbeCommandParsesBack(probe: string, deniedFile: string, pipe: string)
    ensures ParseCommandLine(CString(ProbeCommand(probe, deniedFile, pipe) + [NUL]))
         == [probe, "--probe", deniedFile, pipe]
       <==> && NUL !in probe && NUL !in deniedFile && NUL !in pipe
            && '\"' !in probe && (probe == "" || probe[|probe| - 1] != '\\')
  {
    var command := ProbeCommand(probe, deniedFile, pipe);
    var seen := CString(command + [NUL]);
    var parsed := ParseCommandLine(seen);
    var wanted := [probe, "--probe", deniedFile, pipe];
    var (name, rest) := ReadProgramName(seen, false, "");
    CStringHasNoNul(command + [NUL]);
    NameHasNoNul(seen, false, "");
    NameHasNoQuote(seen, false, "");
    ArgumentsHaveNoNul(rest);
    assert forall text :: text in parsed ==> NUL !in text;
    if parsed == wanted {
      assert parsed[0] == probe && parsed[2] == deniedFile && parsed[3] == pipe;
      assert deniedFile in parsed && pipe in parsed;
    }
    if NUL !in probe && NUL !in deniedFile && NUL !in pipe && '\"' !in probe {
      NulFreeCommandParsed(probe, deniedFile, pipe);
      HeldIsTrailing(probe, 0);
      assert |probe + Backslashes(Held(probe, 0))| == |probe| + Held(probe, 0);
      if Held(probe, 0) == 0 {
        assert probe + Backslashes(0) == probe;
      } else {
        assert parsed[0] != wanted[0];
      }
    }
  }

  lemma {:induction false} NulFreeCommandParsed(probe: string, deniedFile: string, pipe: string)
    requires NUL !in probe && NUL !in deniedFile && NUL !in pipe && '\"' !in probe
    ensures ParseCommandLine(CString(ProbeCommand(probe, deniedFile, pipe) + [NUL]))
         == [probe + Backslashes(Held(probe, 0)), "--probe", deniedFile, pipe]
  {
    var command := ProbeCommand(probe, deniedFile, pipe);
    CommandHasNoNul(probe, deniedFile, pipe);
    CStringOfNulFree(command);
    var tail := ProbeTail(deniedFile, pipe);
    TailIsProbeTail(deniedFile, pipe);
    assert command == Quoted(probe) + tail;
    ProgramParsed(probe, tail);
  }

  lemma ProgramParsed(probe: string, tail: string)
    requires '\"' !in probe && EndsArgument(tail)
    ensures ParseCommandLine(Quoted(probe) + tail) == [probe + Backslashes(Held(probe, 0))] + SplitArguments(tail)
  {
    ProgramNameParsed(probe, tail);
  }

  lemma {:induction false} CommandHasNoNul(probe: string, deniedFile: string, pipe: string)
    requires NUL !in probe && NUL !in deniedFile && NUL !in pipe
    ensures NUL !in ProbeCommand(probe, deniedFile, pipe)
  {
    QuoteFromHasNoNul(probe, 0);
    QuoteFromHasNoNul(deniedFile, 0);
    QuoteFromHasNoNul(pipe, 0);
  }

  function ProbeTail(deniedFile: string, pipe: string): string {
    " --probe " + Quoted(deniedFile) + " " + Quoted(pipe)
  }

  lemma {:induction false} TailIsProbeTail(deniedFile: string, pipe: string)
    ensures EndsArgument(ProbeTail(deniedFile, pipe))
    ensures SplitArguments(ProbeTail(deniedFile, pipe)) == ["--probe", deniedFile, pipe]
  {
    var tokens := [Flag("--probe"), Value(deniedFile), Value(pipe)];
    assert tokens[1..] == [Value(deniedFile), Value(pipe)];
    assert tokens[1..][1..] == [Value(pipe)];
    assert tokens[1..][1..][1..] == [];
    assert Tail([Value(pipe)]) == " " + Quoted(pipe);
    assert Tail([Value(deniedFile), Value(pipe)]) == " " + Quoted(deniedFile) + (" " + Quoted(pipe));
    assert Tail(tokens) == ProbeTail(deniedFile, pipe);
    assert Texts([Value(pipe)]) == [pipe];
    assert Texts([Value(deniedFile), Value(pipe)]) == [deniedFile, pipe];
    assert Texts(tokens) == ["--probe", deniedFile, pipe];
    TailParsesBack(tokens);
  }

  /** A program path that ends in a backslash comes back with two. */
  lemma TrailingBackslashIsDoubled()
    ensures ParseCommandLine(CString(ProbeCommand("C:\\", "d", "p") + [NUL])) == ["C:\\\\", "--probe", "d", "p"]
  {
    NulFreeCommandParsed("C:\\", "d", "p");
    HeldAtEnd();
    assert "C:\\" + Backslashes(1) == "C:\\\\";
  }

  lemma HeldAtEnd()
    ensures Held("C:\\", 0) == 1
  {
    assert "C:\\"[1..] == ":\\" && ":\\"[1..] == "\\" && "\\"[1..] == "";
  }
}
