/**
 The incremental reader of server-sent events: a buffer cut at blank lines, fed by
 pieces that may end anywhere, even inside a delimiter.
 */
module Sse {
  import opened Common
  import Sorting

  // ----- cutting a buffer at blank lines -----

  /** Where the first blank-line delimiter starts. */
  function FirstDelimiter(s: string): (at: Option<nat>)
    ensures at.Some? ==> at.value + 2 <= |s|
  {
    if |s| < 2 then None
    else if s[0] == '\n' && s[1] == '\n' then Some(0)
    else
      match FirstDelimiter(s[1..])
      case None => None
      case Some(i) => Some(i + 1)
  }

  /** The leftmost, non-overlapping cuts; the last piece is what has no delimiter yet. */
  function Split(s: string): (parts: seq<string>)
    ensures parts != []
    decreases |s|
  {
    match FirstDelimiter(s)
    case None => [s]
    case Some(i) => [s[..i]] + Split(s[i + 2..])
  }

  function Complete(s: string): seq<string> {
    Split(s)[..|Split(s)| - 1]
  }

  function Rest(s: string): string {
    Split(s)[|Split(s)| - 1]
  }

  lemma {:induction false} DelimiterStays(a: string, b: string)
    requires FirstDelimiter(a).Some?
    ensures FirstDelimiter(a + b) == FirstDelimiter(a)
  {
    if !(a[0] == '\n' && a[1] == '\n') {
      assert (a + b)[1..] == a[1..] + b;
      DelimiterStays(a[1..], b);
    }
  }

  /** Keeping only the rest and reading on cuts the text as if it had been read at once. */
  lemma {:induction false} SplitResumes(a: string, b: string)
    ensures Complete(a + b) == Complete(a) + Complete(Rest(a) + b)
    ensures Rest(a + b) == Rest(Rest(a) + b)
    decreases |a|
  {
    match FirstDelimiter(a)
    case None =>
    case Some(i) =>
      DelimiterStays(a, b);
      var tail := a[i + 2..];
      assert (a + b)[..i] == a[..i];
      assert (a + b)[i + 2..] == tail + b;
      SplitResumes(tail, b);
      SplitStep(a);
      SplitStep(a + b);
  }

  lemma SplitStep(s: string)
    requires FirstDelimiter(s).Some?
    ensures var i := FirstDelimiter(s).value;
      Complete(s) == [s[..i]] + Complete(s[i + 2..]) && Rest(s) == Rest(s[i + 2..])
  {
  }

  function Joined(chunks: seq<string>): string {
    if chunks == [] then "" else chunks[0] + "\n\n" + Joined(chunks[1..])
  }

  /** The pieces and delimiters make up the text again, and no piece still holds a delimiter. */
  lemma {:induction false} SplitIsExact(s: string)
    ensures Joined(Complete(s)) + Rest(s) == s
    ensures FirstDelimiter(Rest(s)) == None
    ensures forall i :: 0 <= i < |Complete(s)| ==> FirstDelimiter(Complete(s)[i]) == None
    decreases |s|
  {
    match FirstDelimiter(s)
    case None =>
      assert "" + s == s;
    case Some(i) =>
      var rest := s[i + 2..];
      SplitStep(s);
      SplitIsExact(rest);
      DelimiterIsFirst(s);
      JoinedStep(s[..i], Complete(rest), Rest(rest), rest, s);
      PiecesStep(s[..i], Complete(rest));
  }

  lemma JoinedStep(piece: string, chunks: seq<string>, left: string, rest: string, s: string)
    requires Joined(chunks) + left == rest
    requires |piece| + 2 <= |s| && s[..|piece|] == piece && s[|piece|..|piece| + 2] == "\n\n"
    requires s[|piece| + 2..] == rest
    ensures Joined([piece] + chunks) + left == s
  {
    assert ([piece] + chunks)[1..] == chunks;
    assert s == piece + "\n\n" + rest;
  }

  lemma PiecesStep(piece: string, chunks: seq<string>)
    requires FirstDelimiter(piece) == None
    requires forall i :: 0 <= i < |chunks| ==> FirstDelimiter(chunks[i]) == None
    ensures forall i :: 0 <= i < |[piece] + chunks| ==> FirstDelimiter(([piece] + chunks)[i]) == None
  {
  }

  lemma {:induction false} DelimiterIsFirst(s: string)
    requires FirstDelimiter(s).Some?
    ensures var i := FirstDelimiter(s).value; s[i..i + 2] == "\n\n" && FirstDelimiter(s[..i]) == None
  {
    if s[0] == '\n' && s[1] == '\n' {
    } else {
      DelimiterIsFirst(s[1..]);
      var i := FirstDelimiter(s).value;
      assert s[i] == s[1..][i - 1] && s[i + 1] == s[1..][i];
      assert s[1..][i - 1..i + 1] == "\n\n";
      var head := s[..i];
      assert head[1..] == s[1..][..i - 1];
      assert |head| >= 2 ==> head[0] == s[0] && head[1] == s[1];
    }
  }

  // ----- one event -----

  /** The parts of an accepted envelope that the reader uses; `body` stands for the rest. */
  datatype AgentEvent = AgentEvent(
    eventType: string, content: Option<string>, requestId: string, inputTokens: int, outputTokens: int, body: string)

  /** JSON parsing and envelope validation; None where the source throws. */
  type Decoder = string -> Option<AgentEvent>

  datatype Parsed = Agent(event: AgentEvent) | Done | Ignore | Malformed

  predicate IsSpace(c: char) {
    || '\U{0009}' <= c <= '\U{000D}'
    || '\U{2000}' <= c <= '\U{200A}'
    || c in {' ', '\U{00A0}', '\U{1680}', '\U{2028}', '\U{2029}', '\U{202F}', '\U{205F}', '\U{3000}', '\U{FEFF}'}
  }

  function TrimStart(s: string): string {
    if s != "" && IsSpace(s[0]) then TrimStart(s[1..]) else s
  }

  function TrimEnd(s: string): string {
    if s != "" && IsSpace(s[|s| - 1]) then TrimEnd(s[..|s| - 1]) else s
  }

  function Trim(s: string): string {
    TrimEnd(TrimStart(s))
  }

  function Lines(s: string, line: string): seq<string> {
    if s == "" then [line]
    else if s[0] == '\n' then [line] + Lines(s[1..], "")
    else Lines(s[1..], line + [s[0]])
  }

  function DataOf(lines: seq<string>): seq<string> {
    if lines == [] then []
    else
      var line := Trim(lines[0]);
      (if "data:" <= line then [Trim(line[5..])] else []) + DataOf(lines[1..])
  }

  function JoinLines(lines: seq<string>): string {
    if lines == [] then "" else if |lines| == 1 then lines[0] else lines[0] + "\n" + JoinLines(lines[1..])
  }

  function ParseChunk(chunk: string, decode: Decoder): Parsed {
    var data := DataOf(Lines(chunk, ""));
    if data == [] then Ignore
    else
      var text := JoinLines(data);
      if text == "[DONE]" then Done
      else
        match decode(text)
        case None => Malformed
        case Some(event) => Agent(event)
  }

  /** All chunks or nothing: one malformed chunk fails the whole call. */
  function ParseChunks(chunks: seq<string>, decode: Decoder): Option<seq<Parsed>> {
    if chunks == [] then Some([])
    else
      match (ParseChunk(chunks[0], decode), ParseChunks(chunks[1..], decode))
      case (Malformed, _) => None
      case (_, None) => None
      case (Ignore, rest) => rest
      case (parsed, Some(rest)) => Some([parsed] + rest)
  }

  lemma {:induction false} ParseChunksConcat(a: seq<string>, b: seq<string>, decode: Decoder)
    ensures ParseChunks(a + b, decode) ==
      match (ParseChunks(a, decode), ParseChunks(b, decode))
      case (Some(x), Some(y)) => Some(x + y)
      case _ => None
  {
    if a == [] {
      assert a + b == b;
      assert forall y: seq<Parsed> :: [] + y == y;
    } else {
      assert (a + b)[1..] == a[1..] + b;
      ParseChunksConcat(a[1..], b, decode);
      match (ParseChunk(a[0], decode), ParseChunks(a[1..], decode), ParseChunks(b, decode)) {
        case (p, Some(x), Some(y)) => assert [p] + (x + y) == [p] + x + y;
        case _ =>
      }
    }
  }

  // ----- the read loop -----

  /** What the caller has seen so far; `delivered` and `deltas` are the handler calls in order. */
  datatype Progress = Progress(
    completed: bool, requestId: string, inputTokens: int, outputTokens: int,
    delivered: seq<AgentEvent>, deltas: seq<(string, AgentEvent)>)

  function Start(requestId: string): Progress {
    Progress(false, requestId, 0, 0, [], [])
  }

  function Handle(p: Progress, parsed: Parsed): Progress {
    match parsed
    case Done => p.(completed := true)
    case Agent(event) =>
      var q := p.(delivered := p.delivered + [event]);
      var r := if event.eventType == "llm.delta" && event.content.Some?
        then q.(deltas := q.deltas + [(event.content.value, event)]) else q;
      if event.eventType == "run.completed" then
        r.(requestId := if event.requestId != "" then event.requestId else r.requestId,
           inputTokens := event.inputTokens, outputTokens := event.outputTokens)
      else r
    case _ => p
  }

  function HandleAll(p: Progress, parsed: seq<Parsed>): Progress
    decreases |parsed|
  {
    if parsed == [] then p else HandleAll(Handle(p, parsed[0]), parsed[1..])
  }

  lemma {:induction false} HandleAllConcat(p: Progress, a: seq<Parsed>, b: seq<Parsed>)
    ensures HandleAll(p, a + b) == HandleAll(HandleAll(p, a), b)
    decreases |a|
  {
    if a == [] {
      assert a + b == b;
    } else {
      assert (a + b)[1..] == a[1..] + b;
      HandleAllConcat(Handle(p, a[0]), a[1..], b);
    }
  }

  /** Finished with some text left unparsed, or stopped by a malformed chunk. */
  datatype Outcome = Finished(progress: Progress, left: string) | Failed(progress: Progress)

  /** Reading the pieces one after the other. */
  function Stream(pieces: seq<string>, buffer: string, progress: Progress, decode: Decoder): Outcome
    decreases |pieces|
  {
    if pieces == [] then Finished(progress, buffer)
    else
      var text := buffer + pieces[0];
      match ParseChunks(Complete(text), decode)
      case None => Failed(progress)
      case Some(parsed) => Stream(pieces[1..], Rest(text), HandleAll(progress, parsed), decode)
  }

  method StreamAgentSSE(pieces: seq<string>, requestId: string, decode: Decoder) returns (outcome: Outcome)
    requires pieces != []
    ensures outcome == Stream(pieces, "", Start(requestId), decode)
  {
    var buffer, progress := "", Start(requestId);
    var done, next := false, 0;
    while !done
      invariant 0 <= next <= |pieces| && (done <==> next == |pieces|)
      invariant Stream(pieces[next..], buffer, progress, decode) == Stream(pieces, "", Start(requestId), decode)
      decreases |pieces| - next
    {
      assert pieces[next..][1..] == pieces[next + 1..];
      done := next == |pieces| - 1;
      buffer := buffer + pieces[next];
      next := next + 1;
      var parsed := ParseChunks(Complete(buffer), decode);
      if parsed.None? {
        return Failed(progress);
      }
      buffer := Rest(buffer);
      ghost var before := progress;
      for i := 0 to |parsed.value|
        invariant HandleAll(progress, parsed.value[i..]) == HandleAll(before, parsed.value)
      {
        assert parsed.value[i..][1..] == parsed.value[i + 1..];
        progress := Handle(progress, parsed.value[i]);
      }
    }
    outcome := Finished(progress, buffer);
  }

  // ----- chunk independence -----

  function Concat(pieces: seq<string>): string {
    if pieces == [] then "" else pieces[0] + Concat(pieces[1..])
  }

  /** What the whole text gives when it is parsed once. */
  function ParsedOnce(text: string, progress: Progress, decode: Decoder): Outcome {
    match ParseChunks(Complete(text), decode)
    case None => Failed(progress)
    case Some(parsed) => Finished(HandleAll(progress, parsed), Rest(text))
  }

  predicate WellFormed(text: string, decode: Decoder) {
    ParseChunks(Complete(text), decode).Some?
  }

  /** A buffer that is only the rest of what came before. */
  lemma RestHasNoDelimiter(s: string)
    ensures Complete(Rest(s)) == [] && Rest(Rest(s)) == Rest(s)
    decreases |s|
  {
    match FirstDelimiter(s)
    case None =>
    case Some(i) =>
      SplitStep(s);
      RestHasNoDelimiter(s[i + 2..]);
  }

  lemma {:induction false} StreamIsOneParse(pieces: seq<string>, buffer: string, progress: Progress, decode: Decoder)
    requires Complete(buffer) == [] && Rest(buffer) == buffer
    requires WellFormed(buffer + Concat(pieces), decode)
    ensures Stream(pieces, buffer, progress, decode) == ParsedOnce(buffer + Concat(pieces), progress, decode)
    decreases |pieces|
  {
    if pieces == [] {
      assert buffer + "" == buffer;
    } else {
      var text, later := buffer + pieces[0], Concat(pieces[1..]);
      assert buffer + Concat(pieces) == text + later;
      SplitResumes(text, later);
      ParseChunksConcat(Complete(text), Complete(Rest(text) + later), decode);
      var first := ParseChunks(Complete(text), decode).value;
      RestHasNoDelimiter(text);
      StreamIsOneParse(pieces[1..], Rest(text), HandleAll(progress, first), decode);
      HandleAllConcat(progress, first, ParseChunks(Complete(Rest(text) + later), decode).value);
    }
  }

  /** However a well-formed text is cut into pieces, handler calls, totals and leftover are the same. */
  lemma ChunkIndependence(a: seq<string>, b: seq<string>, requestId: string, decode: Decoder)
    requires Concat(a) == Concat(b)
    requires WellFormed(Concat(a), decode)
    ensures Stream(a, "", Start(requestId), decode) == Stream(b, "", Start(requestId), decode)
         == ParsedOnce(Concat(a), Start(requestId), decode)
  {
    assert "" + Concat(a) == Concat(a);
    StreamIsOneParse(a, "", Start(requestId), decode);
    StreamIsOneParse(b, "", Start(requestId), decode);
  }

  /**
   For any text: the stream fails exactly when the whole text would, and what was handled before
   the failure is the effect of some of the leading chunks, all well formed.
   */
  lemma {:induction false} FailureIndependence(pieces: seq<string>, buffer: string, progress: Progress, decode: Decoder)
    returns (handled: nat)
    requires Complete(buffer) == [] && Rest(buffer) == buffer
    ensures Stream(pieces, buffer, progress, decode).Failed? <==> !WellFormed(buffer + Concat(pieces), decode)
    ensures var chunks := Complete(buffer + Concat(pieces));
      Stream(pieces, buffer, progress, decode).Failed? ==>
        && handled <= |chunks|
        && ParseChunks(chunks[..handled], decode).Some?
        && Stream(pieces, buffer, progress, decode).progress
        == HandleAll(progress, ParseChunks(chunks[..handled], decode).value)
    decreases |pieces|
  {
    handled := 0;
    if pieces == [] {
      assert buffer + "" == buffer;
    } else {
      var text, later := buffer + pieces[0], Concat(pieces[1..]);
      var chunks := Complete(buffer + Concat(pieces));
      assert buffer + Concat(pieces) == text + later;
      SplitResumes(text, later);
      ParseChunksConcat(Complete(text), Complete(Rest(text) + later), decode);
      RestHasNoDelimiter(text);
      match ParseChunks(Complete(text), decode)
      case None =>
        assert chunks[..0] == [];
      case Some(first) =>
        var more := FailureIndependence(pieces[1..], Rest(text), HandleAll(progress, first), decode);
        if Stream(pieces, buffer, progress, decode).Failed? {
          var tail := Complete(Rest(text) + later);
          handled := |Complete(text)| + more;
          assert chunks[..handled] == Complete(text) + tail[..more];
          ParseChunksConcat(Complete(text), tail[..more], decode);
          HandleAllConcat(progress, first, ParseChunks(tail[..more], decode).value);
        }
    }
  }

  // ----- what a chunk means -----

  predicate AllSpace(s: string) {
    forall i :: 0 <= i < |s| ==> IsSpace(s[i])
  }

  lemma {:induction false} TrimStartExact(s: string) returns (a: string)
    ensures s == a + TrimStart(s) && AllSpace(a)
    ensures TrimStart(s) != "" ==> !IsSpace(TrimStart(s)[0])
  {
    if s != "" && IsSpace(s[0]) {
      var rest := TrimStartExact(s[1..]);
      a := [s[0]] + rest;
    } else {
      a := "";
    }
  }

  lemma {:induction false} TrimEndExact(s: string) returns (b: string)
    ensures s == TrimEnd(s) + b && AllSpace(b)
    ensures TrimEnd(s) != "" ==> !IsSpace(TrimEnd(s)[|TrimEnd(s)| - 1])
  {
    if s != "" && IsSpace(s[|s| - 1]) {
      var front := TrimEndExact(s[..|s| - 1]);
      b := front + [s[|s| - 1]];
    } else {
      b := "";
    }
  }

  /** Trimming takes off spaces at both ends and stops at the first other character. */
  lemma TrimExact(s: string) returns (a: string, b: string)
    ensures s == a + Trim(s) + b && AllSpace(a) && AllSpace(b)
    ensures Trim(s) != "" ==> !IsSpace(Trim(s)[0]) && !IsSpace(Trim(s)[|Trim(s)| - 1])
  {
    a := TrimStartExact(s);
    b := TrimEndExact(TrimStart(s));
    assert Trim(s) != "" ==> Trim(s)[0] == TrimStart(s)[0];
  }

  /** A line of a chunk: a data line with spaces around its text, or anything that is no data line. */
  datatype Line = Data(left: string, middle: string, text: string, right: string) | Other(text: string) {
    function Written(): string {
      if Data? then left + "data:" + middle + text + right else text
    }

    predicate Valid() {
      && '\n' !in Written()
      && if Data? then AllSpace(left) && AllSpace(middle) && AllSpace(right) && Tight(text)
         else !("data:" <= Trim(text))
    }
  }

  /** Starts and ends with something else than a space. */
  predicate Tight(s: string) {
    s != "" ==> !IsSpace(s[0]) && !IsSpace(s[|s| - 1])
  }

  lemma {:induction false} TrimStartSkips(a: string, s: string)
    requires AllSpace(a) && (s != "" ==> !IsSpace(s[0]))
    ensures TrimStart(a + s) == s
  {
    if a == "" {
      assert a + s == s;
    } else {
      assert (a + s)[1..] == a[1..] + s;
      TrimStartSkips(a[1..], s);
    }
  }

  lemma {:induction false} TrimEndSkips(s: string, b: string)
    requires AllSpace(b) && (s != "" ==> !IsSpace(s[|s| - 1]))
    ensures TrimEnd(s + b) == s
  {
    if b == "" {
      assert s + b == s;
    } else {
      assert (s + b)[..|s + b| - 1] == s + b[..|b| - 1];
      TrimEndSkips(s, b[..|b| - 1]);
    }
  }

  lemma TrimSkips(a: string, s: string, b: string)
    requires AllSpace(a) && AllSpace(b) && Tight(s)
    ensures Trim(a + s + b) == s
  {
    if s == "" {
      assert a + s + b == (a + b) + "";
      TrimStartSkips(a + b, "");
    } else {
      assert a + s + b == a + (s + b);
      TrimStartSkips(a, s + b);
      TrimEndSkips(s, b);
    }
  }

  lemma EmptyDataIsRead(left: string, middle: string, right: string)
    requires AllSpace(left) && AllSpace(middle) && AllSpace(right)
    ensures DataIsRead(left + "data:" + middle + "" + right, "")
  {
    assert left + "data:" + middle + "" + right == left + "data:" + (middle + right);
    assert !IsSpace("data:"[0]) && !IsSpace("data:"[4]);
    TrimSkips(left, "data:", middle + right);
    assert "data:"[5..] == "" && Trim("") == "";
  }

  lemma FullDataIsRead(left: string, middle: string, text: string, right: string)
    requires AllSpace(left) && AllSpace(middle) && AllSpace(right) && Tight(text) && text != ""
    ensures DataIsRead(left + "data:" + middle + text + right, text)
  {
    var body := "data:" + middle + text;
    assert left + "data:" + middle + text + right == left + body + right;
    assert !IsSpace("data:"[0]) && body[0] == "data:"[0] && body[|body| - 1] == text[|text| - 1];
    TrimSkips(left, body, right);
    assert body[5..] == middle + text + "";
    TrimSkips(middle, text, "");
  }

  /** The line is taken for a data line with this text. */
  predicate DataIsRead(line: string, text: string) {
    "data:" <= Trim(line) && Trim(Trim(line)[5..]) == text
  }

  /** The text of a data line is found again, whatever spaces surround it. */
  lemma DataLineIsRead(line: Line)
    requires line.Data? && line.Valid()
    ensures DataIsRead(line.Written(), line.text)
  {
    if line.text == "" {
      EmptyDataIsRead(line.left, line.middle, line.right);
    } else {
      FullDataIsRead(line.left, line.middle, line.text, line.right);
    }
  }

  function Texts(lines: seq<Line>): seq<string> {
    if lines == [] then [] else (if lines[0].Data? then [lines[0].text] else []) + Texts(lines[1..])
  }

  function Rows(lines: seq<Line>): seq<string> {
    seq(|lines|, i requires 0 <= i < |lines| => lines[i].Written())
  }

  lemma {:induction false} LinesOf(line: string, rest: string, start: string)
    requires '\n' !in line
    ensures Lines(line + rest, start) == if rest == "" then [start + line]
      else if rest[0] == '\n' then [start + line] + Lines(rest[1..], "") else Lines(rest, start + line)
  {
    if line == "" {
      assert line + rest == rest && start + line == start;
    } else {
      assert (line + rest)[1..] == line[1..] + rest;
      LinesOf(line[1..], rest, start + [line[0]]);
      assert start + [line[0]] + line[1..] == start + line;
    }
  }

  /** Splitting at line ends undoes joining. */
  lemma {:induction false} LinesJoined(rows: seq<string>)
    requires rows != [] && forall i :: 0 <= i < |rows| ==> '\n' !in rows[i]
    ensures Lines(JoinLines(rows), "") == rows
  {
    assert "" + rows[0] == rows[0];
    if |rows| == 1 {
      LinesOf(rows[0], "", "");
      assert rows[0] + "" == rows[0];
    } else {
      var rest := "\n" + JoinLines(rows[1..]);
      assert JoinLines(rows) == rows[0] + rest;
      assert rest[1..] == JoinLines(rows[1..]);
      LinesOf(rows[0], rest, "");
      LinesJoined(rows[1..]);
      assert rows == [rows[0]] + rows[1..];
    }
  }

  lemma {:induction false} DataOfRows(lines: seq<Line>)
    requires forall i :: 0 <= i < |lines| ==> lines[i].Valid()
    ensures DataOf(Rows(lines)) == Texts(lines)
  {
    if lines != [] {
      assert Rows(lines)[1..] == Rows(lines[1..]);
      DataOfRows(lines[1..]);
      if lines[0].Data? {
        DataLineIsRead(lines[0]);
      }
    }
  }

  /** A chunk means its data lines, joined: nothing if it has none, the done marker, or the event they spell. */
  lemma ChunkIsRead(lines: seq<Line>, decode: Decoder)
    requires lines != [] && forall i :: 0 <= i < |lines| ==> lines[i].Valid()
    ensures var data := Texts(lines);
      ParseChunk(JoinLines(Rows(lines)), decode) ==
        if data == [] then Ignore
        else if JoinLines(data) == "[DONE]" then Done
        else if decode(JoinLines(data)).Some? then Agent(decode(JoinLines(data)).value)
        else Malformed
  {
    DataOfRows(lines);
    RowsAreRead(Rows(lines));
  }

  /** The lines of joined rows are the rows. */
  lemma RowsAreRead(rows: seq<string>)
    requires rows != [] && forall i :: 0 <= i < |rows| ==> '\n' !in rows[i]
    ensures DataOf(Lines(JoinLines(rows), "")) == DataOf(rows)
  {
    LinesJoined(rows);
  }

  // ----- what handling means -----

  function Meanings(chunks: seq<string>, decode: Decoder): seq<Parsed> {
    seq(|chunks|, i requires 0 <= i < |chunks| => ParseChunk(chunks[i], decode))
  }

  /** All chunks are kept in order but those without data, and one that is malformed fails them all. */
  lemma {:induction false} ParseChunksKeep(chunks: seq<string>, decode: Decoder)
    ensures ParseChunks(chunks, decode) == Kept(Meanings(chunks, decode))
  {
    if chunks != [] {
      ParseChunksKeep(chunks[1..], decode);
      assert Meanings(chunks, decode) == [ParseChunk(chunks[0], decode)] + Meanings(chunks[1..], decode);
      KeptFirst(ParseChunk(chunks[0], decode), Meanings(chunks[1..], decode));
    }
  }

  function Kept(parsed: seq<Parsed>): Option<seq<Parsed>> {
    if Malformed in parsed then None else Some(Sorting.Filter(parsed, (p: Parsed) => p != Ignore))
  }

  lemma KeptFirst(first: Parsed, rest: seq<Parsed>)
    ensures Kept([first] + rest) ==
      if first == Malformed || Kept(rest).None? then None
      else if first == Ignore then Kept(rest)
      else Some([first] + Kept(rest).value)
  {
    Sorting.FilterConcat([first], rest, (p: Parsed) => p != Ignore);
    Sorting.FilterOne(first, (p: Parsed) => p != Ignore);
    var kept := Sorting.Filter(rest, (p: Parsed) => p != Ignore);
    assert [] + kept == kept;
  }

  /** The events among what was parsed, in order. */
  function Events(parsed: seq<Parsed>): seq<AgentEvent> {
    if parsed == [] then []
    else
      var n := |parsed| - 1;
      Events(parsed[..n]) + match parsed[n] case Agent(event) => [event] case _ => []
  }

  predicate IsDelta(e: AgentEvent) {
    e.eventType == "llm.delta" && e.content.Some?
  }

  /** The pieces of text handed on, each with its event. */
  function Deltas(events: seq<AgentEvent>): seq<(string, AgentEvent)> {
    if events == [] then []
    else
      var n := |events| - 1;
      Deltas(events[..n]) + if IsDelta(events[n]) then [(events[n].content.value, events[n])] else []
  }

  ghost predicate LastIs(events: seq<AgentEvent>, wanted: AgentEvent -> bool, k: nat) {
    k < |events| && wanted(events[k]) && forall j :: k < j < |events| ==> !wanted(events[j])
  }

  ghost predicate NoneIs(events: seq<AgentEvent>, wanted: AgentEvent -> bool) {
    forall j :: 0 <= j < |events| ==> !wanted(events[j])
  }

  function NamesRequest(): AgentEvent -> bool {
    (e: AgentEvent) => e.eventType == "run.completed" && e.requestId != ""
  }

  function Completes(): AgentEvent -> bool {
    (e: AgentEvent) => e.eventType == "run.completed"
  }

  /** The totals are those of the last completion; the request id is the last one that a completion names. */
  ghost predicate Totals(p: Progress, requestId: string, events: seq<AgentEvent>) {
    && (NoneIs(events, Completes()) ==> p.inputTokens == 0 && p.outputTokens == 0)
    && (forall k: nat {:trigger LastIs(events, Completes(), k)} :: LastIs(events, Completes(), k) ==>
          p.inputTokens == events[k].inputTokens && p.outputTokens == events[k].outputTokens)
    && (NoneIs(events, NamesRequest()) ==> p.requestId == requestId)
    && (forall k: nat {:trigger LastIs(events, NamesRequest(), k)} :: LastIs(events, NamesRequest(), k) ==>
          p.requestId == events[k].requestId)
  }

  lemma LastOfLonger(events: seq<AgentEvent>, e: AgentEvent, wanted: AgentEvent -> bool)
    ensures wanted(e) ==> forall k: nat :: LastIs(events + [e], wanted, k) ==> k == |events|
    ensures !wanted(e) ==> forall k: nat :: LastIs(events + [e], wanted, k) ==> LastIs(events, wanted, k)
    ensures NoneIs(events + [e], wanted) <==> NoneIs(events, wanted) && !wanted(e)
  {
    var longer := events + [e];
    assert longer[|events|] == e && forall j :: 0 <= j < |events| ==> longer[j] == events[j];
  }

  lemma TotalsNext(p: Progress, q: Progress, requestId: string, events: seq<AgentEvent>, e: AgentEvent)
    requires Totals(p, requestId, events)
    requires !Completes()(e) ==>
      q.inputTokens == p.inputTokens && q.outputTokens == p.outputTokens && q.requestId == p.requestId
    requires Completes()(e) ==> q.inputTokens == e.inputTokens && q.outputTokens == e.outputTokens
    requires Completes()(e) ==> q.requestId == if e.requestId != "" then e.requestId else p.requestId
    ensures Totals(q, requestId, events + [e])
  {
    LastOfLonger(events, e, Completes());
    LastOfLonger(events, e, NamesRequest());
    forall k: nat | LastIs(events + [e], Completes(), k)
      ensures q.inputTokens == (events + [e])[k].inputTokens && q.outputTokens == (events + [e])[k].outputTokens
    {
      if !Completes()(e) {
        assert LastIs(events, Completes(), k);
      }
    }
    forall k: nat | LastIs(events + [e], NamesRequest(), k) ensures q.requestId == (events + [e])[k].requestId {
      if !NamesRequest()(e) {
        assert LastIs(events, NamesRequest(), k);
      }
    }
  }

  /** What the caller has seen after any chunks: every event, every text delta, the done marker, the last totals. */
  lemma {:induction false} HandlingMeans(parsed: seq<Parsed>, requestId: string)
    ensures var p := HandleAll(Start(requestId), parsed);
      && p.delivered == Events(parsed)
      && p.deltas == Deltas(Events(parsed))
      && (p.completed <==> Done in parsed)
      && Totals(p, requestId, Events(parsed))
  {
    if parsed != [] {
      var n := |parsed| - 1;
      HandlingMeans(parsed[..n], requestId);
      HandleLast(Start(requestId), parsed);
      assert parsed == parsed[..n] + [parsed[n]];
      HandleOne(HandleAll(Start(requestId), parsed[..n]), parsed[n], requestId, Events(parsed[..n]));
    }
  }

  lemma HandleLast(p: Progress, parsed: seq<Parsed>)
    requires parsed != []
    ensures HandleAll(p, parsed) == Handle(HandleAll(p, parsed[..|parsed| - 1]), parsed[|parsed| - 1])
  {
    var front, last := parsed[..|parsed| - 1], parsed[|parsed| - 1];
    assert parsed == front + [last];
    HandleAllConcat(p, front, [last]);
    assert [last][1..] == [];
  }

  lemma HandleEvent(p: Progress, e: AgentEvent)
    ensures var q := Handle(p, Agent(e));
      && q.completed == p.completed && q.delivered == p.delivered + [e]
      && q.deltas == p.deltas + (if IsDelta(e) then [(e.content.value, e)] else [])
      && (!Completes()(e) ==>
            q.inputTokens == p.inputTokens && q.outputTokens == p.outputTokens && q.requestId == p.requestId)
      && (Completes()(e) ==>
            q.inputTokens == e.inputTokens && q.outputTokens == e.outputTokens
            && q.requestId == if e.requestId != "" then e.requestId else p.requestId)
  {
  }

  lemma DeltasNext(events: seq<AgentEvent>, e: AgentEvent)
    ensures Deltas(events + [e]) == Deltas(events) + if IsDelta(e) then [(e.content.value, e)] else []
  {
    assert (events + [e])[..|events|] == events;
  }

  lemma HandleOne(p: Progress, last: Parsed, requestId: string, events: seq<AgentEvent>)
    requires p.delivered == events && p.deltas == Deltas(events) && Totals(p, requestId, events)
    ensures var q, longer := Handle(p, last), events + match last case Agent(event) => [event] case _ => [];
      && q.delivered == longer && q.deltas == Deltas(longer) && Totals(q, requestId, longer)
      && (q.completed <==> p.completed || last == Done)
  {
    if last.Agent? {
      HandleEvent(p, last.event);
      DeltasNext(events, last.event);
      TotalsNext(p, Handle(p, last), requestId, events, last.event);
    } else {
      assert events + [] == events;
    }
  }

  /**
   Reading a well-formed text, however it is cut: the caller is given exactly the events of its chunks and their text
   deltas, in order, and the result tells of the done marker, the last totals and the last request id.
   */
  lemma StreamMeans(pieces: seq<string>, requestId: string, decode: Decoder)
    requires Malformed !in Meanings(Complete(Concat(pieces)), decode)
    ensures var outcome, parsed := Stream(pieces, "", Start(requestId), decode), Meanings(Complete(Concat(pieces)), decode);
      && outcome.Finished? && outcome.left == Rest(Concat(pieces))
      && outcome.progress.delivered == Events(parsed)
      && outcome.progress.deltas == Deltas(Events(parsed))
      && (outcome.progress.completed <==> Done in parsed)
      && Totals(outcome.progress, requestId, Events(parsed))
  {
    var text := Concat(pieces);
    var parsed := Meanings(Complete(text), decode);
    var kept := Sorting.Filter(parsed, (p: Parsed) => p != Ignore);
    ParseChunksKeep(Complete(text), decode);
    assert "" + text == text;
    StreamIsOneParse(pieces, "", Start(requestId), decode);
    HandlingMeans(kept, requestId);
    Sorting.FilterMembers(parsed, (p: Parsed) => p != Ignore);
    EventsOfKept(parsed);
  }

  lemma {:induction false} EventsOfKept(parsed: seq<Parsed>)
    ensures Events(Sorting.Filter(parsed, (p: Parsed) => p != Ignore)) == Events(parsed)
  {
    if parsed != [] {
      var n := |parsed| - 1;
      var front := Sorting.Filter(parsed[..n], (p: Parsed) => p != Ignore);
      EventsOfKept(parsed[..n]);
      if parsed[n] != Ignore {
        assert (front + [parsed[n]])[..|front|] == front;
      } else {
        assert front + [] == front;
      }
    }
  }
}
