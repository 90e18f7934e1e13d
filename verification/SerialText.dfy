/** The text side of a pod's log port: reassembling lines from chunks, and removing terminal escape sequences. */
module SerialText {

  // ---- Lines ----

  const MAX_LOG_LINE := 4096

  datatype Lines = Lines(lines: seq<string>, tail: string)

  /** Reference: the newline-terminated lines of a text, and what follows the last newline. */
  function Cut(s: string): Lines {
    if s == "" then Lines([], "")
    else
      var c, last := Cut(s[..|s| - 1]), s[|s| - 1];
      if last == '\n' then Lines(c.lines + [c.tail], "") else Lines(c.lines, c.tail + [last])
  }

  function Newlines(s: string): nat {
    if s == "" then 0 else Newlines(s[..|s| - 1]) + if s[|s| - 1] == '\n' then 1 else 0
  }

  function WithoutCr(line: string): string {
    if line != "" && line[|line| - 1] == '\r' then line[..|line| - 1] else line
  }

  function AllWithoutCr(lines: seq<string>): seq<string> {
    seq(|lines|, i requires 0 <= i < |lines| => WithoutCr(lines[i]))
  }

  /** One feed: the complete lines, then the rest as a line of its own if it is too long. */
  function Fed(maxLine: nat, pending: string, chunk: string): Lines {
    var c := Cut(pending + chunk);
    if |c.tail| > maxLine then Lines(AllWithoutCr(c.lines) + [c.tail], "")
    else Lines(AllWithoutCr(c.lines), c.tail)
  }

  function FedAll(maxLine: nat, chunks: seq<string>): Lines {
    if chunks == [] then Lines([], "")
    else
      var before := FedAll(maxLine, chunks[..|chunks| - 1]);
      var last := Fed(maxLine, before.tail, chunks[|chunks| - 1]);
      Lines(before.lines + last.lines, last.tail)
  }

  function Concat(chunks: seq<string>): string {
    if chunks == [] then "" else Concat(chunks[..|chunks| - 1]) + chunks[|chunks| - 1]
  }

  lemma {:induction false} CutAppend(a: string, b: string)
    ensures var first := Cut(a);
            var second := Cut(first.tail + b);
            Cut(a + b) == Lines(first.lines + second.lines, second.tail)
    decreases |b|
  {
    if b == "" {
      assert a + b == a && Cut(a).tail + b == Cut(a).tail;
      CutTail(a);
    } else {
      var shorter := b[..|b| - 1];
      CutAppend(a, shorter);
      assert (a + b)[..|a + b| - 1] == a + shorter;
      var t := Cut(a).tail + b;
      assert t[..|t| - 1] == Cut(a).tail + shorter;
      var c := Cut(Cut(a).tail + shorter);
      assert Cut(a).lines + (c.lines + [c.tail]) == (Cut(a).lines + c.lines) + [c.tail];
    }
  }

  /** The tail of a cut has no newline, so cutting it again finds no line. */
  lemma {:induction false} CutTail(s: string)
    ensures '\n' !in Cut(s).tail
    ensures Cut(Cut(s).tail) == Lines([], Cut(s).tail)
  {
    if s != "" {
      CutTail(s[..|s| - 1]);
    }
    CutWithoutNewline(Cut(s).tail);
  }

  lemma {:induction false} CutWithoutNewline(s: string)
    ensures '\n' !in s ==> Cut(s) == Lines([], s) && Newlines(s) == 0
  {
    if s != "" {
      CutWithoutNewline(s[..|s| - 1]);
    }
  }

  lemma {:induction false} CutCounts(s: string)
    ensures |Cut(s).lines| == Newlines(s)
  {
    if s != "" {
      CutCounts(s[..|s| - 1]);
    }
  }

  lemma {:induction false} NewlinesAppend(a: string, b: string)
    ensures Newlines(a + b) == Newlines(a) + Newlines(b)
    decreases |b|
  {
    if b == "" {
      assert a + b == a;
    } else {
      NewlinesAppend(a, b[..|b| - 1]);
      assert (a + b)[..|a + b| - 1] == a + b[..|b| - 1];
    }
  }

  /** Before each chunk boundary at most `maxLine` characters are unterminated. */
  ghost predicate WithinLimit(maxLine: nat, chunks: seq<string>) {
    forall k | 0 <= k <= |chunks| :: TailWithin(maxLine, chunks[..k])
  }

  ghost predicate TailWithin(maxLine: nat, chunks: seq<string>) {
    |Cut(Concat(chunks)).tail| <= maxLine
  }

  /** In every run, what is held back has no newline and is within the limit. */
  lemma {:induction false} PendingIsBounded(maxLine: nat, chunks: seq<string>)
    ensures var tail := FedAll(maxLine, chunks).tail;
            '\n' !in tail && |tail| <= maxLine
    decreases |chunks|
  {
    if chunks != [] {
      var before := FedAll(maxLine, chunks[..|chunks| - 1]);
      CutTail(before.tail + chunks[|chunks| - 1]);
    }
  }

  /** Every chunk adds one line for each of its newlines, and one more for a forced flush. */
  lemma FedCounts(maxLine: nat, pending: string, chunk: string)
    requires '\n' !in pending
    ensures |Fed(maxLine, pending, chunk).lines|
            == Newlines(chunk) + if |Cut(pending + chunk).tail| > maxLine then 1 else 0
  {
    CutCounts(pending + chunk);
    NewlinesAppend(pending, chunk);
    CutWithoutNewline(pending);
  }

  /** The lines of one feed before anything is stripped, a forced flush included. */
  function RawLines(maxLine: nat, text: string): seq<string> {
    Cut(text).lines + if |Cut(text).tail| > maxLine then [Cut(text).tail] else []
  }

  /** Every emitted line lacks its trailing carriage return, exactly unless a forced flush ends with one: that one stays. */
  lemma FlushKeepsCr(maxLine: nat, pending: string, chunk: string)
    ensures var tail := Cut(pending + chunk).tail;
            Fed(maxLine, pending, chunk).lines == AllWithoutCr(RawLines(maxLine, pending + chunk))
            <==> !(|tail| > maxLine && tail[|tail| - 1] == '\r')
  {
    var c := Cut(pending + chunk);
    AllWithoutCrAppend(c.lines, [c.tail]);
    assert c.lines + [] == c.lines;
    assert AllWithoutCr([c.tail]) == [WithoutCr(c.tail)];
    assert (AllWithoutCr(c.lines) + [c.tail])[|c.lines|] == c.tail;
  }

  /** As many characters as an unterminated line may have. */
  function Longest(): string {
    seq(MAX_LOG_LINE, _ => '-')
  }

  /** The log's limit: an unterminated line is held back up to 4096 characters and flushed beyond. */
  lemma LimitIs(line: string)
    requires '\n' !in line
    ensures Fed(MAX_LOG_LINE, "", line) == if |line| <= 4096 then Lines([], line) else Lines([line], "")
  {
    assert "" + line == line;
    CutWithoutNewline(line);
  }

  /** An input on which a carriage return stays: the longest line, its carriage return, and no newline yet. */
  lemma FlushedCrExample()
    ensures Fed(MAX_LOG_LINE, "", Longest() + "\r").lines == [Longest() + "\r"]
    ensures AllWithoutCr(RawLines(MAX_LOG_LINE, "" + (Longest() + "\r"))) == [Longest()]
  {
    var text := Longest() + "\r";
    assert "" + text == text;
    CutWithoutNewline(text);
    assert WithoutCr(text) == Longest();
  }

  lemma AllWithoutCrAppend(a: seq<string>, b: seq<string>)
    ensures AllWithoutCr(a + b) == AllWithoutCr(a) + AllWithoutCr(b)
  {
  }

  lemma WithinLimitFront(maxLine: nat, chunks: seq<string>)
    requires chunks != []
    ensures WithinLimit(maxLine, chunks) <==> WithinLimit(maxLine, chunks[..|chunks| - 1]) && TailWithin(maxLine, chunks)
  {
    var front := chunks[..|chunks| - 1];
    assert chunks[..|chunks|] == chunks;
    if WithinLimit(maxLine, chunks) {
      forall k | 0 <= k <= |front| ensures TailWithin(maxLine, front[..k]) {
        assert front[..k] == chunks[..k];
      }
    }
    if WithinLimit(maxLine, front) && TailWithin(maxLine, chunks) {
      forall k | 0 <= k <= |chunks| ensures TailWithin(maxLine, chunks[..k]) {
        assert k <= |front| ==> front[..k] == chunks[..k];
      }
    }
  }

  lemma {:induction false} FeedRun(maxLine: nat, chunks: seq<string>)
    ensures WithinLimit(maxLine, chunks) ==>
              FedAll(maxLine, chunks) == Lines(AllWithoutCr(Cut(Concat(chunks)).lines), Cut(Concat(chunks)).tail)
    ensures |FedAll(maxLine, chunks).lines| >= Newlines(Concat(chunks))
    ensures !WithinLimit(maxLine, chunks) ==> |FedAll(maxLine, chunks).lines| > Newlines(Concat(chunks))
    decreases |chunks|
  {
    if chunks == [] {
      assert forall k | 0 <= k <= |chunks| :: chunks[..k] == [];
    } else {
      var front, last := chunks[..|chunks| - 1], chunks[|chunks| - 1];
      FeedRun(maxLine, front);
      WithinLimitFront(maxLine, chunks);
      PendingIsBounded(maxLine, front);
      FedCounts(maxLine, FedAll(maxLine, front).tail, last);
      NewlinesAppend(Concat(front), last);
      if WithinLimit(maxLine, front) {
        var c := Cut(Concat(front));
        CutAppend(Concat(front), last);
        AllWithoutCrAppend(c.lines, Cut(c.tail + last).lines);
      }
    }
  }

  /** Feeding a text in chunks gives the lines of the whole text, each without its carriage return, exactly when no
      chunk boundary leaves more than the limit unterminated; the rest is then held back. */
  lemma ChunkingIsInvisibleWithinLimit(maxLine: nat, chunks: seq<string>)
    ensures FedAll(maxLine, chunks).lines == AllWithoutCr(Cut(Concat(chunks)).lines) <==> WithinLimit(maxLine, chunks)
    ensures WithinLimit(maxLine, chunks) ==> FedAll(maxLine, chunks).tail == Cut(Concat(chunks)).tail
  {
    FeedRun(maxLine, chunks);
    CutCounts(Concat(chunks));
  }

  /** A chunking that shows: a line one character too long, and its newline in the next chunk. */
  lemma ChunkingShowsExample()
    ensures var chunks := [Longest() + "-", "\n"];
            FedAll(MAX_LOG_LINE, chunks).lines != AllWithoutCr(Cut(Concat(chunks)).lines)
  {
    var text := Longest() + "-";
    var chunks := [text, "\n"];
    assert chunks[..1] == [text] && [text][..0] == [];
    assert Concat([text]) == "" + text == text;
    CutWithoutNewline(text);
    assert !TailWithin(MAX_LOG_LINE, chunks[..1]);
    ChunkingIsInvisibleWithinLimit(MAX_LOG_LINE, chunks);
  }

  function Terminated(line: string, crlf: bool): string {
    line + if crlf then "\r\n" else "\n"
  }

  function Joined(lines: seq<string>, crlf: bool): string {
    if lines == [] then "" else Joined(lines[..|lines| - 1], crlf) + Terminated(lines[|lines| - 1], crlf)
  }

  predicate Clean(line: string) {
    '\n' !in line && (line != "" ==> line[|line| - 1] != '\r')
  }

  /** A text without newlines and then a newline is one line. */
  lemma CutOne(body: string)
    requires '\n' !in body
    ensures Cut(body + "\n") == Lines([body], "")
  {
    assert (body + "\n")[..|body|] == body;
    CutWithoutNewline(body);
  }

  function Body(line: string, crlf: bool): string {
    if crlf then line + "\r" else line
  }

  lemma BodyIsLine(line: string, crlf: bool)
    requires Clean(line)
    ensures '\n' !in Body(line, crlf) && WithoutCr(Body(line, crlf)) == line
  {
  }

  lemma TerminatedIs(line: string, crlf: bool)
    ensures Terminated(line, crlf) == Body(line, crlf) + "\n"
  {
  }

  lemma CutTerminated(line: string, crlf: bool)
    requires Clean(line)
    ensures Cut(Terminated(line, crlf)) == Lines([Body(line, crlf)], "")
    ensures WithoutCr(Body(line, crlf)) == line
  {
    TerminatedIs(line, crlf);
    BodyIsLine(line, crlf);
    CutOne(Body(line, crlf));
  }

  /** All of the text is terminated, and these are its lines without their carriage returns. */
  ghost predicate IsCutInto(text: string, lines: seq<string>) {
    Cut(text).tail == "" && AllWithoutCr(Cut(text).lines) == lines
  }

  lemma CutNext(before: string, lines: seq<string>, line: string, crlf: bool)
    requires Clean(line) && IsCutInto(before, lines)
    ensures IsCutInto(before + Terminated(line, crlf), lines + [line])
  {
    CutTerminated(line, crlf);
    AllWithoutCrAppend(Cut(before).lines, [Body(line, crlf)]);
    CutAppend(before, Terminated(line, crlf));
    assert "" + Terminated(line, crlf) == Terminated(line, crlf);
  }

  lemma {:induction false} CutJoined(lines: seq<string>, crlf: bool)
    requires forall i | 0 <= i < |lines| :: Clean(lines[i])
    ensures IsCutInto(Joined(lines, crlf), lines)
    decreases |lines|
  {
    if lines == [] {
      assert Cut(Joined(lines, crlf)) == Lines([], "");
    } else {
      var front, last := lines[..|lines| - 1], lines[|lines| - 1];
      CutJoined(front, crlf);
      CutNext(Joined(front, crlf), front, last, crlf);
      assert lines == front + [last];
    }
  }

  /** Lines joined with either line ending come back, however the text is chunked, and nothing is held back. */
  lemma JoinedLinesComeBack(maxLine: nat, lines: seq<string>, crlf: bool, chunks: seq<string>)
    requires forall line <- lines :: Clean(line)
    requires Concat(chunks) == Joined(lines, crlf) && WithinLimit(maxLine, chunks)
    ensures FedAll(maxLine, chunks) == Lines(lines, "")
  {
    FeedRun(maxLine, chunks);
    CutJoined(lines, crlf);
  }

  lemma CutLine(s: string, from: nat, nl: nat)
    requires from <= nl < |s| && s[nl] == '\n' && '\n' !in s[from..nl] && Cut(s[..from]).tail == ""
    ensures Cut(s[..nl + 1]) == Lines(Cut(s[..from]).lines + [s[from..nl]], "")
    ensures AllWithoutCr(Cut(s[..nl + 1]).lines) == AllWithoutCr(Cut(s[..from]).lines) + [WithoutCr(s[from..nl])]
  {
    var line := s[from..nl];
    assert s[..nl + 1] == s[..from] + (line + "\n");
    CutAppend(s[..from], line + "\n");
    assert "" + (line + "\n") == line + "\n";
    CutOne(line);
    AllWithoutCrAppend(Cut(s[..from]).lines, [line]);
  }

  lemma CutRest(s: string, from: nat)
    requires from <= |s| && '\n' !in s[from..] && Cut(s[..from]).tail == ""
    ensures Cut(s) == Lines(Cut(s[..from]).lines, s[from..])
  {
    assert s[..from] + s[from..] == s && "" + s[from..] == s[from..];
    CutAppend(s[..from], s[from..]);
    CutWithoutNewline(s[from..]);
  }

  class LineAssembler {
    const maxLine: nat
    var pending: string

    constructor (maxLine: nat := MAX_LOG_LINE)
      ensures this.maxLine == maxLine && pending == ""
    {
      this.maxLine := maxLine;
      pending := "";
    }

    /** Finds the first newline at or after `from`; the length of the text if there is none. */
    static method FindNewline(s: string, from: nat) returns (nl: nat)
      requires from <= |s|
      ensures from <= nl <= |s| && '\n' !in s[from..nl]
      ensures nl < |s| ==> s[nl] == '\n'
    {
      nl := from;
      while nl < |s| && s[nl] != '\n'
        invariant from <= nl <= |s| && '\n' !in s[from..nl]
      {
        nl := nl + 1;
      }
    }

    /** The complete lines of a text, and where the rest begins. */
    static method TakeLines(text: string) returns (lines: seq<string>, consumed: nat)
      ensures consumed <= |text| && Cut(text).tail == text[consumed..]
      ensures lines == AllWithoutCr(Cut(text).lines)
    {
      lines := [];
      consumed := 0;
      var nl := FindNewline(text, 0);
      while nl < |text|
        invariant consumed <= nl <= |text| && '\n' !in text[consumed..nl]
        invariant nl < |text| ==> text[nl] == '\n'
        invariant Cut(text[..consumed]).tail == ""
        invariant lines == AllWithoutCr(Cut(text[..consumed]).lines)
        decreases |text| - consumed
      {
        var line := text[consumed..nl];
        CutLine(text, consumed, nl);
        if line != "" && line[|line| - 1] == '\r' {
          line := line[..|line| - 1];
        }
        lines := lines + [line];
        consumed := nl + 1;
        nl := FindNewline(text, consumed);
      }
      assert text[consumed..] == text[consumed..nl];
      CutRest(text, consumed);
    }

    method Feed(chunk: string) returns (lines: seq<string>)
      modifies this
      ensures Lines(lines, pending) == Fed(maxLine, old(pending), chunk)
    {
      pending := pending + chunk;
      var consumed;
      lines, consumed := TakeLines(pending);
      pending := pending[consumed..];
      if |pending| > maxLine {
        lines := lines + [pending];
        pending := "";
      }
    }
  }

  // ---- Escape sequences ----

  const ESC := '\U{1b}'

  predicate IsParameterByte(c: char) {
    ' ' <= c <= '?'
  }

  predicate IsFinalByte(c: char) {
    '@' <= c <= '~'
  }

  function ParameterRun(s: string): (n: nat)
    ensures n <= |s|
  {
    if s != "" && IsParameterByte(s[0]) then 1 + ParameterRun(s[1..]) else 0
  }

  /** The text without its control sequences. */
  function Stripped(s: string): string
    decreases |s|
  {
    if s == "" then ""
    else if s[0] != ESC then [s[0]] + Stripped(s[1..])
    else if |s| < 2 || s[1] != '[' then Stripped(s[1..])
    else
      var end := 2 + ParameterRun(s[2..]);
      if end < |s| && IsFinalByte(s[end]) then Stripped(s[end + 1..]) else ""
  }

  /** Nothing is left to strip, and stripping changes a text exactly when it holds an escape character. */
  lemma {:induction false} StrippedIsPlain(s: string)
    ensures ESC !in Stripped(s)
    ensures Stripped(s) == s <==> ESC !in s
    ensures |Stripped(s)| <= |s|
    decreases |s|
  {
    if s != "" {
      if s[0] != ESC {
        StrippedIsPlain(s[1..]);
        assert s == [s[0]] + s[1..];
      } else if |s| < 2 || s[1] != '[' {
        StrippedIsPlain(s[1..]);
      } else {
        var end := 2 + ParameterRun(s[2..]);
        if end < |s| {
          StrippedIsPlain(s[end + 1..]);
        }
      }
    }
  }

  datatype Token = Text(text: string) | Csi(parameters: string, final: char)

  predicate WellFormed(t: Token) {
    match t
    case Text(text) => '\U{1b}' !in text
    case Csi(parameters, final) => (forall c <- parameters :: '\U{20}' <= c <= '\U{3f}') && '\U{40}' <= final <= '\U{7e}'
  }

  function Render(t: Token): string {
    match t
    case Text(text) => text
    case Csi(parameters, final) => ['\U{1b}', '['] + parameters + [final]
  }

  function RenderAll(tokens: seq<Token>): string {
    if tokens == [] then "" else Render(tokens[0]) + RenderAll(tokens[1..])
  }

  function PlainOf(t: Token): string {
    if t.Text? then t.text else ""
  }

  function Plain(tokens: seq<Token>): string {
    if tokens == [] then "" else PlainOf(tokens[0]) + Plain(tokens[1..])
  }

  lemma {:induction false} StrippedText(text: string, s: string)
    requires ESC !in text
    ensures Stripped(text + s) == text + Stripped(s)
    decreases |text|
  {
    if text == "" {
      assert text + s == s;
    } else {
      StrippedText(text[1..], s);
      assert (text + s)[1..] == text[1..] + s;
      assert [text[0]] + (text[1..] + Stripped(s)) == text + Stripped(s);
    }
  }

  lemma {:induction false} ParameterRunStops(parameters: string, s: string)
    requires forall c <- parameters :: IsParameterByte(c)
    requires s != "" && !IsParameterByte(s[0])
    ensures ParameterRun(parameters + s) == |parameters|
    decreases |parameters|
  {
    if parameters == "" {
      assert parameters + s == s;
    } else {
      ParameterRunStops(parameters[1..], s);
      assert (parameters + s)[1..] == parameters[1..] + s;
    }
  }

  lemma StrippedCsi(parameters: string, final: char, rest: string)
    requires WellFormed(Csi(parameters, final))
    ensures Stripped(Render(Csi(parameters, final)) + rest) == Stripped(rest)
  {
    var s := Render(Csi(parameters, final)) + rest;
    var end := 2 + |parameters|;
    assert s[2..] == parameters + ([final] + rest);
    ParameterRunStops(parameters, [final] + rest);
    assert s[0] == ESC && s[1] == '[' && s[end] == final;
    assert s[end + 1..] == rest;
  }

  lemma StrippedToken(t: Token, rest: string)
    requires WellFormed(t)
    ensures Stripped(Render(t) + rest) == PlainOf(t) + Stripped(rest)
  {
    match t
    case Text(text) => StrippedText(text, rest);
    case Csi(parameters, final) =>
      StrippedCsi(parameters, final, rest);
      assert "" + Stripped(rest) == Stripped(rest);
  }

  /** Stripping a rendering of text and control sequences gives back the text: a sequence is an escape character, `[`,
      parameter bytes from 0x20 to 0x3f and a final byte from 0x40 to 0x7e. */
  lemma {:induction false} StrippedRendering(tokens: seq<Token>)
    requires forall t <- tokens :: WellFormed(t)
    ensures Stripped(RenderAll(tokens)) == Plain(tokens)
    decreases |tokens|
  {
    if tokens != [] {
      assert WellFormed(tokens[0]);
      StrippedToken(tokens[0], RenderAll(tokens[1..]));
      StrippedRendering(tokens[1..]);
    }
  }

  lemma StrippedStep(s: string, i: nat)
    requires i < |s|
    ensures s[i] != ESC ==> Stripped(s[i..]) == [s[i]] + Stripped(s[i + 1..])
    ensures s[i] == ESC && (i + 1 >= |s| || s[i + 1] != '[') ==> Stripped(s[i..]) == Stripped(s[i + 1..])
    ensures s[i] == ESC && i + 1 < |s| && s[i + 1] == '[' ==>
              var end := i + 2 + ParameterRun(s[i + 2..]);
              Stripped(s[i..]) == if end < |s| && IsFinalByte(s[end]) then Stripped(s[end + 1..]) else ""
  {
  }

  method SkipParameters(s: string, from: nat) returns (end: nat)
    requires from <= |s|
    ensures end == from + ParameterRun(s[from..]) && end <= |s|
  {
    end := from;
    while end < |s| && IsParameterByte(s[end])
      invariant from <= end <= |s|
      invariant end + ParameterRun(s[end..]) == from + ParameterRun(s[from..])
    {
      assert s[end..][1..] == s[end + 1..];
      end := end + 1;
    }
  }

  /** With `out` emitted, the rest from `i` is still to be stripped. */
  ghost predicate StrippedTo(line: string, out: string, i: nat) {
    i <= |line| && Stripped(line) == out + Stripped(line[i..])
  }

  lemma StrippedOn(line: string, out: string, i: nat, emitted: string, next: nat)
    requires StrippedTo(line, out, i) && next <= |line|
    requires Stripped(line[i..]) == emitted + Stripped(line[next..])
    ensures StrippedTo(line, out + emitted, next)
  {
  }

  lemma StrippedEnds(line: string, out: string)
    ensures StrippedTo(line, "", 0)
    ensures StrippedTo(line, out, |line|) ==> Stripped(line) == out
  {
  }

  method StripAnsi(line: string) returns (out: string)
    ensures out == Stripped(line)
  {
    if ESC !in line {
      StrippedIsPlain(line);
      return line;
    }
    out := "";
    var i := 0;
    StrippedEnds(line, out);
    while i < |line|
      invariant StrippedTo(line, out, i)
    {
      var emitted, next := StripOne(line, i);
      StrippedOn(line, out, i, emitted, next);
      out := out + emitted;
      i := next;
    }
    StrippedEnds(line, out);
  }

  /** One round of the loop: what it emits, and where it goes on. */
  method StripOne(line: string, i: nat) returns (emitted: string, next: nat)
    requires i < |line|
    ensures i < next <= |line| && Stripped(line[i..]) == emitted + Stripped(line[next..])
  {
    StrippedStep(line, i);
    if line[i] != ESC {
      return [line[i]], i + 1;
    }
    if i + 1 >= |line| || line[i + 1] != '[' {
      return "", i + 1;
    }
    var end := SkipParameters(line, i + 2);
    return "", if end < |line| && IsFinalByte(line[end]) then end + 1 else |line|;
  }
}
