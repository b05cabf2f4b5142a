/**
 Content-Length framing on a byte stream (cmd/bridge/agent_frames_mcp.go): a header
 part of lines, an empty line, and a body of as many bytes as the header says. Bytes
 are characters, bodies are any bytes; encoding messages as JSON is not modelled.
 */
module Framing {
  import opened Wrappers
  import opened Text

  type Bytes = string

  /** `EndOfInput` is io.EOF, at which serving ends well; `UnexpectedEnd` is io.ErrUnexpectedEOF. */
  datatype FrameError = EndOfInput | UnexpectedEnd | MissingLength | MalformedHeader | InvalidLength

  const MAX_INT := 0x7FFF_FFFF_FFFF_FFFF

  // --------------------------------------------------------------- decimal numbers

  function Digit(d: nat): char
    requires d < 10
  {
    ('0' as int + d) as char
  }

  predicate IsDigit(c: char) {
    '0' <= c <= '9'
  }

  /** `%d`. */
  function Print(n: nat): (s: string)
    ensures s != "" && forall i :: 0 <= i < |s| ==> IsDigit(s[i])
  {
    if n < 10 then [Digit(n)] else Print(n / 10) + [Digit(n % 10)]
  }

  function Number(s: string): nat
    requires forall i :: 0 <= i < |s| ==> IsDigit(s[i])
  {
    if s == "" then 0
    else
      assert IsDigit(s[|s| - 1]);
      Number(s[..|s| - 1]) * 10 + (s[|s| - 1] as int - '0' as int)
  }

  /** `strconv.Atoi`: an optional sign, then digits; None outside the range of an int. */
  function Atoi(s: string): Option<int> {
    var signed := s != "" && (s[0] == '-' || s[0] == '+');
    var digits := if signed then s[1..] else s;
    if digits == "" || !forall i :: 0 <= i < |digits| ==> IsDigit(digits[i]) then None
    else
      var n: int := Number(digits);
      if s[0] == '-' then if n <= MAX_INT + 1 then Some(-n) else None
      else if n <= MAX_INT then Some(n) else None
  }

  lemma {:induction false} NumberPrint(n: nat)
    ensures Number(Print(n)) == n
  {
    if n < 10 {
      assert Print(n)[..0] == "";
    } else {
      NumberPrint(n / 10);
      assert Print(n)[..|Print(n)| - 1] == Print(n / 10);
    }
  }

  lemma AtoiPrint(n: nat)
    requires n <= MAX_INT
    ensures Atoi(Print(n)) == Some(n)
  {
    NumberPrint(n);
    assert IsDigit(Print(n)[0]);
  }

  // ------------------------------------------------------------------------- lines

  /** The index of the first occurrence, or the length. */
  function IndexOf(s: string, c: char): (k: nat)
    ensures k <= |s| && (forall i :: 0 <= i < k ==> s[i] != c) && (k < |s| ==> s[k] == c)
  {
    if s == "" || s[0] == c then 0 else 1 + IndexOf(s[1..], c)
  }

  /** `strings.TrimRight(line, "\r\n")`. */
  function TrimLineEnd(line: string): string {
    if line != "" && (line[|line| - 1] == '\r' || line[|line| - 1] == '\n') then TrimLineEnd(line[..|line| - 1]) else line
  }

  function Lower(c: char): char {
    if 'A' <= c <= 'Z' then (c as int + 32) as char else c
  }

  /** `strings.EqualFold` with a name of ASCII letters and a dash. */
  predicate EqualFold(a: string, b: string) {
    |a| == |b| && forall i :: 0 <= i < |a| ==> Lower(a[i]) == Lower(b[i])
  }

  const CONTENT_LENGTH := "Content-Length"

  /** What one header line does to the length seen so far (-1 is none). */
  datatype Header = End | Skip | Length(n: nat) | Bad(error: FrameError)

  function ReadHeader(raw: string): Header {
    var line := TrimLineEnd(raw);
    if line == "" then End
    else
      var k := IndexOf(line, ':');
      if k == |line| then Bad(MalformedHeader)
      else if !EqualFold(TrimSpace(line[..k]), CONTENT_LENGTH) then Skip
      else
        match Atoi(TrimSpace(line[k + 1..]))
        case Some(n) => if n < 0 then Bad(InvalidLength) else Length(n)
        case None => Bad(InvalidLength)
  }

  /** `readMCPContentLength`: the last length given wins. */
  function ReadLength(s: Bytes, length: int): (r: Result<(nat, Bytes), FrameError>)
    ensures r.Ok? ==> |r.value.1| < |s|
    decreases |s|
  {
    var k := IndexOf(s, '\n');
    if k == |s| then Err(EndOfInput)
    else
      match ReadHeader(s[..k + 1])
      case End => if length < 0 then Err(MissingLength) else Ok((length, s[k + 1..]))
      case Skip => ReadLength(s[k + 1..], length)
      case Length(n) => ReadLength(s[k + 1..], n)
      case Bad(e) => Err(e)
  }

  /** `io.ReadFull` tells input that ends from input that ends too soon. */
  function ReadBody(n: nat, rest: Bytes): Result<(Bytes, Bytes), FrameError> {
    if |rest| >= n then Ok((rest[..n], rest[n..])) else if rest == "" then Err(EndOfInput) else Err(UnexpectedEnd)
  }

  /** `Read`, before the body is decoded. */
  function ReadFrame(s: Bytes): Result<(Bytes, Bytes), FrameError> {
    match ReadLength(s, -1)
    case Err(e) => Err(e)
    case Ok((n, rest)) => ReadBody(n, rest)
  }

  /** `Write`, after the body is encoded. */
  function WriteFrame(body: Bytes): Bytes {
    LengthLine(|body|) + "\r\n" + body
  }

  function LengthLine(n: nat): Bytes {
    CONTENT_LENGTH + ": " + Print(n) + "\r\n"
  }

  // ------------------------------------------------------------------ round trips

  lemma IndexOfAt(s: string, c: char, k: nat)
    requires k < |s| && s[k] == c && forall i :: 0 <= i < k ==> s[i] != c
    ensures IndexOf(s, c) == k
  {
  }

  lemma PrintHasNoSpace(n: nat)
    ensures forall c :: c in Print(n) ==> !IsSpace(c) && c != ':' && c != '\n' && c != '\r'
  {
    forall c | c in Print(n) ensures !IsSpace(c) && c != ':' && c != '\n' && c != '\r' {
      assert IsDigit(c);
    }
  }

  lemma TrimmedValue(n: nat)
    ensures TrimSpace(" " + Print(n)) == Print(n)
  {
    PrintHasNoSpace(n);
    TrimSpaceFacts(Print(n));
    assert (" " + Print(n))[1..] == Print(n);
    assert TrimLeft(Print(n)) == Print(n);
  }

  lemma TrimLineEndOf(text: string)
    requires text != "" && text[|text| - 1] != '\r' && text[|text| - 1] != '\n'
    ensures TrimLineEnd(text + "\r\n") == text
  {
    var line := text + "\r\n";
    assert line[..|line| - 1] == text + "\r" && (text + "\r")[..|text|] == text;
    assert TrimLineEnd(text + "\r") == TrimLineEnd(text);
  }

  lemma FoldedName(name: string)
    requires EqualFold(name, CONTENT_LENGTH)
    ensures name != "" && !IsSpace(name[0]) && !IsSpace(name[|name| - 1])
    ensures forall i :: 0 <= i < |name| ==> name[i] != ':'
  {
    forall i | 0 <= i < |name| ensures name[i] != ':' && !IsSpace(name[i]) {
      assert Lower(name[i]) == Lower(CONTENT_LENGTH[i]);
    }
  }

  /** A header line with the name, in any case, and value it was written with. */
  lemma HeaderNamed(name: string, value: string, n: nat)
    requires EqualFold(name, CONTENT_LENGTH) && value != "" && value[|value| - 1] != '\r' && value[|value| - 1] != '\n'
    requires Atoi(TrimSpace(value)) == Some(n)
    ensures ReadHeader(name + ":" + value + "\r\n") == Length(n)
  {
    var line := name + ":" + value;
    TrimLineEndOf(line);
    FoldedName(name);
    forall i | 0 <= i < |name| ensures line[i] != ':' { assert line[i] == name[i]; }
    IndexOfAt(line, ':', |name|);
    assert line[..|name|] == name && line[|name| + 1..] == value;
    TrimSpaceFacts(name);
  }

  lemma HeaderOf(n: nat)
    requires n <= MAX_INT
    ensures ReadHeader(LengthLine(n)) == Length(n)
  {
    var value := " " + Print(n);
    PrintHasNoSpace(n);
    TrimmedValue(n);
    AtoiPrint(n);
    HeaderNamed(CONTENT_LENGTH, value, n);
    assert LengthLine(n) == CONTENT_LENGTH + ":" + value + "\r\n";
  }

  lemma LineEnd(n: nat, rest: Bytes)
    ensures var line := LengthLine(n); IndexOf(line + rest, '\n') == |line| - 1
  {
    var line := LengthLine(n);
    PrintHasNoSpace(n);
    assert line == CONTENT_LENGTH + ": " + (Print(n) + "\r") + "\n";
    forall i | 0 <= i < |line| - 1 ensures line[i] != '\n' {}
    IndexOfAt(line + rest, '\n', |line| - 1);
  }

  lemma EmptyLine(rest: Bytes, n: nat)
    ensures ReadLength("\r\n" + rest, n) == Ok((n, rest))
  {
    var s := "\r\n" + rest;
    IndexOfAt(s, '\n', 1);
    assert s[..2] == "\r\n" && s[2..] == rest;
    assert "\r\n"[..1] == "\r" && "\r"[..0] == "";
  }

  lemma LengthReadBack(n: nat, rest: Bytes, seen: int)
    requires n <= MAX_INT
    ensures ReadLength(LengthLine(n) + rest, seen) == ReadLength(rest, n)
  {
    var line := LengthLine(n);
    LineEnd(n, rest);
    HeaderOf(n);
    assert (line + rest)[..|line|] == line && (line + rest)[|line|..] == rest;
  }

  /** Other headers are passed over. */
  lemma OtherHeaderSkipped(name: string, value: string, rest: Bytes, seen: int)
    requires forall i :: 0 <= i < |name| ==> name[i] != ':' && name[i] != '\n'
    requires forall i :: 0 <= i < |value| ==> value[i] != '\n' && value[i] != '\r'
    requires !EqualFold(TrimSpace(name), CONTENT_LENGTH)
    ensures ReadLength(name + ":" + value + "\r\n" + rest, seen) == ReadLength(rest, seen)
  {
    var text := name + ":" + value;
    var line := text + "\r\n";
    assert text[|text| - 1] == if value == "" then ':' else value[|value| - 1];
    TrimLineEndOf(text);
    IndexOfAt(text, ':', |name|);
    assert text[..|name|] == name;
    forall i | 0 <= i < |line| - 1 ensures line[i] != '\n' {}
    IndexOfAt(line + rest, '\n', |line| - 1);
    assert (line + rest)[..|line|] == line && (line + rest)[|line|..] == rest;
  }

  /** An empty line before any length is refused. */
  lemma NoLengthNoFrame(rest: Bytes)
    ensures ReadFrame("\r\n" + rest) == Err(MissingLength) && ReadFrame("\n" + rest) == Err(MissingLength)
  {
    var s, t := "\r\n" + rest, "\n" + rest;
    IndexOfAt(s, '\n', 1);
    IndexOfAt(t, '\n', 0);
    assert s[..2] == "\r\n" && t[..1] == "\n";
    assert "\r\n"[..1] == "\r" && "\r"[..0] == "" && "\n"[..0] == "";
  }

  /** A frame reads back as its body, and exactly the bytes written are consumed. */
  lemma FrameReadBack(body: Bytes, rest: Bytes)
    requires |body| <= MAX_INT
    ensures ReadFrame(WriteFrame(body) + rest) == Ok((body, rest))
  {
    var tail := body + rest;
    assert WriteFrame(body) + rest == LengthLine(|body|) + ("\r\n" + tail);
    LengthReadBack(|body|, "\r\n" + tail, -1);
    EmptyLine(tail, |body|);
    assert tail[..|body|] == body && tail[|body|..] == rest;
  }

  function WriteAll(bodies: seq<Bytes>): Bytes {
    if bodies == [] then "" else WriteFrame(bodies[0]) + WriteAll(bodies[1..])
  }

  /** The loop that serves one message after another: the bodies read, and how it ended. */
  function ReadAll(s: Bytes): (seq<Bytes>, FrameError)
    decreases |s|
  {
    match ReadFrame(s)
    case Err(e) => ([], e)
    case Ok((body, rest)) => var (bodies, e) := ReadAll(rest); ([body] + bodies, e)
  }

  /** Any list of frames written one after another reads back as the same bodies, and then ends. */
  lemma {:induction false} FramesReadBack(bodies: seq<Bytes>)
    requires forall i :: 0 <= i < |bodies| ==> |bodies[i]| <= MAX_INT
    ensures ReadAll(WriteAll(bodies)) == (bodies, EndOfInput)
  {
    if bodies != [] {
      FrameReadBack(bodies[0], WriteAll(bodies[1..]));
      FramesReadBack(bodies[1..]);
      assert [bodies[0]] + bodies[1..] == bodies;
    }
  }

  // ------------------------------------------------------------- a torn stream

  lemma NoLineNoLength(s: Bytes, length: int)
    requires forall i :: 0 <= i < |s| ==> s[i] != '\n'
    ensures ReadLength(s, length) == Err(EndOfInput)
  {
  }

  lemma TakeOver(a: Bytes, b: Bytes, m: nat)
    requires |a| <= m <= |a + b|
    ensures (a + b)[..m] == a + b[..m - |a|]
  {
  }

  lemma TornHeader(n: nat, rest: Bytes, m: nat)
    requires m < |LengthLine(n)|
    ensures ReadFrame((LengthLine(n) + rest)[..m]) == Err(EndOfInput)
  {
    LineEnd(n, rest);
    NoLineNoLength((LengthLine(n) + rest)[..m], -1);
  }

  /** After the length line: the empty line or the body is cut. */
  lemma TornBody(body: Bytes, m: nat)
    requires |body| <= MAX_INT && m < |body| + 2
    ensures ReadFrame(LengthLine(|body|) + ("\r\n" + body)[..m]) == Err(if m > 2 then UnexpectedEnd else EndOfInput)
  {
    var tail := ("\r\n" + body)[..m];
    LengthReadBack(|body|, tail, -1);
    if m < 2 {
      NoLineNoLength(tail, |body|);
    } else {
      TakeOver("\r\n", body, m);
      EmptyLine(body[..m - 2], |body|);
    }
  }

  /** The length of what is written ahead of a body. */
  function HeaderSize(body: Bytes): nat {
    |LengthLine(|body|)| + 2
  }

  /** A frame cut short anywhere yields no body at all; it passes for a clean end until its body has begun. */
  lemma TornFrame(body: Bytes, m: nat)
    requires |body| <= MAX_INT && m < |WriteFrame(body)|
    ensures ReadFrame(WriteFrame(body)[..m]) == Err(if m > HeaderSize(body) then UnexpectedEnd else EndOfInput)
  {
    var line := LengthLine(|body|);
    assert WriteFrame(body) == line + ("\r\n" + body);
    if m < |line| {
      TornHeader(|body|, "\r\n" + body, m);
    } else {
      TakeOver(line, "\r\n" + body, m);
      TornBody(body, m - |line|);
    }
  }

  /** What may be read of a stream cut at `m`: whole frames, as many as fit. */
  predicate Fits(bodies: seq<Bytes>, m: nat, read: seq<Bytes>) {
    read <= bodies && |WriteAll(read)| <= m && (|read| < |bodies| ==> m < |WriteAll(bodies[..|read| + 1])|)
  }

  lemma FitsMore(bodies: seq<Bytes>, m: nat, read: seq<Bytes>)
    requires bodies != [] && m >= |WriteFrame(bodies[0])| && Fits(bodies[1..], m - |WriteFrame(bodies[0])|, read)
    ensures Fits(bodies, m, [bodies[0]] + read)
  {
    var all := [bodies[0]] + read;
    assert all[1..] == read;
    if |all| < |bodies| {
      var more := bodies[..|all| + 1];
      assert more[0] == bodies[0] && more[1..] == bodies[1..][..|read| + 1];
    }
  }

  lemma FitsNone(bodies: seq<Bytes>, m: nat)
    requires bodies != [] && m < |WriteFrame(bodies[0])|
    ensures Fits(bodies, m, [])
  {
    assert bodies[..1][1..] == [] && bodies[..1][0] == bodies[0];
  }

  /** How a stream cut at `m` ends, after the whole frames `read`: badly iff it is cut inside a body. */
  function EndsWith(bodies: seq<Bytes>, m: nat, read: seq<Bytes>): FrameError {
    if |read| < |bodies| && m > |WriteAll(read)| + HeaderSize(bodies[|read|]) then UnexpectedEnd else EndOfInput
  }

  lemma EndsMore(bodies: seq<Bytes>, m: nat, read: seq<Bytes>)
    requires bodies != [] && m >= |WriteFrame(bodies[0])|
    ensures EndsWith(bodies, m, [bodies[0]] + read) == EndsWith(bodies[1..], m - |WriteFrame(bodies[0])|, read)
  {
    assert ([bodies[0]] + read)[1..] == read;
  }

  /**
   A stream cut short anywhere yields the bodies of the whole frames before the cut,
   and nothing else; it is seen as cut exactly when the cut is inside a body.
   */
  lemma {:induction false} TornStream(bodies: seq<Bytes>, m: nat)
    requires m <= |WriteAll(bodies)| && forall i :: 0 <= i < |bodies| ==> |bodies[i]| <= MAX_INT
    ensures var (read, end) := ReadAll(WriteAll(bodies)[..m]);
            Fits(bodies, m, read) && end == EndsWith(bodies, m, read)
    decreases |bodies|
  {
    if bodies == [] {
      assert WriteAll(bodies)[..m] == "";
    } else {
      var first, rest := WriteFrame(bodies[0]), WriteAll(bodies[1..]);
      if m < |first| {
        assert (first + rest)[..m] == first[..m];
        TornFrame(bodies[0], m);
        FitsNone(bodies, m);
        assert WriteAll([]) == "";
      } else {
        TakeOver(first, rest, m);
        FrameReadBack(bodies[0], rest[..m - |first|]);
        TornStream(bodies[1..], m - |first|);
        FitsMore(bodies, m, ReadAll(rest[..m - |first|]).0);
        EndsMore(bodies, m, ReadAll(rest[..m - |first|]).0);
      }
    }
  }

  // ---------------------------------------------------------------- as it runs

  /** `mcpStdioStream` over the bytes still to be read and those written. */
  class Stream {
    var input: Bytes
    var output: Bytes

    constructor (bytes: Bytes)
      ensures input == bytes && output == ""
    {
      input, output := bytes, "";
    }

    /** `ReadString('\n')`; at the end of the input what was left is gone. */
    method ReadLine() returns (line: Result<Bytes, FrameError>)
      modifies this`input
      ensures var k := IndexOf(old(input), '\n');
              if k == |old(input)| then line == Err(EndOfInput) && input == ""
              else line == Ok(old(input)[..k + 1]) && input == old(input)[k + 1..]
    {
      var k := 0;
      while k < |input| && input[k] != '\n'
        invariant k <= |input| && input == old(input) && forall i :: 0 <= i < k ==> input[i] != '\n'
      {
        k := k + 1;
      }
      if k == |input| {
        input := "";
        return Err(EndOfInput);
      }
      IndexOfAt(input, '\n', k);
      line := Ok(input[..k + 1]);
      input := input[k + 1..];
    }

    /** `readMCPContentLength`. */
    method ReadContentLength() returns (r: Result<nat, FrameError>)
      modifies this`input
      ensures match ReadLength(old(input), -1)
              case Ok((n, rest)) => r == Ok(n) && input == rest
              case Err(e) => r == Err(e)
    {
      var length: int := -1;
      while true
        invariant length >= -1 && ReadLength(input, length) == ReadLength(old(input), -1)
        decreases |input|
      {
        ghost var s := input;
        var line := ReadLine();
        if line.Err? { return Err(EndOfInput); }
        match ReadHeader(line.value)
        case End =>
          if length < 0 { return Err(MissingLength); }
          return Ok(length);
        case Skip =>
        case Length(n) => length := n;
        case Bad(e) => return Err(e);
      }
    }

    /** `Read`, before decoding. */
    method Read() returns (r: Result<Bytes, FrameError>)
      modifies this`input
      ensures match ReadFrame(old(input))
              case Ok((body, rest)) => r == Ok(body) && input == rest
              case Err(e) => r == Err(e)
    {
      var length := ReadContentLength();
      if length.Err? { return Err(length.error); }
      if |input| < length.value {
        return Err(if input == "" then EndOfInput else UnexpectedEnd);
      }
      r := Ok(input[..length.value]);
      input := input[length.value..];
    }

    /** `Write`, after encoding. */
    method Write(body: Bytes)
      modifies this`output
      ensures output == old(output) + WriteFrame(body)
    {
      output := output + (LengthLine(|body|) + "\r\n");
      output := output + body;
      assert output == old(output) + WriteFrame(body);
    }
  }
}
