/** The framing of messages on a byte stream: the header part of the Base Protocol
    section of the Language Server Protocol 3.17. A byte is a character below 256; a
    body is what the JSON encoder produced, and is not looked into. */
module Framing {
  import opened Text
  import opened Wrappers

  const BLANK_LINE := "\r\n\r\n"
  const FIELD := "content-length:"

  // ------------------------------------------------------------------ numbers

  predicate IsDigit(c: char) {
    '0' <= c <= '9'
  }

  /** A length in decimal. */
  function Decimal(n: nat): string {
    if n < 10 then [DigitOf(n)] else Decimal(n / 10) + [DigitOf(n % 10)]
  }

  function DigitOf(n: nat): char
    requires n < 10
  {
    "0123456789"[n]
  }

  function ValueOf(c: char): nat
    requires IsDigit(c)
  {
    c as int - '0' as int
  }

  /** The number a trimmed text spells; the empty text spells zero. */
  function ParseLength(text: string): Option<nat> {
    if text == [] then Some(0)
    else if !IsDigit(text[|text| - 1]) then None
    else match ParseLength(text[..|text| - 1])
      case None => None
      case Some(n) => Some(10 * n + ValueOf(text[|text| - 1]))
  }

  lemma DigitHasValue(n: nat)
    requires n < 10
    ensures IsDigit(DigitOf(n)) && ValueOf(DigitOf(n)) == n
  {
  }

  lemma DigitAppended(text: string, m: nat, n: nat)
    requires ParseLength(text) == Some(m) && n < 10
    ensures ParseLength(text + [DigitOf(n)]) == Some(10 * m + n)
  {
    DigitHasValue(n);
    var longer := text + [DigitOf(n)];
    assert longer != [] && longer[|longer| - 1] == DigitOf(n) && longer[..|longer| - 1] == text;
  }

  lemma {:induction false} DecimalParses(n: nat)
    ensures ParseLength(Decimal(n)) == Some(n)
    ensures forall i :: 0 <= i < |Decimal(n)| ==> IsDigit(Decimal(n)[i])
  {
    if n < 10 {
      DigitHasValue(n);
      DigitAppended([], 0, n);
      assert [] + [DigitOf(n)] == Decimal(n);
    } else {
      DecimalParses(n / 10);
      DigitHasValue(n % 10);
      DigitAppended(Decimal(n / 10), n / 10, n % 10);
    }
  }

  // ------------------------------------------------------------------- headers

  predicate At(s: string, mark: string, i: nat) {
    i + |mark| <= |s| && s[i..i + |mark|] == mark
  }

  /** Where `mark` first occurs in `s`, at `from` or later. */
  function Find(s: string, mark: string, from: nat): (i: Option<nat>)
    ensures i.Some? ==> from <= i.value && At(s, mark, i.value)
    ensures forall j: nat :: from <= j && (i.Some? ==> j < i.value) ==> !At(s, mark, j)
    decreases |s| - from
  {
    if from + |mark| > |s| then None
    else if At(s, mark, from) then Some(from)
    else Find(s, mark, from + 1)
  }

  function Lines(text: string): seq<string>
    decreases |text|
  {
    match Find(text, "\r\n", 0)
    case None => [text]
    case Some(i) => [text[..i]] + Lines(text[i + 2..])
  }

  function Lower(c: char): char {
    if 'A' <= c <= 'Z' then c - 'A' + 'a' else c
  }

  function Lowered(s: string): string {
    seq(|s|, i requires 0 <= i < |s| => Lower(s[i]))
  }

  /** The first line of the header with the field's name. */
  function FieldLine(lines: seq<string>): Option<string> {
    if lines == [] then None
    else if At(Lowered(lines[0]), FIELD, 0) then Some(lines[0])
    else FieldLine(lines[1..])
  }

  /** What stands between a line's first colon and its second. */
  function FieldValue(line: string): string {
    match Find(line, ":", 0)
    case None => ""
    case Some(i) =>
      match Find(line, ":", i + 1)
      case None => line[i + 1..]
      case Some(j) => line[i + 1..j]
  }

  datatype Fault = MissingLength | InvalidLength

  datatype Announced = Length(n: nat) | Bad(fault: Fault)

  function ReadHeader(text: string): Announced {
    match FieldLine(Lines(text))
    case None => Bad(MissingLength)
    case Some(line) =>
      match ParseLength(Trim(FieldValue(line)))
      case None => Bad(InvalidLength)
      case Some(n) => Length(n)
  }

  function Header(n: nat): string {
    "Content-Length: " + Decimal(n)
  }

  function EncodeMessage(body: string): string {
    Header(|body|) + BLANK_LINE + body
  }

  // ------------------------------------------------------------------- decoder

  /** The bytes not yet used, and the length announced for the next body. */
  datatype State = State(buffer: string, contentLength: Option<nat>) {
    function Plus(more: string): State {
      State(buffer + more, contentLength)
    }
  }

  datatype Outcome = Body(text: string) | Rejected(fault: Fault)

  /** How one trip of the decoding loop ends: it waits for bytes, or yields an outcome. */
  datatype Turned = Wait(next: State) | Yield(next: State, outcome: Outcome)

  function TakeBody(buffer: string, n: nat): Turned {
    if |buffer| < n then Wait(State(buffer, Some(n)))
    else Yield(State(buffer[n..], None), Body(buffer[..n]))
  }

  function Turn(s: State): Turned {
    match s.contentLength
    case Some(n) => TakeBody(s.buffer, n)
    case None =>
      match Find(s.buffer, BLANK_LINE, 0)
      case None => Wait(s)
      case Some(end) =>
        match ReadHeader(s.buffer[..end])
        case Bad(fault) => Yield(State(s.buffer[end + 4..], None), Rejected(fault))
        case Length(n) => TakeBody(s.buffer[end + 4..], n)
  }

  function Work(s: State): nat {
    2 * |s.buffer| + if s.contentLength.Some? then 1 else 0
  }

  lemma TurnShrinks(s: State)
    ensures Turn(s).Yield? ==> Work(Turn(s).next) < Work(s)
  {
  }

  /** Where a run has come to, and what it has yielded. */
  datatype Ran = Ran(state: State, outcomes: seq<Outcome>) {
    function After(first: seq<Outcome>): Ran {
      Ran(state, first + outcomes)
    }
  }

  /** All that the bytes at hand yield, and what is left of them. */
  function Drained(s: State): Ran
    decreases Work(s)
  {
    match Turn(s)
    case Wait(next) => Ran(next, [])
    case Yield(next, outcome) =>
      TurnShrinks(s);
      Drained(next).After([outcome])
  }

  // ------------------------------------------- bytes may come in any pieces

  lemma FindMore(s: string, more: string, mark: string, from: nat)
    requires Find(s, mark, from).Some?
    ensures Find(s + more, mark, from) == Find(s, mark, from)
  {
    var i := Find(s, mark, from).value;
    forall j: nat | j + |mark| <= |s| ensures At(s + more, mark, j) == At(s, mark, j) {
      assert (s + more)[j..j + |mark|] == s[j..j + |mark|];
    }
    assert At(s + more, mark, i);
    forall j: nat | from <= j < i ensures !At(s + more, mark, j) {
      assert !At(s, mark, j);
    }
  }

  /** A trip that yields does the same with more bytes behind; one that waits can be
      taken again when they have come. */
  ghost predicate GoesOn(t: Turned, longer: Turned, more: string) {
    match t
    case Wait(next) => longer == Turn(next.Plus(more))
    case Yield(next, outcome) => longer == Yield(next.Plus(more), outcome)
  }

  lemma TurnMore(s: State, more: string)
    ensures GoesOn(Turn(s), Turn(s.Plus(more)), more)
  {
    match s.contentLength
    case Some(n) => BodyMore(s.buffer, n, more);
    case None =>
      match Find(s.buffer, BLANK_LINE, 0)
      case None =>
      case Some(end) =>
        FindMore(s.buffer, more, BLANK_LINE, 0);
        assert (s.buffer + more)[..end] == s.buffer[..end];
        assert (s.buffer + more)[end + 4..] == s.buffer[end + 4..] + more;
        match ReadHeader(s.buffer[..end])
        case Bad(_) =>
        case Length(n) => BodyMore(s.buffer[end + 4..], n, more);
  }

  lemma BodyMore(buffer: string, n: nat, more: string)
    ensures |buffer| >= n ==>
      TakeBody(buffer + more, n) == Yield(State(buffer[n..] + more, None), Body(buffer[..n]))
  {
    if |buffer| >= n {
      assert (buffer + more)[n..] == buffer[n..] + more;
      assert (buffer + more)[..n] == buffer[..n];
    }
  }

  /** What happens on the stream: bytes come, or the decoding loop makes a trip. The loop
      hands over one message at a time, and bytes may come in between. */
  datatype Event = Data(chunk: string) | Trip

  function Next(s: State, e: Event): Ran {
    match e
    case Data(chunk) => Ran(s.Plus(chunk), [])
    case Trip => Ran(Turn(s).next, if Turn(s).Yield? then [Turn(s).outcome] else [])
  }

  function Run(s: State, events: seq<Event>): Ran
    decreases |events|
  {
    if events == [] then Ran(s, [])
    else Run(Next(s, events[0]).state, events[1..]).After(Next(s, events[0]).outcomes)
  }

  function Bytes(events: seq<Event>): string {
    if events == [] then ""
    else Piece(events[0]) + Bytes(events[1..])
  }

  predicate AtRest(s: State) {
    Turn(s) == Wait(s)
  }

  function Piece(e: Event): string {
    if e.Data? then e.chunk else ""
  }

  /** The whole stream yields what the step has yielded and what is still to come. */
  ghost predicate YieldsOn(whole: State, step: Ran, more: string) {
    Drained(whole) == Drained(step.state.Plus(more)).After(step.outcomes)
  }

  /** One event does not change what the whole stream yields. */
  lemma EventMore(s: State, e: Event, more: string)
    ensures YieldsOn(s.Plus(Piece(e) + more), Next(s, e), more)
  {
    match e
    case Data(chunk) =>
      assert (s.buffer + chunk) + more == s.buffer + (chunk + more);
      var whole := Drained(s.Plus(chunk).Plus(more));
      assert [] + whole.outcomes == whole.outcomes;
    case Trip =>
      assert "" + more == more;
      TurnMore(s, more);
      var rest := Drained(Turn(s).next.Plus(more));
      assert [] + rest.outcomes == rest.outcomes;
  }

  /** However the bytes are cut and whenever the loop runs, what has been delivered
      followed by what is still to come is what the whole stream yields at once. This
      holds of any bytes, well framed or not. */
  lemma {:induction false} ChunkingDoesNotMatter(s: State, events: seq<Event>, more: string)
    ensures Drained(s.Plus(Bytes(events) + more)) ==
            Drained(Run(s, events).state.Plus(more)).After(Run(s, events).outcomes)
    decreases |events|
  {
    if events == [] {
      assert "" + more == more;
      var whole := Drained(s.Plus(more));
      assert [] + whole.outcomes == whole.outcomes;
    } else {
      var step := Next(s, events[0]);
      ChunkingDoesNotMatter(step.state, events[1..], more);
      EventMore(s, events[0], Bytes(events[1..]) + more);
      assert Piece(events[0]) + (Bytes(events[1..]) + more) == Bytes(events) + more;
      var rest := Drained(Run(s, events).state.Plus(more));
      AfterAfter(rest, step.outcomes, Run(step.state, events[1..]).outcomes);
    }
  }

  lemma AfterAfter(rest: Ran, a: seq<Outcome>, b: seq<Outcome>)
    ensures rest.After(b).After(a) == rest.After(a + b)
  {
    assert a + (b + rest.outcomes) == (a + b) + rest.outcomes;
  }

  /** Two runs over the same bytes which both end at rest yield the same, whatever the
      pieces were. */
  lemma RestIsUnique(s: State, a: seq<Event>, b: seq<Event>)
    requires Bytes(a) == Bytes(b) && AtRest(Run(s, a).state) && AtRest(Run(s, b).state)
    ensures Run(s, a) == Run(s, b)
  {
    RestIsDrained(s, a);
    RestIsDrained(s, b);
  }

  lemma RestIsDrained(s: State, events: seq<Event>)
    requires AtRest(Run(s, events).state)
    ensures Run(s, events) == Drained(s.Plus(Bytes(events)))
  {
    ChunkingDoesNotMatter(s, events, "");
    var last := Run(s, events).state;
    assert Bytes(events) + "" == Bytes(events);
    assert last.Plus("") == last;
    assert Run(s, events).outcomes + [] == Run(s, events).outcomes;
  }

  // ---------------------------------------------------------------- round trip

  function Stream(bodies: seq<string>): string {
    if bodies == [] then "" else EncodeMessage(bodies[0]) + Stream(bodies[1..])
  }

  function Delivered(bodies: seq<string>): seq<Outcome> {
    seq(|bodies|, i requires 0 <= i < |bodies| => Body(bodies[i]))
  }

  lemma HeaderChars(n: nat)
    ensures forall i :: 0 <= i < |Header(n)| ==> Header(n)[i] != '\r'
    ensures |Header(n)| > 15 && forall i :: 0 <= i < |Header(n)| && i != 14 ==> Header(n)[i] != ':'
  {
    DecimalParses(n);
  }

  lemma HeaderIsOneLine(n: nat)
    ensures Lines(Header(n)) == [Header(n)]
  {
    HeaderChars(n);
    forall j: nat ensures !At(Header(n), "\r\n", j) {
      if j + 2 <= |Header(n)| {
        assert Header(n)[j..j + 2][0] != '\r';
      }
    }
  }

  lemma HeaderHasField(n: nat)
    ensures FieldLine([Header(n)]) == Some(Header(n))
  {
    var low := Lowered(Header(n));
    assert low[0..15] == FIELD;
  }

  lemma ColonIsAt(h: string, j: nat)
    ensures At(h, ":", j) <==> j < |h| && h[j] == ':'
  {
    if j < |h| {
      assert h[j..j + 1] == [h[j]];
    }
  }

  lemma HeaderValue(n: nat)
    ensures FieldValue(Header(n)) == " " + Decimal(n)
  {
    var h := Header(n);
    HeaderChars(n);
    ColonIsAt(h, 14);
    assert Find(h, ":", 0) == Some(14) by {
      forall j: nat | j < 14 ensures !At(h, ":", j) { ColonIsAt(h, j); }
    }
    assert Find(h, ":", 15) == None by {
      forall j: nat | 15 <= j ensures !At(h, ":", j) { ColonIsAt(h, j); }
    }
    assert h[15..] == " " + Decimal(n);
  }

  lemma TrimmedDecimal(n: nat)
    ensures Trim(" " + Decimal(n)) == Decimal(n)
  {
    DecimalParses(n);
    var d := Decimal(n);
    assert d != [] && IsDigit(d[0]) && IsDigit(d[|d| - 1]);
    assert (" " + d)[1..] == d;
    assert !IsSpace(d[0]) && !IsSpace(d[|d| - 1]);
    assert TrimStart(" " + d) == TrimStart(d) == d;
  }

  /** The header that is written announces the length it was written for. */
  lemma HeaderRoundTrip(n: nat)
    ensures ReadHeader(Header(n)) == Length(n)
  {
    HeaderIsOneLine(n);
    HeaderHasField(n);
    HeaderValue(n);
    TrimmedDecimal(n);
    DecimalParses(n);
  }

  // ------------------------------------------------- headers others may write

  /** A text that can stand on a line of its own. */
  predicate IsLine(line: string) {
    forall j: nat :: j + 1 < |line| ==> !(line[j] == '\r' && line[j + 1] == '\n')
  }

  function HeaderText(lines: seq<string>): string {
    if lines == [] then "" else if |lines| == 1 then lines[0] else lines[0] + "\r\n" + HeaderText(lines[1..])
  }

  lemma AtMark(s: string, j: nat)
    ensures At(s, "\r\n", j) <==> j + 1 < |s| && s[j] == '\r' && s[j + 1] == '\n'
  {
    if j + 1 < |s| {
      assert s[j..j + 2] == [s[j], s[j + 1]];
    }
  }

  lemma LineEndsAt(line: string, rest: string)
    requires IsLine(line)
    ensures Find(line + "\r\n" + rest, "\r\n", 0) == Some(|line|)
  {
    var s := line + "\r\n" + rest;
    AtMark(s, |line|);
    forall j: nat | j < |line| ensures !At(s, "\r\n", j) {
      AtMark(s, j);
    }
  }

  lemma LastLine(line: string)
    requires IsLine(line)
    ensures Lines(line) == [line]
  {
    forall j: nat ensures !At(line, "\r\n", j) {
      AtMark(line, j);
    }
  }

  lemma {:induction false} LinesOfText(lines: seq<string>)
    requires lines != [] && forall l :: l in lines ==> IsLine(l)
    ensures Lines(HeaderText(lines)) == lines
  {
    assert lines[0] in lines;
    if |lines| == 1 {
      LastLine(lines[0]);
    } else {
      var rest := HeaderText(lines[1..]);
      LineEndsAt(lines[0], rest);
      var s := lines[0] + "\r\n" + rest;
      assert s[..|lines[0]|] == lines[0] && s[|lines[0]| + 2..] == rest;
      LinesOfText(lines[1..]);
    }
  }

  /** The line has the field `Content-Length`, in letters of any case. */
  predicate NamesLength(line: string) {
    |line| >= 15 && forall i :: 0 <= i < 15 ==> Lower(line[i]) == "content-length:"[i]
  }

  lemma FieldAtStart(line: string)
    ensures At(Lowered(line), FIELD, 0) <==> NamesLength(line)
  {
    var low := Lowered(line);
    if |line| >= 15 {
      assert NamesLength(line) <==> low[0..15] == FIELD;
    }
  }

  /** The first line with the field counts, wherever it stands. */
  lemma {:induction false} FirstFieldLine(before: seq<string>, line: string, after: seq<string>)
    requires NamesLength(line) && forall l :: l in before ==> !NamesLength(l)
    ensures FieldLine(before + [line] + after) == Some(line)
  {
    var lines := before + [line] + after;
    FieldAtStart(lines[0]);
    if before != [] {
      assert lines[1..] == before[1..] + [line] + after;
      FirstFieldLine(before[1..], line, after);
    }
  }

  lemma {:induction false} NoFieldLine(lines: seq<string>)
    requires forall l :: l in lines ==> !NamesLength(l)
    ensures FieldLine(lines) == None
  {
    if lines != [] {
      FieldAtStart(lines[0]);
      NoFieldLine(lines[1..]);
    }
  }

  lemma ValueIs(name: string, value: string)
    requires ':' !in name && ':' !in value
    ensures FieldValue(name + ":" + value) == value
  {
    var line := name + ":" + value;
    forall j: nat ensures At(line, ":", j) <==> j == |name| {
      ColonIsAt(line, j);
      if j < |name| {
        assert line[j] == name[j] && name[j] in name;
      } else if |name| < j < |line| {
        assert line[j] == value[j - |name| - 1] && value[j - |name| - 1] in value;
      }
    }
    assert At(line, ":", |name|);
    assert Find(line, ":", 0) == Some(|name|);
    assert Find(line, ":", |name| + 1) == None;
    assert line[|name| + 1..] == value;
  }

  /** A second colon ends the value. */
  lemma ValueEndsAtColon(name: string, value: string, rest: string)
    requires ':' !in name && ':' !in value
    ensures FieldValue(name + ":" + value + ":" + rest) == value
  {
    var line, second := name + ":" + value + ":" + rest, |name| + 1 + |value|;
    forall j: nat | j <= second ensures At(line, ":", j) <==> j == |name| || j == second {
      ColonIsAt(line, j);
      if j < |name| {
        assert line[j] == name[j] && name[j] in name;
      } else if |name| < j < second {
        assert line[j] == value[j - |name| - 1] && value[j - |name| - 1] in value;
      }
    }
    assert At(line, ":", |name|) && At(line, ":", second);
    assert Find(line, ":", 0) == Some(|name|);
    assert Find(line, ":", |name| + 1) == Some(second);
    assert line[|name| + 1..second] == value;
  }

  lemma {:induction false} ParsesExactly(text: string)
    ensures ParseLength(text).Some? <==> forall i :: 0 <= i < |text| ==> IsDigit(text[i])
  {
    if text != [] {
      ParsesExactly(text[..|text| - 1]);
    }
  }

  /** A length is announced by the first `Content-Length` line, on whatever line and in
      whatever case it stands, by the digits of its trimmed value; a value with anything
      but digits is invalid. */
  lemma LengthOnAnyLine(before: seq<string>, name: string, value: string, after: seq<string>)
    requires Lowered(name) == "content-length" && ':' !in value
    requires forall l :: l in before + [name + ":" + value] + after ==> IsLine(l)
    requires forall l :: l in before ==> !NamesLength(l)
    ensures var read := ReadHeader(HeaderText(before + [name + ":" + value] + after));
      && (forall n: nat :: Trim(value) == Decimal(n) ==> read == Length(n))
      && ((exists i :: 0 <= i < |Trim(value)| && !IsDigit(Trim(value)[i])) ==> read == Bad(InvalidLength))
  {
    var line := name + ":" + value;
    LinesOfText(before + [line] + after);
    assert |name| == |Lowered(name)| == 14;
    assert forall i :: 0 <= i < 14 ==> Lower(name[i]) == "content-length"[i];
    FirstFieldLine(before, line, after);
    ValueIs(name, value);
    ParsesExactly(Trim(value));
    forall n: nat | Trim(value) == Decimal(n) ensures ParseLength(Trim(value)) == Some(n) {
      DecimalParses(n);
    }
  }

  /** A header without such a line is refused. */
  lemma LengthIsMissing(lines: seq<string>)
    requires lines != [] && forall l :: l in lines ==> IsLine(l) && !NamesLength(l)
    ensures ReadHeader(HeaderText(lines)) == Bad(MissingLength)
  {
    LinesOfText(lines);
    NoFieldLine(lines);
  }

  /** One trip over a header `h` that ends at the first blank line: a refused header is
      taken off alone; else the body is taken off with it, or awaited. */
  lemma TripExactly(h: string, rest: string)
    requires forall j: nat :: j < |h| ==> !At(h + BLANK_LINE, BLANK_LINE, j)
    ensures var turned := Turn(State(h + BLANK_LINE + rest, None));
      match ReadHeader(h)
      case Bad(fault) => turned == Yield(State(rest, None), Rejected(fault))
      case Length(n) =>
        if |rest| < n then turned == Wait(State(rest, Some(n)))
        else turned == Yield(State(rest[n..], None), Body(rest[..n]))
  {
    var s := h + BLANK_LINE + rest;
    assert s[|h|..|h| + 4] == BLANK_LINE;
    forall j: nat | j < |h| ensures !At(s, BLANK_LINE, j) {
      assert !At(h + BLANK_LINE, BLANK_LINE, j);
      assert (h + BLANK_LINE)[j..j + 4] == s[j..j + 4];
    }
    assert At(s, BLANK_LINE, |h|);
    assert Find(s, BLANK_LINE, 0) == Some(|h|);
    assert s[..|h|] == h && s[|h| + 4..] == rest;
  }

  lemma HeaderIsFound(n: nat, rest: string)
    ensures Find(Header(n) + BLANK_LINE + rest, BLANK_LINE, 0) == Some(|Header(n)|)
  {
    var s := Header(n) + BLANK_LINE + rest;
    HeaderChars(n);
    assert s[|Header(n)|..|Header(n)| + 4] == BLANK_LINE;
    assert At(s, BLANK_LINE, |Header(n)|);
    forall j: nat | j < |Header(n)| ensures !At(s, BLANK_LINE, j) {
      if j + 4 <= |s| {
        assert s[j..j + 4][0] == Header(n)[j] != '\r';
      }
    }
  }

  lemma MessageIsTaken(body: string, rest: string)
    ensures Turn(State(EncodeMessage(body) + rest, None)) == Yield(State(rest, None), Body(body))
  {
    var h := Header(|body|);
    var s := EncodeMessage(body) + rest;
    assert s == h + BLANK_LINE + (body + rest);
    HeaderIsFound(|body|, body + rest);
    HeaderRoundTrip(|body|);
    assert s[..|h|] == h;
    assert s[|h| + 4..] == body + rest;
    assert (body + rest)[..|body|] == body && (body + rest)[|body|..] == rest;
  }

  lemma MessageDrains(body: string, rest: string)
    ensures Drained(State(EncodeMessage(body) + rest, None)) == Drained(State(rest, None)).After([Body(body)])
  {
    MessageIsTaken(body, rest);
  }

  lemma OneMoreDrains(body: string, rest: string, outcomes: seq<Outcome>)
    requires Drained(State(rest, None)) == Ran(State("", None), outcomes)
    ensures Drained(State(EncodeMessage(body) + rest, None)) == Ran(State("", None), [Body(body)] + outcomes)
  {
    MessageDrains(body, rest);
  }

  lemma EmptyDrains()
    ensures Drained(State("", None)) == Ran(State("", None), [])
  {
    assert Find("", BLANK_LINE, 0) == None;
  }

  lemma DeliveredFirst(bodies: seq<string>)
    requires bodies != []
    ensures Delivered(bodies) == [Body(bodies[0])] + Delivered(bodies[1..])
  {
  }

  lemma {:induction false} StreamDrains(bodies: seq<string>)
    ensures Drained(State(Stream(bodies), None)) == Ran(State("", None), Delivered(bodies))
  {
    if bodies == [] {
      EmptyDrains();
    } else {
      StreamDrains(bodies[1..]);
      OneMoreDrains(bodies[0], Stream(bodies[1..]), Delivered(bodies[1..]));
      DeliveredFirst(bodies);
    }
  }

  /** Encoding and decoding come back to where they started: on the encoded bodies, cut
      anyhow, a run that has come to rest has delivered exactly the bodies, in order, and
      holds no bytes; any other run has delivered the first few of them. */
  lemma RoundTrip(bodies: seq<string>, events: seq<Event>, unseen: string)
    requires Bytes(events) + unseen == Stream(bodies)
    ensures
      var ran := Run(State("", None), events);
      && ran.outcomes <= Delivered(bodies)
      && (unseen == "" && AtRest(ran.state) ==> ran == Ran(State("", None), Delivered(bodies)))
  {
    var start := State("", None);
    ChunkingDoesNotMatter(start, events, unseen);
    assert start.Plus(Stream(bodies)) == State(Stream(bodies), None);
    StreamDrains(bodies);
    if unseen == "" && AtRest(Run(start, events).state) {
      assert Bytes(events) + "" == Bytes(events);
      RestIsDrained(start, events);
    }
  }

  /** Two lists of bodies never have the same encoding. */
  lemma StreamIsInjective(a: seq<string>, b: seq<string>)
    requires Stream(a) == Stream(b)
    ensures a == b
  {
    StreamDrains(a);
    StreamDrains(b);
    assert |a| == |Delivered(a)| == |Delivered(b)| == |b|;
    forall i | 0 <= i < |a| ensures a[i] == b[i] {
      assert Delivered(a)[i] == Body(a[i]) && Delivered(b)[i] == Body(b[i]);
    }
  }

  // ------------------------------------------------------------ the read loop

  lemma NothingBefore(r: Ran)
    ensures r.After(Delivered([])) == r
  {
    assert Delivered([]) + r.outcomes == r.outcomes;
  }

  /** A trip that waits leaves nothing for another trip; one that yields goes on. */
  lemma TripEnds(s: State, delivered: seq<string>)
    ensures Turn(s).Wait? ==> AtRest(Turn(s).next)
    ensures Turn(s).Wait? ==> Drained(s).After(Delivered(delivered)) == Ran(Turn(s).next, Delivered(delivered))
    ensures Turn(s).Yield? ==>
      Drained(s).After(Delivered(delivered)) ==
      Drained(Turn(s).next).After(Delivered(delivered) + [Turn(s).outcome])
  {
    if Turn(s).Wait? {
      assert Delivered(delivered) + [] == Delivered(delivered);
    } else {
      AfterAfter(Drained(Turn(s).next), Delivered(delivered), [Turn(s).outcome]);
    }
  }

  function Joined(chunks: seq<string>): string {
    if chunks == [] then "" else chunks[0] + Joined(chunks[1..])
  }

  /** More bytes only add to what those at hand yield. */
  lemma {:induction false} DrainedMore(s: State, more: string)
    ensures Drained(s.Plus(more)) == Drained(Drained(s).state.Plus(more)).After(Drained(s).outcomes)
    decreases Work(s)
  {
    TurnMore(s, more);
    var next := Turn(s).next;
    if Turn(s).Yield? {
      TurnShrinks(s);
      DrainedMore(next, more);
      AfterAfter(Drained(Drained(s).state.Plus(more)), [Turn(s).outcome], Drained(next).outcomes);
    } else {
      var rest := Drained(next.Plus(more));
      assert [] + rest.outcomes == rest.outcomes;
    }
  }

  lemma DeliveredBoth(a: seq<string>, b: seq<string>)
    ensures Delivered(a + b) == Delivered(a) + Delivered(b)
  {
  }

  /** What was delivered, followed by what the rest will yield, is what all bytes yield. */
  ghost predicate ReadSoFar(whole: State, s: State, future: string, delivered: seq<string>) {
    Drained(whole) == Drained(s.Plus(future)).After(Delivered(delivered))
  }

  lemma KeepsAfter(tail: Ran, delivered: seq<string>, more: seq<string>)
    ensures tail.After(Delivered(more)).After(Delivered(delivered)) == tail.After(Delivered(delivered + more))
  {
    AfterAfter(tail, Delivered(delivered), Delivered(more));
    DeliveredBoth(delivered, more);
  }

  lemma StopsAfter(all: Ran, part: Ran, rest: Ran, tail: Ran,
                   delivered: seq<string>, more: seq<string>, fault: Fault)
    requires all == tail.After(part.outcomes) && part == rest.After(Delivered(more) + [Rejected(fault)])
    ensures Delivered(delivered + more) + [Rejected(fault)] <= all.After(Delivered(delivered)).outcomes
  {
    DeliveredBoth(delivered, more);
    var a, b, bad := Delivered(delivered), Delivered(more), [Rejected(fault)];
    assert a + (((b + bad) + rest.outcomes) + tail.outcomes) == ((a + b) + bad) + (rest.outcomes + tail.outcomes);
  }

  class Decoder {
    var buffer: string
    var contentLength: Option<nat>

    function Now(): State
      reads this
    {
      State(buffer, contentLength)
    }

    constructor ()
      ensures Now() == State("", None)
    {
      buffer, contentLength := "", None;
    }

    method Append(chunk: string)
      modifies this
      ensures Now() == old(Now()).Plus(chunk)
    {
      buffer := buffer + chunk;
    }

    /** Delivers what the bytes at hand yield; a fault ends the loop at once. */
    method ProcessBuffer() returns (delivered: seq<string>, fault: Option<Fault>)
      modifies this
      ensures fault == None ==> AtRest(Now()) && Drained(old(Now())) == Ran(Now(), Delivered(delivered))
      ensures fault.Some? ==>
        Drained(old(Now())) == Drained(Now()).After(Delivered(delivered) + [Rejected(fault.value)])
    {
      delivered, fault := [], None;
      ghost var start := Now();
      NothingBefore(Drained(start));
      while true
        invariant Drained(start) == Drained(Now()).After(Delivered(delivered))
        decreases Work(Now())
      {
        ghost var before := Now();
        TripEnds(before, delivered);
        TurnShrinks(before);
        var got := MakeTrip();
        match got
        case None =>
          break;
        case Some(Rejected(bad)) =>
          fault := Some(bad);
          return;
        case Some(Body(payload)) =>
          DeliveredBoth(delivered, [payload]);
          assert Delivered([payload]) == [Body(payload)];
          delivered := delivered + [payload];
      }
    }

    /** One trip of the loop: a body, a fault, or nothing until more bytes come. */
    method MakeTrip() returns (got: Option<Outcome>)
      modifies this
      ensures Now() == Turn(old(Now())).next
      ensures got == if Turn(old(Now())).Yield? then Some(Turn(old(Now())).outcome) else None
    {
      if contentLength == None {
        var found := Find(buffer, BLANK_LINE, 0);
        if found == None {
          return None;
        }
        var header := buffer[..found.value];
        buffer := buffer[found.value + 4..];
        var line := FieldLine(Lines(header));
        if line == None {
          return Some(Rejected(MissingLength));
        }
        var parsed := ParseLength(Trim(FieldValue(line.value)));
        if parsed == None {
          return Some(Rejected(InvalidLength));
        }
        contentLength := parsed;
      }
      if |buffer| < contentLength.value {
        return None;
      }
      var payload := buffer[..contentLength.value];
      buffer := buffer[contentLength.value..];
      contentLength := None;
      return Some(Body(payload));
    }

    /** The bytes arrive in pieces, each handled before the next; the first fault ends
        the reading. */
    method ReadLoop(chunks: seq<string>) returns (delivered: seq<string>, fault: Option<Fault>)
      requires Now() == State("", None)
      modifies this
      ensures fault == None ==> Drained(State(Joined(chunks), None)) == Ran(Now(), Delivered(delivered))
      ensures fault.Some? ==> Delivered(delivered) + [Rejected(fault.value)] <=
                              Drained(State(Joined(chunks), None)).outcomes
    {
      delivered, fault := [], None;
      ghost var whole := State(Joined(chunks), None);
      var k := 0;
      NothingBefore(Drained(whole));
      assert State("", None).Plus(Joined(chunks)) == whole;
      assert Find("", BLANK_LINE, 0) == None;
      assert chunks[0..] == chunks;
      while k < |chunks|
        invariant 0 <= k <= |chunks|
        invariant AtRest(Now())
        invariant ReadSoFar(whole, Now(), Joined(chunks[k..]), delivered)
      {
        var more, failed := OnData(chunks[k], whole, chunks[k..], delivered);
        if failed.Some? {
          return delivered + more, failed;
        }
        delivered := delivered + more;
        assert chunks[k..][1..] == chunks[k + 1..];
        k := k + 1;
      }
      assert Now().Plus("") == Now();
      assert Delivered(delivered) + [] == Delivered(delivered);
    }

    method OnData(chunk: string, ghost whole: State, ghost chunks: seq<string>, ghost delivered: seq<string>)
      returns (more: seq<string>, fault: Option<Fault>)
      requires chunks != [] && chunk == chunks[0]
      requires ReadSoFar(whole, Now(), Joined(chunks), delivered)
      modifies this
      ensures fault == None ==> AtRest(Now()) && ReadSoFar(whole, Now(), Joined(chunks[1..]), delivered + more)
      ensures fault.Some? ==> Delivered(delivered + more) + [Rejected(fault.value)] <= Drained(whole).outcomes
    {
      ghost var future := Joined(chunks[1..]);
      assert (buffer + chunk) + future == buffer + Joined(chunks);
      Append(chunk);
      ghost var full := Now();
      more, fault := ProcessBuffer();
      DrainedMore(full, future);
      ghost var tail := Drained(Drained(full).state.Plus(future));
      if fault.Some? {
        StopsAfter(Drained(full.Plus(future)), Drained(full), Drained(Now()), tail, delivered, more, fault.value);
      } else {
        KeepsAfter(tail, delivered, more);
      }
    }
  }
}
