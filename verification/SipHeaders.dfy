/** How the parser reads the header lines of a SIP message, and which Call-ID it finds. */
module SipHeaders {
  import opened Common
  import opened Text
  import opened SipStartLine

  type Field = (string, string)

  /** The bytes of a packet as text. */
  function TextOf(b: Bytes): (s: string)
    ensures |s| == |b| && forall i :: 0 <= i < |s| ==> s[i] == b[i] as char
  {
    seq(|b|, i requires 0 <= i < |b| => b[i] as char)
  }

  /** A line without the carriage return before its end. */
  function StripCR(line: string): string
  {
    if line != "" && line[|line| - 1] == '\r' then line[..|line| - 1] else line
  }

  /** The header lines up to the empty one; none if a line has no colon. */
  function Fields(s: string): Option<seq<Field>>
    decreases |s|
  {
    var end := IndexOf(s, '\n');
    var line := StripCR(s[..end]);
    if line == "" then Some([])
    else
      var colon := IndexOf(line, ':');
      if colon == |line| then None
      else
        var rest := if end == |s| then Some([]) else Fields(s[end + 1..]);
        if rest.None? then None
        else Some([(TrimSpace(line[..colon]), TrimSpace(line[colon + 1..]))] + rest.value)
  }

  /** The header fields of a packet that parses. */
  function ParseFields(raw: Bytes): Option<seq<Field>>
  {
    var s := TextOf(raw);
    var end := IndexOf(s, '\n');
    var line := TrimSpace(StripCR(s[..end]));
    if line == "" || ParseStart(line).Invalid? then None
    else if end == |s| then Some([])
    else Fields(s[end + 1..])
  }

  /** What a look-up by name may answer: the first value under one spelling of the name, whichever spelling
      the table gives first. */
  ghost predicate MayRead(fields: seq<Field>, name: string, v: Option<string>)
  {
    match v
    case None => forall i :: 0 <= i < |fields| ==> !EqualFold(fields[i].0, name)
    case Some(text) =>
      exists i :: 0 <= i < |fields| && EqualFold(fields[i].0, name) && fields[i].1 == text
        && forall j :: 0 <= j < i ==> fields[j].0 != fields[i].0
  }

  /** What a worker finds as the Call-ID of a packet. */
  ghost predicate MayFind(raw: Bytes, callID: Option<string>)
  {
    match ParseFields(raw)
    case None => callID.None?
    case Some(fields) => MayRead(fields, "Call-ID", callID)
  }

  // ---------- a message with one header ----------

  const START_LINE: Bytes := [65, 32, 66, 32, 67]                // "A B C"
  const CALL_ID: Bytes := [67, 97, 108, 108, 45, 73, 68, 58]     // "Call-ID:"
  const CRLF: Bytes := [13, 10]

  /** A request whose only header is the Call-ID line with this text after the colon. */
  function MessageWith(v: Bytes): Bytes
  {
    START_LINE + CRLF + CALL_ID + v + CRLF + CRLF
  }

  /** A value that stays on its line. */
  predicate OneLine(v: Bytes)
  {
    13 !in v && 10 !in v
  }

  lemma IndexIs(s: string, c: char, i: nat)
    requires i < |s| && s[i] == c && forall j :: 0 <= j < i ==> s[j] != c
    ensures IndexOf(s, c) == i
  {
  }

  lemma TextOfConcat(a: Bytes, b: Bytes)
    ensures TextOf(a + b) == TextOf(a) + TextOf(b)
  {
  }

  lemma NameText()
    ensures TextOf(CALL_ID) == "Call-ID:" && TextOf(START_LINE) == "A B C" && TextOf(CRLF) == "\r\n"
  {
  }

  lemma RequestParses()
    ensures TrimSpace("A B C") == "A B C" && ParseStart("A B C") == Request("A")
  {
    TrimTight("A B C");
    IndexIs("A B C", ' ', 1);
    var rest := "A B C"[2..];
    assert rest == "B C";
    IndexIs("B C", ' ', 1);
  }

  lemma LastLine()
    ensures Fields("\r\n") == Some([])
  {
    IndexIs("\r\n", '\n', 1);
    assert "\r\n"[..1] == "\r" && StripCR("\r") == "";
  }

  /** The first line of a text, without its end. */
  lemma FirstOf(line: string, rest: string)
    requires '\n' !in line
    ensures var s, end := line + "\r\n" + rest, |line| + 1;
            IndexOf(s, '\n') == end && StripCR(s[..end]) == line && s[end + 1..] == rest
  {
    var s, end := line + "\r\n" + rest, |line| + 1;
    forall j | 0 <= j < end
      ensures s[j] != '\n'
    {
      if j < |line| {
        assert s[j] == line[j] && line[j] in line;
      }
    }
    IndexIs(s, '\n', end);
    assert s[..end] == line + "\r";
  }

  /** A header line in front of others. */
  lemma FieldsStep(line: string, colon: nat, rest: string)
    requires '\n' !in line && colon < |line| && IndexOf(line, ':') == colon
    ensures Fields(line + "\r\n" + rest) ==
            if Fields(rest).None? then None
            else Some([(TrimSpace(line[..colon]), TrimSpace(line[colon + 1..]))] + Fields(rest).value)
  {
    hide TrimSpace;
    FirstOf(line, rest);
  }

  // ---------- whole messages ----------

  /** Header lines, each with its line end. */
  function Lines(lines: seq<string>): string
  {
    if lines == [] then "" else lines[0] + "\r\n" + Lines(lines[1..])
  }

  function Pairs(lines: seq<string>): seq<Field>
    requires forall i :: 0 <= i < |lines| ==> ':' in lines[i]
  {
    if lines == [] then []
    else
      var colon := IndexOf(lines[0], ':');
      assert colon < |lines[0]|;
      [(TrimSpace(lines[0][..colon]), TrimSpace(lines[0][colon + 1..]))] + Pairs(lines[1..])
  }

  ghost predicate HeaderLines(lines: seq<string>)
  {
    forall i :: 0 <= i < |lines| ==> lines[i] != "" && '\n' !in lines[i]
  }

  /** Header lines up to the empty line are read in order; one without a colon makes the message invalid. */
  lemma {:induction false} LinesRead(lines: seq<string>, body: string)
    requires HeaderLines(lines)
    ensures var s := Lines(lines) + "\r\n" + body;
            if forall i :: 0 <= i < |lines| ==> ':' in lines[i] then Fields(s) == Some(Pairs(lines)) else Fields(s) == None
  {
    hide TrimSpace, IndexOf;
    var s := Lines(lines) + "\r\n" + body;
    if lines == [] {
      assert s == "" + "\r\n" + body;
      FirstOf("", body);
    } else {
      var rest := Lines(lines[1..]) + "\r\n" + body;
      assert s == lines[0] + "\r\n" + rest;
      FirstOf(lines[0], rest);
      LinesRead(lines[1..], body);
      assert forall i :: 0 < i < |lines| ==> lines[i] == lines[1..][i - 1];
      if ':' in lines[0] {
        assert forall i :: 0 <= i < |lines[1..]| ==> lines[1..][i] == lines[i + 1];
      }
    }
  }

  /** A message is its start line, its header lines, an empty line and a body: it parses if and only if the start line,
      without the spaces around it, is a request or status line and every header line has a colon. */
  lemma MessageReads(raw: Bytes, start: string, lines: seq<string>, body: string)
    requires '\n' !in start && HeaderLines(lines)
    requires TextOf(raw) == start + "\r\n" + (Lines(lines) + "\r\n" + body)
    ensures if TrimSpace(start) != "" && !ParseStart(TrimSpace(start)).Invalid?
               && forall i :: 0 <= i < |lines| ==> ':' in lines[i]
            then ParseFields(raw) == Some(Pairs(lines)) else ParseFields(raw) == None
  {
    hide TrimSpace, Fields, Pairs, ParseStart, Lines;
    FirstOf(start, Lines(lines) + "\r\n" + body);
    LinesRead(lines, body);
  }

  /** A request or status line in front of the headers. */
  lemma StartStep(raw: Bytes, line: string, rest: string)
    requires TextOf(raw) == line + "\r\n" + rest && '\n' !in line
    requires line != "" && TrimSpace(line) == line && !ParseStart(line).Invalid?
    ensures ParseFields(raw) == Fields(rest)
  {
    hide TrimSpace, ParseStart, Fields;
    FirstOf(line, rest);
  }

  lemma NoNewline(v: Bytes)
    requires OneLine(v)
    ensures '\n' !in "Call-ID:" + TextOf(v)
  {
    var line := "Call-ID:" + TextOf(v);
    forall j | 0 <= j < |line|
      ensures line[j] != '\n'
    {
      if j >= 8 {
        assert line[j] == v[j - 8] as char && v[j - 8] in v;
      }
    }
  }

  /** One header line and the empty line after it. */
  lemma OneField(v: Bytes)
    requires OneLine(v)
    ensures Fields("Call-ID:" + TextOf(v) + "\r\n" + "\r\n") == Some([("Call-ID", TrimSpace(TextOf(v)))])
  {
    hide TrimSpace, Fields;
    var line := "Call-ID:" + TextOf(v);
    NoNewline(v);
    IndexIs(line, ':', 7);
    FieldsStep(line, 7, "\r\n");
    LastLine();
    assert line[..7] == "Call-ID" && line[8..] == TextOf(v);
    assert TrimSpace("Call-ID") == "Call-ID" by { TrimTight("Call-ID"); }
    var field := ("Call-ID", TrimSpace(TextOf(v)));
    assert [field] + [] == [field];
  }

  lemma MessageText(v: Bytes)
    ensures TextOf(MessageWith(v)) == "A B C" + "\r\n" + ("Call-ID:" + TextOf(v) + "\r\n" + "\r\n")
  {
    NameText();
    TextOfConcat(START_LINE, CRLF);
    TextOfConcat(CALL_ID, v);
    TextOfConcat(CALL_ID + v, CRLF);
    TextOfConcat(CALL_ID + v + CRLF, CRLF);
    TextOfConcat(START_LINE + CRLF, CALL_ID + v + CRLF + CRLF);
    assert MessageWith(v) == (START_LINE + CRLF) + (CALL_ID + v + CRLF + CRLF);
  }

  /** The packet's Call-ID is the text after the colon without the spaces around it, and nothing else. */
  lemma OneHeader(v: Bytes)
    requires OneLine(v)
    ensures ParseFields(MessageWith(v)) == Some([("Call-ID", TrimSpace(TextOf(v)))])
    ensures forall id :: MayFind(MessageWith(v), id) <==> id == Some(TrimSpace(TextOf(v)))
  {
    hide TrimSpace, Fields, ParseStart, ParseFields, TextOf, MessageWith, Lower;
    MessageText(v);
    RequestParses();
    StartStep(MessageWith(v), "A B C", "Call-ID:" + TextOf(v) + "\r\n" + "\r\n");
    OneField(v);
    var f := [("Call-ID", TrimSpace(TextOf(v)))];
    assert EqualFold(f[0].0, "Call-ID");
  }
}
