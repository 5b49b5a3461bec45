/** How the parser reads the first line of a SIP message. */
module SipStartLine {
  import opened Common
  import opened Text

  datatype Start = Response(status: int) | Request(meth: string) | Invalid

  const SIP_VERSION := "SIP/2.0 "
  const MAX_INT := 0x7fff_ffff_ffff_ffff

  /** strconv.Atoi: an optional sign and at least one digit, within 64 bits. */
  function Atoi(s: string): Option<int>
  {
    var negative := s != "" && s[0] == '-';
    var digits := if s != "" && (s[0] == '-' || s[0] == '+') then s[1..] else s;
    if digits == "" || !AllDigits(digits) then None
    else
      var n := ValueOf(digits);
      if negative then (if n <= MAX_INT + 1 then Some(-n) else None)
      else if n <= MAX_INT then Some(n) else None
  }

  predicate AllDigits(s: string)
  {
    forall i :: 0 <= i < |s| ==> '0' <= s[i] <= '9'
  }

  predicate IsStatusLine(line: string)
  {
    |line| > |SIP_VERSION| && line[..|SIP_VERSION|] == SIP_VERSION
  }

  /** The line, already trimmed, as a status line or a request line. */
  function ParseStart(line: string): Start
  {
    if IsStatusLine(line) then
      var rest := line[|SIP_VERSION|..];
      var sp := IndexOf(rest, ' ');
      if sp == |rest| then Invalid
      else match Atoi(rest[..sp])
           case Some(code) => Response(code)
           case None => Invalid
    else
      var sp := IndexOf(line, ' ');
      if sp == |line| || IndexOf(line[sp + 1..], ' ') == |line| - sp - 1 then Invalid
      else Request(line[..sp])
  }

  /** A start line that the parser takes: one line, trimmed, not empty, and of one of the two forms. */
  ghost predicate Parses(line: string)
  {
    line != "" && '\n' !in line && Tight(line) && !ParseStart(line).Invalid?
  }

  /** The status line of a final response. */
  ghost predicate FinalLine(line: string)
  {
    Parses(line) && ParseStart(line).Response? && ParseStart(line).status >= 200
  }

  /** A status line with a code of three digits. */
  function StatusLine(a: char, b: char, c: char): string
  {
    "SIP/2.0 " + [a, b, c, ' ', 'X']
  }

  lemma FirstSpace(a: string, b: string)
    requires ' ' !in a
    ensures IndexOf(a + " " + b, ' ') == |a|
    ensures (a + " " + b)[..|a|] == a && (a + " " + b)[|a| + 1..] == b
  {
    var s := a + " " + b;
    assert forall j :: 0 <= j < |a| ==> s[j] == a[j] && a[j] in a;
    assert s[|a|] == ' ';
  }

  /** A request line is three words with a space between each; the first is the method, as it is written. */
  lemma RequestLineParses(meth: string, uri: string, rest: string)
    requires ' ' !in meth && ' ' !in uri && meth != "SIP/2.0"
    ensures ParseStart(meth + " " + uri + " " + rest) == Request(meth)
  {
    var line := meth + " " + uri + " " + rest;
    assert line == meth + " " + (uri + " " + rest);
    FirstSpace(meth, uri + " " + rest);
    FirstSpace(uri, rest);
    if IsStatusLine(line) {
      FirstWord(line);
    }
  }

  lemma FirstWord(line: string)
    requires IsStatusLine(line)
    ensures IndexOf(line, ' ') == 7 && line[..7] == "SIP/2.0"
  {
    var v := "SIP/2.0 ";
    assert line[..8] == v && v[..7] == "SIP/2.0";
    assert forall j :: 0 <= j < 8 ==> line[j] == line[..8][j] && line[j] == v[j];
    assert line[7] == ' ' && forall j :: 0 <= j < 7 ==> v[j] != ' ';
    assert line[..7] == line[..8][..7];
  }

  /** A status line is the version, a number and a reason, which may be empty but for its space. */
  lemma StatusLineReads(code: string, reason: string)
    requires ' ' !in code
    ensures ParseStart("SIP/2.0 " + code + " " + reason) == if Atoi(code).Some? then Response(Atoi(code).value) else Invalid
  {
    hide Atoi;
    var line := "SIP/2.0 " + code + " " + reason;
    assert line[8..] == code + " " + reason;
    FirstSpace(code, reason);
    assert line[..8] == "SIP/2.0 ";
  }

  /** A number is digits with at most one sign, within 64 bits. */
  lemma AtoiReads(digits: string, n: int)
    requires digits != "" && AllDigits(digits) && n == ValueOf(digits)
    ensures Atoi(digits) == Atoi("+" + digits) == if n < 0x8000_0000_0000_0000 then Some(n) else None
    ensures Atoi("-" + digits) == if n <= 0x8000_0000_0000_0000 then Some(-n) else None
  {
    assert digits[0] != '-' && digits[0] != '+';
    assert ("+" + digits)[1..] == digits && ("-" + digits)[1..] == digits;
  }

  lemma AtoiRefuses(s: string)
    ensures Atoi(s).Some? ==> exists sign, digits ::
              s == sign + digits && sign in {"", "+", "-"} && digits != "" && AllDigits(digits)
  {
    if Atoi(s).Some? {
      var k := if s[0] == '-' || s[0] == '+' then 1 else 0;
      assert s == s[..k] + s[k..] && AllDigits(s[k..]);
      assert s[..k] == "" || s[..k] == [s[0]];
      assert s[..k] in {"", "+", "-"};
    }
  }

  lemma StatusLineParses(a: char, b: char, c: char)
    requires '2' <= a <= '9' && '0' <= b <= '9' && '0' <= c <= '9'
    ensures FinalLine(StatusLine(a, b, c))
    ensures ParseStart(StatusLine(a, b, c)).status
            == 100 * (a as int - '0' as int) + 10 * (b as int - '0' as int) + (c as int - '0' as int)
  {
    var line := StatusLine(a, b, c);
    var rest := line[|SIP_VERSION|..];
    assert rest == [a, b, c, ' ', 'X'];
    assert rest[0] != ' ' && rest[1] != ' ' && rest[2] != ' ' && rest[3] == ' ';
    assert IndexOf(rest, ' ') == 3;
    var code := rest[..3];
    assert code == [a, b, c] && code[..2] == [a, b] && code[..2][..1] == [a] && code[..2][..1][..0] == "";
    assert ValueOf([a]) == a as int - '0' as int;
    assert ValueOf([a, b]) == 10 * ValueOf([a]) + (b as int - '0' as int);
    assert ValueOf(code) == 10 * ValueOf([a, b]) + (c as int - '0' as int);
  }
}
