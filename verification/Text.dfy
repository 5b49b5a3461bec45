/** The string operations of the program, on ASCII text. */
module Text {
  import opened Common

  predicate IsSpace(c: char)
    ensures IsSpace(c) <==> 9 <= c as int <= 13 || c as int == 32
  {
    c == ' ' || c == '\t' || c == '\n' || c == '\r' || c == '\U{0b}' || c == '\U{0c}'
  }

  function TrimLeft(s: string): string
  {
    if s != "" && IsSpace(s[0]) then TrimLeft(s[1..]) else s
  }

  function TrimRight(s: string): string
  {
    if s != "" && IsSpace(s[|s| - 1]) then TrimRight(s[..|s| - 1]) else s
  }

  function TrimSpace(s: string): string
  {
    TrimRight(TrimLeft(s))
  }

  function TrimQuotesLeft(s: string): string
  {
    if s != "" && s[0] == '"' then TrimQuotesLeft(s[1..]) else s
  }

  function TrimQuotesRight(s: string): string
  {
    if s != "" && s[|s| - 1] == '"' then TrimQuotesRight(s[..|s| - 1]) else s
  }

  function TrimQuotes(s: string): string
  {
    TrimQuotesRight(TrimQuotesLeft(s))
  }

  /** Position of the first c, or the length. */
  function IndexOf(s: string, c: char): (i: nat)
    ensures i <= |s|
    ensures i < |s| ==> s[i] == c
    ensures forall j :: 0 <= j < i ==> s[j] != c
  {
    if s == "" || s[0] == c then 0 else 1 + IndexOf(s[1..], c)
  }

  function UpperChar(c: char): char
  {
    if 'a' <= c <= 'z' then (c as int - 32) as char else c
  }

  function Upper(s: string): (r: string)
    ensures |r| == |s|
  {
    if s == "" then "" else [UpperChar(s[0])] + Upper(s[1..])
  }

  /** The number that decimal digits spell. */
  function ValueOf(s: string): int
  {
    if s == "" then 0 else 10 * ValueOf(s[..|s| - 1]) + (s[|s| - 1] as int - '0' as int)
  }

  // ---------- facts ----------

  /** Text with no space at either end. */
  ghost predicate Tight(s: string)
  {
    s != "" ==> !IsSpace(s[0]) && !IsSpace(s[|s| - 1])
  }

  lemma TrimTight(s: string)
    requires Tight(s)
    ensures TrimSpace(s) == s
  {
  }

  lemma {:induction false} TrimRightTail(a: string, b: string)
    requires TrimRight(b) != ""
    ensures TrimRight(a + b) == a + TrimRight(b)
    decreases |b|
  {
    if b != "" && IsSpace(b[|b| - 1]) {
      assert (a + b)[..|a + b| - 1] == a + b[..|b| - 1];
      TrimRightTail(a, b[..|b| - 1]);
    }
  }

  lemma {:induction false} TrimRightEnd(a: string, b: string)
    requires TrimRight(b) == ""
    ensures TrimRight(a + b) == TrimRight(a)
    decreases |b|
  {
    if b == "" {
      assert a + b == a;
    } else {
      assert (a + b)[..|a + b| - 1] == a + b[..|b| - 1];
      TrimRightEnd(a, b[..|b| - 1]);
    }
  }

  lemma {:induction false} TrimRightIdempotent(s: string)
    ensures TrimRight(TrimRight(s)) == TrimRight(s)
  {
    if s != "" && IsSpace(s[|s| - 1]) {
      TrimRightIdempotent(s[..|s| - 1]);
    }
  }

  lemma {:induction false} TrimRightPrefix(s: string)
    ensures TrimRight(s) <= s
    ensures TrimRight(s) != "" ==> !IsSpace(TrimRight(s)[|TrimRight(s)| - 1])
  {
    if s != "" && IsSpace(s[|s| - 1]) {
      TrimRightPrefix(s[..|s| - 1]);
    }
  }

  lemma {:induction false} TrimLeftHead(s: string)
    ensures TrimLeft(s) != "" ==> !IsSpace(TrimLeft(s)[0])
  {
    if s != "" && IsSpace(s[0]) {
      TrimLeftHead(s[1..]);
    }
  }

  /** Trimmed text is tight. */
  lemma TrimmedIsTight(s: string)
    ensures Tight(TrimSpace(s)) && TrimSpace(TrimSpace(s)) == TrimSpace(s)
  {
    var l := TrimLeft(s);
    TrimLeftHead(s);
    TrimRightPrefix(l);
    TrimTight(TrimSpace(s));
  }

  /** A leading space changes nothing. */
  lemma TrimLeadingSpace(s: string)
    ensures TrimSpace(" " + s) == TrimSpace(s)
  {
    assert (" " + s)[1..] == s;
  }

  /** Leaving out trailing spaces before trimming changes nothing. */
  lemma {:induction false} TrimOfTrimRight(s: string)
    ensures TrimSpace(TrimRight(s)) == TrimSpace(s)
  {
    var l := TrimLeft(s);
    if s != "" && IsSpace(s[0]) {
      assert s == [s[0]] + s[1..];
      TrimOfTrimRight(s[1..]);
      if TrimRight(s[1..]) == "" {
        TrimRightEnd([s[0]], s[1..]);
        AllSpace(s[1..]);
      } else {
        TrimRightTail([s[0]], s[1..]);
        assert TrimRight(s)[1..] == TrimRight(s[1..]);
      }
    } else {
      TrimRightIdempotent(s);
      TrimRightPrefix(s);
    }
  }

  /** Text that trims to nothing from the right does so from the left. */
  lemma {:induction false} AllSpace(s: string)
    requires TrimRight(s) == ""
    ensures TrimLeft(s) == ""
    decreases |s|
  {
    if s != "" {
      AllSpacePoint(s, 0);
      assert s == [s[0]] + s[1..];
      if TrimRight(s[1..]) != "" {
        TrimRightTail([s[0]], s[1..]);
      }
      AllSpace(s[1..]);
    }
  }

  lemma {:induction false} AllSpacePoint(s: string, i: nat)
    requires TrimRight(s) == "" && i < |s|
    ensures IsSpace(s[i])
    decreases |s|
  {
    if i < |s| - 1 {
      AllSpacePoint(s[..|s| - 1], i);
    }
  }

  /** The text between two quotes comes back if it has no quote at its ends. */
  lemma TrimQuoted(v: string)
    requires '"' !in v
    ensures TrimQuotes("\"" + v + "\"") == v
  {
    var s := "\"" + v + "\"";
    assert s[1..] == v + "\"";
    if v == "" {
      assert s[1..] == "\"" && s[1..][1..] == "";
      assert TrimQuotesLeft(s[1..]) == TrimQuotesLeft("");
    } else {
      assert (v + "\"")[0] == v[0] && (v + "\"")[..|v|] == v;
      assert v[0] in v;
      assert TrimQuotesLeft(s) == v + "\"";
      assert (v + "\"")[..|v + "\""| - 1] == v;
      assert TrimQuotesRight(v + "\"") == TrimQuotesRight(v);
      assert v[|v| - 1] in v;
    }
  }

  lemma TrimUnquoted(v: string)
    requires '"' !in v
    ensures TrimQuotes(v) == v
  {
    if v != "" {
      assert v[0] in v && v[|v| - 1] in v;
    }
  }
}
