/**
 Digest authentication: the header a client builds from a challenge, and the
 server side that parses and verifies it. Follows section 22.4 of RFC 3261 and
 section 3.4.1 of RFC 7616. The two hash functions are parameters.
 */
module DigestAuth {
  import opened Common
  import opened Text

  datatype Error = NotDigest | MissingRealmOrNonce | UnsupportedQop | UnsupportedAlgorithm | InvalidAuthorization

  datatype Result<+T> = Ok(value: T) | Err(error: Error)

  datatype Challenge = Challenge(realm: string, nonce: string, opaq: string, algorithm: string, qop: string)

  datatype Authorization = Authorization(username: string, realm: string, nonce: string, uri: string, response: string,
                                         algorithm: string, qop: string, nc: string, cnonce: string, opaq: string)

  /** MD5 and SHA-256 in hexadecimal. */
  datatype Hash = Hash(md5: string -> string, sha256: string -> string)

  function DigestHex(h: Hash, algorithm: string, value: string): string
  {
    var a := Upper(TrimSpace(algorithm));
    if a == "" || a == "MD5" then h.md5(value)
    else if a == "SHA-256" then h.sha256(value)
    else ""
  }

  // ---------- splitting a parameter list ----------

  /** Commas outside quotes end a parameter. */
  function Split(s: string, current: string, quoted: bool): seq<string>
    decreases |s|
  {
    if s == "" then (if current != "" then [TrimSpace(current)] else [])
    else if s[0] == '"' then Split(s[1..], current + [s[0]], !quoted)
    else if s[0] == ',' && !quoted then [TrimSpace(current)] + Split(s[1..], "", quoted)
    else Split(s[1..], current + [s[0]], quoted)
  }

  method SplitAuthParams(value: string) returns (params: seq<string>)
    ensures params == Split(value, "", false)
  {
    params := [];
    var current, quoted, i := "", false, 0;
    assert value[0..] == value;
    while i < |value|
      invariant 0 <= i <= |value|
      invariant params + Split(value[i..], current, quoted) == Split(value, "", false)
    {
      var r := value[i];
      assert value[i..][1..] == value[i + 1..];
      if r == '"' {
        quoted := !quoted;
        current := current + [r];
      } else if r == ',' && !quoted {
        ghost var before := params;
        params := params + [TrimSpace(current)];
        assert before + ([TrimSpace(current)] + Split(value[i + 1..], "", false)) == params + Split(value[i + 1..], "", false);
        current := "";
      } else {
        current := current + [r];
      }
      i := i + 1;
    }
    if |current| > 0 {
      params := params + [TrimSpace(current)];
    }
  }

  /** Key and value of a parameter, if it has an equals sign. */
  function KeyValue(param: string): Option<(string, string)>
  {
    var i := IndexOf(param, '=');
    if i == |param| then None
    else Some((Lower(TrimSpace(param[..i])), TrimQuotes(TrimSpace(param[i + 1..]))))
  }

  function SetField(a: Authorization, key: string, v: string): Authorization
  {
    if key == "username" then a.(username := v)
    else if key == "realm" then a.(realm := v)
    else if key == "nonce" then a.(nonce := v)
    else if key == "uri" then a.(uri := v)
    else if key == "response" then a.(response := v)
    else if key == "algorithm" then a.(algorithm := v)
    else if key == "qop" then a.(qop := v)
    else if key == "nc" then a.(nc := v)
    else if key == "cnonce" then a.(cnonce := v)
    else if key == "opaque" then a.(opaq := v)
    else a
  }

  function SetAll(a: Authorization, params: seq<string>): Authorization
    decreases |params|
  {
    if params == [] then a
    else
      var kv := KeyValue(params[0]);
      SetAll(if kv.Some? then SetField(a, kv.value.0, kv.value.1) else a, params[1..])
  }

  const NO_AUTH := Authorization("", "", "", "", "", "", "", "", "", "")

  /** The parameters after the word Digest, in any case. */
  function DigestParams(value: string): Option<string>
  {
    var v := TrimSpace(value);
    if |v| >= 7 && Lower(v)[..7] == "digest " then Some(TrimSpace(v[7..])) else None
  }

  function ParseAuthorization(value: string): Result<Authorization>
  {
    var p := DigestParams(value);
    if p.None? then Err(NotDigest)
    else
      var a := SetAll(NO_AUTH, Split(p.value, "", false));
      if a.realm == "" || a.nonce == "" || a.uri == "" || a.response == "" || a.username == "" then Err(InvalidAuthorization)
      else Ok(a)
  }

  function SetChallenge(c: Challenge, key: string, v: string): Challenge
  {
    if key == "realm" then c.(realm := v)
    else if key == "nonce" then c.(nonce := v)
    else if key == "opaque" then c.(opaq := v)
    else if key == "algorithm" then c.(algorithm := v)
    else if key == "qop" then c.(qop := v)
    else c
  }

  function SetChallenges(c: Challenge, params: seq<string>): Challenge
    decreases |params|
  {
    if params == [] then c
    else
      var kv := KeyValue(params[0]);
      SetChallenges(if kv.Some? then SetChallenge(c, kv.value.0, kv.value.1) else c, params[1..])
  }

  function ParseChallenge(value: string): Result<Challenge>
  {
    var p := DigestParams(value);
    if p.None? then Err(NotDigest)
    else Ok(SetChallenges(Challenge("", "", "", "", ""), Split(p.value, "", false)))
  }

  // ---------- building ----------

  /** The program's quoted form of printable text: quotes and backslashes are escaped. */
  function Escape(s: string): string
  {
    if s == "" then ""
    else (if s[0] == '"' || s[0] == '\\' then ['\\', s[0]] else [s[0]]) + Escape(s[1..])
  }

  function Quote(s: string): string
  {
    "\"" + Escape(s) + "\""
  }

  function Join(parts: seq<string>): string
  {
    if parts == [] then "" else if |parts| == 1 then parts[0] else parts[0] + ", " + Join(parts[1..])
  }

  /** Whether a comma-separated list names the option "auth". */
  predicate OffersAuth(qop: string)
    decreases |qop|
  {
    var i := IndexOf(qop, ',');
    EqualFold(TrimSpace(qop[..i]), "auth") || (i < |qop| && OffersAuth(qop[i + 1..]))
  }

  datatype Credentials = Credentials(verb: string, uri: string, username: string, password: string)

  function Ha1(h: Hash, algorithm: string, c: Credentials, realm: string): string
  {
    DigestHex(h, algorithm, c.username + ":" + realm + ":" + c.password)
  }

  function Response(h: Hash, algorithm: string, ha1: string, verb: string, uri: string,
                    nonce: string, qop: string, nc: string, cnonce: string): string
  {
    var ha2 := DigestHex(h, algorithm, verb + ":" + uri);
    if qop == "" then DigestHex(h, algorithm, ha1 + ":" + nonce + ":" + ha2)
    else DigestHex(h, algorithm, ha1 + ":" + nonce + ":" + nc + ":" + cnonce + ":" + qop + ":" + ha2)
  }

  const NC := "00000001"

  function Param(key: string, text: string): string
  {
    key + "=" + text
  }

  /** The parameters of the header, in order. */
  function Parts(ch: Challenge, c: Credentials, algorithm: string, qop: string, cnonce: string, response: string): seq<string>
  {
    [Param("username", Quote(c.username)), Param("realm", Quote(ch.realm)), Param("nonce", Quote(ch.nonce)),
     Param("uri", Quote(c.uri)), Param("response", Quote(response)), Param("algorithm", algorithm)]
    + (if ch.opaq != "" then [Param("opaque", Quote(ch.opaq))] else [])
    + (if qop != "" then [Param("qop", qop), Param("nc", NC), Param("cnonce", Quote(cnonce))] else [])
  }

  /** The header value for a challenge; `cnonce` stands for the random client nonce. */
  function BuildValue(h: Hash, challenge: string, c: Credentials, cnonce: string): Result<string>
  {
    var parsed := ParseChallenge(challenge);
    if parsed.Err? then Err(parsed.error)
    else
      var ch := parsed.value;
      if ch.realm == "" || ch.nonce == "" then Err(MissingRealmOrNonce)
      else
        var algorithm := if ch.algorithm == "" then "MD5" else ch.algorithm;
        if ch.qop != "" && !OffersAuth(ch.qop) then Err(UnsupportedQop)
        else
          var qop := if ch.qop == "" then "" else "auth";
          var ha1 := Ha1(h, algorithm, c, ch.realm);
          if ha1 == "" then Err(UnsupportedAlgorithm)
          else
            var response := Response(h, algorithm, ha1, c.verb, c.uri, ch.nonce, qop, if qop == "" then "" else NC,
                                     if qop == "" then "" else cnonce);
            Ok("Digest " + Join(Parts(ch, c, algorithm, qop, cnonce, response)))
  }

  /** Verification of a header value for a request with the given method. */
  function Verify(h: Hash, value: string, verb: string, username: string, password: string): Result<bool>
  {
    var parsed := ParseAuthorization(value);
    if parsed.Err? then Err(parsed.error)
    else
      var a := parsed.value;
      if a.username != username then Ok(false)
      else
        var algorithm := if a.algorithm == "" then "MD5" else a.algorithm;
        var ha1 := Ha1(h, algorithm, Credentials(verb, a.uri, username, password), a.realm);
        if ha1 == "" then Err(UnsupportedAlgorithm)
        else if a.qop != "" && !EqualFold(a.qop, "auth") then Err(UnsupportedQop)
        else Ok(EqualFold(Response(h, algorithm, ha1, verb, a.uri, a.nonce, a.qop, a.nc, a.cnonce), a.response))
  }

  // ---------- what a built header parses to ----------

  /** Text without a quote escapes to text without a quote, and to itself just when it has no backslash. */
  lemma {:induction false} EscapeNoQuote(s: string)
    requires '"' !in s
    ensures '"' !in Escape(s) && |Escape(s)| >= |s|
    ensures Escape(s) == s <==> '\\' !in s
  {
    if s != "" {
      assert s == [s[0]] + s[1..];
      EscapeNoQuote(s[1..]);
      assert s[0] != '\\' ==> (Escape(s) == s <==> Escape(s[1..]) == s[1..]);
      assert s[0] == '\\' ==> |Escape(s)| > |s|;
    }
  }

  /** Whether scanning p from this quote state passes no comma outside quotes, and the state after it. */
  predicate Whole(p: string, quoted: bool)
    decreases |p|
  {
    p != "" ==> !(p[0] == ',' && !quoted) && Whole(p[1..], quoted != (p[0] == '"'))
  }

  function After(p: string, quoted: bool): bool
    decreases |p|
  {
    if p == "" then quoted else After(p[1..], quoted != (p[0] == '"'))
  }

  lemma {:induction false} SplitWhole(p: string, rest: string, current: string, quoted: bool)
    requires Whole(p, quoted)
    ensures Split(p + rest, current, quoted) == Split(rest, current + p, After(p, quoted))
    decreases |p|
  {
    if p == "" {
      assert p + rest == rest && current + p == current;
    } else {
      assert (p + rest)[1..] == p[1..] + rest;
      SplitWhole(p[1..], rest, current + [p[0]], quoted != (p[0] == '"'));
      assert current + [p[0]] + p[1..] == current + p;
    }
  }

  lemma {:induction false} WholeOf(a: string, b: string, quoted: bool)
    ensures Whole(a + b, quoted) <==> Whole(a, quoted) && Whole(b, After(a, quoted))
    ensures After(a + b, quoted) == After(b, After(a, quoted))
    decreases |a|
  {
    if a == "" {
      assert a + b == b;
    } else {
      assert (a + b)[1..] == a[1..] + b;
      WholeOf(a[1..], b, quoted != (a[0] == '"'));
    }
  }

  /** Text without quotes keeps the quote state; it is whole if quoted, or if it has no comma. */
  lemma {:induction false} WholeFree(s: string, quoted: bool)
    requires '"' !in s && (quoted || ',' !in s)
    ensures Whole(s, quoted) && After(s, quoted) == quoted
    decreases |s|
  {
    if s != "" {
      assert s[0] in s;
      WholeFree(s[1..], quoted);
    }
  }

  /** A parameter that splitting keeps in one piece. */
  ghost predicate OnePiece(p: string)
  {
    p != "" && Whole(p, false) && !After(p, false)
  }

  lemma {:induction false} SplitJoin(parts: seq<string>)
    requires parts != [] && forall i :: 0 <= i < |parts| ==> OnePiece(parts[i])
    ensures |Split(Join(parts), "", false)| == |parts|
    ensures forall i :: 0 <= i < |parts| ==> Split(Join(parts), "", false)[i] == TrimSpace(parts[i])
    decreases |parts|
  {
    SplitJoinFrom(parts, "");
  }

  /** The same with the space left over from the separator in front. */
  lemma {:induction false} SplitJoinFrom(parts: seq<string>, pad: string)
    requires pad == "" || pad == " "
    requires parts != [] && forall i :: 0 <= i < |parts| ==> OnePiece(parts[i])
    ensures var r := Split(Join(parts), pad, false);
            |r| == |parts| && forall i :: 0 <= i < |parts| ==> r[i] == TrimSpace(parts[i])
    decreases |parts|
  {
    hide TrimSpace;
    var p := parts[0];
    assert TrimSpace(pad + p) == TrimSpace(p) by {
      TrimLeadingSpace(p);
      assert pad == "" ==> pad + p == p;
    }
    if |parts| == 1 {
      assert p + "" == p;
      SplitWhole(p, "", pad, false);
    } else {
      var rest := Join(parts[1..]);
      SplitWhole(p, ", " + rest, pad, false);
      assert p + ", " + rest == p + (", " + rest);
      assert (", " + rest)[1..] == " " + rest && (" " + rest)[1..] == rest;
      assert "" + [' '] == " ";
      SplitJoinFrom(parts[1..], " ");
      var r := Split(rest, " ", false);
      assert Split(Join(parts), pad, false) == [TrimSpace(pad + p)] + r;
      forall i | 0 < i < |parts|
        ensures ([TrimSpace(pad + p)] + r)[i] == TrimSpace(parts[i])
      {
        assert parts[1..][i - 1] == parts[i];
      }
    }
  }

  predicate GoodKey(key: string)
  {
    key != "" && forall i :: 0 <= i < |key| ==> 'a' <= key[i] <= 'z'
  }

  lemma GoodKeyFacts(key: string)
    requires GoodKey(key)
    ensures '"' !in key && ',' !in key && '=' !in key
    ensures Lower(key) == key && TrimSpace(key) == key
  {
    assert Lower(key) == key;
    TrimTight(key);
  }

  /** Cutting at the first equals sign. */
  lemma {:induction false} IndexOfKey(key: string, rest: string)
    requires '=' !in key
    ensures IndexOf(key + "=" + rest, '=') == |key|
  {
    var s := key + "=" + rest;
    if key != "" {
      assert key[0] in key;
      assert s[1..] == key[1..] + "=" + rest;
      IndexOfKey(key[1..], rest);
    }
  }

  lemma KeyValueOf(key: string, rest: string)
    requires GoodKey(key)
    ensures KeyValue(key + "=" + rest) == Some((key, TrimQuotes(TrimSpace(rest))))
  {
    hide TrimSpace, TrimQuotes, IndexOf;
    GoodKeyFacts(key);
    IndexOfKey(key, rest);
    var s := key + "=" + rest;
    assert s[..|key|] == key && s[|key| + 1..] == rest;
  }

  /** A quoted parameter stays in one piece and gives its key and escaped value back. */
  lemma QuotedParam(key: string, u: string)
    requires GoodKey(key) && '"' !in u
    ensures var p := Param(key, Quote(u));
            && OnePiece(p) && p != "" && !IsSpace(p[0]) && TrimRight(p) == p
            && KeyValue(TrimSpace(p)) == Some((key, Escape(u)))
  {
    hide KeyValue, Whole, After, TrimQuotes, Escape;
    EscapeNoQuote(u);
    GoodKeyFacts(key);
    var v := Escape(u);
    var p, q := key + "=" + Quote(u), Quote(u);
    assert q == "\"" + v + "\"" && p == (key + "=") + ("\"" + (v + "\""));
    assert Tight(p) && Tight(q);
    TrimTight(p);
    TrimTight(q);
    TrimQuoted(v);
    KeyValueOf(key, q);
    WholeFree(key + "=", false);
    WholeOf(key + "=", "\"" + (v + "\""), false);
    OneQuote(false);
    OneQuote(true);
    WholeOf("\"", v + "\"", false);
    WholeFree(v, true);
    WholeOf(v, "\"", true);
  }

  lemma OneQuote(quoted: bool)
    ensures Whole("\"", quoted) && After("\"", quoted) == !quoted
  {
    assert "\""[1..] == "";
  }

  /** A token parameter gives its key and its trimmed value back. */
  lemma TokenParam(key: string, v: string)
    requires GoodKey(key) && '"' !in v && ',' !in v
    ensures var p := Param(key, v);
            && OnePiece(p) && p != "" && !IsSpace(p[0]) && TrimRight(p) != ""
            && KeyValue(TrimSpace(p)) == Some((key, TrimSpace(v)))
  {
    hide KeyValue, Whole, After, TrimSpace;
    GoodKeyFacts(key);
    var p := (key + "=") + v;
    WholeFree(p, false);
    assert TrimSpace(p) == TrimRight(p) by { TrimNoLead(p); }
    if TrimRight(v) == "" {
      TrimRightEnd(key + "=", v);
      AllSpace(v);
      assert TrimSpace(v) == "" by { TrimNothing(v); }
      assert TrimSpace("") == "" by { TrimTight(""); }
      KeyValueOf(key, "");
      assert TrimRight(key + "=") == key + "=";
      assert (key + "=") + "" == key + "=";
      TrimUnquoted("");
    } else {
      TrimRightTail(key + "=", v);
      KeyValueOf(key, TrimRight(v));
      TrimOfTrimRight(v);
      assert '"' !in TrimSpace(v) by { TrimMembers(v); }
      TrimUnquoted(TrimSpace(v));
    }
  }

  lemma TrimNoLead(p: string)
    requires p != "" && !IsSpace(p[0])
    ensures TrimSpace(p) == TrimRight(p)
  {
  }

  lemma TrimNothing(v: string)
    requires TrimLeft(v) == ""
    ensures TrimSpace(v) == ""
  {
  }

  lemma {:induction false} TrimLeftMembers(v: string)
    ensures forall c :: c in TrimLeft(v) ==> c in v
    decreases |v|
  {
    if v != "" && IsSpace(v[0]) {
      TrimLeftMembers(v[1..]);
    }
  }

  lemma TrimMembers(v: string)
    ensures forall c :: c in TrimSpace(v) ==> c in v
  {
    TrimLeftMembers(v);
    TrimRightPrefix(TrimLeft(v));
  }

  // ---------- the whole header ----------

  function SetKV(a: Authorization, kv: Option<(string, string)>): Authorization
  {
    if kv.Some? then SetField(a, kv.value.0, kv.value.1) else a
  }

  /** The fields that a list of parameters sets. */
  function SetParts(a: Authorization, parts: seq<string>): Authorization
    decreases |parts|
  {
    if parts == [] then a else SetParts(SetKV(a, KeyValue(TrimSpace(parts[0]))), parts[1..])
  }

  lemma {:induction false} SetAllIsSetParts(a: Authorization, params: seq<string>, parts: seq<string>)
    requires |params| == |parts| && forall i :: 0 <= i < |parts| ==> params[i] == TrimSpace(parts[i])
    ensures SetAll(a, params) == SetParts(a, parts)
    decreases |parts|
  {
    hide KeyValue, TrimSpace, SetField;
    if parts != [] {
      SetAllIsSetParts(SetKV(a, KeyValue(params[0])), params[1..], parts[1..]);
    }
  }

  lemma {:induction false} SetPartsOf(a: Authorization, p: seq<string>, q: seq<string>)
    ensures SetParts(a, p + q) == SetParts(SetParts(a, p), q)
    decreases |p|
  {
    hide KeyValue, TrimSpace, SetField;
    if p == [] {
      assert p + q == q;
    } else {
      assert (p + q)[1..] == p[1..] + q;
      SetPartsOf(SetKV(a, KeyValue(TrimSpace(p[0]))), p[1..], q);
    }
  }

  lemma SetOne(a: Authorization, p: string, key: string, v: string)
    requires KeyValue(TrimSpace(p)) == Some((key, v))
    ensures SetParts(a, [p]) == SetField(a, key, v)
  {
    hide KeyValue, TrimSpace, SetField;
    assert [p][1..] == [];
  }

  /** Only the last part can end in spaces, and the header loses those. */
  lemma {:induction false} JoinTrim(parts: seq<string>)
    requires parts != [] && TrimRight(parts[|parts| - 1]) != ""
    ensures TrimRight(Join(parts)) == Join(parts[..|parts| - 1] + [TrimRight(parts[|parts| - 1])])
    ensures TrimRight(Join(parts)) != ""
    decreases |parts|
  {
    var n := |parts| - 1;
    if n == 0 {
      assert parts[..0] + [TrimRight(parts[0])] == [TrimRight(parts[0])];
    } else {
      var rest := parts[1..];
      JoinTrim(rest);
      TrimRightTail(parts[0] + ", ", Join(rest));
      assert Join(parts) == (parts[0] + ", ") + Join(rest);
      assert rest[..n - 1] + [TrimRight(rest[n - 1])] == (parts[..n] + [TrimRight(parts[n])])[1..];
    }
  }

  lemma TrimRightOnePiece(p: string)
    requires OnePiece(p) && TrimRight(p) != ""
    ensures OnePiece(TrimRight(p))
  {
    hide Whole, After;
    TrimRightPrefix(p);
    var a := TrimRight(p);
    var b := p[|a|..];
    assert p == a + b;
    WholeOf(a, b, false);
    assert '"' !in b && ',' !in b by { TrailingSpaces(p); }
    if After(a, false) {
      WholeFree(b, true);
    }
  }

  lemma {:induction false} TrailingSpaces(p: string)
    ensures |TrimRight(p)| <= |p| && forall c :: c in p[|TrimRight(p)|..] ==> IsSpace(c)
    decreases |p|
  {
    TrimRightPrefix(p);
    if p != "" && IsSpace(p[|p| - 1]) {
      var q := p[..|p| - 1];
      TrailingSpaces(q);
      TrimRightPrefix(q);
      assert p[|TrimRight(q)|..] == q[|TrimRight(q)|..] + [p[|p| - 1]];
    }
  }

  lemma JoinHead(parts: seq<string>)
    requires parts != [] && parts[0] != ""
    ensures Join(parts) != "" && Join(parts)[0] == parts[0][0]
  {
  }

  /** The list without the spaces after its last part. */
  function TrimLast(parts: seq<string>): (r: seq<string>)
    requires parts != []
    ensures |r| == |parts|
  {
    parts[..|parts| - 1] + [TrimRight(parts[|parts| - 1])]
  }

  lemma DigestParamsOf(parts: seq<string>)
    requires parts != [] && parts[0] != "" && !IsSpace(parts[0][0]) && TrimRight(parts[|parts| - 1]) != ""
    ensures DigestParams("Digest " + Join(parts)) == Some(Join(TrimLast(parts)))
  {
    hide Join, TrimRight, TrimLast, TrimSpace;
    var j, value := Join(parts), "Digest " + Join(parts);
    var t := Join(TrimLast(parts));
    assert TrimRight(j) == t != "" by { TrimLastJoin(parts); }
    TrimRightTail("Digest ", j);
    TrimNoLead(value);
    var v := TrimSpace(value);
    assert v == "Digest " + t && v[7..] == t;
    DigestWord(t);
    assert TrimSpace(t) == t by {
      JoinHead(parts);
      TrimRightPrefix(j);
      TrimTight(t);
    }
  }

  lemma TrimLastJoin(parts: seq<string>)
    requires parts != [] && TrimRight(parts[|parts| - 1]) != ""
    ensures TrimRight(Join(parts)) == Join(TrimLast(parts)) != ""
  {
    JoinTrim(parts);
  }

  lemma SplitTrimLast(parts: seq<string>)
    requires parts != [] && forall i :: 0 <= i < |parts| ==> OnePiece(parts[i])
    requires TrimRight(parts[|parts| - 1]) != ""
    ensures var r := Split(Join(TrimLast(parts)), "", false);
            |r| == |parts| && forall i :: 0 <= i < |parts| ==> r[i] == TrimSpace(parts[i])
  {
    hide Join, TrimRight, TrimSpace, OnePiece, Split;
    var n := |parts| - 1;
    var parts' := TrimLast(parts);
    TrimRightOnePiece(parts[n]);
    TrimOfTrimRight(parts[n]);
    assert forall i :: 0 <= i < n ==> parts'[i] == parts[i];
    SplitJoin(parts');
  }

  /** A header value made of whole parameters parses to the fields that its parameters set. */
  lemma DigestReads(parts: seq<string>)
    requires parts != [] && forall i :: 0 <= i < |parts| ==> OnePiece(parts[i])
    requires parts[0] != "" && !IsSpace(parts[0][0]) && TrimRight(parts[|parts| - 1]) != ""
    ensures var p := DigestParams("Digest " + Join(parts));
            p.Some? && SetAll(NO_AUTH, Split(p.value, "", false)) == SetParts(NO_AUTH, parts)
  {
    hide *;
    DigestParamsOf(parts);
    SplitTrimLast(parts);
    SetAllIsSetParts(NO_AUTH, Split(Join(TrimLast(parts)), "", false), parts);
  }

  lemma DigestWord(rest: string)
    ensures Lower("Digest " + rest)[..7] == "digest "
  {
    var s := "Digest " + rest;
    assert forall i :: 0 <= i < 7 ==> s[i] == "Digest "[i];
  }

  // ---------- build, then verify ----------

  /** The texts that go between quotes hold no quote. */
  predicate NoQuotes(ch: Challenge, c: Credentials, cnonce: string, response: string)
  {
    && '"' !in c.username && '"' !in c.uri && '"' !in ch.realm && '"' !in ch.nonce && '"' !in ch.opaq
    && '"' !in cnonce && '"' !in response
  }

  function FirstParts(ch: Challenge, c: Credentials): seq<string>
  {
    [Param("username", Quote(c.username)), Param("realm", Quote(ch.realm)), Param("nonce", Quote(ch.nonce))]
  }

  function NextParts(c: Credentials, response: string, algorithm: string): seq<string>
  {
    [Param("uri", Quote(c.uri)), Param("response", Quote(response)), Param("algorithm", algorithm)]
  }

  function OpaqueParts(ch: Challenge): seq<string>
  {
    if ch.opaq != "" then [Param("opaque", Quote(ch.opaq))] else []
  }

  function QopParts(qop: string, cnonce: string): seq<string>
  {
    if qop != "" then [Param("qop", qop), Param("nc", NC), Param("cnonce", Quote(cnonce))] else []
  }

  lemma SetThree(a: Authorization, p: seq<string>, k0: string, v0: string, k1: string, v1: string, k2: string, v2: string)
    requires |p| == 3 && KeyValue(TrimSpace(p[0])) == Some((k0, v0))
    requires KeyValue(TrimSpace(p[1])) == Some((k1, v1)) && KeyValue(TrimSpace(p[2])) == Some((k2, v2))
    ensures SetParts(a, p) == SetField(SetField(SetField(a, k0, v0), k1, v1), k2, v2)
  {
    hide KeyValue, TrimSpace, SetField, SetParts;
    assert p == [p[0]] + ([p[1]] + [p[2]]);
    SetPartsOf(a, [p[0]], [p[1]] + [p[2]]);
    SetOne(a, p[0], k0, v0);
    SetPartsOf(SetField(a, k0, v0), [p[1]], [p[2]]);
    SetOne(SetField(a, k0, v0), p[1], k1, v1);
    SetOne(SetField(SetField(a, k0, v0), k1, v1), p[2], k2, v2);
  }

  lemma FirstSet(ch: Challenge, c: Credentials)
    requires '"' !in c.username && '"' !in ch.realm && '"' !in ch.nonce
    ensures SetParts(NO_AUTH, FirstParts(ch, c))
            == NO_AUTH.(username := Escape(c.username), realm := Escape(ch.realm), nonce := Escape(ch.nonce))
    ensures forall i :: 0 <= i < 3 ==> OnePiece(FirstParts(ch, c)[i])
    ensures FirstParts(ch, c)[0] != "" && !IsSpace(FirstParts(ch, c)[0][0])
  {
    hide KeyValue, TrimSpace, SetParts, OnePiece, Quote, Escape, Param;
    QuotedParam("username", c.username);
    QuotedParam("realm", ch.realm);
    QuotedParam("nonce", ch.nonce);
    SetThree(NO_AUTH, FirstParts(ch, c), "username", Escape(c.username), "realm", Escape(ch.realm), "nonce", Escape(ch.nonce));
  }

  lemma NextSet(a: Authorization, c: Credentials, response: string, algorithm: string)
    requires '"' !in c.uri && '"' !in response && '"' !in algorithm && ',' !in algorithm
    ensures SetParts(a, NextParts(c, response, algorithm))
            == a.(uri := Escape(c.uri), response := Escape(response), algorithm := TrimSpace(algorithm))
    ensures forall i :: 0 <= i < 3 ==> OnePiece(NextParts(c, response, algorithm)[i])
    ensures TrimRight(NextParts(c, response, algorithm)[2]) != ""
  {
    hide KeyValue, TrimSpace, SetParts, OnePiece, Quote, Escape, TrimRight, Param;
    QuotedParam("uri", c.uri);
    QuotedParam("response", response);
    TokenParam("algorithm", algorithm);
    SetThree(a, NextParts(c, response, algorithm), "uri", Escape(c.uri), "response", Escape(response),
             "algorithm", TrimSpace(algorithm));
  }

  lemma OpaqueSet(a: Authorization, ch: Challenge)
    requires '"' !in ch.opaq && a.opaq == ""
    ensures SetParts(a, OpaqueParts(ch)) == a.(opaq := Escape(ch.opaq))
    ensures forall i :: 0 <= i < |OpaqueParts(ch)| ==> OnePiece(OpaqueParts(ch)[i]) && TrimRight(OpaqueParts(ch)[i]) != ""
  {
    hide KeyValue, TrimSpace, OnePiece, Quote, TrimRight, Param;
    QuotedParam("opaque", ch.opaq);
    if ch.opaq != "" {
      SetOne(a, OpaqueParts(ch)[0], "opaque", Escape(ch.opaq));
    }
  }

  lemma QopSet(a: Authorization, qop: string, cnonce: string)
    requires '"' !in cnonce && (qop == "" || qop == "auth") && a.qop == "" && a.nc == "" && a.cnonce == ""
    ensures SetParts(a, QopParts(qop, cnonce))
            == if qop == "" then a else a.(qop := "auth", nc := NC, cnonce := Escape(cnonce))
    ensures forall i :: 0 <= i < |QopParts(qop, cnonce)| ==>
              OnePiece(QopParts(qop, cnonce)[i]) && TrimRight(QopParts(qop, cnonce)[i]) != ""
  {
    hide KeyValue, TrimSpace, OnePiece, Quote, TrimRight, Escape, Param;
    if qop != "" {
      TokenParam("qop", "auth");
      TokenParam("nc", NC);
      QuotedParam("cnonce", cnonce);
      TrimTight("auth");
      TrimTight(NC);
      SetThree(a, QopParts(qop, cnonce), "qop", "auth", "nc", NC, "cnonce", Escape(cnonce));
    }
  }

  /** What the server reads out of a built header: each quoted text as it was escaped. */
  function ReadBack(ch: Challenge, c: Credentials, algorithm: string, qop: string, cnonce: string, response: string): Authorization
  {
    Authorization(Escape(c.username), Escape(ch.realm), Escape(ch.nonce), Escape(c.uri), Escape(response),
                  TrimSpace(algorithm), qop, if qop == "" then "" else NC, if qop == "" then "" else Escape(cnonce),
                  Escape(ch.opaq))
  }

  lemma PartsSet(ch: Challenge, c: Credentials, algorithm: string, qop: string, cnonce: string, response: string)
    requires NoQuotes(ch, c, cnonce, response) && '"' !in algorithm && ',' !in algorithm && (qop == "" || qop == "auth")
    ensures var p := Parts(ch, c, algorithm, qop, cnonce, response);
            && SetParts(NO_AUTH, p) == ReadBack(ch, c, algorithm, qop, cnonce, response)
            && p != [] && (forall i :: 0 <= i < |p| ==> OnePiece(p[i]))
            && p[0] != "" && !IsSpace(p[0][0]) && TrimRight(p[|p| - 1]) != ""
  {
    hide SetParts, OnePiece, Quote, Escape, TrimSpace, TrimRight, Param;
    var p1, p2, p3, p4 := FirstParts(ch, c), NextParts(c, response, algorithm), OpaqueParts(ch), QopParts(qop, cnonce);
    var p := Parts(ch, c, algorithm, qop, cnonce, response);
    assert p == p1 + p2 + p3 + p4;
    SetPartsOf(NO_AUTH, p1 + p2 + p3, p4);
    SetPartsOf(NO_AUTH, p1 + p2, p3);
    SetPartsOf(NO_AUTH, p1, p2);
    FirstSet(ch, c);
    NextSet(SetParts(NO_AUTH, p1), c, response, algorithm);
    OpaqueSet(SetParts(NO_AUTH, p1 + p2), ch);
    QopSet(SetParts(NO_AUTH, p1 + p2 + p3), qop, cnonce);
    forall i | 0 <= i < |p|
      ensures OnePiece(p[i])
    {
      if i >= 6 + |p3| {
        assert p[i] == p4[i - 6 - |p3|];
      } else if i >= 6 {
        assert p[i] == p3[i - 6];
      } else if i >= 3 {
        assert p[i] == p2[i - 3];
      } else {
        assert p[i] == p1[i];
      }
    }
  }

  // ---------- algorithms ----------

  lemma {:induction false} UpperMember(s: string, c: char)
    requires c in s && UpperChar(c) == c
    ensures c in Upper(s)
  {
    if s[0] != c {
      UpperMember(s[1..], c);
    }
  }

  /** Trimming drops spaces only. */
  lemma {:induction false} TrimLeftKeeps(s: string, c: char)
    requires c in s && !IsSpace(c)
    ensures c in TrimLeft(s)
  {
    if IsSpace(s[0]) {
      TrimLeftKeeps(s[1..], c);
    }
  }

  lemma TrimKeeps(s: string, c: char)
    requires c in s && !IsSpace(c)
    ensures c in TrimSpace(s)
  {
    var l := TrimLeft(s);
    TrimLeftKeeps(s, c);
    TrailingSpaces(l);
    TrimRightPrefix(l);
    assert l == TrimRight(l) + l[|TrimRight(l)|..];
  }

  predicate Supported(algorithm: string)
  {
    var a := Upper(TrimSpace(algorithm));
    a == "" || a == "MD5" || a == "SHA-256"
  }

  /** A supported algorithm name has no quote and no comma. */
  lemma SupportedToken(algorithm: string)
    requires Supported(algorithm)
    ensures '"' !in algorithm && ',' !in algorithm
  {
    hide TrimSpace, Upper;
    if '"' in algorithm {
      TrimKeeps(algorithm, '"');
      UpperMember(TrimSpace(algorithm), '"');
      assert false;
    }
    if ',' in algorithm {
      TrimKeeps(algorithm, ',');
      UpperMember(TrimSpace(algorithm), ',');
      assert false;
    }
  }

  /** The name as the server reads it selects the same hash. */
  lemma SameHash(h: Hash, algorithm: string, x: string)
    ensures var t := TrimSpace(algorithm);
            DigestHex(h, if t == "" then "MD5" else t, x) == DigestHex(h, algorithm, x)
  {
    hide TrimSpace, Upper;
    var t := TrimSpace(algorithm);
    TrimmedIsTight(algorithm);
    assert TrimSpace("MD5") == "MD5" by { TrimTight("MD5"); }
    assert Upper("MD5") == "MD5" by { UpperMD5(); }
    assert Upper("") == "" by { UpperNone(); }
  }

  lemma UpperMD5()
    ensures Upper("MD5") == "MD5"
  {
    assert "MD5"[1..] == "D5" && "D5"[1..] == "5" && "5"[1..] == "";
    assert Upper("5") == "5" && Upper("D5") == "D5";
  }

  lemma UpperNone()
    ensures Upper("") == ""
  {
  }

  /** Text in lower-case hexadecimal digits. */
  predicate HexText(s: string)
  {
    s != "" && forall i :: 0 <= i < |s| ==> '0' <= s[i] <= '9' || 'a' <= s[i] <= 'f'
  }

  ghost predicate HexHash(h: Hash)
  {
    forall v :: HexText(h.md5(v)) && HexText(h.sha256(v))
  }

  /** No two texts with the same hash. */
  ghost predicate Separates(h: Hash)
  {
    && (forall u, v :: h.md5(u) == h.md5(v) ==> u == v)
    && (forall u, v :: h.sha256(u) == h.sha256(v) ==> u == v)
  }

  lemma HashFacts(h: Hash, algorithm: string, x: string)
    requires HexHash(h)
    ensures DigestHex(h, algorithm, x) != "" <==> Supported(algorithm)
    ensures '"' !in DigestHex(h, algorithm, x) && Escape(DigestHex(h, algorithm, x)) == DigestHex(h, algorithm, x)
  {
    hide TrimSpace, Upper, Escape;
    assert HexText(h.md5(x)) && HexText(h.sha256(x));
    EscapeNoQuote(DigestHex(h, algorithm, x));
  }

  lemma SameResponse(h: Hash, algorithm: string, ha1: string, verb: string, uri: string,
                     nonce: string, qop: string, nc: string, cnonce: string)
    ensures var t := TrimSpace(algorithm);
            Response(h, if t == "" then "MD5" else t, ha1, verb, uri, nonce, qop, nc, cnonce)
            == Response(h, algorithm, ha1, verb, uri, nonce, qop, nc, cnonce)
  {
    hide DigestHex, TrimSpace;
    var ha2 := DigestHex(h, algorithm, verb + ":" + uri);
    SameHash(h, algorithm, verb + ":" + uri);
    SameHash(h, algorithm, ha1 + ":" + nonce + ":" + ha2);
    SameHash(h, algorithm, ha1 + ":" + nonce + ":" + nc + ":" + cnonce + ":" + qop + ":" + ha2);
  }

  // ---------- agreement ----------

  /** The texts that the client puts between quotes, for a challenge that parses; the client nonce is the
      program's own. */
  predicate Quotable(ch: Challenge, c: Credentials, cnonce: string)
  {
    && '"' !in c.username && '"' !in c.uri && '"' !in ch.realm && '"' !in ch.nonce && '"' !in ch.opaq
    && '"' !in cnonce && '\\' !in cnonce
    && Printable(c.username) && Printable(c.uri) && Printable(ch.realm) && Printable(ch.nonce)
    && Printable(ch.opaq) && Printable(cnonce)
  }

  /** The hashed texts have no backslash, which quoting would double. */
  predicate NoBackslash(realm: string, nonce: string, c: Credentials)
  {
    '\\' !in c.username && '\\' !in realm && '\\' !in nonce && '\\' !in c.uri
  }

  /** The quoting of the program escapes other characters too. */
  predicate Printable(s: string)
  {
    forall i :: 0 <= i < |s| ==> ' ' <= s[i] <= '~'
  }

  /** The parts of a build that succeeds. */
  lemma BuildShape(h: Hash, challenge: string, c: Credentials, cnonce: string)
    requires HexHash(h) && BuildValue(h, challenge, c, cnonce).Ok?
    ensures ParseChallenge(challenge).Ok?
    ensures var ch := ParseChallenge(challenge).value;
            var algorithm := if ch.algorithm == "" then "MD5" else ch.algorithm;
            var qop := if ch.qop == "" then "" else "auth";
            var response := Response(h, algorithm, Ha1(h, algorithm, c, ch.realm), c.verb, c.uri, ch.nonce, qop,
                                     if qop == "" then "" else NC, if qop == "" then "" else cnonce);
            && ch.realm != "" && ch.nonce != "" && Supported(algorithm)
            && BuildValue(h, challenge, c, cnonce) == Ok("Digest " + Join(Parts(ch, c, algorithm, qop, cnonce, response)))
            && response != "" && '"' !in response && Escape(response) == response
  {
    hide ParseChallenge, DigestHex, Join, Parts, Escape, OffersAuth, HexHash, Supported;
    var ch := ParseChallenge(challenge).value;
    var algorithm := if ch.algorithm == "" then "MD5" else ch.algorithm;
    var qop := if ch.qop == "" then "" else "auth";
    var nc, cn := if qop == "" then "" else NC, if qop == "" then "" else cnonce;
    var ha1 := Ha1(h, algorithm, c, ch.realm);
    HashFacts(h, algorithm, c.username + ":" + ch.realm + ":" + c.password);
    var ha2 := DigestHex(h, algorithm, c.verb + ":" + c.uri);
    HashFacts(h, algorithm, ha1 + ":" + ch.nonce + ":" + ha2);
    HashFacts(h, algorithm, ha1 + ":" + ch.nonce + ":" + nc + ":" + cn + ":" + qop + ":" + ha2);
  }

  /** A built header parses back to the same fields, with every backslash doubled. */
  lemma BuiltParses(h: Hash, challenge: string, c: Credentials, cnonce: string)
    requires HexHash(h) && BuildValue(h, challenge, c, cnonce).Ok? && c.username != "" && c.uri != ""
    requires Quotable(ParseChallenge(challenge).value, c, cnonce)
    ensures ParseChallenge(challenge).Ok?
    ensures var ch := ParseChallenge(challenge).value;
            var algorithm := if ch.algorithm == "" then "MD5" else ch.algorithm;
            var qop := if ch.qop == "" then "" else "auth";
            var nc, cn := if qop == "" then "" else NC, if qop == "" then "" else cnonce;
            var response := Response(h, algorithm, Ha1(h, algorithm, c, ch.realm), c.verb, c.uri, ch.nonce, qop, nc, cn);
            ParseAuthorization(BuildValue(h, challenge, c, cnonce).value)
            == Ok(Authorization(Escape(c.username), Escape(ch.realm), Escape(ch.nonce), Escape(c.uri), response,
                                TrimSpace(algorithm), qop, nc, cn, Escape(ch.opaq)))
  {
    hide ParseChallenge, BuildValue, Response, Ha1, HexHash, Supported, Parts, OnePiece, SetParts, SetAll, Split,
         DigestParams, Join, TrimSpace, TrimRight, IsSpace, Escape;
    BuildShape(h, challenge, c, cnonce);
    var ch := ParseChallenge(challenge).value;
    var algorithm := if ch.algorithm == "" then "MD5" else ch.algorithm;
    var qop := if ch.qop == "" then "" else "auth";
    var nc, cn := if qop == "" then "" else NC, if qop == "" then "" else cnonce;
    var response := Response(h, algorithm, Ha1(h, algorithm, c, ch.realm), c.verb, c.uri, ch.nonce, qop, nc, cn);
    SupportedToken(algorithm);
    PartsSet(ch, c, algorithm, qop, cnonce, response);
    DigestReads(Parts(ch, c, algorithm, qop, cnonce, response));
    EscapeNoQuote(c.username);
    EscapeNoQuote(c.uri);
    EscapeNoQuote(cnonce);
    EscapeShows(c.username);
    EscapeShows(ch.realm);
    EscapeShows(ch.nonce);
    EscapeShows(c.uri);
  }

  lemma EscapeShows(s: string)
    requires s != ""
    ensures Escape(s) != ""
  {
  }

  /** Two texts around a colon that neither first part has. */
  lemma FirstColon(a: string, x: string, b: string, y: string)
    requires ':' !in a && ':' !in b && a + ":" + x == b + ":" + y
    ensures a == b && x == y
  {
    var s := a + ":" + x;
    assert s[|a|] == ':' && s[|b|] == ':';
    assert forall k :: 0 <= k < |a| ==> s[k] == a[k] && a[k] in a;
    assert forall k :: 0 <= k < |b| ==> s[k] == b[k] && b[k] in b;
    assert |a| == |b|;
    assert a == s[..|a|] && b == s[..|b|] && x == s[|a| + 1..] && y == s[|b| + 1..];
  }

  lemma NoColonAfter(x: string, a: string, k: nat)
    requires ':' !in a && |x| < k < |x| + 1 + |a|
    ensures (x + ":" + a)[k] != ':'
  {
    assert (x + ":" + a)[k] == a[k - |x| - 1] && a[k - |x| - 1] in a;
  }

  /** Two texts around a colon that neither last part has. */
  lemma LastColon(x: string, a: string, y: string, b: string)
    requires ':' !in a && ':' !in b && x + ":" + a == y + ":" + b
    ensures a == b && x == y
  {
    var s := x + ":" + a;
    assert s[|x|] == ':' && s[|y|] == ':';
    forall k | |x| < k < |s|
      ensures s[k] != ':'
    {
      NoColonAfter(x, a, k);
    }
    forall k | |y| < k < |s|
      ensures s[k] != ':'
    {
      NoColonAfter(y, b, k);
    }
    assert |x| == |y|;
    assert x == s[..|x|] && y == s[..|y|] && a == s[|x| + 1..] && b == s[|y| + 1..];
  }

  lemma Middle(p: string, x: string, y: string, s: string)
    requires p + x + s == p + y + s
    ensures x == y
  {
    assert (p + x + s)[|p|..|p| + |x|] == x && (p + y + s)[|p|..|p| + |y|] == y;
  }

  lemma HexFacts(h: Hash, algorithm: string, u: string)
    requires HexHash(h) && Supported(algorithm)
    ensures HexText(DigestHex(h, algorithm, u)) && ':' !in DigestHex(h, algorithm, u)
  {
    hide TrimSpace, Upper;
    assert HexText(h.md5(u)) && HexText(h.sha256(u));
  }

  /** The hash tells two texts apart. */
  ghost predicate Apart(h: Hash, algorithm: string, u: string, v: string)
  {
    DigestHex(h, algorithm, u) == DigestHex(h, algorithm, v) ==> u == v
  }

  /** The text that a response is the hash of. */
  function ResponseInput(h: Hash, algorithm: string, ha1: string, verb: string, uri: string,
                         nonce: string, qop: string, nc: string, cnonce: string): string
  {
    var tail := if qop == "" then "" else ":" + nc + ":" + cnonce + ":" + qop;
    ha1 + ":" + (nonce + tail + ":" + DigestHex(h, algorithm, verb + ":" + uri))
  }

  /** The hash tells the three texts hashed for one response from those hashed for another. */
  ghost predicate NoCollision(h: Hash, algorithm: string, c: Credentials, realm: string, nonce: string,
                              realm': string, nonce': string, uri': string, qop: string, nc: string, cnonce: string)
  {
    && Apart(h, algorithm, c.username + ":" + realm + ":" + c.password, c.username + ":" + realm' + ":" + c.password)
    && Apart(h, algorithm, c.verb + ":" + c.uri, c.verb + ":" + uri')
    && Apart(h, algorithm,
             ResponseInput(h, algorithm, Ha1(h, algorithm, c, realm), c.verb, c.uri, nonce, qop, nc, cnonce),
             ResponseInput(h, algorithm, Ha1(h, algorithm, c, realm'), c.verb, uri', nonce', qop, nc, cnonce))
  }

  /** Without such a collision, equal responses come from equal realms, nonces and URIs. */
  lemma ResponseSeparates(h: Hash, algorithm: string, c: Credentials, realm: string, nonce: string,
                          realm': string, nonce': string, uri': string, qop: string, nc: string, cnonce: string)
    requires HexHash(h) && Supported(algorithm)
    requires NoCollision(h, algorithm, c, realm, nonce, realm', nonce', uri', qop, nc, cnonce)
    requires Response(h, algorithm, Ha1(h, algorithm, c, realm), c.verb, c.uri, nonce, qop, nc, cnonce)
             == Response(h, algorithm, Ha1(h, algorithm, c, realm'), c.verb, uri', nonce', qop, nc, cnonce)
    ensures realm == realm' && nonce == nonce' && c.uri == uri'
  {
    hide DigestHex, HexHash, Supported, Response;
    var a, a' := Ha1(h, algorithm, c, realm), Ha1(h, algorithm, c, realm');
    var u, u' := c.verb + ":" + c.uri, c.verb + ":" + uri';
    var b, b' := DigestHex(h, algorithm, u), DigestHex(h, algorithm, u');
    HexFacts(h, algorithm, c.username + ":" + realm + ":" + c.password);
    HexFacts(h, algorithm, c.username + ":" + realm' + ":" + c.password);
    HexFacts(h, algorithm, u);
    HexFacts(h, algorithm, u');
    var tail := if qop == "" then "" else ":" + nc + ":" + cnonce + ":" + qop;
    ResponseText(h, algorithm, a, c.verb, c.uri, nonce, qop, nc, cnonce);
    ResponseText(h, algorithm, a', c.verb, uri', nonce', qop, nc, cnonce);
    FirstColon(a, nonce + tail + ":" + b, a', nonce' + tail + ":" + b');
    LastColon(nonce + tail, b, nonce' + tail, b');
    assert (nonce + tail)[..|nonce|] == nonce && (nonce' + tail)[..|nonce'|] == nonce';
    SameRealm(c, realm, realm');
    SameUri(c, uri');
  }

  lemma SameRealm(c: Credentials, realm: string, realm': string)
    requires c.username + ":" + realm + ":" + c.password == c.username + ":" + realm' + ":" + c.password
    ensures realm == realm'
  {
    var p, s := c.username + ":", ":" + c.password;
    assert c.username + ":" + realm + ":" + c.password == p + realm + s;
    assert c.username + ":" + realm' + ":" + c.password == p + realm' + s;
    Middle(p, realm, realm', s);
  }

  lemma SameUri(c: Credentials, uri': string)
    requires c.verb + ":" + c.uri == c.verb + ":" + uri'
    ensures c.uri == uri'
  {
    assert (c.verb + ":" + c.uri)[|c.verb| + 1..] == c.uri && (c.verb + ":" + uri')[|c.verb| + 1..] == uri';
  }

  lemma ResponseText(h: Hash, algorithm: string, ha1: string, verb: string, uri: string,
                     nonce: string, qop: string, nc: string, cnonce: string)
    ensures Response(h, algorithm, ha1, verb, uri, nonce, qop, nc, cnonce)
            == DigestHex(h, algorithm, ResponseInput(h, algorithm, ha1, verb, uri, nonce, qop, nc, cnonce))
  {
    hide DigestHex;
    var ha2 := DigestHex(h, algorithm, verb + ":" + uri);
    var input := ResponseInput(h, algorithm, ha1, verb, uri, nonce, qop, nc, cnonce);
    if qop == "" {
      assert input == ha1 + ":" + nonce + ":" + ha2;
    } else {
      assert input == ha1 + ":" + nonce + ":" + nc + ":" + cnonce + ":" + qop + ":" + ha2;
    }
  }

  lemma {:induction false} HexFold(s: string)
    requires forall i :: 0 <= i < |s| ==> '0' <= s[i] <= '9' || 'a' <= s[i] <= 'f'
    ensures Lower(s) == s
  {
    assert forall i :: 0 <= i < |s| ==> Lower(s)[i] == s[i];
  }

  lemma ResponseHex(h: Hash, algorithm: string, ha1: string, verb: string, uri: string,
                    nonce: string, qop: string, nc: string, cnonce: string)
    requires HexHash(h) && Supported(algorithm)
    ensures Lower(Response(h, algorithm, ha1, verb, uri, nonce, qop, nc, cnonce))
            == Response(h, algorithm, ha1, verb, uri, nonce, qop, nc, cnonce)
  {
    hide DigestHex, HexHash, Supported;
    ResponseText(h, algorithm, ha1, verb, uri, nonce, qop, nc, cnonce);
    var text := ResponseInput(h, algorithm, ha1, verb, uri, nonce, qop, nc, cnonce);
    HexFacts(h, algorithm, text);
    HexFold(DigestHex(h, algorithm, text));
  }

  /** What the server compares: its own response to what it read, by the method and the password it knows, with
      the one it was sent. */
  lemma VerifyCompares(h: Hash, challenge: string, c: Credentials, cnonce: string, verb: string, password: string)
    requires HexHash(h) && BuildValue(h, challenge, c, cnonce).Ok? && c.username != "" && c.uri != ""
    requires Quotable(ParseChallenge(challenge).value, c, cnonce) && '\\' !in c.username
    ensures ParseChallenge(challenge).Ok?
    ensures var ch := ParseChallenge(challenge).value;
            var algorithm := if ch.algorithm == "" then "MD5" else ch.algorithm;
            var qop := if ch.qop == "" then "" else "auth";
            var nc, cn := if qop == "" then "" else NC, if qop == "" then "" else cnonce;
            var ha1 := Ha1(h, algorithm, c.(password := password), Escape(ch.realm));
            var mine := Response(h, algorithm, ha1, verb, Escape(c.uri), Escape(ch.nonce), qop, nc, cn);
            var sent := Response(h, algorithm, Ha1(h, algorithm, c, ch.realm), c.verb, c.uri, ch.nonce, qop, nc, cn);
            Supported(algorithm) && Verify(h, BuildValue(h, challenge, c, cnonce).value, verb, c.username, password) == Ok(mine == sent)
  {
    hide ParseChallenge, BuildValue, Response, Ha1, HexHash, Supported, ParseAuthorization, TrimSpace, Escape, Lower;
    BuiltParses(h, challenge, c, cnonce);
    BuildShape(h, challenge, c, cnonce);
    EscapeNoQuote(c.username);
    var ch := ParseChallenge(challenge).value;
    var algorithm := if ch.algorithm == "" then "MD5" else ch.algorithm;
    var qop := if ch.qop == "" then "" else "auth";
    var nc, cn := if qop == "" then "" else NC, if qop == "" then "" else cnonce;
    var c' := c.(verb := verb, password := password);
    var ha1 := Ha1(h, algorithm, c', Escape(ch.realm));
    SameHa1(h, algorithm, c', Escape(c.uri), Escape(ch.realm));
    Ha1Present(h, algorithm, c', Escape(ch.realm));
    Ha1Of(h, algorithm, c', c.(password := password), Escape(ch.realm));
    SameResponse(h, algorithm, ha1, verb, Escape(c.uri), Escape(ch.nonce), qop, nc, cn);
    ResponseHex(h, algorithm, ha1, verb, Escape(c.uri), Escape(ch.nonce), qop, nc, cn);
    ResponseHex(h, algorithm, Ha1(h, algorithm, c, ch.realm), c.verb, c.uri, ch.nonce, qop, nc, cn);
    FoldSame();
  }

  lemma Ha1Of(h: Hash, algorithm: string, c: Credentials, c': Credentials, realm: string)
    requires c.username == c'.username && c.password == c'.password
    ensures Ha1(h, algorithm, c, realm) == Ha1(h, algorithm, c', realm)
  {
    hide DigestHex;
  }

  /** The hash tells the texts of this exchange from the same texts with doubled backslashes. */
  ghost predicate NoCollisionHere(h: Hash, ch: Challenge, c: Credentials, cnonce: string)
  {
    var algorithm := if ch.algorithm == "" then "MD5" else ch.algorithm;
    var qop := if ch.qop == "" then "" else "auth";
    NoCollision(h, algorithm, c, ch.realm, ch.nonce, Escape(ch.realm), Escape(ch.nonce), Escape(c.uri), qop,
                if qop == "" then "" else NC, if qop == "" then "" else cnonce)
  }

  /** A header built for a challenge verifies with the same credentials if user name, realm, nonce and URI have
      no backslash and, unless the hash collides on the texts of this very exchange, only then; it never
      verifies for a user name other than the one it carries. */
  lemma BuildThenVerify(h: Hash, challenge: string, c: Credentials, cnonce: string)
    requires HexHash(h) && BuildValue(h, challenge, c, cnonce).Ok? && c.username != "" && c.uri != ""
    requires Quotable(ParseChallenge(challenge).value, c, cnonce)
    ensures ParseChallenge(challenge).Ok?
    ensures var ch, value := ParseChallenge(challenge).value, BuildValue(h, challenge, c, cnonce).value;
            && (NoBackslash(ch.realm, ch.nonce, c) ==> Verify(h, value, c.verb, c.username, c.password) == Ok(true))
            && (NoCollisionHere(h, ch, c, cnonce) ==>
                  Verify(h, value, c.verb, c.username, c.password) == Ok(NoBackslash(ch.realm, ch.nonce, c)))
            && forall u, p :: u != Escape(c.username) ==> Verify(h, value, c.verb, u, p) == Ok(false)
  {
    hide ParseChallenge, BuildValue, Response, Ha1, HexHash, Supported, ParseAuthorization, TrimSpace, Escape,
         NoCollisionHere;
    BuiltParses(h, challenge, c, cnonce);
    var ch := ParseChallenge(challenge).value;
    EscapeNoQuote(c.username);
    if '\\' !in c.username {
      hide Verify;
      VerifyCompares(h, challenge, c, cnonce, c.verb, c.password);
      EscapeNoQuote(ch.realm);
      EscapeNoQuote(ch.nonce);
      EscapeNoQuote(c.uri);
      if NoCollisionHere(h, ch, c, cnonce) && !NoBackslash(ch.realm, ch.nonce, c) {
        NeverEqual(h, ch, c, cnonce);
      }
    }
  }

  /** A doubled backslash changes the response. */
  lemma NeverEqual(h: Hash, ch: Challenge, c: Credentials, cnonce: string)
    requires HexHash(h) && NoCollisionHere(h, ch, c, cnonce) && '"' !in ch.realm && '"' !in ch.nonce && '"' !in c.uri
    requires '\\' in ch.realm || '\\' in ch.nonce || '\\' in c.uri
    requires Supported(if ch.algorithm == "" then "MD5" else ch.algorithm)
    ensures var algorithm := if ch.algorithm == "" then "MD5" else ch.algorithm;
            var qop := if ch.qop == "" then "" else "auth";
            var nc, cn := if qop == "" then "" else NC, if qop == "" then "" else cnonce;
            Response(h, algorithm, Ha1(h, algorithm, c, ch.realm), c.verb, c.uri, ch.nonce, qop, nc, cn)
            != Response(h, algorithm, Ha1(h, algorithm, c, Escape(ch.realm)), c.verb, Escape(c.uri), Escape(ch.nonce), qop, nc, cn)
  {
    hide Response, Ha1, HexHash, Supported, Escape, NoCollision;
    var algorithm := if ch.algorithm == "" then "MD5" else ch.algorithm;
    var qop := if ch.qop == "" then "" else "auth";
    var nc, cn := if qop == "" then "" else NC, if qop == "" then "" else cnonce;
    EscapeNoQuote(ch.realm);
    EscapeNoQuote(ch.nonce);
    EscapeNoQuote(c.uri);
    if Response(h, algorithm, Ha1(h, algorithm, c, ch.realm), c.verb, c.uri, ch.nonce, qop, nc, cn)
       == Response(h, algorithm, Ha1(h, algorithm, c, Escape(ch.realm)), c.verb, Escape(c.uri), Escape(ch.nonce), qop, nc, cn) {
      ResponseSeparates(h, algorithm, c, ch.realm, ch.nonce, Escape(ch.realm), Escape(ch.nonce), Escape(c.uri), qop, nc, cn);
      assert false;
    }
  }

  lemma FoldSame()
    ensures forall s :: EqualFold(s, s)
  {
  }

  lemma SameHa1(h: Hash, algorithm: string, c: Credentials, uri: string, realm: string)
    ensures var t := TrimSpace(algorithm);
            Ha1(h, if t == "" then "MD5" else t, Credentials(c.verb, uri, c.username, c.password), realm)
            == Ha1(h, algorithm, c, realm)
  {
    hide DigestHex, TrimSpace;
    SameHash(h, algorithm, c.username + ":" + realm + ":" + c.password);
  }

  lemma Ha1Present(h: Hash, algorithm: string, c: Credentials, realm: string)
    requires HexHash(h) && Supported(algorithm)
    ensures Ha1(h, algorithm, c, realm) != ""
  {
    hide DigestHex, Supported, HexHash;
    HashFacts(h, algorithm, c.username + ":" + realm + ":" + c.password);
  }

  // ---------- from the challenge on ----------

  /** A challenge as a server writes it. */
  function ChallengeText(realm: string, nonce: string, algorithm: string, qop: string): string
  {
    "Digest " + Join(ChallengeParts(realm, nonce, algorithm, qop))
  }

  function ChallengeParts(realm: string, nonce: string, algorithm: string, qop: string): seq<string>
  {
    [Param("realm", Quote(realm)), Param("nonce", Quote(nonce)), Param("algorithm", algorithm), Param("qop", Quote(qop))]
  }

  lemma SetFour(p: seq<string>, k: seq<string>, v: seq<string>)
    requires |p| == |k| == |v| == 4
    requires forall i :: 0 <= i < 4 ==> KeyValue(p[i]) == Some((k[i], v[i]))
    ensures forall c :: SetChallenges(c, p)
              == SetChallenge(SetChallenge(SetChallenge(SetChallenge(c, k[0], v[0]), k[1], v[1]), k[2], v[2]), k[3], v[3])
  {
    hide KeyValue, SetChallenge;
    var p1, p2, p3 := p[1..], p[2..], p[3..];
    assert p1[1..] == p2 && p2[1..] == p3 && p3[1..] == [];
    assert p1[0] == p[1] && p2[0] == p[2] && p3[0] == p[3];
    assert forall c :: SetChallenges(c, p3) == SetChallenge(c, k[3], v[3]);
    assert forall c :: SetChallenges(c, p2) == SetChallenges(SetChallenge(c, k[2], v[2]), p3);
    assert forall c :: SetChallenges(c, p1) == SetChallenges(SetChallenge(c, k[1], v[1]), p2);
  }

  lemma ChallengeReads(realm: string, nonce: string, algorithm: string, qop: string)
    requires '"' !in realm && '"' !in nonce && '"' !in qop && '"' !in algorithm && ',' !in algorithm
    ensures ParseChallenge(ChallengeText(realm, nonce, algorithm, qop))
            == Ok(Challenge(Escape(realm), Escape(nonce), "", TrimSpace(algorithm), Escape(qop)))
  {
    hide KeyValue, TrimSpace, OnePiece, Quote, Escape, Param, DigestParams, Split, Join, TrimRight, SetChallenges;
    var parts := ChallengeParts(realm, nonce, algorithm, qop);
    QuotedParam("realm", realm);
    QuotedParam("nonce", nonce);
    TokenParam("algorithm", algorithm);
    QuotedParam("qop", qop);
    DigestParamsOf(parts);
    SplitTrimLast(parts);
    SetFour(Split(Join(TrimLast(parts)), "", false), ["realm", "nonce", "algorithm", "qop"],
            [Escape(realm), Escape(nonce), TrimSpace(algorithm), Escape(qop)]);
  }

  /** Escaping keeps text printable and free of quotes, and adds backslashes only next to backslashes. */
  lemma {:induction false} EscapePrintable(s: string)
    requires '"' !in s && Printable(s)
    ensures '"' !in Escape(s) && Printable(Escape(s)) && ('\\' in Escape(s) <==> '\\' in s)
  {
    if s != "" {
      var rest := s[1..];
      assert forall x :: x in rest ==> x in s;
      EscapePrintable(rest);
      assert s == [s[0]] + rest;
      var e := if s[0] == '\\' then ['\\', s[0]] else [s[0]];
      assert Escape(s) == e + Escape(rest);
      assert forall x :: x in Escape(s) <==> x in e || x in Escape(rest);
    }
  }

  predicate QuotedText(s: string)
  {
    '"' !in s && Printable(s)
  }

  /** The whole exchange: a client always answers a challenge with a supported algorithm that offers `auth` or
      nothing. The answer verifies if no hashed text has a backslash and, unless the hash collides on the texts of
      this very exchange, only then. */
  lemma ExchangeVerifies(h: Hash, realm: string, nonce: string, algorithm: string, qop: string, c: Credentials, cnonce: string)
    requires HexHash(h) && Supported(algorithm) && (qop == "" || OffersAuth(qop))
    requires realm != "" && nonce != "" && c.username != "" && c.uri != ""
    requires QuotedText(realm) && QuotedText(nonce) && QuotedText(c.username) && QuotedText(c.uri)
    requires QuotedText(qop) && '\\' !in qop && QuotedText(cnonce) && '\\' !in cnonce
    ensures ParseChallenge(ChallengeText(realm, nonce, algorithm, qop)).Ok?
    ensures var r := BuildValue(h, ChallengeText(realm, nonce, algorithm, qop), c, cnonce);
            && r.Ok?
            && (NoBackslash(realm, nonce, c) ==> Verify(h, r.value, c.verb, c.username, c.password) == Ok(true))
            && (NoCollisionHere(h, ParseChallenge(ChallengeText(realm, nonce, algorithm, qop)).value, c, cnonce) ==>
                  Verify(h, r.value, c.verb, c.username, c.password) == Ok(NoBackslash(realm, nonce, c)))
  {
    hide KeyValue, TrimSpace, Escape, ParseChallenge, Join, Parts, ChallengeText, Verify, HexHash, Supported, Upper,
         OffersAuth, DigestHex, NoCollisionHere, Printable;
    SupportedToken(algorithm);
    ChallengeReads(realm, nonce, algorithm, qop);
    EscapePrintable(realm);
    EscapePrintable(nonce);
    EscapeShows(realm);
    EscapeShows(nonce);
    EscapeNoQuote(qop);
    assert Printable("") by { NothingPrintable(); }
    var t := TrimSpace(algorithm);
    var a := if t == "" then "MD5" else t;
    SupportedTrimmed(algorithm);
    Ha1Present(h, a, c, Escape(realm));
    BuildThenVerify(h, ChallengeText(realm, nonce, algorithm, qop), c, cnonce);
  }

  lemma NothingPrintable()
    ensures Printable("")
  {
  }

  // ---------- a hash that separates texts ----------

  function Unary(n: nat): (r: string)
    ensures forall i :: 0 <= i < |r| ==> r[i] == '0' || r[i] == '1'
  {
    if n == 0 then "1" else "0" + Unary(n - 1)
  }

  /** Each character as that many zeros and a one. */
  function Spell(s: string): (r: string)
    ensures HexText(r)
  {
    if s == "" then "f" else Unary(s[0] as int) + Spell(s[1..])
  }

  lemma {:induction false} UnaryTells(a: nat, x: string, b: nat, y: string)
    requires Unary(a) + x == Unary(b) + y
    ensures a == b && x == y
  {
    var s := Unary(a) + x;
    assert s[0] == (if a == 0 then '1' else '0') && s[0] == (if b == 0 then '1' else '0');
    if a > 0 && b > 0 {
      assert s[1..] == Unary(a - 1) + x && s[1..] == Unary(b - 1) + y;
      UnaryTells(a - 1, x, b - 1, y);
    } else {
      assert x == s[1..] && y == s[1..];
    }
  }

  lemma SpellStart(s: string)
    ensures if s == "" then Spell(s) == "f"
            else Spell(s) == Unary(s[0] as int) + Spell(s[1..]) && Spell(s)[0] != 'f'
  {
    if s != "" {
      assert Unary(s[0] as int) != "";
      assert Spell(s)[0] == Unary(s[0] as int)[0];
    }
  }

  lemma {:induction false} SpellTells(u: string, v: string)
    requires Spell(u) == Spell(v)
    ensures u == v
  {
    hide Spell, Unary;
    SpellStart(u);
    SpellStart(v);
    if u != "" && v != "" {
      UnaryTells(u[0] as int, Spell(u[1..]), v[0] as int, Spell(v[1..]));
      SpellTells(u[1..], v[1..]);
      assert u == [u[0]] + u[1..] && v == [v[0]] + v[1..];
    }
  }

  /** A hash that separates all texts has no collision anywhere, so the failures above are real for it. */
  lemma SeparatesEverywhere(h: Hash, ch: Challenge, c: Credentials, cnonce: string)
    requires Separates(h) && Supported(if ch.algorithm == "" then "MD5" else ch.algorithm)
    ensures NoCollisionHere(h, ch, c, cnonce)
  {
    hide Separates, Supported, DigestHex, Escape, Ha1, ResponseInput;
    var algorithm := if ch.algorithm == "" then "MD5" else ch.algorithm;
    forall u, v
      ensures Apart(h, algorithm, u, v)
    {
      AlwaysApart(h, algorithm, u, v);
    }
  }

  lemma AlwaysApart(h: Hash, algorithm: string, u: string, v: string)
    requires Separates(h) && Supported(algorithm)
    ensures Apart(h, algorithm, u, v)
  {
    hide TrimSpace, Upper;
  }

  /** Such hashes exist. */
  lemma SeparatingHash()
    ensures var h := Hash(Spell, Spell); HexHash(h) && Separates(h)
  {
    hide Spell;
    forall u, v | Spell(u) == Spell(v)
      ensures u == v
    {
      SpellTells(u, v);
    }
  }

  lemma SupportedTrimmed(algorithm: string)
    requires Supported(algorithm)
    ensures Supported(if TrimSpace(algorithm) == "" then "MD5" else TrimSpace(algorithm))
  {
    hide TrimSpace, Upper;
    TrimmedIsTight(algorithm);
    UpperMD5();
    TrimTight("MD5");
  }

  // ---------- the parsing loop ----------

  method ParseAuthorizationLoop(value: string) returns (r: Result<Authorization>)
    ensures r == ParseAuthorization(value)
  {
    hide KeyValue, SetField, Split, DigestParams;
    var p := DigestParams(value);
    if p.None? {
      return Err(NotDigest);
    }
    var params := SplitAuthParams(p.value);
    var out, i := NO_AUTH, 0;
    assert params[0..] == params;
    while i < |params|
      invariant 0 <= i <= |params|
      invariant SetAll(out, params[i..]) == SetAll(NO_AUTH, params)
    {
      assert params[i..][0] == params[i] && params[i..][1..] == params[i + 1..];
      var kv := KeyValue(params[i]);
      if kv.Some? {
        out := SetField(out, kv.value.0, kv.value.1);
      }
      i := i + 1;
    }
    if out.realm == "" || out.nonce == "" || out.uri == "" || out.response == "" || out.username == "" {
      return Err(InvalidAuthorization);
    }
    return Ok(out);
  }

  method ParseChallengeLoop(value: string) returns (r: Result<Challenge>)
    ensures r == ParseChallenge(value)
  {
    hide KeyValue, SetChallenge, Split, DigestParams;
    var p := DigestParams(value);
    if p.None? {
      return Err(NotDigest);
    }
    var params := SplitAuthParams(p.value);
    var out, i := Challenge("", "", "", "", ""), 0;
    assert params[0..] == params;
    while i < |params|
      invariant 0 <= i <= |params|
      invariant SetChallenges(out, params[i..]) == SetChallenges(Challenge("", "", "", "", ""), params)
    {
      assert params[i..][0] == params[i] && params[i..][1..] == params[i + 1..];
      var kv := KeyValue(params[i]);
      if kv.Some? {
        out := SetChallenge(out, kv.value.0, kv.value.1);
      }
      i := i + 1;
    }
    return Ok(out);
  }
}
