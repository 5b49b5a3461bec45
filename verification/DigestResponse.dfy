/**
 The response of a built header, written out in the two hash functions as
 section 3.4.1 of RFC 7616 has it, and what decides whether it verifies.
 */
module DigestResponse {
  import opened Common
  import opened Text
  import opened DigestAuth

  // ---------- which hash a name selects ----------

  lemma {:induction false} UpperAt(s: string)
    ensures |Upper(s)| == |s| && forall i :: 0 <= i < |s| ==> Upper(s)[i] == UpperChar(s[i])
  {
    if s != "" {
      UpperAt(s[1..]);
    }
  }

  /** Two texts have the same upper-case form just when they have the same lower-case form. */
  lemma SameCase(s: string, t: string)
    ensures Upper(s) == Upper(t) <==> EqualFold(s, t)
  {
    hide Upper, Lower;
    UpperAt(s);
    UpperAt(t);
    if EqualFold(s, t) {
      assert |s| == |t|;
      assert forall i :: 0 <= i < |s| ==> Lower(s)[i] == LowerChar(s[i]) && Lower(t)[i] == LowerChar(t[i]);
      assert forall i :: 0 <= i < |s| ==> Upper(s)[i] == Upper(t)[i];
    }
    if Upper(s) == Upper(t) {
      assert |s| == |t|;
      assert forall i :: 0 <= i < |s| ==> Upper(s)[i] == UpperChar(s[i]) && Upper(t)[i] == UpperChar(t[i]);
      assert forall i :: 0 <= i < |s| ==> Lower(s)[i] == Lower(t)[i];
    }
  }

  /** The hash with a given name: MD5 by default, and names in any case. */
  predicate NamesMd5(algorithm: string)
  {
    TrimSpace(algorithm) == "" || EqualFold(TrimSpace(algorithm), "MD5")
  }

  predicate NamesSha256(algorithm: string)
  {
    EqualFold(TrimSpace(algorithm), "SHA-256")
  }

  lemma UpperNames()
    ensures Upper("MD5") == "MD5" && Upper("SHA-256") == "SHA-256"
  {
    UpperAt("MD5");
    UpperAt("SHA-256");
  }

  lemma HashNamed(h: Hash, algorithm: string, x: string)
    ensures NamesMd5(algorithm) ==> DigestHex(h, algorithm, x) == h.md5(x)
    ensures NamesSha256(algorithm) ==> DigestHex(h, algorithm, x) == h.sha256(x)
    ensures Supported(algorithm) <==> NamesMd5(algorithm) || NamesSha256(algorithm)
    ensures !(NamesMd5(algorithm) && NamesSha256(algorithm))
  {
    hide TrimSpace, Upper, Lower;
    var a := TrimSpace(algorithm);
    SameCase(a, "MD5");
    SameCase(a, "SHA-256");
    UpperNames();
    UpperAt(a);
  }

  // ---------- the response ----------

  /** Section 3.4.1 of RFC 7616, for the first use of a nonce. */
  function Rfc7616(hash: string -> string, c: Credentials, realm: string, nonce: string, auth: bool, cnonce: string): string
  {
    var a1 := c.username + ":" + realm + ":" + c.password;
    var a2 := c.verb + ":" + c.uri;
    if auth then hash(hash(a1) + ":" + nonce + ":" + "00000001" + ":" + cnonce + ":" + "auth" + ":" + hash(a2))
    else hash(hash(a1) + ":" + nonce + ":" + hash(a2))
  }

  lemma ResponseNamed(h: Hash, algorithm: string, c: Credentials, realm: string, nonce: string, auth: bool, cnonce: string)
    ensures var response := Response(h, algorithm, Ha1(h, algorithm, c, realm), c.verb, c.uri, nonce,
                                     if auth then "auth" else "", if auth then NC else "", if auth then cnonce else "");
            && (NamesMd5(algorithm) ==> response == Rfc7616(h.md5, c, realm, nonce, auth, cnonce))
            && (NamesSha256(algorithm) ==> response == Rfc7616(h.sha256, c, realm, nonce, auth, cnonce))
  {
    hide DigestHex, NamesMd5, NamesSha256;
    var a1, a2 := Ha1(h, algorithm, c, realm), DigestHex(h, algorithm, c.verb + ":" + c.uri);
    HashNamed(h, algorithm, c.username + ":" + realm + ":" + c.password);
    HashNamed(h, algorithm, c.verb + ":" + c.uri);
    HashNamed(h, algorithm, a1 + ":" + nonce + ":" + a2);
    HashNamed(h, algorithm, a1 + ":" + nonce + ":" + NC + ":" + cnonce + ":" + "auth" + ":" + a2);
  }

  /** The response of a built header is that of RFC 7616, with the hash that the challenge names. */
  lemma BuiltResponse(h: Hash, challenge: string, c: Credentials, cnonce: string)
    requires HexHash(h) && BuildValue(h, challenge, c, cnonce).Ok? && c.username != "" && c.uri != ""
    requires Quotable(ParseChallenge(challenge).value, c, cnonce)
    ensures ParseChallenge(challenge).Ok?
    ensures var ch := ParseChallenge(challenge).value;
            var a := ParseAuthorization(BuildValue(h, challenge, c, cnonce).value);
            && a.Ok? && (NamesMd5(ch.algorithm) || NamesSha256(ch.algorithm))
            && (NamesMd5(ch.algorithm) ==>
                  a.value.response == Rfc7616(h.md5, c, ch.realm, ch.nonce, ch.qop != "", cnonce))
            && (NamesSha256(ch.algorithm) ==>
                  a.value.response == Rfc7616(h.sha256, c, ch.realm, ch.nonce, ch.qop != "", cnonce))
            && a.value.qop == (if ch.qop != "" then "auth" else "") && a.value.nc == (if ch.qop != "" then "00000001" else "")
            && a.value.cnonce == (if ch.qop != "" then cnonce else "")
  {
    hide ParseChallenge, BuildValue, Response, Ha1, HexHash, Supported, ParseAuthorization, Escape, Quotable,
         NamesMd5, NamesSha256, Rfc7616;
    BuiltParses(h, challenge, c, cnonce);
    BuildShape(h, challenge, c, cnonce);
    var ch := ParseChallenge(challenge).value;
    var algorithm := if ch.algorithm == "" then "MD5" else ch.algorithm;
    DefaultName(ch.algorithm);
    HashNamed(h, algorithm, "");
    ResponseNamed(h, algorithm, c, ch.realm, ch.nonce, ch.qop != "", cnonce);
  }

  lemma DefaultName(name: string)
    ensures var algorithm := if name == "" then "MD5" else name;
            NamesMd5(algorithm) == NamesMd5(name) && NamesSha256(algorithm) == NamesSha256(name)
  {
    hide Lower;
    assert TrimSpace("MD5") == "MD5" by { TrimTight("MD5"); }
    assert TrimSpace("") == "";
    SameCase("MD5", "MD5");
  }

  /** A challenge is answered if and only if it has a realm, a nonce, a known hash, and offers `auth` or no qop. */
  lemma BuildsIff(h: Hash, challenge: string, c: Credentials, cnonce: string)
    requires HexHash(h)
    ensures BuildValue(h, challenge, c, cnonce).Ok? <==>
              && ParseChallenge(challenge).Ok?
              && (var ch := ParseChallenge(challenge).value;
                  && ch.realm != "" && ch.nonce != "" && (NamesMd5(ch.algorithm) || NamesSha256(ch.algorithm))
                  && (ch.qop == "" || OffersAuth(ch.qop)))
  {
    hide ParseChallenge, DigestHex, Join, Parts, OffersAuth, HexHash, Supported, NamesMd5, NamesSha256, Response;
    if ParseChallenge(challenge).Ok? {
      var ch := ParseChallenge(challenge).value;
      var algorithm := if ch.algorithm == "" then "MD5" else ch.algorithm;
      DefaultName(ch.algorithm);
      HashNamed(h, algorithm, "");
      HashFacts(h, algorithm, c.username + ":" + ch.realm + ":" + c.password);
    }
  }

  // ---------- any header ----------

  /** The response that a server computes for the fields of a header. */
  function Expected(hash: string -> string, a: Authorization, verb: string, password: string): string
  {
    var a1 := a.username + ":" + a.realm + ":" + password;
    var a2 := verb + ":" + a.uri;
    if a.qop == "" then hash(hash(a1) + ":" + a.nonce + ":" + hash(a2))
    else hash(hash(a1) + ":" + a.nonce + ":" + a.nc + ":" + a.cnonce + ":" + a.qop + ":" + hash(a2))
  }

  /** A header, whoever wrote it, verifies if and only if it is for Digest, names user, realm, nonce, URI and response, is
      for this user, asks for no qop or for `auth`, and carries the response that RFC 7616 has for its fields
      and the hash it names, in any case. */
  lemma VerifiesIff(h: Hash, value: string, verb: string, username: string, password: string)
    requires HexHash(h)
    ensures Verify(h, value, verb, username, password) == Ok(true) <==>
              && DigestParams(value).Some?
              && (var a := SetAll(NO_AUTH, Split(DigestParams(value).value, "", false));
                  && a.username != "" && a.realm != "" && a.nonce != "" && a.uri != "" && a.response != ""
                  && a.username == username && (a.qop == "" || EqualFold(a.qop, "auth"))
                  && (|| (NamesMd5(a.algorithm) && EqualFold(Expected(h.md5, a, verb, password), a.response))
                      || (NamesSha256(a.algorithm) && EqualFold(Expected(h.sha256, a, verb, password), a.response))))
  {
    hide DigestParams, SetAll, Split, DigestHex, HexHash, NamesMd5, NamesSha256, Lower, EqualFold;
    if DigestParams(value).Some? {
      var a := SetAll(NO_AUTH, Split(DigestParams(value).value, "", false));
      ResponseExpected(h, a, verb, password);
    }
  }

  lemma ResponseExpected(h: Hash, a: Authorization, verb: string, password: string)
    requires HexHash(h)
    ensures var algorithm := if a.algorithm == "" then "MD5" else a.algorithm;
            var ha1 := Ha1(h, algorithm, Credentials(verb, a.uri, a.username, password), a.realm);
            var response := Response(h, algorithm, ha1, verb, a.uri, a.nonce, a.qop, a.nc, a.cnonce);
            && (ha1 != "" <==> NamesMd5(a.algorithm) || NamesSha256(a.algorithm))
            && (NamesMd5(a.algorithm) ==> response == Expected(h.md5, a, verb, password) && !NamesSha256(a.algorithm))
            && (NamesSha256(a.algorithm) ==> response == Expected(h.sha256, a, verb, password))
  {
    hide DigestHex, HexHash, NamesMd5, NamesSha256, Supported;
    var algorithm := if a.algorithm == "" then "MD5" else a.algorithm;
    DefaultName(a.algorithm);
    var x := a.username + ":" + a.realm + ":" + password;
    var a1, a2 := DigestHex(h, algorithm, x), DigestHex(h, algorithm, verb + ":" + a.uri);
    HashFacts(h, algorithm, x);
    HashNamed(h, algorithm, x);
    HashNamed(h, algorithm, verb + ":" + a.uri);
    HashNamed(h, algorithm, a1 + ":" + a.nonce + ":" + a2);
    HashNamed(h, algorithm, a1 + ":" + a.nonce + ":" + a.nc + ":" + a.cnonce + ":" + a.qop + ":" + a2);
  }

  /** The word Digest may stand in any case. */
  lemma SchemeFolds(scheme: string, params: string)
    requires |scheme| == 6 && Tight(scheme) && TrimSpace(params) != ""
    ensures DigestParams(scheme + " " + params)
            == if EqualFold(scheme, "Digest") then Some(TrimSpace(params)) else None
  {
    hide Lower;
    var s := scheme + " " + params;
    var v := TrimSpace(s);
    assert TrimLeft(s) == s;
    SpacesLeft(params);
    TrimRightTail(scheme + " ", params);
    assert v == scheme + " " + TrimRight(params);
    assert v[7..] == TrimRight(params);
    TrimOfTrimRight(params);
    assert |v| >= 7 && Lower(v)[..7] == Lower(scheme) + " " by {
      assert forall i :: 0 <= i < 7 ==> Lower(v)[i] == LowerChar(v[i]);
      assert forall i :: 0 <= i < 6 ==> Lower(scheme)[i] == LowerChar(scheme[i]);
    }
    FoldDigest(scheme);
  }

  lemma SpacesLeft(s: string)
    requires TrimSpace(s) != ""
    ensures TrimRight(s) != ""
  {
    if TrimRight(s) == "" {
      AllSpace(s);
    }
  }

  lemma FoldDigest(scheme: string)
    requires |scheme| == 6
    ensures EqualFold(scheme, "Digest") <==> Lower(scheme) + " " == "digest "
  {
    hide Lower;
    var d := "Digest";
    assert forall i :: 0 <= i < 6 ==> Lower(d)[i] == LowerChar(d[i]);
    assert Lower(d) == "digest";
    if Lower(scheme) + " " == "digest " {
      assert Lower(scheme) == (Lower(scheme) + " ")[..6];
    }
  }

  /** So may the name of a parameter. */
  lemma KeysFold(key: string, key': string, text: string)
    requires EqualFold(key, key') && '=' !in key && '=' !in key'
    ensures KeyValue(key + "=" + text) == KeyValue(key' + "=" + text)
  {
    hide TrimSpace, TrimQuotes, Lower;
    KeyIs(key, text);
    KeyIs(key', text);
    FoldTrims(key, key');
  }

  lemma KeyIs(key: string, text: string)
    requires '=' !in key
    ensures KeyValue(key + "=" + text) == Some((Lower(TrimSpace(key)), TrimQuotes(TrimSpace(text))))
  {
    hide TrimSpace, TrimQuotes, Lower;
    var s := key + "=" + text;
    assert forall j :: 0 <= j < |key| ==> s[j] == key[j] && key[j] in key;
    assert s[|key|] == '=';
    assert IndexOf(s, '=') == |key|;
    assert s[..|key|] == key && s[|key| + 1..] == text;
  }

  lemma SpaceFolds(c: char, d: char)
    requires LowerChar(c) == LowerChar(d)
    ensures IsSpace(c) <==> IsSpace(d)
  {
  }

  lemma {:induction false} FoldTrimLeft(a: string, b: string)
    requires EqualFold(a, b)
    ensures EqualFold(TrimLeft(a), TrimLeft(b))
  {
    hide Lower;
    if a != "" {
      assert |a| == |Lower(a)| == |Lower(b)| == |b|;
      assert Lower(a)[0] == LowerChar(a[0]) && Lower(b)[0] == LowerChar(b[0]);
      SpaceFolds(a[0], b[0]);
      if IsSpace(a[0]) {
        FoldTail(a, b);
        FoldTrimLeft(a[1..], b[1..]);
      }
    } else {
      assert |b| == |Lower(b)| == |Lower(a)|;
    }
  }

  lemma FoldTail(a: string, b: string)
    requires EqualFold(a, b) && a != "" && b != ""
    ensures EqualFold(a[1..], b[1..]) && EqualFold(a[..|a| - 1], b[..|b| - 1])
  {
    hide Lower;
    assert |a| == |Lower(a)| == |Lower(b)| == |b|;
    forall i | 0 <= i < |a|
      ensures LowerChar(a[i]) == LowerChar(b[i])
    {
      assert Lower(a)[i] == Lower(b)[i];
    }
    assert Lower(a[1..]) == Lower(b[1..]);
    assert Lower(a[..|a| - 1]) == Lower(b[..|b| - 1]);
  }

  lemma {:induction false} FoldTrimRight(a: string, b: string)
    requires EqualFold(a, b)
    ensures EqualFold(TrimRight(a), TrimRight(b))
  {
    hide Lower;
    assert |a| == |Lower(a)| == |Lower(b)| == |b|;
    if a != "" {
      var n := |a| - 1;
      assert Lower(a)[n] == LowerChar(a[n]) && Lower(b)[n] == LowerChar(b[n]);
      SpaceFolds(a[n], b[n]);
      if IsSpace(a[n]) {
        FoldTail(a, b);
        FoldTrimRight(a[..n], b[..n]);
      }
    }
  }

  lemma FoldTrims(a: string, b: string)
    requires EqualFold(a, b)
    ensures EqualFold(TrimSpace(a), TrimSpace(b))
  {
    FoldTrimLeft(a, b);
    FoldTrimRight(TrimLeft(a), TrimLeft(b));
  }

  // ---------- which qop lists offer auth ----------

  /** The option `auth` stands in the list between positions i and j. */
  predicate AuthAt(qop: string, i: nat, j: nat)
  {
    && i <= j <= |qop| && (i == 0 || qop[i - 1] == ',') && (j == |qop| || qop[j] == ',')
    && ',' !in qop[i..j] && EqualFold(TrimSpace(qop[i..j]), "auth")
  }

  /** Where `auth` stands in the rest of a list after a comma. */
  lemma AuthInRest(qop: string, k: nat, i: nat, j: nat)
    requires k < |qop| && qop[k] == ','
    requires i <= j <= |qop| - k - 1
    ensures AuthAt(qop[k + 1..], i, j) <==> AuthAt(qop, k + 1 + i, k + 1 + j)
  {
    hide TrimSpace, EqualFold;
    var rest := qop[k + 1..];
    assert qop[k + 1 + i..k + 1 + j] == rest[i..j];
    assert i > 0 ==> qop[k + i] == rest[i - 1];
    assert j < |rest| ==> qop[k + 1 + j] == rest[j];
  }

  lemma {:induction false} OffersAuthFinds(qop: string) returns (i: nat, j: nat)
    requires OffersAuth(qop)
    ensures AuthAt(qop, i, j)
    decreases |qop|
  {
    hide TrimSpace, EqualFold;
    var k := IndexOf(qop, ',');
    if EqualFold(TrimSpace(qop[..k]), "auth") {
      assert qop[0..k] == qop[..k];
      return 0, k;
    }
    var i', j' := OffersAuthFinds(qop[k + 1..]);
    AuthInRest(qop, k, i', j');
    i, j := k + 1 + i', k + 1 + j';
  }

  lemma {:induction false} OffersAuthWhere(qop: string, i: nat, j: nat)
    requires AuthAt(qop, i, j)
    ensures OffersAuth(qop)
    decreases |qop|
  {
    hide TrimSpace, EqualFold;
    var k := IndexOf(qop, ',');
    if i == 0 {
      assert qop[0..j] == qop[..j];
      assert forall x :: 0 <= x < j ==> qop[..j][x] == qop[x] && qop[x] != ',';
      assert k == j;
    } else {
      assert k < i;
      AuthInRest(qop, k, i - k - 1, j - k - 1);
      OffersAuthWhere(qop[k + 1..], i - k - 1, j - k - 1);
    }
  }

  /** A list offers `auth` if and only if that is one of its elements, in any case and with spaces around it. */
  lemma OffersAuthIff(qop: string)
    ensures OffersAuth(qop) <==> exists i, j :: AuthAt(qop, i, j)
  {
    hide OffersAuth, AuthAt;
    if OffersAuth(qop) {
      var i, j := OffersAuthFinds(qop);
    }
    if exists i, j :: AuthAt(qop, i, j) {
      var i, j :| AuthAt(qop, i, j);
      OffersAuthWhere(qop, i, j);
    }
  }

  // ---------- method and password ----------

  /** The hash tells the texts of this exchange from those for another method and password. */
  ghost predicate NoCollisionWith(h: Hash, ch: Challenge, c: Credentials, cnonce: string, verb: string, password: string)
  {
    var algorithm := if ch.algorithm == "" then "MD5" else ch.algorithm;
    var qop := if ch.qop == "" then "" else "auth";
    var nc, cn := if qop == "" then "" else NC, if qop == "" then "" else cnonce;
    var c' := c.(password := password);
    && Apart(h, algorithm, c.username + ":" + ch.realm + ":" + c.password, c.username + ":" + ch.realm + ":" + password)
    && Apart(h, algorithm, c.verb + ":" + c.uri, verb + ":" + c.uri)
    && Apart(h, algorithm,
             ResponseInput(h, algorithm, Ha1(h, algorithm, c, ch.realm), c.verb, c.uri, ch.nonce, qop, nc, cn),
             ResponseInput(h, algorithm, Ha1(h, algorithm, c', ch.realm), verb, c.uri, ch.nonce, qop, nc, cn))
  }

  lemma SamePassword(c: Credentials, realm: string, password: string)
    requires c.username + ":" + realm + ":" + c.password == c.username + ":" + realm + ":" + password
    ensures c.password == password
  {
    var p := c.username + ":" + realm + ":";
    assert (p + c.password)[|p|..] == c.password && (p + password)[|p|..] == password;
  }

  lemma SameVerb(c: Credentials, verb: string)
    requires c.verb + ":" + c.uri == verb + ":" + c.uri
    ensures c.verb == verb
  {
    var s := c.verb + ":" + c.uri;
    assert s[..|s| - |c.uri| - 1] == c.verb && (verb + ":" + c.uri)[..|s| - |c.uri| - 1] == verb;
  }

  lemma OtherResponse(h: Hash, algorithm: string, c: Credentials, realm: string, nonce: string, qop: string, nc: string,
                      cnonce: string, verb: string, password: string)
    requires HexHash(h) && Supported(algorithm)
    requires Apart(h, algorithm, c.username + ":" + realm + ":" + c.password, c.username + ":" + realm + ":" + password)
    requires Apart(h, algorithm, c.verb + ":" + c.uri, verb + ":" + c.uri)
    requires var c' := c.(password := password);
             Apart(h, algorithm, ResponseInput(h, algorithm, Ha1(h, algorithm, c, realm), c.verb, c.uri, nonce, qop, nc, cnonce),
                   ResponseInput(h, algorithm, Ha1(h, algorithm, c', realm), verb, c.uri, nonce, qop, nc, cnonce))
    requires var c' := c.(password := password);
             Response(h, algorithm, Ha1(h, algorithm, c, realm), c.verb, c.uri, nonce, qop, nc, cnonce)
             == Response(h, algorithm, Ha1(h, algorithm, c', realm), verb, c.uri, nonce, qop, nc, cnonce)
    ensures c.verb == verb && c.password == password
  {
    hide DigestHex, HexHash, Supported, Response;
    var c' := c.(password := password);
    var a, a' := Ha1(h, algorithm, c, realm), Ha1(h, algorithm, c', realm);
    var u, u' := c.verb + ":" + c.uri, verb + ":" + c.uri;
    var b, b' := DigestHex(h, algorithm, u), DigestHex(h, algorithm, u');
    HexFacts(h, algorithm, c.username + ":" + realm + ":" + c.password);
    HexFacts(h, algorithm, c.username + ":" + realm + ":" + password);
    HexFacts(h, algorithm, u);
    HexFacts(h, algorithm, u');
    var tail := if qop == "" then "" else ":" + nc + ":" + cnonce + ":" + qop;
    ResponseText(h, algorithm, a, c.verb, c.uri, nonce, qop, nc, cnonce);
    ResponseText(h, algorithm, a', verb, c.uri, nonce, qop, nc, cnonce);
    FirstColon(a, nonce + tail + ":" + b, a', nonce + tail + ":" + b');
    LastColon(nonce + tail, b, nonce + tail, b');
    SamePassword(c, realm, password);
    SameVerb(c, verb);
  }

  /** A header verifies for one method and one password only: those it was built with, unless the hash collides on
      the texts of this very exchange. */
  lemma PasswordDecides(h: Hash, challenge: string, c: Credentials, cnonce: string, verb: string, password: string)
    requires HexHash(h) && BuildValue(h, challenge, c, cnonce).Ok? && c.username != "" && c.uri != ""
    requires ParseChallenge(challenge).Ok? && Quotable(ParseChallenge(challenge).value, c, cnonce)
    requires NoBackslash(ParseChallenge(challenge).value.realm, ParseChallenge(challenge).value.nonce, c)
    requires NoCollisionWith(h, ParseChallenge(challenge).value, c, cnonce, verb, password)
    ensures Verify(h, BuildValue(h, challenge, c, cnonce).value, verb, c.username, password)
            == Ok(verb == c.verb && password == c.password)
  {
    hide ParseChallenge, BuildValue, Response, Ha1, HexHash, Supported, ParseAuthorization, TrimSpace, Escape, Verify,
         Apart, ResponseInput;
    VerifyCompares(h, challenge, c, cnonce, verb, password);
    var ch := ParseChallenge(challenge).value;
    EscapeNoQuote(ch.realm);
    EscapeNoQuote(ch.nonce);
    EscapeNoQuote(c.uri);
    var algorithm := if ch.algorithm == "" then "MD5" else ch.algorithm;
    var qop := if ch.qop == "" then "" else "auth";
    var nc, cn := if qop == "" then "" else NC, if qop == "" then "" else cnonce;
    var c' := c.(password := password);
    assert password == c.password ==> c' == c;
    if Response(h, algorithm, Ha1(h, algorithm, c', ch.realm), verb, c.uri, ch.nonce, qop, nc, cn)
       == Response(h, algorithm, Ha1(h, algorithm, c, ch.realm), c.verb, c.uri, ch.nonce, qop, nc, cn) {
      OtherResponse(h, algorithm, c, ch.realm, ch.nonce, qop, nc, cn, verb, password);
    }
  }
}
