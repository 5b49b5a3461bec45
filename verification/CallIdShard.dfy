/**
 The shard of a packet: a hash of the text after the first Call-ID header name
 in its bytes. Which mailbox it goes to depends on the parsed Call-ID instead,
 without a prefix that ends in "///".
 */
module CallIdShard {
  import opened Common
  import opened Arith
  import opened Wire
  import opened Text
  import opened SipHeaders

  // ---------- the shard of a packet ----------

  const NL: Byte := 10
  const CR: Byte := 13

  predicate Letter(b: Byte, upper: Byte)
  {
    b == upper || b == (upper + 32) % 256
  }

  /** "Call-ID:" in any case, with at least one byte after it. */
  predicate StartsCallID(line: Bytes)
  {
    |line| >= 9 && Letter(line[0], 67) && Letter(line[1], 65) && Letter(line[2], 76) && Letter(line[3], 76)
    && line[4] == 45 && Letter(line[5], 73) && Letter(line[6], 68) && line[7] == 58
  }

  /** The compact form "i:". */
  predicate StartsCompact(line: Bytes)
  {
    |line| >= 3 && Letter(line[0], 73) && line[1] == 58
  }

  /** The text after the first matching header name from position i on. */
  function Scan(raw: Bytes, i: nat): Option<Bytes>
    decreases |raw| - i
  {
    if i + 8 >= |raw| then None
    else if raw[i] == NL && StartsCallID(raw[i + 1..]) then Some(raw[i + 9..])
    else if raw[i] == NL && StartsCompact(raw[i + 1..]) then Some(raw[i + 3..])
    else Scan(raw, i + 1)
  }

  /** Up to the end of the line. */
  function FirstLine(b: Bytes): Bytes
  {
    if b == [] || b[0] == CR || b[0] == NL then [] else [b[0]] + FirstLine(b[1..])
  }

  /** The header value that the shard depends on. */
  function FieldValue(raw: Bytes): Option<Bytes>
  {
    var v := Scan(raw, 0);
    if v.None? then None else Some(FirstLine(v.value))
  }

  /** Exclusive or of numbers below m, a power of two. */
  function Xor(a: nat, b: nat, m: nat): (r: nat)
    requires m > 0
    ensures r < m
  {
    if m == 1 then 0 else (a % 2 + b % 2) % 2 + 2 * Xor(a / 2, b / 2, m / 2)
  }

  function XorByte(h: Word32, b: Byte): Word32
  {
    h - h % 256 + Xor(h % 256, b, 256)
  }

  /** One round of the hash. */
  function Mix(h: Word32, b: Byte): Word32
  {
    (XorByte(h, b) * FNV_PRIME) % 0x1_0000_0000
  }

  /** FNV-1a, 32 bits. */
  function Fnv(h: Word32, v: Bytes): Word32
    decreases |v|
  {
    if v == [] then h else Fnv(Mix(h, v[0]), v[1..])
  }

  const FNV_START: Word32 := 2166136261
  const FNV_PRIME := 16777619

  function ShardOf(raw: Bytes, n: nat): (s: nat)
    requires n > 0
    ensures s < n
  {
    match FieldValue(raw)
    case None => 0
    case Some(v) => Fnv(FNV_START, v) % n
  }

  /** The loops of the program compute it. */
  method CallIDShard(raw: Bytes, n: nat) returns (s: nat)
    requires n > 0
    ensures s == ShardOf(raw, n)
  {
    var value: Option<Bytes> := None;
    var i := 0;
    while i + 8 < |raw|
      invariant 0 <= i && value.None?
      invariant Scan(raw, 0) == Scan(raw, i)
    {
      if raw[i] == NL {
        var line := raw[i + 1..];
        if StartsCallID(line) {
          value := Some(line[8..]);
          assert line[8..] == raw[i + 9..];
          break;
        } else if StartsCompact(line) {
          value := Some(line[2..]);
          assert line[2..] == raw[i + 3..];
          break;
        }
      }
      i := i + 1;
    }
    if value.None? {
      return 0;
    }
    var h := HashLine(value.value);
    return h % n;
  }

  method HashLine(v: Bytes) returns (h: Word32)
    ensures h == Fnv(FNV_START, FirstLine(v))
  {
    hide Mix;
    h := FNV_START;
    var j := 0;
    assert v[0..] == v;
    while j < |v| && v[j] != CR && v[j] != NL
      invariant 0 <= j <= |v|
      invariant Fnv(h, FirstLine(v[j..])) == Fnv(FNV_START, FirstLine(v))
    {
      assert v[j..][1..] == v[j + 1..];
      assert FirstLine(v[j..])[1..] == FirstLine(v[j + 1..]);
      h := Mix(h, v[j]);
      j := j + 1;
    }
    assert FirstLine(v[j..]) == [];
  }

  lemma {:induction false} FirstLineOf(v: Bytes, rest: Bytes)
    requires CR !in v && NL !in v && rest != [] && rest[0] == CR
    ensures FirstLine(v + rest) == v
    decreases |v|
  {
    if v == [] {
      assert v + rest == rest;
    } else {
      assert v[0] in v && (v + rest)[1..] == v[1..] + rest;
      FirstLineOf(v[1..], rest);
    }
  }

  /** A message with a Call-ID line somewhere. */
  function WithLine(pre: Bytes, v: Bytes, rest: Bytes): Bytes
  {
    pre + [NL] + CALL_ID + v + [CR, NL] + rest
  }

  /** No line of either header name begins between i and that line. */
  predicate NoneBefore(pre: Bytes, v: Bytes, rest: Bytes, i: nat)
  {
    var raw := WithLine(pre, v, rest);
    forall k :: i <= k < |pre| && raw[k] == NL ==> !StartsCallID(raw[k + 1..]) && !StartsCompact(raw[k + 1..])
  }

  lemma LineStarts(v: Bytes, rest: Bytes)
    ensures StartsCallID(CALL_ID + v + [CR, NL] + rest)
  {
    var line := CALL_ID + v + [CR, NL] + rest;
    assert forall k :: 0 <= k < 8 ==> line[k] == CALL_ID[k];
  }

  /** In a message whose first header of that name is a Call-ID line, the value is the text of that line. */
  lemma {:induction false} CallIDLine(pre: Bytes, v: Bytes, rest: Bytes, i: nat)
    requires OneLine(v) && i <= |pre| && NoneBefore(pre, v, rest, i)
    ensures Scan(WithLine(pre, v, rest), i) == Some(v + [CR, NL] + rest)
    decreases |pre| - i
  {
    hide StartsCallID, StartsCompact;
    var raw := WithLine(pre, v, rest);
    if i == |pre| {
      var line := CALL_ID + v + [CR, NL] + rest;
      LineStarts(v, rest);
      assert raw[i + 1..] == line && raw[i + 9..] == v + [CR, NL] + rest;
    } else {
      CallIDLine(pre, v, rest, i + 1);
    }
  }

  /** So its hash decides the shard. */
  lemma LineShard(pre: Bytes, v: Bytes, rest: Bytes, n: nat)
    requires n > 0 && OneLine(v) && NoneBefore(pre, v, rest, 0)
    ensures FieldValue(WithLine(pre, v, rest)) == Some(v)
    ensures ShardOf(WithLine(pre, v, rest), n) == Fnv(FNV_START, v) % n
  {
    hide Fnv, Scan, FirstLine, WithLine, NoneBefore;
    CallIDLine(pre, v, rest, 0);
    FirstLineOf(v, [CR, NL] + rest);
    assert v + [CR, NL] + rest == v + ([CR, NL] + rest);
  }

  /** Two messages whose first header of that name is a Call-ID line with the same text: one shard. */
  lemma SameLineSameShard(pre: Bytes, rest: Bytes, pre': Bytes, rest': Bytes, v: Bytes, n: nat)
    requires n > 0 && OneLine(v) && NoneBefore(pre, v, rest, 0) && NoneBefore(pre', v, rest', 0)
    ensures ShardOf(WithLine(pre, v, rest), n) == ShardOf(WithLine(pre', v, rest'), n)
  {
    hide Fnv, ShardOf, WithLine, NoneBefore;
    LineShard(pre, v, rest, n);
    LineShard(pre', v, rest', n);
  }

  // ---------- header names ----------

  /** The name in any case, or its compact form, with the colon. */
  predicate HeaderName(name: Bytes)
  {
    EqualFold(TextOf(name), "Call-ID:") || EqualFold(TextOf(name), "i:")
  }

  /** A line of some header name. */
  function HeaderLine(pre: Bytes, name: Bytes, v: Bytes, rest: Bytes): Bytes
  {
    pre + [NL] + name + v + [CR, NL] + rest
  }

  /** No such line begins before it. */
  predicate NoNameBefore(raw: Bytes, k: nat)
  {
    forall i :: 0 <= i < k && i < |raw| && raw[i] == NL ==> !StartsCallID(raw[i + 1..]) && !StartsCompact(raw[i + 1..])
  }

  lemma LetterIs(b: Byte, upper: Byte)
    requires 65 <= upper <= 90
    ensures Letter(b, upper) <==> LowerChar(b as char) == LowerChar(upper as char)
  {
  }

  lemma FoldAt(a: string, b: string)
    ensures EqualFold(a, b) <==> |a| == |b| && forall k :: 0 <= k < |a| ==> LowerChar(a[k]) == LowerChar(b[k])
  {
    hide Lower;
    if EqualFold(a, b) {
      assert |a| == |b|;
      assert forall k :: 0 <= k < |a| ==> Lower(a)[k] == Lower(b)[k];
    }
    if |a| == |b| && forall k :: 0 <= k < |a| ==> LowerChar(a[k]) == LowerChar(b[k]) {
      assert forall k :: 0 <= k < |a| ==> Lower(a)[k] == Lower(b)[k];
    }
  }

  /** The scan knows exactly these names. */
  lemma NameStarts(name: Bytes, tail: Bytes)
    requires tail != []
    ensures |name| == 8 ==> (StartsCallID(name + tail) <==> EqualFold(TextOf(name), "Call-ID:"))
    ensures |name| == 2 ==> (StartsCompact(name + tail) <==> EqualFold(TextOf(name), "i:"))
  {
    hide Lower, EqualFold;
    var s := TextOf(name);
    var line := name + tail;
    assert forall k :: 0 <= k < |name| ==> line[k] == name[k] && s[k] == name[k] as char;
    FoldAt(s, "Call-ID:");
    FoldAt(s, "i:");
  }

  lemma {:induction false} ScanPasses(raw: Bytes, i: nat, k: nat)
    requires i <= k && k + 8 < |raw| && NoNameBefore(raw, k)
    ensures Scan(raw, i) == Scan(raw, k)
    decreases k - i
  {
    hide StartsCallID, StartsCompact;
    if i < k {
      ScanPasses(raw, i + 1, k);
    }
  }

  /** The first line with the name in any case, or compact, decides the shard by the rest of it, if at least eight bytes
      follow its line end, which a full name always has. */
  lemma HeaderLineShard(pre: Bytes, name: Bytes, v: Bytes, rest: Bytes, n: nat)
    requires n > 0 && OneLine(v) && HeaderName(name) && NoNameBefore(HeaderLine(pre, name, v, rest), |pre|)
    requires |name| + |v| + 2 + |rest| >= 8
    ensures ShardOf(HeaderLine(pre, name, v, rest), n) == Fnv(FNV_START, v) % n
  {
    hide Fnv, FirstLine, Scan, HeaderName, NoNameBefore;
    var raw, tail := HeaderLine(pre, name, v, rest), v + ([CR, NL] + rest);
    assert raw[|pre|] == NL && raw[|pre| + 1..] == name + tail;
    assert raw[|pre| + 1 + |name|..] == tail;
    ScanPasses(raw, 0, |pre|);
    ScanStops(raw, |pre|, name, tail);
    FirstLineOf(v, [CR, NL] + rest);
  }

  lemma ScanStops(raw: Bytes, k: nat, name: Bytes, tail: Bytes)
    requires k + 8 < |raw| && raw[k] == NL && raw[k + 1..] == name + tail && HeaderName(name) && tail != []
    ensures Scan(raw, k) == Some(tail)
  {
    hide StartsCallID, StartsCompact, EqualFold;
    NameSize(name);
    NameStarts(name, tail);
    assert raw[k + 1 + |name|..] == raw[k + 1..][|name|..] == tail;
    if |name| == 2 {
      CompactIsNotFull(name + tail);
    }
  }

  lemma NameSize(name: Bytes)
    requires HeaderName(name)
    ensures |name| == 8 || |name| == 2
    ensures |name| == 8 ==> EqualFold(TextOf(name), "Call-ID:")
    ensures |name| == 2 ==> EqualFold(TextOf(name), "i:")
  {
    FoldAt(TextOf(name), "Call-ID:");
    FoldAt(TextOf(name), "i:");
  }

  lemma CompactIsNotFull(line: Bytes)
    requires StartsCompact(line)
    ensures !StartsCallID(line)
  {
  }

  /** Without such a line everything goes to the first shard. */
  lemma {:induction false} NoNameFirstShard(raw: Bytes, i: nat)
    requires NoNameBefore(raw, |raw|)
    ensures Scan(raw, i).None?
    ensures i == 0 ==> forall n: nat :: n > 0 ==> ShardOf(raw, n) == 0
    decreases |raw| - i
  {
    hide StartsCallID, StartsCompact;
    if i + 8 < |raw| {
      NoNameFirstShard(raw, i + 1);
    }
  }

  // ---------- the hash ----------

  function Power(k: nat): (p: nat)
    ensures p > 0
  {
    if k == 0 then 1 else 2 * Power(k - 1)
  }

  function Bit(a: nat, k: nat): nat
  {
    if k == 0 then a % 2 else Bit(a / 2, k - 1)
  }

  /** Bit by bit the exclusive or. */
  lemma {:induction false} XorBits(a: nat, b: nat, m: nat, k: nat)
    requires 2 * Power(k) <= m
    ensures Bit(Xor(a, b, m), k) == (Bit(a, k) + Bit(b, k)) % 2
    decreases k
  {
    var x := Xor(a / 2, b / 2, m / 2);
    assert m > 1 && Xor(a, b, m) == (a % 2 + b % 2) % 2 + 2 * x;
    assert Xor(a, b, m) / 2 == x && Xor(a, b, m) % 2 == (a % 2 + b % 2) % 2;
    if k > 0 {
      XorBits(a / 2, b / 2, m / 2, k - 1);
    }
  }

  /** Published values of 32-bit FNV-1a, for no text and for the letter a. */
  lemma FnvVectors()
    ensures Fnv(FNV_START, []) == 0x811c_9dc5 && Fnv(FNV_START, [97]) == 0xe40c_292c
  {
    hide XorByte;
    assert [97][1..] == [];
    FirstMix();
    assert 2166136228 * FNV_PRIME == 0xe40c_292c + 0x1_0000_0000 * 8461672;
  }

  lemma FirstMix()
    ensures XorByte(2166136261, 97) == 2166136228
  {
    hide Xor;
    LowByte();
    assert 2166136261 % 256 == 0xc5;
  }

  lemma LowByte()
    ensures Xor(0xc5, 97, 256) == 0xa4
  {
    assert Xor(1, 0, 2) == 1;
    assert Xor(3, 1, 4) == 2;
    assert Xor(6, 3, 8) == 5;
    assert Xor(12, 6, 16) == 10;
    assert Xor(24, 12, 32) == 20;
    assert Xor(49, 24, 64) == 41;
    assert Xor(98, 48, 128) == 82;
  }

  // ---------- two spellings of one Call-ID ----------

  /** A call's mailbox name: without spaces around it and without a prefix that ends in "///". */
  function Normalize(callID: string): string
  {
    var v := TrimSpace(callID);
    var i := LastSlashes(v, |v|);
    if i.Some? then v[i.value + 3..] else v
  }

  predicate SlashesAt(v: string, j: nat)
  {
    j + 3 <= |v| && v[j] == v[j + 1] == v[j + 2] == '/'
  }

  /** The last position before k where "///" starts. */
  function LastSlashes(v: string, k: nat): (i: Option<nat>)
    requires k <= |v|
    ensures i.Some? ==> i.value < k && SlashesAt(v, i.value)
    ensures forall j :: (if i.Some? then i.value + 1 else 0) <= j < k ==> !SlashesAt(v, j)
  {
    if k == 0 then None
    else if SlashesAt(v, k - 1) then Some(k - 1)
    else LastSlashes(v, k - 1)
  }

  function Sum(v: Bytes): nat
  {
    if v == [] then 0 else v[0] + Sum(v[1..])
  }

  lemma XorLow(a: nat, b: nat, m: nat)
    requires m > 1
    ensures Xor(a, b, m) % 2 == (a + b) % 2
  {
    var x := Xor(a / 2, b / 2, m / 2);
    assert Xor(a, b, m) == (a % 2 + b % 2) % 2 + 2 * x;
  }

  lemma XorParity(h: Word32, b: Byte)
    ensures XorByte(h, b) % 2 == (h + b) % 2
  {
    hide Xor;
    var l, q := h % 256, h / 256;
    var x := Xor(l, b, 256);
    XorLow(l, b, 256);
    assert XorByte(h, b) == x + 2 * (128 * q) && h + b == (l + b) + 2 * (128 * q);
    ModPlusMultiple(x, 2, 128 * q);
    ModPlusMultiple(l + b, 2, 128 * q);
  }

  /** The remainder by an even number keeps the lowest bit. */
  lemma EvenMod(y: nat, k: nat)
    requires k > 0
    ensures (y % (2 * k)) % 2 == y % 2
  {
    var q := y / (2 * k);
    assert y == y % (2 * k) + 2 * (k * q);
    ModPlusMultiple(y % (2 * k), 2, k * q);
  }

  lemma MixParity(h: Word32, b: Byte)
    ensures Mix(h, b) % 2 == (h + b) % 2
  {
    hide XorByte;
    var x := XorByte(h, b);
    XorParity(h, b);
    assert x * FNV_PRIME == x + 2 * (x * 8388809);
    ModPlusMultiple(x, 2, x * 8388809);
    EvenMod(x * FNV_PRIME, 0x8000_0000);
  }

  /** The lowest bit of the hash is the parity of the text. */
  lemma {:induction false} FnvParity(h: Word32, v: Bytes)
    ensures Fnv(h, v) % 2 == (h + Sum(v)) % 2
    decreases |v|
  {
    hide Mix;
    if v != [] {
      MixParity(h, v[0]);
      FnvParity(Mix(h, v[0]), v[1..]);
    }
  }

  /** With two workers the parity of the text decides. */
  lemma MessageShard(v: Bytes)
    requires OneLine(v)
    ensures ShardOf(MessageWith(v), 2) == (1 + Sum(v)) % 2
  {
    hide Fnv, ShardOf, Sum;
    var pre := START_LINE + [CR];
    assert MessageWith(v) == WithLine(pre, v, CRLF);
    assert NoneBefore(pre, v, CRLF, 0) by {
      assert forall k :: 0 <= k < |pre| ==> WithLine(pre, v, CRLF)[k] == pre[k];
    }
    LineShard(pre, v, CRLF, 2);
    FnvParity(FNV_START, v);
  }

  lemma {:induction false} SumOf(a: Bytes, b: Bytes)
    ensures Sum(a + b) == Sum(a) + Sum(b)
  {
    if a == [] {
      assert a + b == b;
    } else {
      assert (a + b)[1..] == a[1..] + b;
      SumOf(a[1..], b);
    }
  }

  lemma LastIs(s: string, p: nat)
    requires p < |s| && SlashesAt(s, p) && forall j :: p < j < |s| ==> !SlashesAt(s, j)
    ensures LastSlashes(s, |s|) == Some(p)
  {
    hide LastSlashes;
    var i := LastSlashes(s, |s|);
    assert i.Some?;
  }

  /** Where "///" starts in a text with such a prefix. */
  lemma PrefixSlashes(t: string, j: nat)
    requires t != "" && t[0] != '/'
    ensures SlashesAt("b///" + t, 1)
    ensures SlashesAt("b///" + t, j) ==> j == 1 || (j >= 4 && SlashesAt(t, j - 4))
    ensures SlashesAt(t, j) ==> SlashesAt("b///" + t, j + 4)
  {
  }

  /** The text v is the name c, or the name c after a prefix that ends in the last "///". */
  predicate Spells(v: string, c: string)
  {
    if |c| == |v| then c == v && forall j :: 0 <= j < |v| ==> !SlashesAt(v, j)
    else
      && |c| + 3 <= |v| && v[|v| - |c|..] == c && v[|v| - |c| - 3..|v| - |c|] == "///"
      && forall j :: |v| - |c| - 3 < j < |v| ==> !SlashesAt(v, j)
  }

  /** What a mailbox is called: the Call-ID without the spaces around it, from after its last "///" on. */
  lemma NameIs(callID: string, c: string)
    ensures Normalize(callID) == c <==> Spells(TrimSpace(callID), c)
  {
    hide TrimSpace, LastSlashes;
    var v := TrimSpace(callID);
    var i := LastSlashes(v, |v|);
    if i.Some? {
      SlashesText(v, i.value);
      assert |v[i.value + 3..]| == |v| - i.value - 3;
      if Spells(v, c) && |c| != |v| {
        var k := |v| - |c| - 3;
        SlashesText(v, k);
        assert i.value == k;
      }
    } else if |c| != |v| && |c| + 3 <= |v| {
      SlashesText(v, |v| - |c| - 3);
      assert !SlashesAt(v, |v| - |c| - 3);
    }
  }

  lemma SlashesText(v: string, j: nat)
    requires j + 3 <= |v|
    ensures SlashesAt(v, j) <==> v[j..j + 3] == "///"
  {
    assert v[j..j + 3] == [v[j], v[j + 1], v[j + 2]];
  }

  /** A Call-ID without spaces around it and without "///". */
  ghost predicate PlainName(c: string)
  {
    Tight(c) && forall j :: 0 <= j < |c| ==> !SlashesAt(c, j)
  }

  /** A plain Call-ID names its own mailbox, so different ones have different mailboxes. */
  lemma PlainNameIsItself(c: string)
    requires PlainName(c)
    ensures Normalize(c) == c
  {
    hide TrimSpace;
    TrimTight(c);
    NameIs(c, c);
  }

  /** A prefix that ends in "///" does not change the name. */
  lemma PrefixDropped(t: string)
    requires t != "" && Tight(t) && t[0] != '/'
    ensures Normalize("b///" + t) == Normalize(t)
  {
    hide TrimSpace, LastSlashes, SlashesAt;
    var s := "b///" + t;
    TrimTight(s);
    TrimTight(t);
    var k := LastSlashes(t, |t|);
    var p := if k.Some? then k.value + 4 else 1;
    PrefixSlashes(t, if k.Some? then k.value else 0);
    forall j | p < j < |s|
      ensures !SlashesAt(s, j)
    {
      PrefixSlashes(t, j);
    }
    LastIs(s, p);
    assert s[p + 3..] == if k.Some? then t[k.value + 3..] else t;
  }

  /** A Call-ID that stays on its line, has no space around it and does not begin with a slash. */
  ghost predicate CleanName(v: Bytes)
  {
    OneLine(v) && v != [] && Tight(TextOf(v)) && v[0] != 47
  }

  /** The name of the mailbox for a Call-ID line with this text. */
  function MailboxOf(v: Bytes): string
  {
    Normalize(TrimSpace(TextOf(v)))
  }

  const PREFIX: Bytes := [98, 47, 47, 47]   // "b///"

  lemma SpaceDropped(c: Byte, v: Bytes)
    requires IsSpace(c as char)
    ensures TrimSpace(TextOf([c] + v)) == TrimSpace(TextOf(v))
  {
    var s := TextOf([c] + v);
    assert s[1..] == TextOf(v);
  }

  /** Every such Call-ID, plain and with a prefix, names one mailbox and hashes to two shards. */
  lemma SpellingsSplit(v: Bytes)
    requires CleanName(v)
    ensures var a, b := [32] + v, [32] + (PREFIX + v);
            && OneLine(a) && OneLine(b) && MailboxOf(a) == MailboxOf(b)
            && ShardOf(MessageWith(a), 2) != ShardOf(MessageWith(b), 2)
  {
    hide TrimSpace, Normalize, ShardOf, Sum, MessageWith, TextOf;
    var a, w := [32] + v, PREFIX + v;
    var b := [32] + w;
    PrefixMailbox(v);
    assert forall x :: x in a ==> x == 32 || x in v;
    assert forall x :: x in b ==> x == 32 || x in PREFIX || x in v;
    MessageShard(a);
    MessageShard(b);
    SumOf([32], v);
    SumOf([32], w);
    SumOf(PREFIX, v);
    PrefixSum();
  }

  lemma PrefixMailbox(v: Bytes)
    requires CleanName(v)
    ensures MailboxOf([32] + v) == MailboxOf([32] + (PREFIX + v)) == Normalize(TextOf(v))
  {
    hide TrimSpace, Normalize;
    var w, t := PREFIX + v, TextOf(v);
    SpaceDropped(32, v);
    SpaceDropped(32, w);
    assert TextOf(w) == "b///" + t;
    TrimTight(t);
    TrimTight("b///" + t);
    PrefixDropped(t);
  }

  lemma PrefixSum()
    ensures Sum(PREFIX) == 239
  {
    assert PREFIX[1..] == [47, 47, 47] && [47, 47, 47][1..] == [47, 47] && [47, 47][1..] == [47] && [47][1..] == [];
    assert Sum([47, 47]) == 94;
  }

  /** The same with byte-equal Call-IDs: a tab before the value is not part of it, but is hashed. */
  lemma SpacesSplit(v: Bytes)
    requires OneLine(v)
    ensures var b := [9] + v;
            && OneLine(b) && TrimSpace(TextOf(b)) == TrimSpace(TextOf(v))
            && ShardOf(MessageWith(v), 2) != ShardOf(MessageWith(b), 2)
  {
    hide TrimSpace, ShardOf, Sum, MessageWith;
    var b := [9] + v;
    SpaceDropped(9, v);
    assert forall x :: x in b ==> x == 9 || x in v;
    MessageShard(v);
    MessageShard(b);
    SumOf([9], v);
    assert Sum([9]) == 9 by { OneSum(9); }
  }

  lemma OneSum(c: Byte)
    ensures Sum([c]) == c
  {
    assert [c][1..] == [];
  }
}
