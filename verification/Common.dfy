/** Types and small sequence facts shared by the models. */
module Common {

  datatype Option<+T> = None | Some(value: T)

  type Byte = b: int | 0 <= b < 256

  type Bytes = seq<Byte>

  /** Lower-case form of one ASCII character. */
  function LowerChar(c: char): char
  {
    if 'A' <= c <= 'Z' then (c as int + 32) as char else c
  }

  function Lower(s: string): (r: string)
    ensures |r| == |s|
    ensures forall i :: 0 <= i < |s| ==> r[i] == LowerChar(s[i])
  {
    if s == "" then "" else [LowerChar(s[0])] + Lower(s[1..])
  }

  /** strings.EqualFold on ASCII text. */
  predicate EqualFold(a: string, b: string)
  {
    Lower(a) == Lower(b)
  }

  /** The sequence without its element at position i. */
  function Without<T>(p: seq<T>, i: nat): (r: seq<T>)
    requires i < |p|
    ensures |r| == |p| - 1
    ensures r == p[..i] + p[i + 1..]
    ensures multiset(r) + multiset{p[i]} == multiset(p)
    ensures forall x :: x in r ==> x in p
  {
    assert p == p[..i] + [p[i]] + p[i + 1..];
    p[..i] + p[i + 1..]
  }
}
