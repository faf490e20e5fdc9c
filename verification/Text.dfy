/**
 * The `strings` functions the gateway uses, on code points. Upper-casing touches the characters
 * whose upper case is an ASCII letter; all others are only ever compared with ASCII patterns.
 */
module Text {

  predicate IsSpace(c: char) {
    var n := c as int;
    || 9 <= n <= 13 || n == 32 || n == 0x85 || n == 0xA0 || n == 0x1680
    || 0x2000 <= n <= 0x200a || n == 0x2028 || n == 0x2029 || n == 0x202f || n == 0x205f || n == 0x3000
  }

  function Upper(c: char): char {
    var n := c as int;
    if 'a' <= c <= 'z' then (n - 32) as char
    else if n == 0x131 then 'I'
    else if n == 0x17f then 'S'
    else c
  }

  function ToUpper(s: string): (r: string)
    ensures |r| == |s| && forall i | 0 <= i < |s| :: r[i] == Upper(s[i])
  {
    if s == "" then "" else [Upper(s[0])] + ToUpper(s[1..])
  }

  function TrimLeft(s: string): string {
    if s != "" && IsSpace(s[0]) then TrimLeft(s[1..]) else s
  }

  function TrimRight(s: string): string {
    if s != "" && IsSpace(s[|s| - 1]) then TrimRight(s[..|s| - 1]) else s
  }

  function TrimSpace(s: string): string { TrimRight(TrimLeft(s)) }

  function TrimSuffix(s: string, suffix: string): string {
    if |suffix| <= |s| && s[|s| - |suffix|..] == suffix then s[..|s| - |suffix|] else s
  }

  function TrimPrefix(s: string, prefix: string): string {
    if prefix <= s then s[|prefix|..] else s
  }

  /** `strings.Trim` with a one-character cutset. */
  function TrimAll(s: string, c: char): string
    decreases |s|
  {
    if s != "" && s[0] == c then TrimAll(s[1..], c)
    else if s != "" && s[|s| - 1] == c then TrimAll(s[..|s| - 1], c)
    else s
  }

  /** The first index at which `t` occurs in `s`, or -1. */
  function Find(s: string, t: string): (r: int)
    ensures -1 <= r && (r >= 0 ==> r + |t| <= |s| && s[r..r + |t|] == t)
  {
    if t <= s then 0
    else if s == "" then -1
    else var r := Find(s[1..], t); if r < 0 then -1 else r + 1
  }

  predicate Contains(s: string, t: string) { Find(s, t) >= 0 }

  /** The length of the leading run of non-space characters. */
  function WordLength(s: string): (n: nat)
    ensures n <= |s| && (s != "" && !IsSpace(s[0]) ==> n > 0)
    ensures forall i | 0 <= i < n :: !IsSpace(s[i])
    ensures n < |s| ==> IsSpace(s[n])
  {
    if s == "" || IsSpace(s[0]) then 0 else 1 + WordLength(s[1..])
  }

  lemma TrimLeftFacts(s: string)
    ensures |TrimLeft(s)| <= |s| && TrimLeft(s) == s[|s| - |TrimLeft(s)|..]
    ensures TrimLeft(s) != "" ==> !IsSpace(TrimLeft(s)[0])
  {
  }

  lemma TrimRightFacts(s: string)
    ensures |TrimRight(s)| <= |s| && TrimRight(s) == s[..|TrimRight(s)|]
    ensures TrimRight(s) != "" ==> !IsSpace(TrimRight(s)[|TrimRight(s)| - 1])
    ensures forall i | |TrimRight(s)| <= i < |s| :: IsSpace(s[i])
  {
  }

  function Fields(s: string): seq<string>
    decreases |s|
  {
    TrimLeftFacts(s);
    var t := TrimLeft(s);
    if t == "" then [] else
    var n := WordLength(t);
    [t[..n]] + Fields(t[n..])
  }

  function Join(fields: seq<string>, separator: string): string {
    if fields == [] then ""
    else if |fields| == 1 then fields[0]
    else fields[0] + separator + Join(fields[1..], separator)
  }
}
