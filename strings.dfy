/** The few string operations the source borrows from JavaScript's String. */
module Strings {

  /** `s.split(sep)[0]`: the part of `s` before the first `sep`. */
  function BeforeFirst(s: string, sep: char): (r: string)
    ensures r <= s
    ensures sep !in r
    ensures |r| < |s| ==> s[|r|] == sep
  {
    if |s| == 0 then ""
    else if s[0] == sep then ""
    else [s[0]] + BeforeFirst(s[1..], sep)
  }

  /** `s.startsWith(t)` */
  predicate StartsWith(s: string, t: string) {
    t <= s
  }

  /** `s.endsWith(t)` */
  predicate EndsWith(s: string, t: string) {
    |t| <= |s| && s[|s| - |t|..] == t
  }

  /** `t` occurs in `s` starting at index `i`. */
  predicate OccursAt(s: string, t: string, i: nat) {
    i + |t| <= |s| && forall j :: 0 <= j < |t| ==> s[i + j] == t[j]
  }

  /** `s.includes(t)`: `t` occurs at some offset of `s`. */
  function Contains(s: string, t: string): (r: bool)
    ensures r <==> exists i: nat :: i <= |s| && OccursAt(s, t, i)
  {
    ContainsFrom(s, t, 0)
  }

  /** `t` occurs at some offset of `s` from `i` on. */
  function ContainsFrom(s: string, t: string, i: nat): (r: bool)
    requires i <= |s|
    ensures r <==> exists k: nat :: i <= k <= |s| && OccursAt(s, t, k)
    decreases |s| - i
  {
    if OccursAt(s, t, i) then true
    else if i == |s| then false
    else ContainsFrom(s, t, i + 1)
  }

  /** ASCII lower case of one character (`toLowerCase` on the letters the source compares). */
  function LowerChar(c: char): (r: char)
    ensures 'A' <= c <= 'Z' ==> 'a' <= r <= 'z'
    ensures !('A' <= c <= 'Z') ==> r == c
  {
    if 'A' <= c <= 'Z' then (c as int - 'A' as int + 'a' as int) as char else c
  }

  function ToLower(s: string): (r: string)
    ensures |r| == |s|
    ensures forall i :: 0 <= i < |s| ==> r[i] == LowerChar(s[i])
  {
    if |s| == 0 then "" else [LowerChar(s[0])] + ToLower(s[1..])
  }
}
