/** The few `java.lang.String` operations the theme utilities rely on,
    over `seq<char>`. Indices are `int` so that Java's `-1` for
    "not found" can be returned as it is. */
module JavaStrings {
  import opened Wrappers

  /** `sub` occurs in `s` starting at index `i`. */
  predicate OccursAt(s: string, sub: string, i: int) {
    0 <= i && i + |sub| <= |s| && s[i..i + |sub|] == sub
  }

  /** `s.contains(sub)` */
  predicate Contains(s: string, sub: string) {
    exists i | 0 <= i <= |s| - |sub| :: OccursAt(s, sub, i)
  }

  /** `s.startsWith(prefix)` */
  predicate StartsWith(s: string, prefix: string) {
    OccursAt(s, prefix, 0)
  }

  /** `s.lastIndexOf(sub)`: the largest index at which `sub` occurs, or -1. */
  function LastIndexOf(s: string, sub: string): (r: int)
    ensures r == -1 || OccursAt(s, sub, r)
    ensures r == -1 <==> !Contains(s, sub)
    ensures forall j :: r < j ==> !OccursAt(s, sub, j)
  {
    LastIndexAtOrBefore(s, sub, |s| - |sub|)
  }

  /** The largest index `i <= k` at which `sub` occurs in `s`, or -1. */
  function LastIndexAtOrBefore(s: string, sub: string, k: int): (r: int)
    ensures r == -1 || (0 <= r <= k && OccursAt(s, sub, r))
    ensures forall j :: r < j <= k ==> !OccursAt(s, sub, j)
    decreases k + 1
  {
    if k < 0 then -1
    else if OccursAt(s, sub, k) then k
    else LastIndexAtOrBefore(s, sub, k - 1)
  }

  /** `s.indexOf(c)`: the first index holding `c`, or -1. */
  function IndexOfChar(s: string, c: char): (r: int)
    ensures r == -1 <==> c !in s
    ensures r != -1 ==> 0 <= r < |s| && s[r] == c && c !in s[..r]
  {
    if s == [] then -1
    else if s[0] == c then 0
    else
      var r := IndexOfChar(s[1..], c);
      assert s[1..][..(if r == -1 then 0 else r)] == s[1..1 + (if r == -1 then 0 else r)];
      if r == -1 then -1 else r + 1
  }

  /** `s.split(c)[0]` for a character `c` that is not special in a regular
      expression. Java drops trailing empty strings from the split, so a
      non-empty `s` made only of `c` splits into an empty array and
      indexing it throws: that case is `None`. */
  function SplitHead(s: string, c: char): (r: Option<string>)
    ensures r.None? <==> |s| > 0 && forall k | 0 <= k < |s| :: s[k] == c
    ensures r.Some? ==> StartsWith(s, r.value) && c !in r.value
    ensures r.Some? && |r.value| < |s| ==> s[|r.value|] == c
  {
    if |s| > 0 && forall k | 0 <= k < |s| :: s[k] == c then None
    else
      var i := IndexOfChar(s, c);
      Some(if i == -1 then s else s[..i])
  }

  /** `Character.toLowerCase` restricted to ASCII letters. */
  function LowerChar(ch: char): char {
    if 'A' <= ch <= 'Z' then (ch as int + 32) as char else ch
  }

  /** `s.toLowerCase(Locale.US)` for ASCII text. */
  function Lower(s: string): (r: string)
    ensures |r| == |s|
    ensures forall i | 0 <= i < |s| :: r[i] == LowerChar(s[i])
    ensures forall i | 0 <= i < |s| :: !('A' <= r[i] <= 'Z')
  {
    seq(|s|, i requires 0 <= i < |s| => LowerChar(s[i]))
  }

  /** Lower-casing works character by character, so it distributes over
      concatenation. */
  lemma LowerAppend(a: string, b: string)
    ensures Lower(a + b) == Lower(a) + Lower(b)
  {
  }

  /** Lower-casing twice changes nothing more. */
  lemma LowerIdempotent(s: string)
    ensures Lower(Lower(s)) == Lower(s)
  {
  }

  /** Text found in a part of a string is found in the whole of it. */
  lemma {:induction false} ContainsInAppend(a: string, b: string, sub: string)
    requires Contains(a, sub) || Contains(b, sub)
    ensures Contains(a + b, sub)
  {
    if Contains(a, sub) {
      var i :| 0 <= i <= |a| - |sub| && OccursAt(a, sub, i);
      assert (a + b)[i..i + |sub|] == a[i..i + |sub|];
      assert OccursAt(a + b, sub, i);
    } else {
      var i :| 0 <= i <= |b| - |sub| && OccursAt(b, sub, i);
      assert (a + b)[|a| + i..|a| + i + |sub|] == b[i..i + |sub|];
      assert OccursAt(a + b, sub, |a| + i);
    }
  }
}
