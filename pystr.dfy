/**
  The few Python string operations the core uses, on ASCII: `str.rfind`,
  `str.find`, `str.replace` with one-character arguments, `str.capitalize`
  and `str.split(sep, 1)` unpacked into two names.  Characters outside ASCII
  are left unchanged by the case operations (no Unicode case mapping).
*/
module PyStr {
  import opened Wrappers

  /** `s.rfind(c)`: the index of the last `c` in `s`, or -1. */
  function RFind(s: string, c: char): (i: int)
    ensures -1 <= i < |s|
    ensures 0 <= i ==> s[i] == c
    ensures forall k :: i < k < |s| ==> s[k] != c
  {
    if s == [] then -1
    else if s[|s| - 1] == c then |s| - 1
    else RFind(s[..|s| - 1], c)
  }

  /** `s.find(c)`: the index of the first `c` in `s`, or -1. */
  function Find(s: string, c: char): (i: int)
    ensures -1 <= i < |s|
    ensures 0 <= i ==> s[i] == c
    ensures forall k :: 0 <= k < |s| && (i < 0 || k < i) ==> s[k] != c
  {
    if s == [] then -1
    else if s[0] == c then 0
    else
      var j := Find(s[1..], c);
      if j < 0 then -1 else j + 1
  }

  /** The position of `c` is determined by what precedes and follows it. */
  lemma {:induction false} RFindAfter(s: string, c: char, t: string)
    requires c !in t
    ensures RFind(s + [c] + t, c) == |s|
  {
    var u := s + [c] + t;
    var i := RFind(u, c);
    assert u[|s|] == c;
    assert forall k :: |s| < k < |u| ==> u[k] == t[k - |s| - 1];
  }

  predicate IsAsciiUpper(c: char) { 'A' <= c <= 'Z' }

  predicate IsAsciiLower(c: char) { 'a' <= c <= 'z' }

  /** The ASCII lower-case form of `c`. */
  function Lower(c: char): (l: char)
    ensures !IsAsciiUpper(l)
    ensures l == c <==> !IsAsciiUpper(c)
    ensures IsAsciiUpper(c) ==> IsAsciiLower(l)
  {
    if IsAsciiUpper(c) then (c as int + 32) as char else c
  }

  /** The ASCII upper-case form of `c`. */
  function Upper(c: char): (u: char)
    ensures !IsAsciiLower(u)
    ensures u == c <==> !IsAsciiLower(c)
    ensures Lower(u) == Lower(c)
  {
    if IsAsciiLower(c) then (c as int - 32) as char else c
  }

  /** No lower-case letter first, no upper-case letter after it. */
  predicate IsCapitalized(s: string)
  {
    (|s| > 0 ==> !IsAsciiLower(s[0])) &&
    forall k :: 0 < k < |s| ==> !IsAsciiUpper(s[k])
  }

  /** `s` and `t` spell the same text up to ASCII case. */
  predicate SameIgnoringCase(s: string, t: string)
  {
    |s| == |t| && forall k :: 0 <= k < |s| ==> Lower(s[k]) == Lower(t[k])
  }

  /** `s.capitalize()`: first character upper case, the rest lower case. */
  function Capitalize(s: string): (r: string)
    ensures IsCapitalized(r)
    ensures SameIgnoringCase(r, s)
  {
    if s == [] then []
    else [Upper(s[0])] + seq(|s| - 1, k requires 0 <= k < |s| - 1 => Lower(s[k + 1]))
  }

  /** `s.replace(a, b)` for one-character `a` and `b`. */
  function ReplaceChar(s: string, a: char, b: char): (r: string)
    ensures |r| == |s|
    ensures a != b ==> a !in r
    ensures forall k :: 0 <= k < |s| ==> r[k] == (if s[k] == a then b else s[k])
  {
    seq(|s|, k requires 0 <= k < |s| => if s[k] == a then b else s[k])
  }

  /**
    `first, rest = s.split(sep, 1)`: splits at the first `sep`; when `s` has
    none, the list has one element and the unpacking fails (None).
  */
  function SplitOnce(s: string, sep: char): (r: Option<(string, string)>)
    ensures r.Some? <==> sep in s
    ensures r.Some? ==> s == r.value.0 + [sep] + r.value.1 && sep !in r.value.0
  {
    var i := Find(s, sep);
    if i < 0 then None
    else
      assert s == s[..i] + [sep] + s[i + 1..];
      Some((s[..i], s[i + 1..]))
  }

  /** Splitting undoes the join at the first separator: `(a + sep + b).split(sep, 1) == [a, b]` when `a` has none. */
  lemma {:induction false} SplitOnceJoin(a: string, sep: char, b: string)
    requires sep !in a
    ensures SplitOnce(a + [sep] + b, sep) == Some((a, b))
  {
    var s := a + [sep] + b;
    assert s[|a|] == sep;
    assert forall k :: 0 <= k < |a| ==> s[k] == a[k];
    assert s[..|a|] == a && s[|a| + 1..] == b;
  }
}
