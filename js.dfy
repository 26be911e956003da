/** JavaScript values and string operations with the semantics the interface code relies on. */
module Js {

  datatype Option<+T> = None | Some(value: T)

  /** A JavaScript number: either NaN or a finite value (rounding is not modelled). */
  datatype Num = NaN | Real(value: real)

  /** `a < b` on numbers: false as soon as either side is NaN. */
  predicate Less(a: Num, b: Num) {
    a.Real? && b.Real? && a.value < b.value
  }

  /** Truthiness of a number: 0 and NaN are falsy. */
  predicate NumTruthy(n: Num) {
    n.Real? && n.value != 0.0
  }

  /** `x || fallback` on strings: the empty string is falsy. */
  function OrElse(x: string, fallback: string): (r: string)
    ensures x != "" ==> r == x
    ensures x == "" ==> r == fallback
  {
    if x != "" then x else fallback
  }

  predicate StartsWith(s: string, prefix: string) {
    |prefix| <= |s| && s[..|prefix|] == prefix
  }

  /** `s.includes(sub)`. */
  predicate Contains(s: string, sub: string)
    decreases |s|
  {
    StartsWith(s, sub) || (|s| > 0 && Contains(s[1..], sub))
  }

  /** A string that does not hold the first character of `sub` does not contain `sub`. */
  lemma {:induction false} NotContainsWithoutFirstChar(s: string, sub: string)
    requires |sub| > 0 && sub[0] !in s
    ensures !Contains(s, sub)
    decreases |s|
  {
    if |sub| <= |s| {
      assert s[..|sub|][0] == s[0];
    }
    if |s| > 0 {
      assert forall c :: c in s[1..] ==> c in s;
      NotContainsWithoutFirstChar(s[1..], sub);
    }
  }

  /** A position in `s` given as a JavaScript slice index: negative values count from the end; the
      result is clamped to `0..|s|`. */
  function SliceIndex(s: string, i: int): (r: nat)
    ensures r <= |s|
    ensures 0 <= i <= |s| ==> r == i
    ensures i < 0 && -i <= |s| ==> r == |s| + i
  {
    if i < 0 then (if |s| + i < 0 then 0 else |s| + i)
    else if i > |s| then |s| else i
  }

  /** `s.slice(start, end)`. */
  function Slice(s: string, start: int, end: int): (r: string)
    ensures |r| <= |s|
    ensures SliceIndex(s, start) <= SliceIndex(s, end) ==> r == s[SliceIndex(s, start)..SliceIndex(s, end)]
    ensures SliceIndex(s, start) > SliceIndex(s, end) ==> r == ""
  {
    var b, e := SliceIndex(s, start), SliceIndex(s, end);
    if b <= e then s[b..e] else ""
  }

  /** `s.slice(start)`. */
  function SliceFrom(s: string, start: int): (r: string)
    ensures r == s[SliceIndex(s, start)..]
  {
    Slice(s, start, |s|)
  }

  function LowerChar(c: char): char {
    if 'A' <= c <= 'Z' then (c as int + 32) as char else c
  }

  /** `s.toLowerCase()` on the ASCII letters (the only letters an address holds). */
  function Lower(s: string): (r: string)
    ensures |r| == |s|
    ensures forall i :: 0 <= i < |s| ==> r[i] == LowerChar(s[i])
  {
    if s == [] then [] else [LowerChar(s[0])] + Lower(s[1..])
  }

  /** Number of occurrences of `x` in `s`. */
  function CountOf<X(==)>(s: seq<X>, x: X): nat {
    if s == [] then 0 else (if s[0] == x then 1 else 0) + CountOf(s[1..], x)
  }

  lemma {:induction false} CountOfConcat<X>(a: seq<X>, b: seq<X>, x: X)
    ensures CountOf(a + b, x) == CountOf(a, x) + CountOf(b, x)
  {
    if a != [] {
      assert (a + b)[1..] == a[1..] + b;
      CountOfConcat(a[1..], b, x);
    } else {
      assert a + b == b;
    }
  }

  lemma {:induction false} CountOfAbsent<X>(s: seq<X>, x: X)
    ensures x !in s <==> CountOf(s, x) == 0
  {
    if s != [] {
      CountOfAbsent(s[1..], x);
      assert s == [s[0]] + s[1..];
    }
  }
}
