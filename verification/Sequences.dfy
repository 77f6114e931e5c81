/** Where something first occurs. */
module Sequences {

  /** The first occurrence of x; the length if there is none. */
  function FirstAt<T(==)>(s: seq<T>, x: T): (n: nat)
    ensures n <= |s| && (n < |s| ==> s[n] == x) && (n == |s| <==> x !in s)
    ensures forall i | 0 <= i < n :: s[i] != x
  {
    if s == [] || s[0] == x then 0 else 1 + FirstAt(s[1..], x)
  }

  lemma FirstAtSnoc<T>(s: seq<T>, last: T, x: T)
    ensures FirstAt(s + [last], x) == if x in s then FirstAt(s, x) else if x == last then |s| else |s| + 1
  {
    var n := FirstAt(s + [last], x);
    assert n < |s| ==> (s + [last])[n] == s[n];
    assert x in s ==> (s + [last])[FirstAt(s, x)] == x;
    assert (s + [last])[|s|] == last;
  }
}
