/** Order-preserving duplicate removal, list(dict.fromkeys(s)). */
module Sequences {
  ghost predicate Distinct<T>(s: seq<T>) {
    forall i, j :: 0 <= i < j < |s| ==> s[i] != s[j]
  }

  // The first occurrence of every element, in order.
  function FirstSeen<T(==, !new)>(s: seq<T>): (r: seq<T>)
    ensures forall x :: x in r <==> x in s
    ensures Distinct(r)
  {
    if s == [] then []
    else
      var r := FirstSeen(s[..|s| - 1]);
      if s[|s| - 1] in r then r else r + [s[|s| - 1]]
  }

  lemma FirstSeenStep<T(!new)>(s: seq<T>, x: T)
    ensures FirstSeen(s + [x]) == if x in FirstSeen(s) then FirstSeen(s) else FirstSeen(s) + [x]
  {
    assert (s + [x])[..|s|] == s;
  }

  lemma {:induction false} FirstSeenPrefix<T(!new)>(s: seq<T>, u: seq<T>)
    ensures FirstSeen(s) <= FirstSeen(s + u)
    decreases |u|
  {
    if u == [] {
      assert s + u == s;
    } else {
      var v := u[..|u| - 1];
      assert s + u == (s + v) + [u[|u| - 1]];
      FirstSeenStep(s + v, u[|u| - 1]);
      FirstSeenPrefix(s, v);
    }
  }

  lemma {:induction false} FirstSeenOfDistinct<T(!new)>(s: seq<T>)
    requires Distinct(s)
    ensures FirstSeen(s) == s
    decreases |s|
  {
    if s != [] {
      var n := |s| - 1;
      FirstSeenOfDistinct(s[..n]);
      assert s == s[..n] + [s[n]];
      FirstSeenStep(s[..n], s[n]);
    }
  }

  // How many elements of u are not in s.
  function CountNew<T(==)>(s: seq<T>, u: seq<T>): (n: nat)
    ensures n <= |u|
  {
    if u == [] then 0 else CountNew(s, u[..|u| - 1]) + if u[|u| - 1] in s then 0 else 1
  }

  // Appending distinct elements to a duplicate-free list adds the new ones only.
  lemma {:induction false} FirstSeenLength<T(!new)>(s: seq<T>, u: seq<T>)
    requires Distinct(s) && Distinct(u)
    ensures |FirstSeen(s + u)| == |s| + CountNew(s, u)
    decreases |u|
  {
    if u == [] {
      assert s + u == s;
      FirstSeenOfDistinct(s);
    } else {
      var n := |u| - 1;
      FirstSeenLength(s, u[..n]);
      assert s + u == (s + u[..n]) + [u[n]];
      FirstSeenStep(s + u[..n], u[n]);
      assert u[n] in FirstSeen(s + u[..n]) <==> u[n] in s;
    }
  }
}
