/** Counting the elements of a listing that satisfy a predicate; used for accounting over
    workers and over pushes. */
module Counting {

  function Count<T>(s: seq<T>, q: T -> bool): nat {
    if s == [] then 0 else Count(s[1..], q) + (if q(s[0]) then 1 else 0)
  }

  lemma {:induction false} CountAfterUpdate<T>(s: seq<T>, w: nat, x: T, q: T -> bool)
    requires w < |s|
    ensures Count(s[w := x], q) + (if q(s[w]) then 1 else 0) == Count(s, q) + (if q(x) then 1 else 0)
  {
    if w == 0 {
      assert s[w := x][1..] == s[1..];
    } else {
      CountAfterUpdate(s[1..], w - 1, x, q);
      assert s[w := x][1..] == s[1..][w - 1 := x];
    }
  }

  lemma {:induction false} CountZero<T>(s: seq<T>, q: T -> bool)
    ensures Count(s, q) == 0 <==> forall w | 0 <= w < |s| :: !q(s[w])
  {
    if s != [] {
      CountZero(s[1..], q);
      assert forall w | 0 < w < |s| :: s[w] == s[1..][w - 1];
    }
  }

  lemma {:induction false} CountBound<T>(s: seq<T>, q: T -> bool)
    ensures Count(s, q) <= |s|
  {
    if s != [] { CountBound(s[1..], q); }
  }

  lemma {:induction false} CountMonotone<T>(s: seq<T>, q: T -> bool, r: T -> bool)
    requires forall x :: q(x) ==> r(x)
    ensures Count(s, q) <= Count(s, r)
  {
    if s != [] {
      CountMonotone(s[1..], q, r);
    }
  }

  lemma {:induction false} TwoHolders<T>(s: seq<T>, q: T -> bool, v: nat, w: nat)
    requires v < w < |s| && q(s[v]) && q(s[w])
    ensures Count(s, q) >= 2
  {
    if v == 0 {
      assert s[1..][w - 1] == s[w];
      CountZero(s[1..], q);
    } else {
      TwoHolders(s[1..], q, v - 1, w - 1);
    }
  }
}
