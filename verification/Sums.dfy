/** Sums over a sequence: the counting tool of the conservation laws. */
module Sums {
  import opened Sequences

  function Total<T>(s: seq<T>, f: T -> nat): nat {
    if s == [] then 0 else f(s[0]) + Total(s[1..], f)
  }

  lemma {:induction false} TotalConcat<T>(a: seq<T>, b: seq<T>, f: T -> nat)
    ensures Total(a + b, f) == Total(a, f) + Total(b, f)
  {
    if a == [] {
      assert a + b == b;
    } else {
      TotalConcat(a[1..], b, f);
      assert (a + b)[1..] == a[1..] + b;
    }
  }

  lemma TotalAppend<T>(s: seq<T>, x: T, f: T -> nat)
    ensures Total(s + [x], f) == Total(s, f) + f(x)
  {
    TotalConcat(s, [x], f);
    assert Total([x], f) == f(x) + Total([x][1..], f);
  }

  lemma TotalSplit<T>(s: seq<T>, i: nat, f: T -> nat)
    requires i < |s|
    ensures Total(s, f) == Total(s[..i], f) + f(s[i]) + Total(s[i + 1..], f)
  {
    assert s == s[..i] + ([s[i]] + s[i + 1..]);
    TotalConcat(s[..i], [s[i]] + s[i + 1..], f);
    assert ([s[i]] + s[i + 1..])[1..] == s[i + 1..];
  }

  lemma TotalUpdate<T>(s: seq<T>, i: nat, x: T, f: T -> nat)
    requires i < |s|
    ensures Total(s[i := x], f) + f(s[i]) == Total(s, f) + f(x)
  {
    TotalSplit(s, i, f);
    TotalSplit(s[i := x], i, f);
    assert s[i := x][..i] == s[..i] && s[i := x][i + 1..] == s[i + 1..];
  }

  lemma TotalWithout<T>(s: seq<T>, i: nat, f: T -> nat)
    requires i < |s|
    ensures Total(Without(s, i), f) + f(s[i]) == Total(s, f)
  {
    TotalSplit(s, i, f);
    TotalConcat(s[..i], s[i + 1..], f);
  }

  lemma TotalOfMember<T>(s: seq<T>, i: nat, f: T -> nat)
    requires i < |s|
    ensures f(s[i]) <= Total(s, f)
  {
    TotalSplit(s, i, f);
  }

  /** A positive sum has a positive term. */
  lemma PositiveMember<T>(s: seq<T>, f: T -> nat) returns (i: nat)
    requires Total(s, f) > 0
    ensures i < |s| && f(s[i]) > 0
  {
    if f(s[0]) > 0 {
      i := 0;
    } else {
      var j := PositiveMember(s[1..], f);
      i := j + 1;
    }
  }

  /** Two positive terms at different places add up. */
  lemma TotalOfTwo<T>(s: seq<T>, i: nat, j: nat, f: T -> nat)
    requires i < j < |s|
    ensures f(s[i]) + f(s[j]) <= Total(s, f)
  {
    TotalSplit(s, j, f);
    TotalOfMember(s[..j], i, f);
  }
}
