/** Small facts about sequences used as ordered column lists and symptom lists. */
module Seqs {

  /** No element occurs twice (pandas column labels read from a header are unique). */
  predicate Distinct<T(==)>(s: seq<T>)
  {
    forall i, j :: 0 <= i < j < |s| ==> s[i] != s[j]
  }

  /** Python's list.index: the position of the first occurrence of x. */
  function IndexOf<T(==)>(s: seq<T>, x: T): (i: nat)
    requires x in s
    ensures i < |s| && s[i] == x && x !in s[..i]
  {
    if s[0] == x then 0 else 1 + IndexOf(s[1..], x)
  }

  /** Every element of s except x, in the order of s. */
  function Without<T(==)>(s: seq<T>, x: T): (r: seq<T>)
    ensures forall i :: 0 <= i < |r| ==> r[i] in s && r[i] != x
    ensures forall i :: 0 <= i < |s| && s[i] != x ==> s[i] in r
    ensures x !in s ==> r == s
  {
    if s == [] then []
    else if s[0] == x then Without(s[1..], x)
    else [s[0]] + Without(s[1..], x)
  }

  /** Removing a value that occurs once is cutting out its one position: nothing else goes and the order stays. */
  lemma {:induction false} WithoutSplice<T>(s: seq<T>, x: T)
    requires Distinct(s) && x in s
    ensures Without(s, x) == s[..IndexOf(s, x)] + s[IndexOf(s, x) + 1..]
    decreases |s|
  {
    if s[0] != x {
      var t := s[1..];
      assert Distinct(t);
      assert x in t;
      WithoutSplice(t, x);
      var k := IndexOf(t, x);
      assert IndexOf(s, x) == k + 1;
      assert Without(s, x) == [s[0]] + Without(t, x);
      ConsSplice(s, k + 1);
    } else {
      assert x !in s[1..];
    }
  }

  /** Cutting position p out of s, seen from the tail of s. */
  lemma ConsSplice<T>(s: seq<T>, p: nat)
    requires 0 < p < |s|
    ensures [s[0]] + (s[1..][..p - 1] + s[1..][p..]) == s[..p] + s[p + 1..]
  {
    assert s[..p] == [s[0]] + s[1..][..p - 1];
  }

  /** Dropping a value keeps a sequence free of repetitions. */
  lemma {:induction false} WithoutDistinct<T>(s: seq<T>, x: T)
    requires Distinct(s)
    ensures Distinct(Without(s, x))
    decreases |s|
  {
    if s != [] {
      assert Distinct(s[1..]);
      WithoutDistinct(s[1..], x);
      assert s[0] !in s[1..];
    }
  }
}
