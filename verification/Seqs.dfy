/** Rearrangements of sequences that proofs need by name. */
module Seqs {

  /** `s` enumerates the set, in some order, each element once. */
  ghost predicate Lists<T(!new)>(s: seq<T>, elements: set<T>) {
    && (forall x :: x in s <==> x in elements)
    && (forall i, j :: 0 <= i < j < |s| ==> s[i] != s[j])
  }

  lemma ListsTogether<T(!new)>(s: seq<T>, t: seq<T>, left: set<T>, right: set<T>)
    requires Lists(s, left) && Lists(t, right) && left !! right
    ensures Lists(s + t, left + right)
  {
    forall i, j | 0 <= i < j < |s + t| ensures (s + t)[i] != (s + t)[j] {
      if i < |s| <= j { assert (s + t)[i] in left && (s + t)[j] in right; }
    }
  }

  /** Where `x` first is in `s`; the length if it is nowhere. */
  function FirstAt<T(==)>(s: seq<T>, x: T): (n: nat)
    ensures n <= |s| && (n < |s| ==> s[n] == x) && forall i :: 0 <= i < n ==> s[i] != x
  {
    if s == [] || s[0] == x then 0 else 1 + FirstAt(s[1..], x)
  }

  lemma Associate<T>(a: seq<T>, b: seq<T>, c: seq<T>)
    ensures a + (b + c) == a + b + c
  {}

  /** A non-empty sequence and its head, also under concatenation. */
  lemma HeadFirst<T>(a: seq<T>, b: seq<T>)
    requires a != []
    ensures a == [a[0]] + a[1..] && a + b == [a[0]] + (a[1..] + b)
  {}

  lemma EmptyFront<T>(a: seq<T>)
    ensures [] + a == a && a + [] == a
  {}

  lemma TakeAll<T>(a: seq<T>)
    ensures a[..|a|] == a && a[..0] == [] && a[0..] == a && a[|a|..] == []
  {}

  lemma SplitLast<T>(s: seq<T>)
    requires s != []
    ensures s == s[..|s| - 1] + [s[|s| - 1]]
  {}

  lemma SplitHead<T>(s: seq<T>, index: nat)
    requires 0 < index <= |s|
    ensures s[..index] == [s[0]] + s[1..][..index - 1] && s[index..] == s[1..][index - 1..]
  {}

  lemma UpdateBehind<T>(s: seq<T>, k: nat, x: T)
    requires k < |s|
    ensures k == 0 ==> s[k := x] == [x] + s[1..]
    ensures k > 0 ==> s[k := x] == [s[0]] + s[1..][k - 1 := x]
  {}

  lemma StepThrough<T>(s: seq<T>, i: nat)
    requires i < |s|
    ensures s[..i] + [s[i]] == s[..i + 1] && s[i..][1..] == s[i + 1..] && s[i..] == [s[i]] + s[i + 1..]
  {}
}
