/** `Collections.sort` on a `List<String>`: natural (`compareTo`) order,
    duplicates kept. The model sorts by insertion; because the order on
    strings is total and antisymmetric there is exactly one sorted
    permutation of a list, so any correct sort (the JDK's merge sort
    included) yields the same list. */
module StringSort {
  import opened JavaStrings

  predicate Le(a: string, b: string)
  {
    CompareStrings(a, b) <= 0
  }

  predicate Sorted(s: seq<string>)
  {
    forall i, j :: 0 <= i < j < |s| ==> Le(s[i], s[j])
  }

  /** Every element of `s` is at least `x`. */
  predicate AllAtLeast(x: string, s: seq<string>)
  {
    forall i :: 0 <= i < |s| ==> Le(x, s[i])
  }

  lemma LeReflexive(a: string)
    ensures Le(a, a)
  {
    CompareZeroIffEqual(a, a);
  }

  lemma LeTotal(a: string, b: string)
    ensures Le(a, b) || Le(b, a)
  {
    CompareAntisymmetric(a, b);
  }

  lemma LeAntisymmetric(a: string, b: string)
    requires Le(a, b) && Le(b, a)
    ensures a == b
  {
    CompareAntisymmetric(a, b);
    CompareZeroIffEqual(a, b);
  }

  lemma AllAtLeastPermutation(x: string, s: seq<string>, t: seq<string>)
    requires AllAtLeast(x, s) && multiset(s) == multiset(t)
    ensures AllAtLeast(x, t)
  {
    forall i | 0 <= i < |t|
      ensures Le(x, t[i])
    {
      assert t[i] in multiset(s);
      var j :| 0 <= j < |s| && s[j] == t[i];
    }
  }

  /** Inserts `x` before the first element it does not exceed. */
  function Insert(x: string, s: seq<string>): (r: seq<string>)
    requires Sorted(s)
    ensures Sorted(r)
    ensures multiset(r) == multiset(s) + multiset{x}
  {
    if |s| == 0 then [x]
    else if Le(x, s[0]) then
      assert AllAtLeast(x, s) by {
        forall i | 0 <= i < |s| ensures Le(x, s[i]) {
          if i > 0 { CompareTransitive(x, s[0], s[i]); }
        }
      }
      [x] + s
    else
      var rest := Insert(x, s[1..]);
      assert AllAtLeast(s[0], rest) by {
        LeTotal(x, s[0]);
        assert AllAtLeast(s[0], s[1..] + [x]);
        assert multiset(s[1..] + [x]) == multiset(rest);
        AllAtLeastPermutation(s[0], s[1..] + [x], rest);
      }
      assert s == [s[0]] + s[1..];
      [s[0]] + rest
  }

  function Sort(s: seq<string>): (r: seq<string>)
    ensures Sorted(r)
    ensures multiset(r) == multiset(s)
  {
    if |s| == 0 then []
    else
      assert s == [s[0]] + s[1..];
      Insert(s[0], Sort(s[1..]))
  }

  /** Two non-empty sorted permutations of each other start alike: each
      head occurs in the other list, so each is at most the other. */
  lemma SortedPermutationHeads(a: seq<string>, b: seq<string>)
    requires Sorted(a) && Sorted(b) && multiset(a) == multiset(b) && 0 < |a|
    ensures 0 < |b| && a[0] == b[0]
  {
    assert a[0] in multiset(b);
    assert b[0] in multiset(a);
    var j :| 0 <= j < |b| && b[j] == a[0];
    var i :| 0 <= i < |a| && a[i] == b[0];
    if j == 0 { LeReflexive(a[0]); }
    if i == 0 { LeReflexive(b[0]); }
    LeAntisymmetric(a[0], b[0]);
  }

  lemma TailMultiset(a: seq<string>)
    requires 0 < |a|
    ensures multiset(a[1..]) == multiset(a) - multiset{a[0]}
  {
    assert a == [a[0]] + a[1..];
  }

  /** Two sorted lists holding the same strings the same number of times
      are the same list. */
  lemma {:induction false} SortedPermutationUnique(a: seq<string>, b: seq<string>)
    requires Sorted(a) && Sorted(b) && multiset(a) == multiset(b)
    ensures a == b
  {
    if |a| == 0 {
      assert |multiset(b)| == 0;
    } else {
      SortedPermutationHeads(a, b);
      TailMultiset(a);
      TailMultiset(b);
      SortedPermutationUnique(a[1..], b[1..]);
      assert a == [a[0]] + a[1..] && b == [b[0]] + b[1..];
    }
  }

  /** Sorting an already sorted list changes nothing. */
  lemma SortOfSorted(s: seq<string>)
    requires Sorted(s)
    ensures Sort(s) == s
  {
    SortedPermutationUnique(Sort(s), s);
  }

  /** The sorted list depends only on which strings occur how often. */
  lemma SortOfPermutation(s: seq<string>, t: seq<string>)
    requires multiset(s) == multiset(t)
    ensures Sort(s) == Sort(t)
  {
    SortedPermutationUnique(Sort(s), Sort(t));
  }
}
