/**
 The lexicographic order on strings, sortedness, and the in-place insertion sort the
 payments command uses. A sorted list is determined by its multiset, so sorting forgets
 the order its input came in.
 */
module StringOrder {

  predicate Le(a: string, b: string) {
    a == "" || (b != "" && (a[0] < b[0] || (a[0] == b[0] && Le(a[1..], b[1..]))))
  }

  lemma {:induction false} LeReflexive(a: string)
    ensures Le(a, a)
  {
    if a != "" {
      LeReflexive(a[1..]);
    }
  }

  lemma {:induction false} LeTotal(a: string, b: string)
    ensures Le(a, b) || Le(b, a)
  {
    if a != "" && b != "" && a[0] == b[0] {
      LeTotal(a[1..], b[1..]);
    }
  }

  lemma {:induction false} LeAntisymmetric(a: string, b: string)
    requires Le(a, b) && Le(b, a)
    ensures a == b
  {
    if a != "" && b != "" {
      LeAntisymmetric(a[1..], b[1..]);
      assert a == [a[0]] + a[1..] && b == [b[0]] + b[1..];
    }
  }

  lemma {:induction false} LeTransitive(a: string, b: string, c: string)
    requires Le(a, b) && Le(b, c)
    ensures Le(a, c)
  {
    if a != "" && b != "" && c != "" && a[0] == b[0] == c[0] {
      LeTransitive(a[1..], b[1..], c[1..]);
    }
  }

  /** Go's `a > b` on strings. */
  predicate Gt(a: string, b: string) {
    !Le(a, b)
  }

  ghost predicate Sorted(s: seq<string>) {
    forall i, j :: 0 <= i <= j < |s| ==> Le(s[i], s[j])
  }

  ghost predicate Distinct(s: seq<string>) {
    forall i, j :: 0 <= i < j < |s| ==> s[i] != s[j]
  }

  lemma {:induction false} HeadIsLeast(s: seq<string>, x: string)
    requires Sorted(s) && x in s
    ensures Le(s[0], x)
  {
  }

  lemma {:induction false} TailBag(s: seq<string>)
    requires s != []
    ensures multiset(s[1..]) == multiset(s) - multiset{s[0]}
  {
    assert s == [s[0]] + s[1..];
  }

  /** Two sorted lists with the same elements are the same list. */
  lemma {:induction false} SortedUnique(a: seq<string>, b: seq<string>)
    requires Sorted(a) && Sorted(b) && multiset(a) == multiset(b)
    ensures a == b
    decreases |a|
  {
    if a == [] {
      assert |b| == |multiset(b)| == |multiset(a)| == 0;
    } else {
      assert a[0] in multiset(a) && b != [];
      assert b[0] in multiset(b);
      HeadIsLeast(a, b[0]);
      HeadIsLeast(b, a[0]);
      LeAntisymmetric(a[0], b[0]);
      TailBag(a);
      TailBag(b);
      SortedTail(a);
      SortedTail(b);
      SortedUnique(a[1..], b[1..]);
    }
  }

  lemma {:induction false} SortedTail(s: seq<string>)
    requires Sorted(s) && s != []
    ensures Sorted(s[1..]) && s == [s[0]] + s[1..]
  {
  }

  /** Everything but position j is in order: a[..j] and a[j..] are sorted, and a[..j] is below a[j+1..]. */
  ghost predicate Sifting(s: seq<string>, j: nat) {
    && j < |s|
    && (forall p, q :: 0 <= p <= q < |s| && q != j ==> p == j || Le(s[p], s[q]))
    && (forall q :: j <= q < |s| ==> Le(s[j], s[q]))
  }

  lemma {:induction false} SiftDone(s: seq<string>, j: nat)
    requires Sifting(s, j) && (j == 0 || Le(s[j - 1], s[j]))
    ensures Sorted(s)
  {
    forall p, q | 0 <= p <= q < |s| ensures Le(s[p], s[q]) {
      if q == j && p < j {
        LeTransitive(s[p], s[j - 1], s[j]);
      }
    }
  }

  lemma {:induction false} SiftStep(s: seq<string>, j: nat)
    requires Sifting(s, j) && j > 0 && Gt(s[j - 1], s[j])
    ensures Sifting(s[j - 1 := s[j]][j := s[j - 1]], j - 1)
  {
    var r := s[j - 1 := s[j]][j := s[j - 1]];
    LeTotal(s[j - 1], s[j]);
    LeReflexive(s[j]);
    forall q | j - 1 <= q < |r| ensures Le(r[j - 1], r[q]) {
    }
    forall p, q | 0 <= p <= q < |r| && q != j - 1 ensures p == j - 1 || Le(r[p], r[q]) {
      if p != j - 1 {
        var p0 := if p == j then j - 1 else p;
        var q0 := if q == j then j - 1 else q;
        assert r[p] == s[p0] && r[q] == s[q0];
      }
    }
  }

  lemma {:induction false} SiftStart(s: seq<string>, x: string)
    requires Sorted(s)
    ensures Sifting(s + [x], |s|)
  {
    LeReflexive(x);
  }

  lemma {:induction false} SwapKeepsBag(s: seq<string>, i: nat, j: nat)
    requires i < j < |s|
    ensures multiset(s[i := s[j]][j := s[i]]) == multiset(s)
  {
  }

  /** One turn of the inner loop: swap a[j] with its greater neighbour below. */
  method SwapDown(a: array<string>, i: nat, j: nat)
    requires i < a.Length && 0 < j <= i && Sifting(a[..i + 1], j) && Gt(a[j - 1], a[j])
    modifies a
    ensures Sifting(a[..i + 1], j - 1) && multiset(a[..]) == multiset(old(a[..]))
  {
    ghost var before, all := a[..i + 1], a[..];
    SiftStep(before, j);
    SwapKeepsBag(all, j - 1, j);
    a[j - 1], a[j] := a[j], a[j - 1];
    assert a[..i + 1] == before[j - 1 := before[j]][j := before[j - 1]];
    assert a[..] == all[j - 1 := all[j]][j := all[j - 1]];
  }

  /** The inner loop: a[i] moves down past everything greater. */
  method Sift(a: array<string>, i: nat)
    requires i < a.Length && Sorted(a[..i])
    modifies a
    ensures Sorted(a[..i + 1]) && multiset(a[..]) == multiset(old(a[..]))
  {
    var j := i;
    assert a[..i + 1] == a[..i] + [a[i]];
    SiftStart(a[..i], a[i]);
    while j > 0 && Gt(a[j - 1], a[j])
      invariant 0 <= j <= i && Sifting(a[..i + 1], j)
      invariant multiset(a[..]) == multiset(old(a[..]))
    {
      SwapDown(a, i, j);
      j := j - 1;
    }
    SiftDone(a[..i + 1], j);
  }

  lemma {:induction false} OneIsSorted(s: seq<string>)
    requires |s| <= 1
    ensures Sorted(s)
  {
    if s != [] {
      LeReflexive(s[0]);
    }
  }

  /** for i := 1..: for j := i; j > 0 && a[j-1] > a[j]; j--: swap. */
  method InsertionSort(a: array<string>)
    modifies a
    ensures Sorted(a[..]) && multiset(a[..]) == multiset(old(a[..]))
  {
    if a.Length <= 1 {
      OneIsSorted(a[..]);
      return;
    }
    OneIsSorted(a[..1]);
    for i := 1 to a.Length
      invariant Sorted(a[..i]) && multiset(a[..]) == multiset(old(a[..]))
    {
      Sift(a, i);
    }
    assert a[..a.Length] == a[..];
  }

  /** A sorted copy of a list, by the same in-place loop. */
  method SortedCopy(s: seq<string>) returns (r: seq<string>)
    ensures Sorted(r) && multiset(r) == multiset(s)
  {
    var a := new string[|s|](i requires 0 <= i < |s| => s[i]);
    assert a[..] == s;
    InsertionSort(a);
    r := a[..];
  }
}
