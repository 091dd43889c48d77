/**
  String comparison and sorting, as the rest of the model uses them. The order of
  `Before` is the one of Go's `strings.Compare`; `SortInPlace` stands for
  `slices.SortFunc` and `sort.Strings`. What the callers rely on is that a sorted
  arrangement is unique, so the algorithm behind the library call does not matter.
*/
module Ordering {

  /** `strings.Compare(a, b) < 0`. */
  predicate Before(a: string, b: string) {
    if b == "" then false
    else if a == "" then true
    else a[0] < b[0] || (a[0] == b[0] && Before(a[1..], b[1..]))
  }

  predicate AtMost(a: string, b: string) {
    !Before(b, a)
  }

  lemma {:induction false} BeforeIsTotal(a: string, b: string)
    ensures Before(a, b) || Before(b, a) || a == b
  {
    if a == "" || b == "" || a[0] != b[0] {
    } else {
      BeforeIsTotal(a[1..], b[1..]);
      assert a == [a[0]] + a[1..] && b == [b[0]] + b[1..];
    }
  }

  lemma {:induction false} BeforeIsAsymmetric(a: string, b: string)
    requires Before(a, b)
    ensures !Before(b, a) && a != b
  {
    if a == "" || a[0] != b[0] {
    } else {
      BeforeIsAsymmetric(a[1..], b[1..]);
    }
  }

  lemma {:induction false} BeforeIsTransitive(a: string, b: string, c: string)
    requires Before(a, b) && Before(b, c)
    ensures Before(a, c)
  {
    if a == "" || a[0] != b[0] || b[0] != c[0] {
    } else {
      BeforeIsTransitive(a[1..], b[1..], c[1..]);
    }
  }

  lemma StringsAreOrdered()
    ensures TotalOrder(AtMost)
    ensures forall a, b :: AtMost(a, b) && AtMost(b, a) ==> a == b
  {
    forall a, b
      ensures AtMost(a, b) || AtMost(b, a)
      ensures AtMost(a, b) && AtMost(b, a) ==> a == b
    {
      BeforeIsTotal(a, b);
      if Before(a, b) { BeforeIsAsymmetric(a, b); }
    }
    forall a, b, c | AtMost(a, b) && AtMost(b, c)
      ensures AtMost(a, c)
    {
      if Before(c, a) {
        BeforeIsTotal(a, b);
        if a != b {
          BeforeIsTransitive(c, a, b);
        }
      }
    }
  }

  // Sorting ------------------------------------------------------------------

  ghost predicate TotalOrder<T(!new)>(leq: (T, T) -> bool) {
    && (forall x, y :: leq(x, y) || leq(y, x))
    && (forall x, y, z :: leq(x, y) && leq(y, z) ==> leq(x, z))
  }

  ghost predicate Sorted<T>(s: seq<T>, leq: (T, T) -> bool) {
    forall i, j :: 0 <= i < j < |s| ==> leq(s[i], s[j])
  }

  /** No two different elements of `s` compare as equal. */
  ghost predicate Antisymmetric<T>(s: seq<T>, leq: (T, T) -> bool) {
    forall x, y :: x in s && y in s && leq(x, y) && leq(y, x) ==> x == y
  }

  function Insert<T>(s: seq<T>, x: T, leq: (T, T) -> bool): seq<T> {
    if s == [] then [x]
    else if leq(s[|s| - 1], x) then s + [x]
    else Insert(s[..|s| - 1], x, leq) + [s[|s| - 1]]
  }

  function Sort<T>(s: seq<T>, leq: (T, T) -> bool): seq<T> {
    if s == [] then [] else Insert(Sort(s[..|s| - 1], leq), s[|s| - 1], leq)
  }

  lemma {:induction false} InsertPermutes<T>(s: seq<T>, x: T, leq: (T, T) -> bool)
    ensures multiset(Insert(s, x, leq)) == multiset(s) + multiset{x}
  {
    if s == [] || leq(s[|s| - 1], x) {
    } else {
      InsertPermutes(s[..|s| - 1], x, leq);
      assert s == s[..|s| - 1] + [s[|s| - 1]];
    }
  }

  lemma {:induction false} InsertKeepsSorted<T(!new)>(s: seq<T>, x: T, leq: (T, T) -> bool)
    requires TotalOrder(leq) && Sorted(s, leq)
    ensures Sorted(Insert(s, x, leq), leq)
  {
    if s == [] {
    } else {
      var last := s[|s| - 1];
      if !leq(last, x) {
        InsertKeepsSorted(s[..|s| - 1], x, leq);
        InsertPermutes(s[..|s| - 1], x, leq);
        var front := Insert(s[..|s| - 1], x, leq);
        forall i | 0 <= i < |front| ensures leq(front[i], last) {
          assert front[i] in multiset(front);
        }
      }
    }
  }

  lemma {:induction false} SortPermutes<T>(s: seq<T>, leq: (T, T) -> bool)
    ensures multiset(Sort(s, leq)) == multiset(s)
    ensures |Sort(s, leq)| == |s|
    ensures forall x :: x in Sort(s, leq) <==> x in s
  {
    if s == [] {
    } else {
      SortPermutes(s[..|s| - 1], leq);
      InsertPermutes(Sort(s[..|s| - 1], leq), s[|s| - 1], leq);
      assert s == s[..|s| - 1] + [s[|s| - 1]];
    }
    assert |multiset(Sort(s, leq))| == |multiset(s)|;
    forall x ensures x in Sort(s, leq) <==> x in s {
      assert x in Sort(s, leq) <==> x in multiset(Sort(s, leq));
      assert x in s <==> x in multiset(s);
    }
  }

  lemma {:induction false} SortSorts<T(!new)>(s: seq<T>, leq: (T, T) -> bool)
    requires TotalOrder(leq)
    ensures Sorted(Sort(s, leq), leq)
  {
    if s == [] {
    } else {
      SortSorts(s[..|s| - 1], leq);
      InsertKeepsSorted(Sort(s[..|s| - 1], leq), s[|s| - 1], leq);
    }
  }

  lemma SameGreatest<T(!new)>(a: seq<T>, b: seq<T>, leq: (T, T) -> bool)
    requires TotalOrder(leq) && Antisymmetric(a, leq)
    requires Sorted(a, leq) && Sorted(b, leq) && multiset(a) == multiset(b) && a != [] && b != []
    ensures a[|a| - 1] == b[|b| - 1]
  {
    var x, y := a[|a| - 1], b[|b| - 1];
    assert x in multiset(b) && y in multiset(a);
    var i :| 0 <= i < |b| && b[i] == x;
    var j :| 0 <= j < |a| && a[j] == y;
    assert leq(x, x) && leq(y, y);
    assert leq(x, y) && leq(y, x);
  }

  lemma SameFront<T>(a: seq<T>, b: seq<T>)
    requires multiset(a) == multiset(b) && a != [] && b != [] && a[|a| - 1] == b[|b| - 1]
    ensures multiset(a[..|a| - 1]) == multiset(b[..|b| - 1])
  {
    var last := a[|a| - 1];
    assert a == a[..|a| - 1] + [last] && b == b[..|b| - 1] + [last];
    WithoutOne(a[..|a| - 1], last);
    WithoutOne(b[..|b| - 1], last);
  }

  lemma WithoutOne<T>(front: seq<T>, last: T)
    ensures multiset(front) == multiset(front + [last]) - multiset{last}
  {
  }

  lemma FrontStaysSorted<T>(s: seq<T>, leq: (T, T) -> bool)
    requires s != [] && Sorted(s, leq)
    ensures Sorted(s[..|s| - 1], leq)
    ensures Antisymmetric(s, leq) ==> Antisymmetric(s[..|s| - 1], leq)
  {
  }

  /** Two sorted arrangements of the same elements are the same sequence. */
  lemma {:induction false} SortedIsUnique<T(!new)>(a: seq<T>, b: seq<T>, leq: (T, T) -> bool)
    requires TotalOrder(leq) && Antisymmetric(a, leq)
    requires Sorted(a, leq) && Sorted(b, leq) && multiset(a) == multiset(b)
    ensures a == b
  {
    assert |a| == |b| by {
      assert |multiset(a)| == |multiset(b)|;
    }
    if a == [] {
    } else {
      var front, back := a[..|a| - 1], b[..|b| - 1];
      SameGreatest(a, b, leq);
      SameFront(a, b);
      FrontStaysSorted(a, leq);
      FrontStaysSorted(b, leq);
      SortedIsUnique(front, back, leq);
      assert a == front + [a[|a| - 1]] && b == back + [b[|b| - 1]];
    }
  }

  // Sequences without repetition ------------------------------------------------

  ghost predicate Distinct<T>(s: seq<T>) {
    forall i, j :: 0 <= i < j < |s| ==> s[i] != s[j]
  }

  lemma {:induction false} DistinctCount<T>(s: seq<T>)
    requires Distinct(s)
    ensures forall x :: multiset(s)[x] == if x in s then 1 else 0
  {
    if s == [] {
    } else {
      var front, last := s[..|s| - 1], s[|s| - 1];
      DistinctCount(front);
      assert s == front + [last];
    }
  }

  lemma RepeatCounts<T>(s: seq<T>, i: nat, j: nat)
    requires i < j < |s| && s[i] == s[j]
    ensures multiset(s)[s[i]] >= 2
  {
    assert s == s[..i] + [s[i]] + s[i + 1..j] + [s[j]] + s[j + 1..];
  }

  lemma SameMembers<T>(a: seq<T>, b: seq<T>)
    requires Distinct(a) && Distinct(b)
    requires forall x :: x in a <==> x in b
    ensures multiset(a) == multiset(b)
  {
    DistinctCount(a);
    DistinctCount(b);
  }

  // Strict order ------------------------------------------------------------------

  ghost predicate Strict<T>(s: seq<T>, less: (T, T) -> bool) {
    forall i, j :: 0 <= i < j < |s| ==> less(s[i], s[j])
  }

  /** The members of a sequence in strict order determine it. */
  lemma {:induction false} StrictIsUnique<T(!new)>(a: seq<T>, b: seq<T>, less: (T, T) -> bool)
    requires forall x, y :: less(x, y) ==> !less(y, x)
    requires Strict(a, less) && Strict(b, less) && forall x :: x in a <==> x in b
    ensures a == b
  {
    SameMembers(a, b);
    assert |multiset(a)| == |multiset(b)|;
    if a == [] {
    } else {
      var m := |a| - 1;
      LastIsLast(a, b[m], less);
      LastIsLast(b, a[m], less);
      assert a[m] in a && b[m] in b;
      SameFronts(a, b, m, less);
      StrictIsUnique(a[..m], b[..m], less);
      assert a == a[..m] + [a[m]] && b == b[..m] + [b[m]];
    }
  }

  lemma SameFronts<T(!new)>(a: seq<T>, b: seq<T>, m: nat, less: (T, T) -> bool)
    requires forall x, y :: less(x, y) ==> !less(y, x)
    requires Strict(a, less) && Strict(b, less) && forall x :: x in a <==> x in b
    requires |a| == |b| == m + 1 && a[m] == b[m]
    ensures Strict(a[..m], less) && Strict(b[..m], less) && forall x :: x in a[..m] <==> x in b[..m]
  {
    forall x ensures x in a[..m] <==> x in b[..m] {
      assert x in a[..m] <==> x in a && x != a[m];
      assert x in b[..m] <==> x in b && x != b[m];
    }
  }

  lemma LastIsLast<T>(s: seq<T>, x: T, less: (T, T) -> bool)
    requires Strict(s, less) && x in s
    ensures x == s[|s| - 1] || less(x, s[|s| - 1])
  {
  }

  /** Where `Insert` puts its element: before the run of greater ones at the end. */
  lemma {:induction false} InsertPlace<T>(s: seq<T>, j: nat, x: T, leq: (T, T) -> bool)
    requires j <= |s| && (j == 0 || leq(s[j - 1], x))
    requires forall k :: j <= k < |s| ==> !leq(s[k], x)
    ensures Insert(s, x, leq) == s[..j] + [x] + s[j..]
  {
    if j < |s| {
      var front := s[..|s| - 1];
      InsertPlace(front, j, x, leq);
      assert front[..j] == s[..j] && front[j..] + [s[|s| - 1]] == s[j..];
    } else {
      assert s[..j] == s && s[j..] == [];
    }
  }

  /** Moves `a[i]` down to its place among the `i` elements before it. */
  method InsertInPlace<T>(a: array<T>, i: nat, leq: (T, T) -> bool)
    requires i < a.Length
    modifies a
    ensures a[..i + 1] == Insert(old(a[..i]), old(a[i]), leq)
    ensures a[i + 1..] == old(a[i + 1..])
  {
    hide Insert;
    ghost var front := a[..i];
    var x := a[i];
    var j := i;
    while j > 0 && !leq(a[j - 1], x)
      invariant 0 <= j <= i
      invariant forall k :: 0 <= k < j ==> a[k] == front[k]
      invariant forall k :: j < k <= i ==> a[k] == front[k - 1]
      invariant forall k :: j <= k < i ==> !leq(front[k], x)
      invariant forall k :: i < k < a.Length ==> a[k] == old(a[k])
    {
      a[j] := a[j - 1];
      j := j - 1;
    }
    a[j] := x;
    InsertPlace(front, j, x, leq);
    ghost var placed := front[..j] + [x] + front[j..];
    assert |placed| == i + 1;
    forall k | 0 <= k <= i ensures a[k] == placed[k] {
    }
  }

  method SortInPlace<T>(a: array<T>, leq: (T, T) -> bool)
    modifies a
    ensures a[..] == Sort(old(a[..]), leq)
  {
    ghost var was := a[..];
    for i := 0 to a.Length
      invariant a[..i] == Sort(was[..i], leq)
      invariant a[i..] == was[i..]
    {
      assert a[i] == a[i..][0] == was[i];
      InsertInPlace(a, i, leq);
      assert was[..i + 1][..i] == was[..i];
    }
    assert a[..] == a[..a.Length] && was == was[..a.Length];
  }

  // Names -------------------------------------------------------------------------

  ghost predicate Ascending(names: seq<string>) {
    forall i, j :: 0 <= i < j < |names| ==> Before(names[i], names[j])
  }

  /** `slices.Sorted(maps.Keys(m))`: the names of a set, once each, in order. */
  method SortNames(names: set<string>) returns (sorted: seq<string>)
    ensures Ascending(sorted)
    ensures forall n :: n in sorted <==> n in names
  {
    var collected: seq<string> := [];
    var todo := names;
    while todo != {}
      invariant todo <= names
      invariant Distinct(collected)
      invariant forall n :: n in collected <==> n in names && n !in todo
      decreases |todo|
    {
      var n :| n in todo;
      todo := todo - {n};
      AppendDistinct(collected, n);
      collected := collected + [n];
    }
    var a := new string[|collected|](i requires 0 <= i < |collected| => collected[i]);
    assert a[..] == collected;
    SortInPlace(a, AtMost);
    sorted := a[..];
    SortedNamesAscend(collected);
  }

  lemma AppendDistinct<T>(s: seq<T>, x: T)
    requires Distinct(s) && x !in s
    ensures Distinct(s + [x])
  {
  }

  lemma SortedNamesAscend(names: seq<string>)
    requires Distinct(names)
    ensures Ascending(Sort(names, AtMost))
    ensures forall n :: n in Sort(names, AtMost) <==> n in names
  {
    var sorted := Sort(names, AtMost);
    StringsAreOrdered();
    SortSorts(names, AtMost);
    SortPermutes(names, AtMost);
    DistinctCount(names);
    forall i, j | 0 <= i < j < |sorted| ensures Before(sorted[i], sorted[j]) {
      if sorted[i] == sorted[j] {
        RepeatCounts(sorted, i, j);
      }
      BeforeIsTotal(sorted[i], sorted[j]);
    }
  }

  /** There is one ascending arrangement of a set of names. */
  lemma AscendingIsUnique(a: seq<string>, b: seq<string>)
    requires Ascending(a) && Ascending(b)
    requires forall n :: n in a <==> n in b
    ensures a == b
  {
    forall x, y | Before(x, y) ensures !Before(y, x) {
      BeforeIsAsymmetric(x, y);
    }
    StrictIsUnique(a, b, Before);
  }

  // Sizes ------------------------------------------------------------------------

  lemma SmallerSet<T>(a: set<T>, b: set<T>)
    requires a <= b
    ensures |a| <= |b|
  {
    assert b == a + (b - a);
  }

  // Turning a sequence round ------------------------------------------------------------

  function Reversed<T>(s: seq<T>): seq<T> {
    seq(|s|, k requires 0 <= k < |s| => s[|s| - 1 - k])
  }

  lemma ReversedKeepsMembers<T>(s: seq<T>)
    ensures forall x :: x in Reversed(s) <==> x in s
    ensures Reversed(Reversed(s)) == s
  {
    forall x | x in s ensures x in Reversed(s) {
      var k :| 0 <= k < |s| && s[k] == x;
      assert Reversed(s)[|s| - 1 - k] == x;
    }
  }

  /** Two indices that walk towards each other, swapping as they go. */
  method ReverseInPlace<T>(a: array<T>)
    modifies a
    ensures a[..] == Reversed(old(a[..]))
  {
    var i, j := 0, a.Length - 1;
    while i < j
      invariant 0 <= i && j == a.Length - 1 - i && i <= j + 2
      invariant forall k :: 0 <= k < a.Length ==>
                  a[k] == if k < i || k > j then old(a[a.Length - 1 - k]) else old(a[k])
    {
      a[i], a[j] := a[j], a[i];
      i, j := i + 1, j - 1;
    }
  }
}
