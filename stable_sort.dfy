/** The numbered entries of a reply and the stable sort by captured number
    (`numbered.sort(key=lambda x: x[0])`). */
module StableSort {

  /** A numbered line's captured number and its remaining text. */
  datatype Entry<T> = Entry(number: nat, text: T)

  predicate SortedByNumber<T>(s: seq<Entry<T>>) {
    forall i, j :: 0 <= i < j < |s| ==> s[i].number <= s[j].number
  }

  /** The entries of `s` that carry number `k`, in their order in `s`. */
  function WithNumber<T>(s: seq<Entry<T>>, k: nat): (r: seq<Entry<T>>)
    ensures |r| <= |s|
  {
    if s == [] then [] else (if s[0].number == k then [s[0]] else []) + WithNumber(s[1..], k)
  }

  lemma {:induction false} WithNumberAppend<T>(a: seq<Entry<T>>, b: seq<Entry<T>>, k: nat)
    ensures WithNumber(a + b, k) == WithNumber(a, k) + WithNumber(b, k)
    decreases |a|
  {
    if a == [] {
      assert a + b == b;
    } else {
      var head := if a[0].number == k then [a[0]] else [];
      assert (a + b)[0] == a[0] && (a + b)[1..] == a[1..] + b;
      assert WithNumber(a + b, k) == head + WithNumber(a[1..] + b, k);
      WithNumberAppend(a[1..], b, k);
      assert head + (WithNumber(a[1..], k) + WithNumber(b, k)) == (head + WithNumber(a[1..], k)) + WithNumber(b, k);
    }
  }

  lemma WithNumberSingle<T>(e: Entry<T>, k: nat)
    ensures WithNumber([e], k) == if e.number == k then [e] else []
  {
    assert [e][1..] == [];
  }

  /** Places `e` after every trailing entry whose number exceeds its own:
      one pass of insertion sort, scanning from the back. */
  function Insert<T>(s: seq<Entry<T>>, e: Entry<T>): (r: seq<Entry<T>>)
    ensures |r| == |s| + 1
  {
    if s == [] || s[|s| - 1].number <= e.number then s + [e]
    else Insert(s[..|s| - 1], e) + [s[|s| - 1]]
  }

  /** Insertion sort by number, the specification of `SortInPlace`. */
  function SortByNumber<T>(s: seq<Entry<T>>): (r: seq<Entry<T>>)
    ensures |r| == |s|
  {
    if s == [] then [] else Insert(SortByNumber(s[..|s| - 1]), s[|s| - 1])
  }

  lemma {:induction false} InsertPermutes<T>(s: seq<Entry<T>>, e: Entry<T>)
    ensures multiset(Insert(s, e)) == multiset(s) + multiset{e}
    decreases |s|
  {
    if s != [] && s[|s| - 1].number > e.number {
      InsertPermutes(s[..|s| - 1], e);
      assert s == s[..|s| - 1] + [s[|s| - 1]];
    }
  }

  /** The sort is a permutation of its input. */
  lemma {:induction false} SortByNumberPermutes<T>(s: seq<Entry<T>>)
    ensures multiset(SortByNumber(s)) == multiset(s)
    decreases |s|
  {
    if s != [] {
      SortByNumberPermutes(s[..|s| - 1]);
      InsertPermutes(SortByNumber(s[..|s| - 1]), s[|s| - 1]);
      assert s == s[..|s| - 1] + [s[|s| - 1]];
    }
  }

  /** Every entry of `Insert(s, e)` is below any bound on `s` and `e`. */
  lemma {:induction false} InsertBounded<T>(s: seq<Entry<T>>, e: Entry<T>, bound: nat)
    requires forall i :: 0 <= i < |s| ==> s[i].number <= bound
    requires e.number <= bound
    ensures forall i :: 0 <= i < |s| + 1 ==> Insert(s, e)[i].number <= bound
    decreases |s|
  {
    if s != [] && s[|s| - 1].number > e.number {
      InsertBounded(s[..|s| - 1], e, bound);
    }
  }

  /** Inserting into a sorted sequence keeps it sorted. */
  lemma {:induction false} InsertSorted<T>(s: seq<Entry<T>>, e: Entry<T>)
    requires SortedByNumber(s)
    ensures SortedByNumber(Insert(s, e))
    decreases |s|
  {
    if s != [] && s[|s| - 1].number > e.number {
      var init, last := s[..|s| - 1], s[|s| - 1];
      InsertSorted(init, e);
      InsertBounded(init, e, last.number);
      assert Insert(s, e) == Insert(init, e) + [last];
    }
  }

  /** Insertion puts `e` behind the entries that already carry its number. */
  lemma {:induction false} InsertWithNumber<T>(s: seq<Entry<T>>, e: Entry<T>, k: nat)
    ensures WithNumber(Insert(s, e), k) == WithNumber(s, k) + WithNumber([e], k)
    decreases |s|
  {
    if s == [] || s[|s| - 1].number <= e.number {
      WithNumberAppend(s, [e], k);
    } else {
      var init, last := s[..|s| - 1], s[|s| - 1];
      var inserted := Insert(init, e);
      assert Insert(s, e) == inserted + [last];
      assert s == init + [last];
      InsertWithNumber(init, e, k);
      WithNumberAppend(inserted, [last], k);
      WithNumberAppend(init, [last], k);
      WithNumberSingle(e, k);
      WithNumberSingle(last, k);
      if last.number == k {
        assert WithNumber([e], k) == [];
        assert WithNumber(inserted, k) == WithNumber(init, k);
      } else {
        assert WithNumber([last], k) == [];
        assert WithNumber(s, k) == WithNumber(init, k);
      }
    }
  }

  /** The sort orders the entries by number. */
  lemma {:induction false} SortByNumberSorted<T>(s: seq<Entry<T>>)
    ensures SortedByNumber(SortByNumber(s))
    decreases |s|
  {
    if s != [] {
      SortByNumberSorted(s[..|s| - 1]);
      InsertSorted(SortByNumber(s[..|s| - 1]), s[|s| - 1]);
    }
  }

  /** The sort is stable: the entries that share a number keep their order. */
  lemma {:induction false} SortByNumberStable<T>(s: seq<Entry<T>>, k: nat)
    ensures WithNumber(SortByNumber(s), k) == WithNumber(s, k)
    decreases |s|
  {
    if s != [] {
      var init, last := s[..|s| - 1], s[|s| - 1];
      SortByNumberStable(init, k);
      InsertWithNumber(SortByNumber(init), last, k);
      assert s == init + [last];
      WithNumberAppend(init, [last], k);
    }
  }

  lemma HeadWithNumber<T>(s: seq<Entry<T>>)
    ensures s != [] ==> WithNumber(s, s[0].number) == [s[0]] + WithNumber(s[1..], s[0].number)
  {
  }

  /** In a sorted sequence, every number present is at least the first one. */
  lemma {:induction false} SortedHeadLeast<T>(s: seq<Entry<T>>, k: nat)
    requires SortedByNumber(s) && WithNumber(s, k) != []
    ensures s != [] && s[0].number <= k
    decreases |s|
  {
    if s[0].number != k {
      SortedHeadLeast(s[1..], k);
    }
  }

  /** Two sorted sequences with the same entries per number start alike. */
  lemma HeadsAgree<T>(a: seq<Entry<T>>, b: seq<Entry<T>>)
    requires SortedByNumber(a) && SortedByNumber(b)
    requires forall k :: WithNumber(a, k) == WithNumber(b, k)
    requires a != [] || b != []
    ensures a != [] && b != [] && a[0] == b[0]
  {
    var first := if a != [] then a[0].number else b[0].number;
    HeadWithNumber(a);
    HeadWithNumber(b);
    assert WithNumber(a, first) == WithNumber(b, first);
    SortedHeadLeast(a, first);
    SortedHeadLeast(b, first);
    var k, k' := a[0].number, b[0].number;
    assert WithNumber(a, k') == WithNumber(b, k') && WithNumber(a, k) == WithNumber(b, k);
    SortedHeadLeast(a, k');
    SortedHeadLeast(b, k);
    assert k == k';
    assert WithNumber(a, k)[0] == a[0] && WithNumber(b, k)[0] == b[0];
  }

  /** Dropping a common first entry keeps the entries per number equal. */
  lemma TailsAgree<T>(a: seq<Entry<T>>, b: seq<Entry<T>>, j: nat)
    requires a != [] && b != [] && a[0] == b[0]
    requires WithNumber(a, j) == WithNumber(b, j)
    ensures WithNumber(a[1..], j) == WithNumber(b[1..], j)
  {
    var head := if j == a[0].number then [a[0]] else [];
    assert WithNumber(a, j) == head + WithNumber(a[1..], j);
    assert WithNumber(b, j) == head + WithNumber(b[1..], j);
    assert WithNumber(a[1..], j) == WithNumber(a, j)[|head|..];
    assert WithNumber(b[1..], j) == WithNumber(b, j)[|head|..];
  }

  /** Sortedness and stability determine the result: any stable sort by
      number, such as Python's `list.sort`, yields `SortByNumber`. */
  lemma {:induction false} StableSortUnique<T>(a: seq<Entry<T>>, b: seq<Entry<T>>)
    requires SortedByNumber(a) && SortedByNumber(b)
    requires forall k :: WithNumber(a, k) == WithNumber(b, k)
    ensures a == b
    decreases |a|
  {
    if a != [] || b != [] {
      HeadsAgree(a, b);
      forall j ensures WithNumber(a[1..], j) == WithNumber(b[1..], j) {
        TailsAgree(a, b, j);
      }
      StableSortUnique(a[1..], b[1..]);
      assert a == [a[0]] + a[1..] && b == [b[0]] + b[1..];
    }
  }

  /** `SortByNumber` is the one stable sort of `s` by number. */
  lemma IsTheStableSort<T>(s: seq<Entry<T>>, r: seq<Entry<T>>)
    requires SortedByNumber(r)
    requires forall k :: WithNumber(r, k) == WithNumber(s, k)
    ensures r == SortByNumber(s)
  {
    SortByNumberSorted(s);
    forall k ensures WithNumber(r, k) == WithNumber(SortByNumber(s), k) {
      SortByNumberStable(s, k);
    }
    StableSortUnique(r, SortByNumber(s));
  }

  lemma DropLast<T>(s: seq<Entry<T>>, j: nat)
    requires j < |s|
    ensures s[..|s| - 1][..j] == s[..j] && s[..|s| - 1][j..] + [s[|s| - 1]] == s[j..]
  {
  }

  /** `Insert` at the position the in-place shift loop stops at. */
  lemma {:induction false} InsertAt<T>(s: seq<Entry<T>>, e: Entry<T>, j: nat)
    requires j <= |s|
    requires j == 0 || s[j - 1].number <= e.number
    requires forall m :: j <= m < |s| ==> s[m].number > e.number
    ensures Insert(s, e) == s[..j] + [e] + s[j..]
    decreases |s| - j
  {
    if j < |s| {
      var init, last := s[..|s| - 1], s[|s| - 1];
      assert last.number > e.number;
      assert Insert(s, e) == Insert(init, e) + [last];
      assert forall m :: j <= m < |init| ==> init[m] == s[m];
      InsertAt(init, e, j);
      DropLast(s, j);
    } else {
      assert s[..j] == s;
    }
  }

  /** The array after the shift loop and the final store, as a sequence. */
  lemma ShiftedPrefix<T>(b: seq<Entry<T>>, sorted: seq<Entry<T>>, x: Entry<T>, i: nat, j: nat)
    requires j <= i < |b| && |sorted| == i
    requires forall m :: 0 <= m < j ==> b[m] == sorted[m]
    requires b[j] == x
    requires forall m :: j < m <= i ==> b[m] == sorted[m - 1]
    ensures b[..i + 1] == sorted[..j] + [x] + sorted[j..]
  {
  }

  lemma SameSuffix<T>(b: seq<T>, c: seq<T>, n: nat)
    requires n <= |b| == |c|
    requires forall m :: n <= m < |b| ==> b[m] == c[m]
    ensures b[n..] == c[n..]
  {
  }

  /** Moves `a[i]` left past the entries of the sorted prefix `a[..i]` whose
      number exceeds its own: the inner loop of insertion sort. */
  method InsertInPlace<T>(a: array<Entry<T>>, i: nat)
    requires i < a.Length
    modifies a
    ensures a[..i + 1] == Insert(old(a[..i]), old(a[i]))
    ensures a[i + 1..] == old(a[i + 1..])
  {
    ghost var initial := a[..];
    ghost var sorted := a[..i];
    var x := a[i];
    var j := i;
    while j > 0 && a[j - 1].number > x.number
      invariant 0 <= j <= i
      invariant forall m :: 0 <= m < j ==> a[m] == sorted[m]
      invariant forall m :: j < m <= i ==> a[m] == sorted[m - 1]
      invariant forall m :: i < m < a.Length ==> a[m] == initial[m]
      invariant forall m :: j <= m < i ==> sorted[m].number > x.number
    {
      a[j] := a[j - 1];
      j := j - 1;
    }
    a[j] := x;
    InsertAt(sorted, x, j);
    ShiftedPrefix(a[..], sorted, x, i, j);
    SameSuffix(a[..], initial, i + 1);
  }

  /** Sorting one more element of `s` inserts it into the sorted prefix. */
  lemma SortPrefix<T>(s: seq<Entry<T>>, i: nat)
    requires i < |s|
    ensures SortByNumber(s[..i + 1]) == Insert(SortByNumber(s[..i]), s[i])
  {
    assert s[..i + 1][..i] == s[..i];
  }

  /** Stable insertion sort of `a` by number, in place. */
  method SortInPlace<T>(a: array<Entry<T>>)
    modifies a
    ensures a[..] == SortByNumber(old(a[..]))
  {
    ghost var input := a[..];
    var i := 0;
    while i < a.Length
      invariant 0 <= i <= a.Length
      invariant a[..i] == SortByNumber(input[..i])
      invariant a[i..] == input[i..]
    {
      InsertInPlace(a, i);
      SortPrefix(input, i);
      i := i + 1;
    }
    assert input[..a.Length] == input;
  }
}
