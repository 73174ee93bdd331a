/** Parts as the join code handles them, `(part_num, path)` pairs, and the
    stable sort by part number that Python's `list.sort(key=…)` performs. */
module PartOrder {

  datatype Part = Part(num: nat, path: string)

  function PathsOf(parts: seq<Part>): (ps: seq<string>)
    ensures |ps| == |parts|
    ensures forall i :: 0 <= i < |parts| ==> ps[i] == parts[i].path
  {
    seq(|parts|, i requires 0 <= i < |parts| => parts[i].path)
  }

  predicate SortedByNum(s: seq<Part>) {
    forall i, j :: 0 <= i < j < |s| ==> s[i].num <= s[j].num
  }

  /** The parts numbered `k`, in their original relative order. */
  function WithNum(s: seq<Part>, k: nat): seq<Part> {
    if |s| == 0 then []
    else WithNum(s[..|s| - 1], k) + (if s[|s| - 1].num == k then [s[|s| - 1]] else [])
  }

  /** Places `x` after every element whose number is not larger. */
  function Insert(x: Part, t: seq<Part>): seq<Part> {
    if |t| == 0 then [x]
    else if x.num < t[0].num then [x] + t
    else [t[0]] + Insert(x, t[1..])
  }

  /** Stable insertion sort by part number. */
  function SortParts(s: seq<Part>): (r: seq<Part>)
    ensures |r| == |s|
    ensures multiset(r) == multiset(s)
  {
    if |s| == 0 then []
    else
      InsertPermutes(s[|s| - 1], SortParts(s[..|s| - 1]));
      assert s == s[..|s| - 1] + [s[|s| - 1]];
      Insert(s[|s| - 1], SortParts(s[..|s| - 1]))
  }

  // ---------------------------------------------------------------------
  // Lemmas

  lemma {:induction false} InsertPermutes(x: Part, t: seq<Part>)
    ensures multiset(Insert(x, t)) == multiset(t) + multiset{x}
    ensures |Insert(x, t)| == |t| + 1
  {
    if |t| > 0 && x.num >= t[0].num {
      InsertPermutes(x, t[1..]);
      assert t == [t[0]] + t[1..];
    }
  }

  lemma {:induction false} InsertSorted(x: Part, t: seq<Part>)
    requires SortedByNum(t)
    ensures SortedByNum(Insert(x, t))
    ensures |Insert(x, t)| > 0
    ensures Insert(x, t)[0] == x || (|t| > 0 && Insert(x, t)[0] == t[0])
  {
    if |t| > 0 && x.num >= t[0].num {
      InsertSorted(x, t[1..]);
      var r := Insert(x, t[1..]);
      assert forall i :: 0 <= i < |r| ==> t[0].num <= r[i].num by {
        InsertPermutes(x, t[1..]);
        forall i | 0 <= i < |r| ensures t[0].num <= r[i].num {
          assert r[i] in multiset(r);
          assert r[i] == x || r[i] in multiset(t[1..]);
          if r[i] != x {
            var j :| 0 <= j < |t[1..]| && t[1..][j] == r[i];
            assert t[j + 1] == r[i];
          }
        }
      }
    }
  }

  lemma {:induction false} WithNumAppend(a: seq<Part>, b: seq<Part>, k: nat)
    ensures WithNum(a + b, k) == WithNum(a, k) + WithNum(b, k)
    decreases |b|
  {
    if |b| == 0 {
      assert a + b == a;
    } else {
      var b' := b[..|b| - 1];
      WithNumAppend(a, b', k);
      assert (a + b)[..|a + b| - 1] == a + b';
    }
  }

  lemma WithNumSingle(x: Part, k: nat)
    ensures WithNum([x], k) == if x.num == k then [x] else []
  {
    assert [x][..0] == [];
  }

  lemma {:induction false} WithNumAbsent(t: seq<Part>, k: nat)
    requires forall i :: 0 <= i < |t| ==> t[i].num != k
    ensures WithNum(t, k) == []
  {
    if |t| > 0 {
      WithNumAbsent(t[..|t| - 1], k);
    }
  }

  lemma WithNumCons(y: Part, t: seq<Part>, k: nat)
    ensures WithNum([y] + t, k) == (if y.num == k then [y] else []) + WithNum(t, k)
  {
    WithNumAppend([y], t, k);
    WithNumSingle(y, k);
  }

  lemma SortedTail(t: seq<Part>)
    requires |t| > 0 && SortedByNum(t)
    ensures SortedByNum(t[1..])
    ensures forall i :: 0 <= i < |t| ==> t[0].num <= t[i].num
  {
    assert forall i :: 0 <= i < |t[1..]| ==> t[1..][i] == t[i + 1];
  }

  lemma InsertWithNumFront(x: Part, t: seq<Part>, k: nat)
    requires |t| > 0 && SortedByNum(t) && x.num < t[0].num
    ensures WithNum([x] + t, k) == WithNum(t, k) + (if x.num == k then [x] else [])
  {
    WithNumCons(x, t, k);
    SortedTail(t);
    if x.num == k {
      WithNumAbsent(t, k);
    }
  }

  lemma InsertWithNumStep(y: Part, t': seq<Part>, r: seq<Part>, xs: seq<Part>, k: nat)
    requires WithNum(r, k) == WithNum(t', k) + xs
    ensures WithNum([y] + r, k) == WithNum([y] + t', k) + xs
  {
    WithNumCons(y, r, k);
    WithNumCons(y, t', k);
    AppendAssoc(if y.num == k then [y] else [], WithNum(t', k), xs);
  }

  lemma AppendAssoc<T>(a: seq<T>, b: seq<T>, c: seq<T>)
    ensures a + (b + c) == (a + b) + c
  {
  }

  lemma PathsOfAppend(a: seq<Part>, b: seq<Part>)
    ensures PathsOf(a + b) == PathsOf(a) + PathsOf(b)
  {
  }

  /** Appending to a sequence keeps its elements where they were. */
  lemma AppendKeepsIndex<T>(a: seq<T>, b: seq<T>, i: nat)
    requires i < |a|
    ensures (a + b)[i] == a[i]
  {
  }

  /** A property of the only element of a sequence of at most one holds of
      every element. */
  lemma AllOfShort<T>(P: T -> bool, b: seq<T>)
    requires |b| <= 1 && (|b| == 1 ==> P(b[0]))
    ensures forall i :: 0 <= i < |b| ==> P(b[i])
  {
  }

  /** A property of every element of two sequences holds of every element
      of their concatenation. */
  lemma AllOfAppend<T>(P: T -> bool, a: seq<T>, b: seq<T>)
    requires forall i :: 0 <= i < |a| ==> P(a[i])
    requires forall i :: 0 <= i < |b| ==> P(b[i])
    ensures forall i :: 0 <= i < |a + b| ==> P((a + b)[i])
  {
    forall i | 0 <= i < |a + b| ensures P((a + b)[i]) {
      if i < |a| {
        assert (a + b)[i] == a[i];
      } else {
        assert (a + b)[i] == b[i - |a|];
      }
    }
  }

  /** Inserting `x` appends it to its own number's group and leaves every
      other group alone. */
  lemma {:induction false} InsertWithNum(x: Part, t: seq<Part>, k: nat)
    requires SortedByNum(t)
    ensures WithNum(Insert(x, t), k) == WithNum(t, k) + (if x.num == k then [x] else [])
  {
    if |t| == 0 {
      WithNumSingle(x, k);
    } else if x.num < t[0].num {
      InsertWithNumFront(x, t, k);
    } else {
      SortedTail(t);
      InsertWithNum(x, t[1..], k);
      InsertWithNumStep(t[0], t[1..], Insert(x, t[1..]), if x.num == k then [x] else [], k);
      assert [t[0]] + t[1..] == t;
    }
  }

  /** The sort orders by number and is stable: within each number the parts
      keep their original relative order. */
  lemma {:induction false} SortPartsIsStableSort(s: seq<Part>)
    ensures SortedByNum(SortParts(s))
    ensures SameGroups(SortParts(s), s)
  {
    if |s| > 0 {
      var init := s[..|s| - 1];
      var x := s[|s| - 1];
      SortPartsIsStableSort(init);
      InsertSorted(x, SortParts(init));
      forall k ensures WithNum(SortParts(s), k) == WithNum(s, k) {
        InsertWithNum(x, SortParts(init), k);
      }
    }
  }

  lemma {:induction false} WithNumLast(s: seq<Part>)
    requires |s| > 0
    ensures var x := s[|s| - 1];
      |WithNum(s, x.num)| > 0 && WithNum(s, x.num)[|WithNum(s, x.num)| - 1] == x
  {
  }

  lemma {:induction false} WithNumNonEmpty(s: seq<Part>, k: nat)
    requires |WithNum(s, k)| > 0
    ensures exists i :: 0 <= i < |s| && s[i].num == k
    decreases |s|
  {
    if s[|s| - 1].num != k {
      WithNumNonEmpty(s[..|s| - 1], k);
      var i :| 0 <= i < |s[..|s| - 1]| && s[..|s| - 1][i].num == k;
      assert s[i].num == k;
    }
  }

  /** Every number has the same group in `a` as in `b`. */
  ghost predicate SameGroups(a: seq<Part>, b: seq<Part>) {
    forall k :: WithNum(a, k) == WithNum(b, k)
  }

  /** Sequences with the same groups are empty together. */
  lemma SameGroupsEmptyTogether(a: seq<Part>, b: seq<Part>)
    requires SameGroups(a, b)
    ensures |a| == 0 <==> |b| == 0
  {
    if |b| > 0 {
      WithNumLast(b);
      WithNumNonEmpty(a, b[|b| - 1].num);
    }
    if |a| > 0 {
      WithNumLast(a);
      WithNumNonEmpty(b, a[|a| - 1].num);
    }
  }

  /** The last element of a sorted sequence carries the largest number. */
  lemma SortedLastIsMax(s: seq<Part>, k: nat)
    requires SortedByNum(s) && |WithNum(s, k)| > 0
    ensures |s| > 0 && k <= s[|s| - 1].num
  {
    WithNumNonEmpty(s, k);
    var i :| 0 <= i < |s| && s[i].num == k;
    assert i < |s| - 1 ==> s[i].num <= s[|s| - 1].num;
  }

  /** Sorted sequences with the same groups end in the same element. */
  lemma SameGroupsSameLast(a: seq<Part>, b: seq<Part>)
    requires SortedByNum(a) && SortedByNum(b) && |a| > 0 && |b| > 0
    requires SameGroups(a, b)
    ensures a[|a| - 1] == b[|b| - 1]
  {
    var x := a[|a| - 1];
    var y := b[|b| - 1];
    WithNumLast(a);
    WithNumLast(b);
    assert WithNum(a, x.num) == WithNum(b, x.num);
    assert WithNum(a, y.num) == WithNum(b, y.num);
    SortedLastIsMax(b, x.num);
    SortedLastIsMax(a, y.num);
  }

  /** Removing the same last element keeps the groups equal. */
  lemma SameGroupsOfInit(a: seq<Part>, b: seq<Part>)
    requires |a| > 0 && |b| > 0 && a[|a| - 1] == b[|b| - 1]
    requires SameGroups(a, b)
    ensures SameGroups(a[..|a| - 1], b[..|b| - 1])
  {
    var x := a[|a| - 1];
    var a', b' := a[..|a| - 1], b[..|b| - 1];
    forall k ensures WithNum(a', k) == WithNum(b', k) {
      var tail := if x.num == k then [x] else [];
      var ga := WithNum(a, k);
      assert ga == WithNum(b, k);
      assert ga == WithNum(a', k) + tail;
      assert ga == WithNum(b', k) + tail;
      assert WithNum(a', k) == ga[..|ga| - |tail|];
      assert WithNum(b', k) == ga[..|ga| - |tail|];
    }
  }

  lemma SortedInit(a: seq<Part>)
    requires |a| > 0 && SortedByNum(a)
    ensures SortedByNum(a[..|a| - 1])
  {
  }

  /** A sorted sequence is determined by its groups: two sorted sequences
      whose groups agree for every number are equal. With
      `SortPartsIsStableSort` this pins `SortParts` down as Python's stable
      sort, independently of how it is computed. */
  lemma {:induction false} SortedGroupsDetermine(a: seq<Part>, b: seq<Part>)
    requires SortedByNum(a) && SortedByNum(b)
    requires SameGroups(a, b)
    ensures a == b
    decreases |a|
  {
    SameGroupsEmptyTogether(a, b);
    if |a| > 0 {
      SameGroupsSameLast(a, b);
      SameGroupsOfInit(a, b);
      SortedInit(a);
      SortedInit(b);
      SortedGroupsDetermine(a[..|a| - 1], b[..|b| - 1]);
      assert a == a[..|a| - 1] + [a[|a| - 1]];
      assert b == b[..|b| - 1] + [b[|b| - 1]];
    }
  }

  /** Sorting twice changes nothing. */
  lemma SortPartsIsIdempotent(s: seq<Part>)
    ensures SortParts(SortParts(s)) == SortParts(s)
  {
    SortPartsIsStableSort(s);
    SortPartsIsStableSort(SortParts(s));
    SortedGroupsDetermine(SortParts(SortParts(s)), SortParts(s));
  }
}
