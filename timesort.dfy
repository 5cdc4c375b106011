/** `sortByTime`: a stable sort of the catalogue by modification time. */
module TimeSort {
  import opened Catalog
  import opened Seqs

  /** `a` may come before `b`: the comparator of `sortByTime` does not put
      `b` first. */
  predicate InOrder(a: Entry, b: Entry, ascending: bool)
  {
    if ascending then a.modifyTime <= b.modifyTime else b.modifyTime <= a.modifyTime
  }

  predicate Sorted(s: seq<Entry>, ascending: bool)
  {
    forall i, j :: 0 <= i < j < |s| ==> InOrder(s[i], s[j], ascending)
  }

  /** The entries modified at time `t`, in their order in `s`. A sort is
      stable exactly when it keeps each of these sequences as it was. */
  function WithTime(s: seq<Entry>, t: int): seq<Entry>
  {
    if s == [] then []
    else (if s[0].modifyTime == t then [s[0]] else []) + WithTime(s[1..], t)
  }

  /** Inserts `x` into the sorted `s` after every entry it does not precede. */
  function Insert(x: Entry, s: seq<Entry>, ascending: bool): seq<Entry>
  {
    if s == [] then [x]
    else if InOrder(s[0], x, ascending) then [s[0]] + Insert(x, s[1..], ascending)
    else [x] + s
  }

  /** Insertion sort, taking the entries in their order in `s`. */
  function SortBy(s: seq<Entry>, ascending: bool): seq<Entry>
  {
    if s == [] then []
    else Insert(s[|s| - 1], SortBy(s[..|s| - 1], ascending), ascending)
  }

  // ---------------------------------------------------------------- WithTime

  lemma {:induction false} WithTimeAppend(a: seq<Entry>, b: seq<Entry>, t: int)
    ensures WithTime(a + b, t) == WithTime(a, t) + WithTime(b, t)
    decreases |a|
  {
    if a == [] {
      assert a + b == b;
    } else {
      var h: seq<Entry> := if a[0].modifyTime == t then [a[0]] else [];
      assert (a + b)[0] == a[0] && (a + b)[1..] == a[1..] + b;
      assert WithTime(a + b, t) == h + WithTime(a[1..] + b, t);
      WithTimeAppend(a[1..], b, t);
      assert WithTime(a, t) == h + WithTime(a[1..], t);
      AppendAssoc(h, WithTime(a[1..], t), WithTime(b, t));
    }
  }

  lemma {:induction false} WithTimeMembers(s: seq<Entry>, t: int)
    ensures forall x :: x in WithTime(s, t) <==> x in s && x.modifyTime == t
    decreases |s|
  {
    if s != [] {
      WithTimeMembers(s[1..], t);
      assert s == [s[0]] + s[1..];
    }
  }

  // ---------------------------------------------------------------- Insert

  lemma {:induction false} InsertPermutes(x: Entry, s: seq<Entry>, ascending: bool)
    ensures multiset(Insert(x, s, ascending)) == multiset(s) + multiset{x}
    decreases |s|
  {
    if s != [] {
      assert s == [s[0]] + s[1..];
      if InOrder(s[0], x, ascending) {
        InsertPermutes(x, s[1..], ascending);
      }
    }
  }

  lemma {:induction false} InsertSorted(x: Entry, s: seq<Entry>, ascending: bool)
    requires Sorted(s, ascending)
    ensures Sorted(Insert(x, s, ascending), ascending)
    decreases |s|
  {
    if s != [] {
      if InOrder(s[0], x, ascending) {
        var rest := Insert(x, s[1..], ascending);
        InsertSorted(x, s[1..], ascending);
        InsertPermutes(x, s[1..], ascending);
        var r := [s[0]] + rest;
        forall j | 0 < j < |r| ensures InOrder(r[0], r[j], ascending) {
          assert r[j] == rest[j - 1];
          assert r[j] in multiset(s[1..]) + multiset{x};
          if r[j] != x {
            assert r[j] in s[1..];
          }
        }
      } else {
        var r := [x] + s;
        forall j | 0 < j < |r| ensures InOrder(r[0], r[j], ascending) {
          assert r[j] == s[j - 1];
        }
      }
    }
  }

  /** An entry that precedes the head of a sorted sequence is strictly
      ahead of all of it, so no entry there shares its time. */
  lemma AheadOfAll(x: Entry, s: seq<Entry>, ascending: bool)
    requires Sorted(s, ascending) && s != [] && !InOrder(s[0], x, ascending)
    ensures WithTime(s, x.modifyTime) == []
  {
    forall j | 0 <= j < |s| ensures s[j].modifyTime != x.modifyTime {
      assert j == 0 || InOrder(s[0], s[j], ascending);
    }
    WithTimeNone(s, x.modifyTime);
  }

  lemma {:induction false} WithTimeNone(s: seq<Entry>, t: int)
    requires forall j :: 0 <= j < |s| ==> s[j].modifyTime != t
    ensures WithTime(s, t) == []
    decreases |s|
  {
    if s != [] {
      WithTimeNone(s[1..], t);
    }
  }

  /** Insertion puts `x` behind every entry of `s` with the same time. */
  lemma {:induction false} InsertWithTime(x: Entry, s: seq<Entry>, ascending: bool, t: int)
    requires Sorted(s, ascending)
    ensures WithTime(Insert(x, s, ascending), t) == WithTime(s, t) + (if x.modifyTime == t then [x] else [])
    decreases |s|
  {
    var tail: seq<Entry> := if x.modifyTime == t then [x] else [];
    if s == [] {
      assert WithTime([x], t) == tail + WithTime([x][1..], t);
    } else if InOrder(s[0], x, ascending) {
      var head: seq<Entry> := if s[0].modifyTime == t then [s[0]] else [];
      var rest := Insert(x, s[1..], ascending);
      InsertWithTime(x, s[1..], ascending, t);
      var r := [s[0]] + rest;
      assert r[0] == s[0] && r[1..] == rest;
      assert WithTime(r, t) == head + WithTime(rest, t);
      assert WithTime(s, t) == head + WithTime(s[1..], t);
      AppendAssoc(head, WithTime(s[1..], t), tail);
    } else {
      var r := [x] + s;
      assert r[0] == x && r[1..] == s;
      assert WithTime(r, t) == tail + WithTime(s, t);
      if x.modifyTime == t {
        AheadOfAll(x, s, ascending);
        assert WithTime(s, t) + tail == tail + WithTime(s, t);
      } else {
        assert tail + WithTime(s, t) == WithTime(s, t) + tail;
      }
    }
  }

  // ---------------------------------------------------------------- SortBy

  lemma {:induction false} SortByPermutes(s: seq<Entry>, ascending: bool)
    ensures multiset(SortBy(s, ascending)) == multiset(s)
    decreases |s|
  {
    if s != [] {
      var init, x := s[..|s| - 1], s[|s| - 1];
      SortByPermutes(init, ascending);
      InsertPermutes(x, SortBy(init, ascending), ascending);
      assert s == init + [x];
      assert multiset(init + [x]) == multiset(init) + multiset([x]);
    }
  }

  lemma {:induction false} SortBySorted(s: seq<Entry>, ascending: bool)
    ensures Sorted(SortBy(s, ascending), ascending)
    decreases |s|
  {
    if s != [] {
      SortBySorted(s[..|s| - 1], ascending);
      InsertSorted(s[|s| - 1], SortBy(s[..|s| - 1], ascending), ascending);
    }
  }

  lemma {:induction false} SortByStable(s: seq<Entry>, ascending: bool, t: int)
    ensures WithTime(SortBy(s, ascending), t) == WithTime(s, t)
    decreases |s|
  {
    if s != [] {
      var init, x := s[..|s| - 1], s[|s| - 1];
      SortByStable(init, ascending, t);
      SortBySorted(init, ascending);
      InsertWithTime(x, SortBy(init, ascending), ascending, t);
      assert s == init + [x];
      WithTimeAppend(init, [x], t);
    }
  }

  /** What `sortByTime` promises: the result is ordered, holds the same
      entries as often, and entries with equal times keep their order. */
  lemma SortBySpec(s: seq<Entry>, ascending: bool)
    ensures Sorted(SortBy(s, ascending), ascending)
    ensures multiset(SortBy(s, ascending)) == multiset(s)
    ensures forall t :: WithTime(SortBy(s, ascending), t) == WithTime(s, t)
  {
    SortBySorted(s, ascending);
    SortByPermutes(s, ascending);
    forall t ensures WithTime(SortBy(s, ascending), t) == WithTime(s, t) {
      SortByStable(s, ascending, t);
    }
  }

  // ---------------------------------------------------------------- uniqueness

  lemma SortedHeadFirst(s: seq<Entry>, ascending: bool, x: Entry)
    requires Sorted(s, ascending) && x in s
    ensures InOrder(s[0], x, ascending)
  {
    var j :| 0 <= j < |s| && s[j] == x;
    assert j == 0 || InOrder(s[0], s[j], ascending);
  }

  /** The head of a sequence heads the entries with its time. */
  lemma WithTimeHead(s: seq<Entry>)
    requires s != []
    ensures |WithTime(s, s[0].modifyTime)| > 0 && WithTime(s, s[0].modifyTime)[0] == s[0]
  {
    assert WithTime(s, s[0].modifyTime) == [s[0]] + WithTime(s[1..], s[0].modifyTime);
  }

  /** Two sorted sequences that agree on every time's subsequence start
      with the same entry. */
  lemma HeadsAgree(a: seq<Entry>, b: seq<Entry>, ascending: bool)
    requires Sorted(a, ascending) && Sorted(b, ascending) && a != [] && b != []
    requires forall t :: WithTime(a, t) == WithTime(b, t)
    ensures a[0] == b[0]
  {
    var ta, tb := a[0].modifyTime, b[0].modifyTime;
    WithTimeHead(a);
    WithTimeHead(b);
    WithTimeMembers(a, tb);
    WithTimeMembers(b, ta);
    assert WithTime(a, ta) == WithTime(b, ta) && WithTime(a, tb) == WithTime(b, tb);
    assert a[0] in WithTime(b, ta);
    assert b[0] in WithTime(a, tb);
    SortedHeadFirst(b, ascending, a[0]);
    SortedHeadFirst(a, ascending, b[0]);
    assert ta == tb;
  }

  /** Agreement on every time's subsequence survives dropping a shared head. */
  lemma TailsAgree(a: seq<Entry>, b: seq<Entry>)
    requires a != [] && b != [] && a[0] == b[0]
    requires forall t :: WithTime(a, t) == WithTime(b, t)
    ensures forall t :: WithTime(a[1..], t) == WithTime(b[1..], t)
  {
    forall t ensures WithTime(a[1..], t) == WithTime(b[1..], t) {
      var h: seq<Entry> := if a[0].modifyTime == t then [a[0]] else [];
      assert WithTime(a, t) == h + WithTime(a[1..], t);
      assert WithTime(b, t) == h + WithTime(b[1..], t);
      assert WithTime(a, t) == WithTime(b, t);
      assert (h + WithTime(a[1..], t))[|h|..] == WithTime(a[1..], t);
      assert (h + WithTime(b[1..], t))[|h|..] == WithTime(b[1..], t);
    }
  }

  /** Order and stability fix the result: two sorted sequences that agree on
      every time's subsequence are equal. So every stable sort of the
      catalogue, `Array.prototype.sort` included, returns `SortBy`. */
  lemma {:induction false} SortedUnique(a: seq<Entry>, b: seq<Entry>, ascending: bool)
    requires Sorted(a, ascending) && Sorted(b, ascending)
    requires forall t :: WithTime(a, t) == WithTime(b, t)
    ensures a == b
    decreases |a|
  {
    if a == [] || b == [] {
      if a != [] {
        WithTimeHead(a);
        assert false;
      } else if b != [] {
        WithTimeHead(b);
        assert false;
      }
    } else {
      HeadsAgree(a, b, ascending);
      TailsAgree(a, b);
      assert Sorted(a[1..], ascending) && Sorted(b[1..], ascending);
      SortedUnique(a[1..], b[1..], ascending);
      assert a == [a[0]] + a[1..] && b == [b[0]] + b[1..];
    }
  }

  // ---------------------------------------------------------------- the two directions

  function Reverse(s: seq<Entry>): (r: seq<Entry>)
    ensures |r| == |s|
    ensures forall i :: 0 <= i < |s| ==> r[i] == s[|s| - 1 - i]
  {
    if s == [] then [] else Reverse(s[1..]) + [s[0]]
  }

  predicate DistinctTimes(s: seq<Entry>)
  {
    forall i, j :: 0 <= i < j < |s| ==> s[i].modifyTime != s[j].modifyTime
  }

  lemma ReverseSorted(s: seq<Entry>, ascending: bool)
    requires Sorted(s, ascending)
    ensures Sorted(Reverse(s), !ascending)
  {
    var r := Reverse(s);
    forall i, j | 0 <= i < j < |r| ensures InOrder(r[i], r[j], !ascending) {
      assert InOrder(s[|s| - 1 - j], s[|s| - 1 - i], ascending);
    }
  }

  lemma {:induction false} WithTimeReverse(s: seq<Entry>, t: int)
    ensures WithTime(Reverse(s), t) == Reverse(WithTime(s, t))
    decreases |s|
  {
    if s != [] {
      var head: seq<Entry> := if s[0].modifyTime == t then [s[0]] else [];
      WithTimeReverse(s[1..], t);
      WithTimeAppend(Reverse(s[1..]), [s[0]], t);
      assert WithTime([s[0]], t) == head + WithTime([s[0]][1..], t);
      ReverseAppend(head, WithTime(s[1..], t));
    }
  }

  lemma {:induction false} ReverseAppend(a: seq<Entry>, b: seq<Entry>)
    ensures Reverse(a + b) == Reverse(b) + Reverse(a)
  {
    var l, r := Reverse(a + b), Reverse(b) + Reverse(a);
    assert |l| == |r|;
    forall i | 0 <= i < |l| ensures l[i] == r[i] {
      if i < |b| {
        assert r[i] == Reverse(b)[i];
      } else {
        assert r[i] == Reverse(a)[i - |b|];
      }
    }
  }

  lemma {:induction false} DistinctWithTime(s: seq<Entry>, t: int)
    requires DistinctTimes(s)
    ensures |WithTime(s, t)| <= 1
    decreases |s|
  {
    if s != [] {
      DistinctWithTime(s[1..], t);
      if s[0].modifyTime == t {
        forall j | 0 <= j < |s[1..]| ensures s[1..][j].modifyTime != t {
          assert s[1..][j] == s[j + 1];
        }
        WithTimeNone(s[1..], t);
      }
    }
  }

  /** When no two entries share a modification time, the default newest
      first order is exactly the reverse of the oldest first order. */
  lemma DescendingReversesAscending(s: seq<Entry>)
    requires DistinctTimes(s)
    ensures SortBy(s, false) == Reverse(SortBy(s, true))
  {
    var up := SortBy(s, true);
    SortBySpec(s, true);
    SortBySpec(s, false);
    ReverseSorted(up, true);
    forall t ensures WithTime(SortBy(s, false), t) == WithTime(Reverse(up), t) {
      WithTimeReverse(up, t);
      DistinctWithTime(s, t);
      var w := WithTime(s, t);
      assert Reverse(w) == w by {
        if |w| == 1 {
          assert Reverse(w)[0] == w[0];
        }
      }
    }
    SortedUnique(SortBy(s, false), Reverse(up), false);
  }
}
