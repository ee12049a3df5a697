/** Ordering the pending write notices of a page and packing them into requests. */
module NoticeOrder {
  import opened Clocks

  datatype Notice = Notice(stamp: Stamp, diffed: bool)

  // ---------------------------------------------------------------- the sort

  /** The notices of one process still without a diff: the newest ones, which head its list. */
  function Pending(list: seq<Notice>): seq<Stamp> {
    if list == [] || list[0].diffed then [] else [list[0].stamp] + Pending(list[1..])
  }

  function AllPending(lists: seq<seq<Notice>>): seq<Stamp> {
    if lists == [] then [] else AllPending(lists[..|lists| - 1]) + Pending(lists[|lists| - 1])
  }

  /** The first position from `j` on whose notice `x` has seen, or the end. */
  function Position(s: seq<Stamp>, j: nat, x: Stamp): (p: nat)
    requires j <= |s|
    ensures j <= p <= |s|
    ensures forall k :: j <= k < p ==> !Precedes(s[k], x)
    ensures p < |s| ==> Precedes(s[p], x)
    decreases |s| - j
  {
    if j == |s| || Precedes(s[j], x) then j else Position(s, j + 1, x)
  }

  function Insert(s: seq<Stamp>, p: nat, x: Stamp): seq<Stamp>
    requires p <= |s|
  {
    s[..p] + [x] + s[p..]
  }

  /** Insert one process's pending notices, newest first, never looking left of the last one. */
  function InsertAll(s: seq<Stamp>, j: nat, xs: seq<Stamp>): seq<Stamp>
    requires j <= |s|
    decreases |xs|
  {
    if xs == [] then
      s
    else
      var p := Position(s, j, xs[0]);
      InsertAll(Insert(s, p, xs[0]), p + 1, xs[1..])
  }

  function SortAll(lists: seq<seq<Notice>>): seq<Stamp> {
    if lists == [] then
      []
    else
      InsertAll(SortAll(lists[..|lists| - 1]), 0, Pending(lists[|lists| - 1]))
  }

  /** No notice has been seen by one placed after it: the newest come first. */
  predicate NewestFirst(s: seq<Stamp>) {
    forall i, j :: 0 <= i < j < |s| ==> !Precedes(s[i], s[j])
  }

  predicate Descending(xs: seq<Stamp>) {
    forall i, j :: 0 <= i < j < |xs| ==> xs[i].id == xs[j].id && Time(xs[j]) < Time(xs[i])
  }

  lemma InsertKeepsOrder(s: seq<Stamp>, p: nat, x: Stamp)
    requires p <= |s| && NewestFirst(s)
    requires forall k :: 0 <= k < p ==> !Precedes(s[k], x)
    requires forall k :: p <= k < |s| ==> !Precedes(x, s[k])
    ensures NewestFirst(Insert(s, p, x))
  {
    var t := Insert(s, p, x);
    forall i, k | 0 <= i < k < |t| ensures !Precedes(t[i], t[k]) {
      assert t[i] == if i < p then s[i] else if i == p then x else s[i - 1];
      assert t[k] == if k < p then s[k] else if k == p then x else s[k - 1];
    }
  }

  lemma InsertOrdered(n: nat, stamps: set<Stamp>, s: seq<Stamp>, j: nat, x: Stamp)
    requires Causal(n, stamps) && x in stamps && x !in s && (forall a :: a in s ==> a in stamps)
    requires j <= |s| && NewestFirst(s)
    requires forall k :: 0 <= k < j ==> !Precedes(s[k], x)
    ensures NewestFirst(Insert(s, Position(s, j, x), x))
  {
    var p := Position(s, j, x);
    forall b | p <= b < |s| ensures !Precedes(x, s[b]) {
      assert s[p] in s && s[b] in s;
      if Precedes(x, s[b]) && b != p {
        PrecedesTransitive(n, stamps, s[p], x, s[b]);
      }
    }
    InsertKeepsOrder(s, p, x);
  }

  /** What comes next from the same process is older, so nothing placed so far has been seen by it. */
  lemma StillUnseen(n: nat, stamps: set<Stamp>, s: seq<Stamp>, p: nat, xs: seq<Stamp>, k: nat, i: nat)
    requires Causal(n, stamps) && (forall a :: a in s || a in xs ==> a in stamps)
    requires p <= |s| && 0 < |xs| && Descending(xs) && 0 < i < |xs| && k < p + 1
    requires forall k :: 0 <= k < p ==> !Precedes(s[k], xs[0])
    ensures !Precedes(Insert(s, p, xs[0])[k], xs[i])
  {
    var x, y := xs[0], xs[i];
    assert x in stamps && y in stamps && Time(y) < Time(x);
    if k < p && Precedes(s[k], y) {
      PrecedesTransitive(n, stamps, s[k], y, x);
    }
  }

  lemma {:induction false} InsertAllOrdered(n: nat, stamps: set<Stamp>, s: seq<Stamp>, j: nat, xs: seq<Stamp>)
    requires Causal(n, stamps) && (forall a :: a in s || a in xs ==> a in stamps)
    requires j <= |s| && NewestFirst(s) && Descending(xs)
    requires forall x :: x in xs ==> x !in s
    requires forall k, i :: 0 <= k < j && 0 <= i < |xs| ==> !Precedes(s[k], xs[i])
    ensures NewestFirst(InsertAll(s, j, xs))
    decreases |xs|
  {
    hide Precedes;
    hide Causal;
    hide Insert;
    hide Position;
    if xs != [] {
      var x, rest := xs[0], xs[1..];
      var p := Position(s, j, x);
      var t := Insert(s, p, x);
      InsertOrdered(n, stamps, s, j, x);
      InsertHas(s, p, x);
      forall k, i | 0 <= k < p + 1 && 0 <= i < |rest| ensures !Precedes(t[k], rest[i]) {
        StillUnseen(n, stamps, s, p, xs, k, i + 1);
      }
      InsertAllOrdered(n, stamps, t, p + 1, rest);
    }
  }

  lemma {:induction false} InsertAllPermutes(s: seq<Stamp>, j: nat, xs: seq<Stamp>)
    requires j <= |s|
    ensures multiset(InsertAll(s, j, xs)) == multiset(s) + multiset(xs)
    decreases |xs|
  {
    if xs != [] {
      var p := Position(s, j, xs[0]);
      assert s == s[..p] + s[p..];
      InsertAllPermutes(Insert(s, p, xs[0]), p + 1, xs[1..]);
      assert xs == [xs[0]] + xs[1..];
    }
  }

  lemma InsertHas(s: seq<Stamp>, p: nat, x: Stamp)
    requires p <= |s|
    ensures |Insert(s, p, x)| == |s| + 1
    ensures forall y :: y in Insert(s, p, x) <==> y in s || y == x
  {
    assert s == s[..p] + s[p..];
  }

  /** What the lists of a page look like: process `i`'s notices, newest first. */
  ghost predicate WellFormed(n: nat, lists: seq<seq<Notice>>) {
    && |lists| <= n
    && (forall i, k :: 0 <= i < |lists| && 0 <= k < |lists[i]| ==>
         lists[i][k].stamp.id == i && |lists[i][k].stamp.vt| == n)
    && (forall i, j, k :: 0 <= i < |lists| && 0 <= j < k < |lists[i]| ==>
         Time(lists[i][k].stamp) < Time(lists[i][j].stamp))
  }

  lemma {:induction false} PendingIsPrefix(list: seq<Notice>)
    ensures |Pending(list)| <= |list|
    ensures forall k :: 0 <= k < |Pending(list)| ==> Pending(list)[k] == list[k].stamp && !list[k].diffed
    ensures |Pending(list)| < |list| ==> list[|Pending(list)|].diffed
  {
    if list != [] && !list[0].diffed {
      PendingIsPrefix(list[1..]);
      assert Pending(list) == [list[0].stamp] + Pending(list[1..]);
      forall k | 0 <= k < |Pending(list)| ensures Pending(list)[k] == list[k].stamp && !list[k].diffed {
        assert k > 0 ==> Pending(list)[k] == Pending(list[1..])[k - 1] && list[k] == list[1..][k - 1];
      }
    }
  }

  lemma PendingShape(n: nat, lists: seq<seq<Notice>>, i: nat)
    requires WellFormed(n, lists) && i < |lists|
    ensures Descending(Pending(lists[i]))
    ensures forall x :: x in Pending(lists[i]) ==> x.id == i
  {
    PendingIsPrefix(lists[i]);
  }

  lemma {:induction false} AllPendingIds(n: nat, lists: seq<seq<Notice>>)
    requires WellFormed(n, lists)
    ensures forall x :: x in AllPending(lists) ==> x.id < |lists|
  {
    if lists != [] {
      var front := lists[..|lists| - 1];
      AllPendingIds(n, front);
      PendingShape(n, lists, |lists| - 1);
    }
  }

  lemma SameElements(s: seq<Stamp>, t: seq<Stamp>)
    requires multiset(s) == multiset(t)
    ensures forall a :: a in s <==> a in t
  {
    forall a ensures a in s <==> a in t {
      assert a in s <==> a in multiset(s);
    }
  }

  /** Whatever the stamps, the sort takes each pending notice once. */
  lemma {:induction false} SortPermutes(lists: seq<seq<Notice>>)
    ensures multiset(SortAll(lists)) == multiset(AllPending(lists))
  {
    if lists != [] {
      var front, xs := lists[..|lists| - 1], Pending(lists[|lists| - 1]);
      assert AllPending(lists) == AllPending(front) + xs;
      SortPermutes(front);
      InsertAllPermutes(SortAll(front), 0, xs);
    }
  }

  /** The sort is a permutation of the pending notices in which nothing has been seen by a notice
      placed after it: read from the high index down, it is a linear extension of happened-before. */
  lemma {:induction false} SortIsLinearExtension(n: nat, stamps: set<Stamp>, lists: seq<seq<Notice>>)
    requires WellFormed(n, lists)
    requires Causal(n, stamps) && (forall x :: x in AllPending(lists) ==> x in stamps)
    ensures multiset(SortAll(lists)) == multiset(AllPending(lists))
    ensures NewestFirst(SortAll(lists))
  {
    if lists != [] {
      var front, xs := lists[..|lists| - 1], Pending(lists[|lists| - 1]);
      assert AllPending(lists) == AllPending(front) + xs;
      SortIsLinearExtension(n, stamps, front);
      AllPendingIds(n, front);
      PendingShape(n, lists, |lists| - 1);
      var s := SortAll(front);
      SameElements(s, AllPending(front));
      InsertAllOrdered(n, stamps, s, 0, xs);
    }
    SortPermutes(lists);
  }

  /** The array form: a zero stamp closes the array, so the search needs no bound test, and each
      insertion shifts the tail, sentinel included, up by one. */
  method SortPending(n: nat, lists: seq<seq<Notice>>, write: array<Stamp>) returns (count: nat)
    requires n > 0 && |lists| == n
    requires forall i, k :: 0 <= i < n && 0 <= k < |lists[i]| ==> |lists[i][k].stamp.vt| == n
    requires |AllPending(lists)| < write.Length
    modifies write
    ensures count == |AllPending(lists)|
    ensures write[..count] == SortAll(lists)
  {
    count := 0;
    write[0] := Sentinel(n);
    for i := 0 to n
      invariant count == |AllPending(lists[..i])| && count < write.Length
      invariant write[..count] == SortAll(lists[..i]) && write[count] == Sentinel(n)
    {
      assert lists[..i + 1][..i] == lists[..i];
      LongerPending(lists, i + 1);
      count := InsertList(n, lists[i], write, count);
    }
    assert lists[..n] == lists;
  }

  method InsertList(n: nat, list: seq<Notice>, write: array<Stamp>, before: nat) returns (count: nat)
    requires n > 0
    requires forall k :: 0 <= k < |list| ==> |list[k].stamp.vt| == n
    requires before + |Pending(list)| < write.Length && write[before] == Sentinel(n)
    modifies write
    ensures count == before + |Pending(list)| && write[count] == Sentinel(n)
    ensures write[..count] == InsertAll(old(write[..before]), 0, Pending(list))
  {
    PendingIsPrefix(list);
    hide Pending;
    hide Position;
    hide Precedes;
    hide InsertAll;
    hide Insert;
    ghost var start, xs := write[..before], Pending(list);
    count := before;
    var w: nat, j: nat := 0, 0;
    while w < |list| && !list[w].diffed
      invariant w <= |xs| && j <= count == before + w
      invariant write[count] == Sentinel(n)
      invariant InsertAll(start, 0, xs) == InsertAll(write[..count], j, xs[w..])
    {
      var x := list[w].stamp;
      InsertAllUnfold(write[..count], j, xs, w);
      j := Seek(n, write, count, j, x);
      ShiftIn(write, count, j, x);
      count := count + 1;
      j := j + 1;
      w := w + 1;
    }
    assert xs[w..] == [];
    InsertNone(write[..count], j);
  }

  lemma InsertNone(s: seq<Stamp>, j: nat)
    requires j <= |s|
    ensures InsertAll(s, j, []) == s
  {
  }

  lemma InsertAllUnfold(s: seq<Stamp>, j: nat, xs: seq<Stamp>, w: nat)
    requires j <= |s| && w < |xs|
    ensures var p := Position(s, j, xs[w]);
            InsertAll(s, j, xs[w..]) == InsertAll(Insert(s, p, xs[w]), p + 1, xs[w + 1..])
  {
    assert xs[w..][0] == xs[w] && xs[w..][1..] == xs[w + 1..];
  }

  method Seek(n: nat, write: array<Stamp>, count: nat, from: nat, x: Stamp) returns (j: nat)
    requires n > 0 && |x.vt| == n
    requires from <= count < write.Length && write[count] == Sentinel(n)
    ensures j == Position(write[..count], from, x)
  {
    ghost var s := write[..count];
    j := from;
    while !Precedes(write[j], x)
      invariant from <= j <= count
      invariant Position(s, from, x) == Position(s, j, x)
      decreases count - j
    {
      j := j + 1;
    }
  }

  function Sentinel(n: nat): Stamp {
    Stamp(0, seq(n, _ => 0))
  }

  lemma {:induction false} LongerPending(lists: seq<seq<Notice>>, i: nat)
    requires 0 < i <= |lists|
    ensures AllPending(lists[..i]) == AllPending(lists[..i - 1]) + Pending(lists[i - 1])
    ensures |AllPending(lists[..i])| <= |AllPending(lists)|
    decreases |lists| - i
  {
    assert lists[..i][..i - 1] == lists[..i - 1];
    if i < |lists| {
      LongerPending(lists, i + 1);
    } else {
      assert lists[..i] == lists;
    }
  }

  method ShiftIn(write: array<Stamp>, count: nat, j: nat, x: Stamp)
    requires j <= count && count + 1 < write.Length
    modifies write
    ensures |Insert(old(write[..count]), j, x)| == count + 1
    ensures write[..count + 1] == Insert(old(write[..count]), j, x)
    ensures write[count + 1] == old(write[count])
  {
    ghost var was := write[..];
    var k := count + 1;
    write[k] := write[k - 1];
    k := k - 1;
    while k > j
      invariant j <= k <= count
      invariant forall i :: 0 <= i <= k ==> write[i] == was[i]
      invariant forall i :: k < i <= count + 1 ==> write[i] == was[i - 1]
    {
      write[k] := write[k - 1];
      k := k - 1;
    }
    write[k] := x;
    ShiftedIn(was[..count], write[..count + 1], j, x);
  }

  lemma ShiftedIn(s: seq<Stamp>, t: seq<Stamp>, j: nat, x: Stamp)
    requires j <= |s| && |t| == |s| + 1 && t[j] == x
    requires forall i :: 0 <= i < j ==> t[i] == s[i]
    requires forall i :: j < i <= |s| ==> t[i] == s[i - 1]
    ensures t == Insert(s, j, x)
  {
  }
}
