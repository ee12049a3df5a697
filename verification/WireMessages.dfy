/** The intervals a process keeps, and the words they travel as, speak of the same thing: what the sender writes for
    a vector time is what the receiver's lists lack, and reading it back changes no process, time or page. */
module WireMessages {
  import Wire = IntervalCodec
  import Nodes

  /** An interval on the wire as the processes see it: the times of the `n` processes, and the set of its pages. */
  function Plain(n: nat, iv: Wire.Interval): Nodes.Interval
    requires n <= |iv.vt|
  {
    Nodes.Interval(iv.id, iv.vt[..n], set g | g in Wire.Pages(iv.ranges))
  }

  predicate Long(n: nat, ivs: seq<Wire.Interval>) {
    forall k :: 0 <= k < |ivs| ==> n <= |ivs[k].vt|
  }

  function PlainAll(n: nat, ivs: seq<Wire.Interval>): (r: seq<Nodes.Interval>)
    requires Long(n, ivs)
    ensures |r| == |ivs|
  {
    seq(|ivs|, k requires 0 <= k < |ivs| => Plain(n, ivs[k]))
  }

  /** Ranges of two pages come back as two ranges; the interval is the same. */
  lemma ReadBackIsSame(n: nat, iv: Wire.Interval)
    requires n <= |iv.vt|
    ensures Plain(n, iv.(ranges := Wire.Split(iv.ranges))) == Plain(n, iv)
  {
    Wire.SplitSamePages(iv.ranges);
  }

  /** A process's list is contiguous in that process's own time. */
  predicate Contiguous(n: nat, list: seq<Wire.Interval>, i: nat) {
    i < n && Long(n, list) && forall k: nat :: k < |list| ==> list[k].vt[i] == k + 1
  }

  /** Searching back for the first interval newer than a time finds where that time ends. */
  lemma {:induction false} NewerIsAfter(n: nat, list: seq<Wire.Interval>, i: nat, t: nat)
    requires Contiguous(n, list, i)
    ensures Wire.Newer(list, i, t) == if t <= |list| then list[t..] else []
    decreases |list|
  {
    if list != [] {
      var front := list[..|list| - 1];
      assert forall k: nat :: k < |front| ==> front[k] == list[k];
      if t < |list| {
        NewerIsAfter(n, front, i, t);
        assert list[t..] == front[t..] + [list[|list| - 1]];
      }
    }
  }

  predicate AllContiguous(n: nat, lists: seq<seq<Wire.Interval>>) {
    |lists| <= n && forall i: nat :: i < |lists| ==> Contiguous(n, lists[i], i)
  }

  function PlainLists(n: nat, lists: seq<seq<Wire.Interval>>): (r: seq<seq<Nodes.Interval>>)
    requires AllContiguous(n, lists)
    ensures |r| == |lists|
  {
    seq(|lists|, i requires 0 <= i < |lists| => PlainAll(n, lists[i]))
  }

  lemma {:induction false} MissingLong(n: nat, lists: seq<seq<Wire.Interval>>, v: seq<nat>)
    requires AllContiguous(n, lists) && |v| >= |lists|
    ensures Long(n, Wire.Missing(lists, v))
    decreases |lists|
  {
    if lists != [] {
      var i: nat := |lists| - 1;
      assert forall k: nat :: k < i ==> lists[..i][k] == lists[k];
      MissingLong(n, lists[..i], v);
      NewerIsAfter(n, lists[i], i, v[i]);
    }
  }

  lemma PlainInTwo(n: nat, a: seq<Wire.Interval>, b: seq<Wire.Interval>)
    requires Long(n, a) && Long(n, b)
    ensures Long(n, a + b) && PlainAll(n, a + b) == PlainAll(n, a) + PlainAll(n, b)
  {
  }

  /** One process's part. */
  lemma PlainPart(n: nat, list: seq<Wire.Interval>, i: nat, t: nat)
    requires Contiguous(n, list, i)
    ensures Long(n, Wire.Newer(list, i, t)) && PlainAll(n, Wire.Newer(list, i, t)) == Nodes.After(PlainAll(n, list), t)
  {
    NewerIsAfter(n, list, i, t);
  }

  lemma MissingSnoc(lists: seq<seq<Wire.Interval>>, n: nat, v: seq<nat>, i: nat)
    requires AllContiguous(n, lists) && |v| == |lists| && 0 < i <= |lists|
    ensures AllContiguous(n, lists[..i]) && AllContiguous(n, lists[..i - 1])
    ensures Wire.Missing(lists[..i], v) == Wire.Missing(lists[..i - 1], v) + Wire.Newer(lists[i - 1], i - 1, v[i - 1])
  {
    assert lists[..i][..i - 1] == lists[..i - 1];
  }

  lemma {:induction false} MissingSoFar(n: nat, lists: seq<seq<Wire.Interval>>, v: seq<nat>, i: nat)
    requires AllContiguous(n, lists) && |v| == |lists| && i <= |lists| && AllContiguous(n, lists[..i])
    requires Long(n, Wire.Missing(lists[..i], v))
    ensures Nodes.MissingFrom(PlainLists(n, lists), v, 0) ==
            PlainAll(n, Wire.Missing(lists[..i], v)) + Nodes.MissingFrom(PlainLists(n, lists), v, i)
    decreases i
  {
    hide Wire.Missing;
    hide Wire.Newer;
    hide PlainAll;
    var all := PlainLists(n, lists);
    if i == 0 {
      NothingMissing(n, lists, v);
    } else {
      MissingSnoc(lists, n, v, i);
      var before, part := Wire.Missing(lists[..i - 1], v), Wire.Newer(lists[i - 1], i - 1, v[i - 1]);
      MissingLong(n, lists[..i - 1], v);
      MissingSoFar(n, lists, v, i - 1);
      PlainPart(n, lists[i - 1], i - 1, v[i - 1]);
      PlainInTwo(n, before, part);
      var rest := Nodes.MissingFrom(all, v, i);
      assert Nodes.MissingFrom(all, v, i - 1) == PlainAll(n, part) + rest;
      assert (PlainAll(n, before) + PlainAll(n, part)) + rest == PlainAll(n, before) + (PlainAll(n, part) + rest);
    }
  }

  lemma NothingMissing(n: nat, lists: seq<seq<Wire.Interval>>, v: seq<nat>)
    requires |v| == |lists|
    ensures Wire.Missing(lists[..0], v) == [] && Long(n, []) && PlainAll(n, []) == []
  {
  }

  /** What goes on the wire for a vector time is, as the processes see it, exactly what its owner lacks. */
  lemma {:induction false} WireIsMessage(n: nat, lists: seq<seq<Wire.Interval>>, v: seq<nat>)
    requires AllContiguous(n, lists) && |v| == |lists|
    ensures Long(n, Wire.Missing(lists, v))
    ensures PlainAll(n, Wire.Missing(lists, v)) == Nodes.Missing(PlainLists(n, lists), v)
  {
    MissingLong(n, lists, v);
    assert lists[..|lists|] == lists;
    MissingSoFar(n, lists, v, |lists|);
  }
}
