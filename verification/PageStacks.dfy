/** The stacks of write notices of a page, read off the lists of intervals, and that the notices a fetch takes from
    them are exactly the pending ones. */
module PageStacks {
  import opened Clocks
  import opened Nodes
  import NoticeOrder

  /** The stack of notices of page `g` by one process, newest first. */
  function NoticesOf(list: seq<Interval>, g: nat, diffs: set<Mark>): seq<NoticeOrder.Notice> {
    if list == [] then
      []
    else
      var last := list[|list| - 1];
      var rest := NoticesOf(list[..|list| - 1], g, diffs);
      if g in last.pages then
        [NoticeOrder.Notice(Stamp(last.id, last.vt), Mark(g, last.id, |list|) in diffs)] + rest
      else
        rest
  }

  function PageNotices(x: Node, g: nat): seq<seq<NoticeOrder.Notice>> {
    seq(|x.lists|, i requires 0 <= i < |x.lists| => NoticesOf(x.lists[i], g, x.diffs))
  }

  /** `e` stands for the interval of its time in the list. */
  ghost predicate Stands(n: nat, list: seq<Interval>, i: nat, g: nat, diffs: set<Mark>, e: NoticeOrder.Notice) {
    && e.stamp.id == i < n == |e.stamp.vt| && 1 <= Time(e.stamp) <= |list|
    && g in list[Time(e.stamp) - 1].pages && e.stamp.vt == list[Time(e.stamp) - 1].vt
    && (e.diffed <==> Mark(g, i, Time(e.stamp)) in diffs)
  }

  ghost predicate StampedList(n: nat, np: nat, list: seq<Interval>, i: nat) {
    forall k: nat :: k < |list| ==> WellStamped(n, np, list[k], i, k)
  }

  ghost predicate StackOk(n: nat, list: seq<Interval>, i: nat, g: nat, diffs: set<Mark>, es: seq<NoticeOrder.Notice>) {
    && (forall k :: 0 <= k < |es| ==> Stands(n, list, i, g, diffs, es[k]))
    && (forall j, k :: 0 <= j < k < |es| ==> Time(es[k].stamp) < Time(es[j].stamp))
  }

  lemma {:induction false} NoticesStand(n: nat, np: nat, list: seq<Interval>, i: nat, g: nat, diffs: set<Mark>)
    requires StampedList(n, np, list, i)
    ensures StackOk(n, list, i, g, diffs, NoticesOf(list, g, diffs))
  {
    if list != [] {
      var front, last := list[..|list| - 1], list[|list| - 1];
      var rest, es := NoticesOf(front, g, diffs), NoticesOf(list, g, diffs);
      assert forall k: nat :: k < |front| ==> front[k] == list[k];
      NoticesStand(n, np, front, i, g, diffs);
      assert WellStamped(n, np, last, i, |list| - 1);
      forall k | 0 <= k < |rest| ensures Stands(n, list, i, g, diffs, rest[k]) && Time(rest[k].stamp) < |list| {
        assert Stands(n, front, i, g, diffs, rest[k]);
      }
      if g in last.pages {
        assert Stands(n, list, i, g, diffs, es[0]);
        forall k | 0 < k < |es| ensures es[k] == rest[k - 1] {
        }
      }
    }
  }

  /** Every notice is in the stack. */
  lemma {:induction false} NoticeStacked(n: nat, np: nat, list: seq<Interval>, i: nat, g: nat, diffs: set<Mark>, t: nat) returns (k: nat)
    requires StampedList(n, np, list, i) && 1 <= t <= |list| && g in list[t - 1].pages
    ensures k < |NoticesOf(list, g, diffs)| && NoticesOf(list, g, diffs)[k].stamp == Stamp(i, list[t - 1].vt)
  {
    var front, last := list[..|list| - 1], list[|list| - 1];
    assert WellStamped(n, np, last, i, |list| - 1);
    if t == |list| {
      k := 0;
    } else {
      assert forall k: nat :: k < |front| ==> front[k] == list[k];
      k := NoticeStacked(n, np, front, i, g, diffs, t);
      if g in last.pages {
        k := k + 1;
      }
    }
  }

  lemma ListsStamped(n: nat, np: nat, x: Node, i: nat)
    requires Nodes.Inv(n, np, x) && i < n
    ensures StampedList(n, np, x.lists[i], i)
  {
    hide Nodes.Inv;
    ShapeOf(n, np, x);
  }

  lemma PageWellFormed(n: nat, np: nat, x: Node, g: nat)
    requires Nodes.Inv(n, np, x)
    ensures |x.lists| == n && NoticeOrder.WellFormed(n, PageNotices(x, g))
  {
    hide Nodes.Inv;
    ShapeOf(n, np, x);
    var lists := PageNotices(x, g);
    forall i: nat | i < n ensures StackOk(n, x.lists[i], i, g, x.diffs, lists[i]) {
      ListsStamped(n, np, x, i);
      NoticesStand(n, np, x.lists[i], i, g, x.diffs);
    }
  }

  /** A notice without a diff. */
  predicate IsPending(x: Node, g: nat, i: nat, t: nat) {
    Noticed(x, g, i, t) && Mark(g, i, t) !in x.diffs
  }

  /** A pending notice and its stamp. */
  ghost predicate PendingAs(x: Node, g: nat, i: nat, a: Stamp) {
    a.id == i < |a.vt| && IsPending(x, g, i, Time(a)) && a.vt == x.lists[i][Time(a) - 1].vt
  }

  lemma PendingStands(n: nat, x: Node, g: nat, i: nat, es: seq<NoticeOrder.Notice>, a: Stamp)
    requires i < |x.lists| && StackOk(n, x.lists[i], i, g, x.diffs, es) && a in NoticeOrder.Pending(es)
    ensures PendingAs(x, g, i, a)
  {
    NoticeOrder.PendingIsPrefix(es);
    var ps := NoticeOrder.Pending(es);
    var k :| 0 <= k < |ps| && ps[k] == a;
    assert Stands(n, x.lists[i], i, g, x.diffs, es[k]);
  }

  /** Stopping at the first notice that has its diff misses none that lacks it. */
  lemma PendingFound(n: nat, np: nat, x: Node, g: nat, i: nat, t: nat)
    requires Nodes.Inv(n, np, x) && i < |x.lists| == n && IsPending(x, g, i, t)
    ensures Stamp(i, x.lists[i][t - 1].vt) in NoticeOrder.Pending(PageNotices(x, g)[i])
  {
    hide Nodes.Inv;
    ListsStamped(n, np, x, i);
    var es := PageNotices(x, g)[i];
    var ps := NoticeOrder.Pending(es);
    NoticesStand(n, np, x.lists[i], i, g, x.diffs);
    NoticeOrder.PendingIsPrefix(es);
    var k := NoticeStacked(n, np, x.lists[i], i, g, x.diffs, t);
    assert Stands(n, x.lists[i], i, g, x.diffs, es[k]);
    assert WellStamped(n, np, x.lists[i][t - 1], i, t - 1);
    if k >= |ps| {
      assert Stands(n, x.lists[i], i, g, x.diffs, es[|ps|]);
      OlderDiffed(n, np, x, g, i, t, Time(es[|ps|].stamp));
    }
    assert ps[k] == es[k].stamp;
  }

  lemma OlderDiffed(n: nat, np: nat, x: Node, g: nat, i: nat, t: nat, u: nat)
    requires Nodes.Inv(n, np, x) && IsPending(x, g, i, t)
    ensures Mark(g, i, u) in x.diffs ==> u <= t
  {
    assert t < u && Mark(g, i, u) in x.diffs ==> Mark(g, i, t) in x.diffs;
  }

  lemma {:induction false} AllPendingHas(lists: seq<seq<NoticeOrder.Notice>>)
    ensures forall a :: a in NoticeOrder.AllPending(lists) ==> exists i: nat :: i < |lists| && a in NoticeOrder.Pending(lists[i])
    ensures forall a, i: nat :: i < |lists| && a in NoticeOrder.Pending(lists[i]) ==> a in NoticeOrder.AllPending(lists)
  {
    if lists != [] {
      var front := lists[..|lists| - 1];
      AllPendingHas(front);
      forall a | a in NoticeOrder.AllPending(lists) ensures exists i: nat :: i < |lists| && a in NoticeOrder.Pending(lists[i]) {
        if a in NoticeOrder.AllPending(front) {
          var i: nat :| i < |front| && a in NoticeOrder.Pending(front[i]);
          assert front[i] == lists[i];
        }
      }
      forall a, i: nat | i < |lists| && a in NoticeOrder.Pending(lists[i]) ensures a in NoticeOrder.AllPending(lists) {
        if i < |front| {
          assert front[i] == lists[i];
        }
      }
    }
  }

  /** A page that is not valid has no pending notice of the process itself. */
  lemma OwnNotPending(n: nat, np: nat, x: Node, g: nat, t: nat)
    requires Nodes.Inv(n, np, x) && g < np && x.state[g] != Valid
    ensures !IsPending(x, g, x.id, t)
  {
    assert IsPending(x, g, x.id, t) ==> g in x.twins;
  }

  /** What the sorted array holds is exactly the pending notices. */
  lemma {:induction false} SortedArePending(n: nat, np: nat, x: Node, g: nat, w: seq<Stamp>)
    requires Nodes.Inv(n, np, x)
    requires multiset(w) == multiset(NoticeOrder.AllPending(PageNotices(x, g)))
    ensures forall a :: a in w ==> a.id < n && PendingAs(x, g, a.id, a)
    ensures forall i: nat, t: nat :: IsPending(x, g, i, t) ==> Stamp(i, x.lists[i][t - 1].vt) in w
  {
    hide Nodes.Inv;
    ShapeOf(n, np, x);
    var lists := PageNotices(x, g);
    NoticeOrder.SameElements(w, NoticeOrder.AllPending(lists));
    AllPendingHas(lists);
    forall a | a in w ensures a.id < n && PendingAs(x, g, a.id, a) {
      var i: nat :| i < |lists| && a in NoticeOrder.Pending(lists[i]);
      ListsStamped(n, np, x, i);
      NoticesStand(n, np, x.lists[i], i, g, x.diffs);
      PendingStands(n, x, g, i, lists[i], a);
    }
    forall i: nat, t: nat | IsPending(x, g, i, t) ensures Stamp(i, x.lists[i][t - 1].vt) in w {
      PendingFound(n, np, x, g, i, t);
    }
  }
}
