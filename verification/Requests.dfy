/** The diff requests by which a process brings a page up to date: its pending notices, sorted and packed. */
module Requests {
  import opened Clocks
  import opened Nodes
  import opened PageStacks
  import NoticeOrder
  import Batching

  /** A diff asked of a process. */
  datatype Ask = Ask(server: nat, mark: Mark)

  /** The diffs that the requests ask for, and of whom. */
  function AsksOf(batches: seq<Batching.Batch>, g: nat): seq<Ask> {
    if batches == [] then [] else AsksTo(batches[0].to, batches[0].asked, g) + AsksOf(batches[1..], g)
  }

  function AsksTo(to: nat, asked: seq<(nat, nat)>, g: nat): seq<Ask> {
    seq(|asked|, k requires 0 <= k < |asked| => Ask(to, Mark(g, asked[k].0, asked[k].1)))
  }

  /** What a process asks for, and of whom, when it brings page `g` up to date. */
  function RequestsFor(x: Node, g: nat): seq<Ask> {
    AsksOf(Batching.PackAll(NoticeOrder.SortAll(PageNotices(x, g))), g)
  }

  /** What touching page `g` makes a process ask for. */
  function Wanted(x: Node, g: nat): seq<Ask>
    requires g < |x.state|
  {
    if x.state[g] == Valid || x.state[g] == Private then [] else RequestsFor(x, g)
  }

  /** A request another process can be sent: for a notice of the page that the sender knows. */
  ghost predicate ProperAsk(n: nat, x: Node, g: nat, a: Ask) {
    a.server < n && a.server != x.id && a.mark.page == g && Noticed(x, g, a.mark.id, a.mark.time)
  }

  lemma ProperServer(n: nat, x: Node, g: nat, a: Ask)
    requires ProperAsk(n, x, g, a)
    ensures a.server < n && a.server != x.id && a.mark.page == g
  {
  }

  ghost predicate IsAsked(asks: seq<Ask>, m: Mark) {
    exists k :: 0 <= k < |asks| && asks[k].mark == m
  }

  /** Every pending diff is asked for, each of another process. */
  ghost predicate ProperAsks(n: nat, x: Node, g: nat, asks: seq<Ask>) {
    && (forall k :: 0 <= k < |asks| ==> ProperAsk(n, x, g, asks[k]))
    && (forall i: nat, t: nat :: IsPending(x, g, i, t) ==> IsAsked(asks, Mark(g, i, t)))
  }

  /** The diff goes to a process with a later interval of its own on the page, which had seen the notice. */
  ghost predicate LegalAsk(n: nat, x: Node, g: nat, a: Ask) {
    && ProperAsk(n, x, g, a)
    && exists t: nat :: Noticed(x, g, a.server, t) && HadSeen(x.lists[a.server][t - 1], a.mark)
  }

  predicate HadSeen(iv: Interval, m: Mark) {
    m.id < |iv.vt| && m.time <= iv.vt[m.id]
  }

  predicate Answers(x: Node, m: Mark) {
    x.id < |x.lists| && Answerable(x, m)
  }

  /** The servers can give all that is asked of them. */
  predicate AllAnswered(nodes: seq<Node>, asks: seq<Ask>) {
    forall k :: 0 <= k < |asks| ==> asks[k].server < |nodes| && Answers(nodes[asks[k].server], asks[k].mark)
  }

  // ---------------------------------------------------------------- what the requests ask for

  lemma {:induction false} AsksComeFrom(batches: seq<Batching.Batch>, g: nat)
    ensures forall a :: a in AsksOf(batches, g) ==>
              a.mark.page == g && exists i: nat :: i < |batches| && a.server == batches[i].to && (a.mark.id, a.mark.time) in batches[i].asked
    ensures forall i: nat, m :: i < |batches| && m in batches[i].asked ==> Ask(batches[i].to, Mark(g, m.0, m.1)) in AsksOf(batches, g)
  {
    if batches != [] {
      AsksComeFrom(batches[1..], g);
      var first := AsksTo(batches[0].to, batches[0].asked, g);
      forall a | a in AsksOf(batches, g)
        ensures a.mark.page == g && exists i: nat :: i < |batches| && a.server == batches[i].to && (a.mark.id, a.mark.time) in batches[i].asked
      {
        if a in first {
          var k :| 0 <= k < |first| && first[k] == a;
          assert (a.mark.id, a.mark.time) == batches[0].asked[k];
        } else {
          var i: nat :| i < |batches[1..]| && a.server == batches[1..][i].to && (a.mark.id, a.mark.time) in batches[1..][i].asked;
          assert batches[1..][i] == batches[i + 1];
        }
      }
      forall i: nat, m | i < |batches| && m in batches[i].asked ensures Ask(batches[i].to, Mark(g, m.0, m.1)) in AsksOf(batches, g) {
        if i == 0 {
          var k :| 0 <= k < |batches[0].asked| && batches[0].asked[k] == m;
          assert first[k] == Ask(batches[0].to, Mark(g, m.0, m.1));
        } else {
          assert batches[1..][i - 1] == batches[i];
        }
      }
    }
  }

  lemma {:induction false} AskedFrom(w: seq<Stamp>, lo: int, hi: int, m: (nat, nat)) returns (k: int)
    requires -1 <= lo <= hi < |w| && m in Batching.Asked(w, lo, hi)
    ensures lo < k <= hi && m == (w[k].id, Time(w[k]))
    decreases hi - lo
  {
    if m == (w[lo + 1].id, Time(w[lo + 1])) {
      k := lo + 1;
    } else {
      k := AskedFrom(w, lo + 1, hi, m);
    }
  }

  lemma AskedIsAsk(batches: seq<Batching.Batch>, g: nat, c: nat, m: (nat, nat))
    requires c < |batches| && m in batches[c].asked
    ensures Ask(batches[c].to, Mark(g, m.0, m.1)) in AsksOf(batches, g)
  {
    AsksComeFrom(batches, g);
  }

  lemma PendingIsAsked(n: nat, np: nat, x: Node, g: nat, w: seq<Stamp>, batches: seq<Batching.Batch>, i: nat, t: nat)
    requires Nodes.Inv(n, np, x) && Batching.Cuts(w, batches, -1) && IsPending(x, g, i, t)
    requires Stamp(i, x.lists[i][t - 1].vt) in w
    ensures IsAsked(AsksOf(batches, g), Mark(g, i, t))
  {
    hide Nodes.Inv;
    hide Batching.Cuts;
    hide AsksOf;
    ShapeOf(n, np, x);
    var a := Stamp(i, x.lists[i][t - 1].vt);
    assert WellStamped(n, np, x.lists[i][t - 1], i, t - 1);
    var j: nat :| j < |w| && w[j] == a;
    var c := Batching.AskedOnce(w, batches, j);
    assert (w[j].id, Time(w[j])) == (i, t);
    AskedIsAsk(batches, g, c, (i, t));
  }

  /** An ask goes to the maker of a pending notice of another process. */
  lemma AskIsProper(n: nat, np: nat, x: Node, g: nat, w: seq<Stamp>, b: Batching.Batch, a: Ask) returns (j: int)
    requires Nodes.Inv(n, np, x) && g < np && |x.state| == np && x.state[g] != Valid && Batching.Cut(w, b)
    requires forall a :: a in w ==> a.id < n && PendingAs(x, g, a.id, a)
    requires a.mark.page == g && a.server == b.to && (a.mark.id, a.mark.time) in b.asked
    ensures ProperAsk(n, x, g, a) && b.lo < j <= b.hi < |w| && 0 <= b.lo + 1
    ensures a.mark.id == w[j].id && a.mark.time == Time(w[j])
    ensures PendingAs(x, g, a.server, w[b.lo + 1])
  {
    hide Nodes.Inv;
    ShapeOf(n, np, x);
    j := AskedFrom(w, b.lo, b.hi, (a.mark.id, a.mark.time));
    var d := w[b.lo + 1];
    assert d in w && w[j] in w;
    assert PendingAs(x, g, d.id, d) && PendingAs(x, g, w[j].id, w[j]);
    if a.server == x.id {
      OwnNotPending(n, np, x, g, Time(d));
    }
  }

  lemma AskIsLegal(n: nat, np: nat, x: Node, g: nat, w: seq<Stamp>, b: Batching.Batch, a: Ask)
    requires Nodes.Inv(n, np, x) && g < np && |x.state| == np && x.state[g] != Valid && Batching.GoodBatch(w, b)
    requires forall a :: a in w ==> a.id < n && PendingAs(x, g, a.id, a)
    requires a.mark.page == g && a.server == b.to && (a.mark.id, a.mark.time) in b.asked
    ensures LegalAsk(n, x, g, a)
  {
    hide Nodes.Inv;
    var j := AskIsProper(n, np, x, g, w, b, a);
    var d := w[b.lo + 1];
    assert Batching.Sees(w, b.lo + 1, j);
    assert Noticed(x, g, a.server, Time(d)) && HadSeen(x.lists[a.server][Time(d) - 1], a.mark);
  }

  /** Whatever the stamps, the requests ask for every pending diff, each of another process that wrote the page. */
  lemma {:induction false} RequestsAreProper(n: nat, np: nat, x: Node, g: nat)
    requires Nodes.Inv(n, np, x) && g < np && |x.state| == np && x.state[g] != Valid
    ensures ProperAsks(n, x, g, RequestsFor(x, g))
  {
    hide Nodes.Inv;
    hide ProperAsk;
    hide IsAsked;
    hide PageNotices;
    hide IsPending;
    hide NoticeOrder.SortAll;
    hide NoticeOrder.AllPending;
    hide Batching.PackAll;
    hide AsksOf;
    var lists := PageNotices(x, g);
    var w := NoticeOrder.SortAll(lists);
    var batches, asks := Batching.PackAll(w), RequestsFor(x, g);
    NoticeOrder.SortPermutes(lists);
    SortedArePending(n, np, x, g, w);
    Batching.PackCovers(w);
    AsksComeFrom(batches, g);
    forall k | 0 <= k < |asks| ensures ProperAsk(n, x, g, asks[k]) {
      var a := asks[k];
      assert a in asks;
      var i: nat :| i < |batches| && a.server == batches[i].to && (a.mark.id, a.mark.time) in batches[i].asked;
      var j := AskIsProper(n, np, x, g, w, batches[i], a);
    }
    forall i: nat, t: nat | IsPending(x, g, i, t) ensures IsAsked(asks, Mark(g, i, t)) {
      PendingIsAsked(n, np, x, g, w, batches, i, t);
    }
  }

  /** Where having seen is transitive among the pending notices, each is asked of a process that wrote the page
      later, having seen it. */
  lemma {:induction false} RequestsAreLegal(n: nat, np: nat, x: Node, g: nat)
    requires Nodes.Inv(n, np, x) && g < np && |x.state| == np && x.state[g] != Valid
    requires Batching.Sighted(NoticeOrder.SortAll(PageNotices(x, g)))
    ensures forall a :: a in RequestsFor(x, g) ==> LegalAsk(n, x, g, a)
  {
    hide Nodes.Inv;
    hide LegalAsk;
    hide PageNotices;
    hide Batching.Sighted;
    hide NoticeOrder.SortAll;
    hide NoticeOrder.AllPending;
    hide Batching.PackAll;
    hide AsksOf;
    var lists := PageNotices(x, g);
    var w := NoticeOrder.SortAll(lists);
    var batches := Batching.PackAll(w);
    NoticeOrder.SortPermutes(lists);
    SortedArePending(n, np, x, g, w);
    Batching.PackCovers(w);
    AsksComeFrom(batches, g);
    forall a | a in RequestsFor(x, g) ensures LegalAsk(n, x, g, a) {
      var i: nat :| i < |batches| && a.server == batches[i].to && (a.mark.id, a.mark.time) in batches[i].asked;
      AskIsLegal(n, np, x, g, w, batches[i], a);
    }
  }
}
