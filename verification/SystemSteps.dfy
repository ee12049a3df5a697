/** Every step of the whole system keeps it consistent. */
module SystemSteps {
  import opened Clocks
  import opened Nodes
  import opened PageStacks
  import opened Requests
  import opened Systems

  // ---------------------------------------------------------------- keeping it

  /** Nothing anybody knew or was told is lost. */
  ghost predicate Later(s: State, s': State) {
    && |s'.nodes| == |s.nodes| && s'.home == s.home && Laid(s) && Laid(s')
    && (forall q: nat :: q < |s.nodes| ==> s.nodes[q].lists[q] <= s'.nodes[q].lists[q])
    && (forall q: nat, p: nat :: q < |s.nodes| && p < |s.nodes| ==> Told(s, q, p) <= Told(s', q, p))
  }

  lemma CutStays(s: State, s': State, c: seq<nat>)
    requires Later(s, s') && Cuttable(s, c)
    ensures Cuttable(s', c) && Cut(s', c) == Cut(s, c)
  {
    forall i | 0 <= i < |c| ensures i < |s'.nodes[i].lists| && c[i] <= |s'.nodes[i].lists[i]|
      && s'.nodes[i].lists[i][..c[i]] == s.nodes[i].lists[i][..c[i]] {
      assert s.nodes[i].lists[i] <= s'.nodes[i].lists[i];
    }
  }

  lemma MailStays(s: State, s': State, p: nat)
    requires Later(s, s') && p < |s.nodes| && MailOk(s, p)
    requires s'.inbox[p] == s.inbox[p] && (s.inbox[p].Some? ==> s'.status[p] == s.status[p])
    ensures MailOk(s', p)
  {
    if s.inbox[p].Some? {
      CutStays(s, s', s.inbox[p].value.sent);
    }
  }

  /** The status of a process whose own intervals, clock and dirty pages are untouched. */
  lemma StatusStays(s: State, s': State, p: nat)
    requires Later(s, s') && p < |s.nodes| && StatusOk(s, p)
    requires s'.inbox[p] == s.inbox[p] && s'.status[p] == s.status[p]
    requires s'.nodes[p].lists == s.nodes[p].lists && s'.nodes[p].dirty == s.nodes[p].dirty && s'.nodes[p].clock == s.nodes[p].clock
    requires s.status[p].Arrived? && s.status[p].collected ==>
               var m := s.status[p].manager;
               s'.status[m] == s.status[m] && |s'.nodes[m].lists[p]| >= |s.nodes[m].lists[p]|
    requires Prefixes(s')
    ensures StatusOk(s', p)
  {
    if s.status[p].Arrived? && s.status[p].collected {
      assert Prefix(s', s.status[p].manager, p);
    }
  }

  lemma InverseStays(s: State, s': State, p: nat, q: nat)
    requires Later(s, s') && p < |s.nodes| && q < |s.nodes| && InverseOk(s, p, q)
    requires s'.nodes[p].inverse[q] == s.nodes[p].inverse[q]
    ensures InverseOk(s', p, q)
  {
  }

  lemma OwnedStays(nodes: seq<Node>, later: seq<Node>)
    requires Owned(nodes) && |later| == |nodes|
    requires forall q: nat :: q < |nodes| ==> nodes[q].id == q && DiffsGrow(nodes[q], later[q])
    ensures Owned(later)
  {
    forall q: nat, m: Mark | q < |later| && m in later[q].diffs ensures m.id < |later| && m in later[m.id].diffs {
      assert DiffsGrow(nodes[q], later[q]);
    }
  }

  // ---------------------------------------------------------------- closing an interval

  lemma LaidSized(s: State)
    requires Laid(s) && Exclusive(s)
    ensures WellSized(s)
  {
    forall p: nat | p < |s.nodes| ensures s.nodes[p].id == p && SizedNode(s, p) {
      assert LaidNode(s, p);
    }
  }

  /** One process's node is replaced by one that knows at least as much. */
  ghost predicate Replaced(s: State, s': State, p: nat) {
    && p < |s.nodes| && |s'.nodes| == |s.nodes| && s'.home == s.home && |s'.status| == |s.status| && |s'.inbox| == |s.inbox|
    && (forall q: nat :: q < |s.nodes| && q != p ==> s'.nodes[q] == s.nodes[q])
    && s'.nodes[p].id == p && Nodes.Inv(|s.nodes|, |s.home|, s'.nodes[p])
  }

  lemma ReplacedLaid(s: State, s': State, p: nat)
    requires Laid(s) && Replaced(s, s', p)
    ensures Laid(s')
  {
    hide Nodes.Inv;
    forall q: nat | q < |s'.nodes| ensures LaidNode(s', q) {
      if q != p {
        assert LaidNode(s, q);
      } else {
        ShapeOf(|s.nodes|, |s.home|, s'.nodes[p]);
      }
    }
  }

  lemma ReplacedPrefixes(s: State, s': State, p: nat)
    requires Laid(s) && Prefixes(s) && Replaced(s, s', p) && Laid(s')
    requires s.nodes[p].lists[p] <= s'.nodes[p].lists[p]
    requires forall i: nat :: i < |s.nodes| && i != p ==> s'.nodes[p].lists[i] <= s.nodes[i].lists[i]
    ensures Prefixes(s')
  {
    hide Nodes.Inv;
    forall q: nat, i: nat | q < |s'.nodes| && i < |s'.nodes| ensures Prefix(s', q, i) {
      assert LaidNode(s', q) && LaidNode(s', i);
      if q != p {
        assert Prefix(s, q, i);
      }
    }
  }

  /** Only what `p` did to its own pages matters: nothing became private or, at its home, empty, and its
      new intervals name pages of which it had a copy. */
  lemma ReplacedExclusive(s: State, s': State, p: nat)
    requires Laid(s) && Laid(s') && Exclusive(s) && Replaced(s, s', p)
    requires forall g: nat :: g < |s.home| ==>
               && (s'.nodes[p].state[g] == s.nodes[p].state[g] ||
                   (s.nodes[p].state[g] == Valid && s'.nodes[p].state[g] == Invalid))
    requires forall k: nat, g: nat :: |s.nodes[p].lists[p]| <= k < |s'.nodes[p].lists[p]| && g in s'.nodes[p].lists[p][k].pages ==>
               g < |s.home| && s.nodes[p].state[g] == Valid
    requires s.nodes[p].lists[p] <= s'.nodes[p].lists[p]
    ensures Exclusive(s')
  {
    hide Nodes.Inv;
    forall q: nat, g: nat | q < |s'.nodes| && g < |s'.home| && g < |s'.nodes[q].state| ensures PageOk(s', q, g) {
      assert LaidNode(s, q) && LaidNode(s', q) && LaidNode(s, p) && LaidNode(s', p);
      assert PageOk(s, q, g);
      if s'.nodes[q].state[g] == Private {
        forall i: nat, k: nat | i < |s'.nodes| && i < |s'.nodes[i].lists| && k < |s'.nodes[i].lists[i]|
          ensures g !in s'.nodes[i].lists[i][k].pages
        {
          if i == p && k < |s.nodes[p].lists[p]| {
            assert s'.nodes[p].lists[p][k] == s.nodes[p].lists[p][k];
          }
        }
      }
    }
  }

  lemma CloseLater(s: State, p: nat)
    requires Consistent(s) && p < |s.nodes| && WellSized(s)
    ensures var t := CloseAt(s, p);
            Replaced(s, t, p) && Laid(t) && Prefixes(t) && Exclusive(t) && Later(s, t)
  {
    hide Nodes.Inv;
    hide StatusOk;
    hide MailOk;
    hide InverseOk;
    hide PageOk;
    var x, t := s.nodes[p], CloseAt(s, p);
    assert LaidNode(s, p);
    if x.dirty == {} {
      assert t == s;
    } else {
      OwnClockStamps(|s.nodes|, |s.home|, x);
      CreateKeeps(|s.nodes|, |s.home|, x, x.clock);
      CreateEffect(x, x.clock);
      DirtyValid(|s.nodes|, |s.home|, x);
      ReplacedLaid(s, t, p);
      forall i: nat | i < |s.nodes| && i != p ensures t.nodes[p].lists[i] <= s.nodes[i].lists[i] {
        assert Prefix(s, p, i);
      }
      ReplacedPrefixes(s, t, p);
      ReplacedExclusive(s, t, p);
    }
  }

  lemma OwnClockStamps(n: nat, np: nat, x: Node)
    requires Nodes.Inv(n, np, x)
    ensures MayStamp(x, x.clock)
  {
  }

  lemma DirtyValid(n: nat, np: nat, x: Node)
    requires Nodes.Inv(n, np, x)
    ensures forall g :: g in x.dirty ==> g < np && g < |x.state| && x.state[g] == Valid
  {
  }

  lemma {:induction false} CloseKeeps(s: State, p: nat)
    requires Consistent(s) && p < |s.nodes| && WellSized(s)
    ensures Consistent(CloseAt(s, p)) && CloseAt(s, p).nodes[p].dirty == {}
  {
    hide Nodes.Inv;
    hide Prefixes;
    hide Exclusive;
    hide Later;
    var x, t := s.nodes[p], CloseAt(s, p);
    CloseLater(s, p);
    LaterNow(s, t);
    if x.dirty == {} {
      assert t == s;
    } else {
      CreateEffect(x, x.clock);
      forall q: nat | q < |t.nodes| ensures StatusOk(t, q) && MailOk(t, q) {
        MailStays(s, t, q);
        CloseStatus(s, p, q);
      }
      forall a: nat, b: nat | a < |t.nodes| && b < |t.nodes| ensures InverseOk(t, a, b) {
        InverseStays(s, t, a, b);
      }
    }
  }

  lemma LaterNow(s: State, s': State)
    requires Later(s, s')
    ensures |s'.nodes| == |s.nodes| && s'.home == s.home && Laid(s) && Laid(s')
  {
  }

  lemma CloseStatus(s: State, p: nat, q: nat)
    requires Consistent(s) && p < |s.nodes| && WellSized(s) && q < |s.nodes| && s.nodes[p].dirty != {}
    requires Later(s, CloseAt(s, p)) && Prefixes(CloseAt(s, p))
    ensures StatusOk(CloseAt(s, p), q)
  {
    hide Nodes.Inv;
    hide Exclusive;
    hide MailOk;
    hide InverseOk;
    var x, t := s.nodes[p], CloseAt(s, p);
    CreateEffect(x, x.clock);
    assert StatusOk(s, q);
    if q != p {
      StatusStays(s, t, q);
    }
  }

  // ---------------------------------------------------------------- locks

  lemma RequestKeeps(s: State, p: nat)
    requires Consistent(s) && p < |s.nodes| && s.status[p].Running?
    ensures var t := s.(status := s.status[p := Requesting(s.nodes[p].clock)]); Consistent(t) && Later(s, t)
  {
    hide Nodes.Inv;
    var t := s.(status := s.status[p := Requesting(s.nodes[p].clock)]);
    assert StatusOk(s, p);
    assert LaidNode(s, p);
    SameNodes(s, t);
    forall q: nat | q < |t.nodes| ensures StatusOk(t, q) && MailOk(t, q) {
      MailStays(s, t, q);
      assert StatusOk(s, q);
      if q != p {
        StatusStays(s, t, q);
      } else {
        OwnClockStamps(|s.nodes|, |s.home|, s.nodes[p]);
      }
    }
    forall a: nat, b: nat | a < |t.nodes| && b < |t.nodes| ensures InverseOk(t, a, b) {
      InverseStays(s, t, a, b);
    }
  }

  /** Nodes untouched, and nobody's mail taken away. */
  lemma SameNodes(s: State, t: State)
    requires Laid(s) && t.nodes == s.nodes && t.home == s.home && |t.status| == |s.status| && |t.inbox| == |s.inbox|
    requires forall q: nat :: q < |s.nodes| ==> t.inbox[q] == s.inbox[q] || s.inbox[q].None?
    ensures Laid(t) && Later(s, t)
    ensures Prefixes(s) ==> Prefixes(t)
    ensures Exclusive(s) ==> Exclusive(t)
  {
    hide Nodes.Inv;
    forall p: nat | p < |t.nodes| ensures LaidNode(t, p) {
      assert LaidNode(s, p);
    }
    forall q: nat | q < |s.nodes| ensures |s.nodes[q].lists| == |s.nodes| {
      assert LaidNode(s, q);
    }
    if Prefixes(s) {
      forall p: nat, i: nat | p < |t.nodes| && i < |t.nodes| ensures Prefix(t, p, i) {
        assert Prefix(s, p, i);
      }
    }
    if Exclusive(s) {
      forall p: nat, g: nat | p < |t.nodes| && g < |t.home| && g < |t.nodes[p].state| ensures PageOk(t, p, g) {
        assert PageOk(s, p, g);
      }
    }
  }

  /** A process's lists are the own lists of all, cut at its clock. */
  lemma ListsAreCut(s: State, p: nat)
    requires Laid(s) && Prefixes(s) && p < |s.nodes|
    ensures Cuttable(s, s.nodes[p].clock) && Cut(s, s.nodes[p].clock) == s.nodes[p].lists
  {
    hide Nodes.Inv;
    assert LaidNode(s, p);
    forall i | 0 <= i < |s.nodes|
      ensures i < |s.nodes[i].lists| && s.nodes[p].clock[i] <= |s.nodes[i].lists[i]|
      ensures s.nodes[i].lists[i][..s.nodes[p].clock[i]] == s.nodes[p].lists[i]
    {
      assert Prefix(s, p, i) && LaidNode(s, i);
    }
  }

  lemma InverseSet(n: nat, np: nat, x: Node, inverse: seq<nat>)
    requires Nodes.Inv(n, np, x) && |inverse| == n
    ensures Nodes.Inv(n, np, x.(inverse := inverse))
  {
    var y := x.(inverse := inverse);
    assert forall h: nat, i: nat, t: nat :: Noticed(y, h, i, t) <==> Noticed(x, h, i, t);
    assert forall h: nat :: Undiffed(y, h) <==> Undiffed(x, h);
  }

  lemma PostLater(s: State, from: nat, p: nat)
    requires Consistent(s) && WellSized(s) && from < |s.nodes| && p < |s.nodes| && from != p
    requires s.status[p].Requesting? && |s.status[p].vt| == |s.nodes| && s.inbox[p].None?
    ensures var t := Post(s, from, p);
            && Laid(t) && Prefixes(t) && Exclusive(t) && Later(s, t)
            && (forall q: nat :: q < |s.nodes| ==> t.nodes[q].(inverse := []) == s.nodes[q].(inverse := []))
  {
    hide Nodes.Inv;
    hide StatusOk;
    hide MailOk;
    hide InverseOk;
    hide PageOk;
    var x, t := s.nodes[from], Post(s, from, p);
    assert LaidNode(s, from);
    InverseSet(|s.nodes|, |s.home|, x, x.inverse[p := x.clock[from]]);
    ReplacedLaid(s, t, from);
    forall i: nat | i < |s.nodes| && i != from ensures t.nodes[from].lists[i] <= s.nodes[i].lists[i] {
      assert Prefix(s, from, i);
    }
    ReplacedPrefixes(s, t, from);
    ReplacedExclusive(s, t, from);
    forall q: nat, r: nat | q < |s.nodes| && r < |s.nodes| ensures Told(s, q, r) <= Told(t, q, r) {
      assert LaidNode(s, q) && LaidNode(t, q);
    }
  }

  lemma {:induction false} PostKeeps(s: State, from: nat, p: nat)
    requires Consistent(s) && WellSized(s) && from < |s.nodes| && p < |s.nodes| && from != p
    requires s.status[p].Requesting? && |s.status[p].vt| == |s.nodes| && s.inbox[p].None?
    ensures Consistent(Post(s, from, p)) && Later(s, Post(s, from, p))
  {
    hide Nodes.Inv;
    hide Prefixes;
    hide Exclusive;
    hide Later;
    var x, t := s.nodes[from], Post(s, from, p);
    PostLater(s, from, p);
    LaterNow(s, t);
    forall q: nat | q < |t.nodes| ensures StatusOk(t, q) && MailOk(t, q) {
      PostOne(s, from, p, q);
    }
    forall a: nat, b: nat | a < |t.nodes| && b < |t.nodes| ensures InverseOk(t, a, b) {
      assert InverseOk(s, a, b);
      assert LaidNode(s, from) && LaidNode(t, from) && LaidNode(t, p);
      if a != from || b != p {
        InverseStays(s, t, a, b);
      }
    }
  }

  lemma PostOne(s: State, from: nat, p: nat, q: nat)
    requires Consistent(s) && WellSized(s) && from < |s.nodes| && p < |s.nodes| && from != p && q < |s.nodes|
    requires s.status[p].Requesting? && |s.status[p].vt| == |s.nodes| && s.inbox[p].None?
    requires var t := Post(s, from, p); Later(s, t) && Prefixes(t) && t.nodes[q].(inverse := []) == s.nodes[q].(inverse := [])
    ensures StatusOk(Post(s, from, p), q) && MailOk(Post(s, from, p), q)
  {
    hide Nodes.Inv;
    hide Exclusive;
    hide InverseOk;
    hide Cut;
    hide Missing;
    var x, t := s.nodes[from], Post(s, from, p);
    assert StatusOk(s, q) && MailOk(s, q);
    if q != p {
      StatusStays(s, t, q);
      MailStays(s, t, q);
    } else {
      ListsAreCut(s, from);
      CutStays(s, t, x.clock);
      assert AtMost(s.status[p].vt, s.nodes[p].clock);
    }
  }

  // ---------------------------------------------------------------- receiving

  /** Anything cut from the own lists of all can be sent to any process. */
  lemma CutIsSendable(s: State, p: nat, c: seq<nat>, i: nat)
    requires Consistent(s) && p < |s.nodes| && Cuttable(s, c) && i < |s.nodes| && c[p] <= |s.nodes[p].lists[p]|
    ensures Sendable(|s.nodes|, |s.home|, s.nodes[p], Cut(s, c)[i], i)
  {
    hide Nodes.Inv;
    hide StatusOk;
    hide MailOk;
    hide InverseOk;
    assert LaidNode(s, p) && LaidNode(s, i);
    assert Prefix(s, p, i);
    var x, list, full := s.nodes[p], Cut(s, c)[i], s.nodes[i].lists[i];
    ShapeOf(|s.nodes|, |s.home|, s.nodes[i]);
    forall k | 0 <= k < |list|
      ensures WellStamped(|s.nodes|, |s.home|, list[k], i, k)
      ensures forall g :: g in list[k].pages ==> g < |x.state| && x.state[g] != Private
    {
      assert list[k] == full[k] && WellStamped(|s.nodes|, |s.home|, full[k], i, k);
      forall g | g in list[k].pages ensures g < |x.state| && x.state[g] != Private {
        assert PageOk(s, p, g);
      }
    }
  }

  lemma MailIsSendable(s: State, p: nat)
    requires Consistent(s) && p < |s.nodes| && s.inbox[p].Some?
    ensures Cuttable(s, s.inbox[p].value.sent) && !s.status[p].Running?
    ensures SendableAll(|s.nodes|, |s.home|, s.nodes[p], Cut(s, s.inbox[p].value.sent), s.status[p].vt, 0)
    ensures s.inbox[p].value.ivs == Missing(Cut(s, s.inbox[p].value.sent), s.status[p].vt)
    ensures Fit(|s.nodes|, s.inbox[p].value.ivs) && |s.status[p].vt| == |s.nodes|
  {
    hide Nodes.Inv;
    hide Prefixes;
    hide Exclusive;
    hide InverseOk;
    hide Cut;
    hide Missing;
    assert StatusOk(s, p) && MailOk(s, p);
    assert LaidNode(s, p);
    var c, v := s.inbox[p].value.sent, s.status[p].vt;
    forall i: nat | i < |s.nodes|
      ensures Sendable(|s.nodes|, |s.home|, s.nodes[p], Cut(s, c)[i], i) && v[i] <= |s.nodes[p].lists[i]|
    {
      CutIsSendable(s, p, c, i);
    }
    FitsMissing(|s.nodes|, |s.home|, s.nodes[p], Cut(s, c), v);
  }

  lemma FitsMissing(n: nat, np: nat, x: Node, lists: seq<seq<Interval>>, v: seq<nat>)
    requires SendableAll(n, np, x, lists, v, 0)
    ensures Fit(n, Missing(lists, v))
  {
    MissingFits(n, np, x, lists, v, 0);
  }

  /** What is received: the longer of each list, and at most the process's own open interval more. */
  lemma ReceiveMerges(s: State, p: nat, b: Basis)
    requires Consistent(s) && WellSized(s) && p < |s.nodes| && s.inbox[p].Some? && Ready(s.nodes[p], b)
    requires b.Saved? ==> |b.vt| == |s.nodes|
    ensures Cuttable(s, s.inbox[p].value.sent) && Fit(|s.nodes|, s.inbox[p].value.ivs)
    ensures var y := Receive(s, p, b).nodes[p];
            Merged(|s.nodes|, |s.home|, s.nodes[p], y, Cut(s, s.inbox[p].value.sent), 0, b)
  {
    hide Nodes.Inv;
    hide Prefixes;
    hide Exclusive;
    hide StatusOk;
    hide MailOk;
    hide InverseOk;
    hide Cut;
    hide Missing;
    hide Merged;
    hide Incorporate;
    hide SendableAll;
    MailIsSendable(s, p);
    ClockMerge(|s.nodes|, |s.home|, s.nodes[p], Cut(s, s.inbox[p].value.sent), s.status[p].vt, b);
  }

  /** The receiver's lists afterwards, against everybody's own lists. */
  lemma MergedLists(s: State, p: nat, y: Node, c: seq<nat>, b: Basis, i: nat)
    requires Laid(s) && Prefixes(s) && p < |s.nodes| && i < |s.nodes| && Cuttable(s, c)
    requires Merged(|s.nodes|, |s.home|, s.nodes[p], y, Cut(s, c), 0, b)
    ensures |y.lists| == |s.nodes| && |s.nodes[p].lists[i]| <= |y.lists[i]| && c[i] <= |s.nodes[i].lists[i]|
    ensures i != p ==> y.lists[i] <= s.nodes[i].lists[i] && c[i] <= |y.lists[i]|
    ensures i != p ==> |y.lists[i]| == if |s.nodes[p].lists[i]| < c[i] then c[i] else |s.nodes[p].lists[i]|
  {
    hide Nodes.Inv;
    hide Ready;
    hide PagesMove;
    ShapeOf(|s.nodes|, |s.home|, y);
    assert LaidNode(s, p);
    assert Prefix(s, p, i);
  }

  lemma ReceiveLater(s: State, p: nat, b: Basis)
    requires Consistent(s) && WellSized(s) && p < |s.nodes| && s.inbox[p].Some? && Ready(s.nodes[p], b)
    requires b.Saved? ==> |b.vt| == |s.nodes|
    ensures Fit(|s.nodes|, s.inbox[p].value.ivs)
    ensures var t := Receive(s, p, b);
            Replaced(s, t, p) && Laid(t) && Prefixes(t) && Exclusive(t) && Owned(t.nodes) && Later(s, t)
  {
    hide Nodes.Inv;
    hide StatusOk;
    hide MailOk;
    hide InverseOk;
    hide PageOk;
    hide Owned;
    hide Cut;
    hide Incorporate;
    hide Ready;
    ReceiveMerges(s, p, b);
    var x, t, c := s.nodes[p], Receive(s, p, b), s.inbox[p].value.sent;
    var y := t.nodes[p];
    OwnId(x, y, b);
    DirtyValid(|s.nodes|, |s.home|, x);
    ReplacedLaid(s, t, p);
    assert LaidNode(s, p) && LaidNode(t, p);
    forall i: nat | i < |s.nodes|
      ensures |x.lists[i]| <= |y.lists[i]|
      ensures i != p ==> y.lists[i] <= s.nodes[i].lists[i] && c[i] <= |y.lists[i]|
      ensures c[i] <= |s.nodes[i].lists[i]|
    {
      MergedLists(s, p, y, c, b, i);
    }
    OwnedStays(s.nodes, t.nodes);
    ReplacedPrefixes(s, t, p);
    ReplacedExclusive(s, t, p);
    forall q: nat, r: nat | q < |s.nodes| && r < |s.nodes| ensures |s.nodes[q].lists| == |s.nodes| == |t.nodes[q].lists| && Told(s, q, r) <= Told(t, q, r) {
      assert LaidNode(s, q) && LaidNode(t, q);
    }
  }

  lemma {:induction false} ReceiveKeeps(s: State, p: nat, b: Basis)
    requires Consistent(s) && WellSized(s) && p < |s.nodes| && s.inbox[p].Some? && Ready(s.nodes[p], b)
    requires b.Saved? ==> |b.vt| == |s.nodes|
    ensures Fit(|s.nodes|, s.inbox[p].value.ivs) && Consistent(Receive(s, p, b)) && Later(s, Receive(s, p, b))
  {
    hide Nodes.Inv;
    hide Prefixes;
    hide Exclusive;
    hide Later;
    hide Ready;
    ReceiveLater(s, p, b);
    var t := Receive(s, p, b);
    LaterNow(s, t);
    forall q: nat | q < |t.nodes| ensures StatusOk(t, q) && MailOk(t, q) {
      ReceiveOne(s, p, b, q);
    }
    forall i: nat, q: nat | i < |t.nodes| && q < |t.nodes| ensures InverseOk(t, i, q) {
      assert InverseOk(s, i, q);
      if i == p {
        ReceiveInverse(s, p, b, q);
      } else {
        InverseStays(s, t, i, q);
      }
    }
  }

  lemma ReceiveOne(s: State, p: nat, b: Basis, q: nat)
    requires Consistent(s) && WellSized(s) && p < |s.nodes| && s.inbox[p].Some? && q < |s.nodes|
    requires b.Saved? ==> |b.vt| == |s.nodes|
    requires Fit(|s.nodes|, s.inbox[p].value.ivs)
    requires var t := Receive(s, p, b); Replaced(s, t, p) && Later(s, t) && Prefixes(t)
    ensures StatusOk(Receive(s, p, b), q) && MailOk(Receive(s, p, b), q)
  {
    hide Nodes.Inv;
    hide Exclusive;
    hide InverseOk;
    hide Cut;
    hide Missing;
    hide Incorporate;
    var t := Receive(s, p, b);
    assert StatusOk(s, q) && MailOk(s, q) && StatusOk(s, p);
    if q != p {
      StatusStays(s, t, q);
      MailStays(s, t, q);
    }
  }

  /** What a process learns of another's knowledge of it is true. */
  lemma ReceiveInverse(s: State, p: nat, b: Basis, q: nat)
    requires Consistent(s) && WellSized(s) && p < |s.nodes| && s.inbox[p].Some? && q < |s.nodes| && Ready(s.nodes[p], b)
    requires b.Saved? ==> |b.vt| == |s.nodes|
    requires Fit(|s.nodes|, s.inbox[p].value.ivs)
    requires var t := Receive(s, p, b); Replaced(s, t, p) && Later(s, t)
    ensures InverseOk(Receive(s, p, b), p, q)
  {
    hide Nodes.Inv;
    hide Prefixes;
    hide Exclusive;
    hide StatusOk;
    hide MailOk;
    hide Incorporate;
    hide Cut;
    hide Ready;
    hide Told;
    assert InverseOk(s, p, q);
    ReceiveMerges(s, p, b);
    var x, t, c := s.nodes[p], Receive(s, p, b), s.inbox[p].value.sent;
    var y := t.nodes[p];
    if p != q {
      assert InverseFrom(x, y, Cut(s, c)[q], q);
      SeenIsTold(s, p, q, c, y.inverse[q]);
      assert Told(s, q, p) <= Told(t, q, p);
    }
  }

  lemma SeenIsTold(s: State, p: nat, q: nat, c: seq<nat>, u: nat)
    requires Laid(s) && p < |s.nodes| && q < |s.nodes| && Cuttable(s, c)
    ensures (exists k :: 0 <= k < |Cut(s, c)[q]| && p < |Cut(s, c)[q][k].vt| && u == Cut(s, c)[q][k].vt[p]) ==> u <= Told(s, q, p)
  {
    assert LaidNode(s, q);
    assert Ascending(s.nodes[q].lists[q], s.nodes[q].clock);
    if k :| 0 <= k < |Cut(s, c)[q]| && p < |Cut(s, c)[q][k].vt| && u == Cut(s, c)[q][k].vt[p] {
      assert AtMost(s.nodes[q].lists[q][k].vt, s.nodes[q].clock);
    }
  }

  // ---------------------------------------------------------------- barriers

  lemma {:induction false} TellAllKeeps(s: State, p: nat)
    requires Consistent(s) && WellSized(s) && p < |s.nodes|
    requires forall q: nat :: q < |s.nodes| && q != p ==> |s.nodes[p].lists[p]| <= Told(s, q, p)
    ensures Consistent(TellAll(s, p)) && Later(s, TellAll(s, p))
  {
    hide Nodes.Inv;
    var x, t := s.nodes[p], TellAll(s, p);
    assert LaidNode(s, p);
    InverseSet(|s.nodes|, |s.home|, x, t.nodes[p].inverse);
    TellAllLater(s, p);
    forall q: nat | q < |t.nodes| ensures StatusOk(t, q) && MailOk(t, q) {
      assert StatusOk(s, q) && MailOk(s, q);
      StatusStays(s, t, q);
      MailStays(s, t, q);
    }
    forall a: nat, q: nat | a < |t.nodes| && q < |t.nodes| ensures InverseOk(t, a, q) {
      assert InverseOk(s, a, q);
      assert LaidNode(t, p);
    }
  }

  lemma TellAllLater(s: State, p: nat)
    requires Consistent(s) && WellSized(s) && p < |s.nodes| && Nodes.Inv(|s.nodes|, |s.home|, TellAll(s, p).nodes[p])
    ensures var t := TellAll(s, p); Laid(t) && Prefixes(t) && Exclusive(t) && Later(s, t)
  {
    hide Nodes.Inv;
    hide StatusOk;
    hide MailOk;
    hide InverseOk;
    hide PageOk;
    var t := TellAll(s, p);
    assert LaidNode(s, p);
    ReplacedLaid(s, t, p);
    forall i: nat | i < |s.nodes| && i != p ensures t.nodes[p].lists[i] <= s.nodes[i].lists[i] {
      assert Prefix(s, p, i);
    }
    ReplacedPrefixes(s, t, p);
    ReplacedExclusive(s, t, p);
    forall q: nat, r: nat | q < |s.nodes| && r < |s.nodes|
      ensures |s.nodes[q].lists| == |s.nodes| == |t.nodes[q].lists| && Told(s, q, r) <= Told(t, q, r)
    {
      assert LaidNode(s, q) && LaidNode(t, q);
    }
  }

  lemma ToldBound(s: State, q: nat, p: nat)
    requires Consistent(s) && q < |s.nodes| && p < |s.nodes|
    ensures p < |s.nodes[q].lists| && p < |s.nodes[p].lists| && Told(s, q, p) <= |s.nodes[p].lists[p]|
  {
    hide Nodes.Inv;
    hide StatusOk;
    hide Exclusive;
    hide InverseOk;
    assert LaidNode(s, q) && LaidNode(s, p) && Prefix(s, q, p) && MailOk(s, q);
  }

  lemma {:induction false} RegisterKeeps(s: State, p: nat, m: nat)
    requires Consistent(s) && WellSized(s) && p < |s.nodes| && m < |s.nodes| && s.status[p].Running? && s.nodes[p].dirty == {}
    ensures Consistent(Register(s, p, m)) && Later(s, Register(s, p, m))
  {
    hide Nodes.Inv;
    hide Prefixes;
    hide Exclusive;
    var t := Register(s, p, m);
    assert StatusOk(s, p) && LaidNode(s, p);
    SameNodes(s, t);
    forall q: nat | q < |t.nodes| ensures StatusOk(t, q) && MailOk(t, q) {
      assert StatusOk(s, q) && MailOk(s, q);
      MailStays(s, t, q);
      if q != p {
        StatusStays(s, t, q);
      } else {
        assert InverseOk(s, p, m);
        ToldBound(s, m, p);
      }
    }
    forall a: nat, q: nat | a < |t.nodes| && q < |t.nodes| ensures InverseOk(t, a, q) {
      InverseStays(s, t, a, q);
    }
  }

  /** The manager takes over an arrival: it then has all of that process's own intervals. */
  lemma CollectTakes(s: State, p: nat)
    requires Consistent(s) && WellSized(s) && p < |s.nodes| && s.status[p].Arrived? && !s.status[p].collected
    requires s.status[p].manager < |s.nodes| && AtOwnBarrier(s, s.status[p].manager)
    ensures Fit(|s.nodes|, s.status[p].ivs) && p != s.status[p].manager
    ensures var m := s.status[p].manager;
            var x, y := s.nodes[m], CollectFrom(s, p).nodes[m];
            TookList(|s.nodes|, |s.home|, x, y, s.nodes[p].lists[p], p, Null) && y.lists[p] == s.nodes[p].lists[p]
            && x.dirty == {}
  {
    hide Nodes.Inv;
    hide Exclusive;
    hide MailOk;
    hide InverseOk;
    hide Incorporate;
    hide TookList;
    hide Cut;
    var m := s.status[p].manager;
    assert StatusOk(s, p) && StatusOk(s, m) && LaidNode(s, p) && LaidNode(s, m) && Prefix(s, m, p);
    var list, ivs := s.nodes[p].lists[p], s.status[p].ivs;
    var k: nat := |list| - |ivs|;
    ListsAreCut(s, p);
    CutIsSendable(s, m, s.nodes[p].clock, p);
    SendableFits(|s.nodes|, |s.home|, s.nodes[m], list, p, k);
    assert After(list, k) == ivs;
    TakePart(|s.nodes|, |s.home|, s.nodes[m], list, p, k, Null);
    TookAll(|s.nodes|, |s.home|, s.nodes[m], CollectFrom(s, p).nodes[m], list, p, Null);
  }

  lemma TookAll(n: nat, np: nat, x: Node, y: Node, list: seq<Interval>, i: nat, b: Basis)
    requires TookList(n, np, x, y, list, i, b) && i < n && |x.lists| == n && x.lists[i] <= list && i != x.id
    ensures i < |y.lists| && y.lists[i] == list
  {
    hide Nodes.Inv;
    ShapeOf(n, np, y);
  }

  lemma CollectLater(s: State, p: nat)
    requires Consistent(s) && WellSized(s) && p < |s.nodes| && s.status[p].Arrived? && !s.status[p].collected
    requires s.status[p].manager < |s.nodes| && AtOwnBarrier(s, s.status[p].manager)
    ensures Fit(|s.nodes|, s.status[p].ivs)
    ensures var t := CollectFrom(s, p);
            && Replaced(s, t, s.status[p].manager) && Laid(t) && Prefixes(t) && Exclusive(t) && Owned(t.nodes) && Later(s, t)
            && var m := s.status[p].manager;
               && t.nodes[m].dirty == {} && t.nodes[m].lists[m] == s.nodes[m].lists[m]
               && (forall i: nat :: i < |s.nodes| ==> |s.nodes[m].lists[i]| <= |t.nodes[m].lists[i]|)
               && t.nodes[m].lists[p] == s.nodes[p].lists[p]
  {
    hide Nodes.Inv;
    hide StatusOk;
    hide MailOk;
    hide InverseOk;
    hide PageOk;
    hide Incorporate;
    var m := s.status[p].manager;
    CollectTakes(s, p);
    var x, t := s.nodes[m], CollectFrom(s, p);
    var y := t.nodes[m];
    OwnId(x, y, Null);
    OwnedStays(s.nodes, t.nodes);
    ReplacedLaid(s, t, m);
    assert LaidNode(s, m) && LaidNode(t, m);
    forall i: nat | i < |s.nodes|
      ensures |x.lists[i]| <= |y.lists[i]| && (i != m ==> y.lists[i] <= s.nodes[i].lists[i])
    {
      assert Prefix(s, m, i);
    }
    ReplacedPrefixes(s, t, m);
    ReplacedExclusive(s, t, m);
    forall q: nat, r: nat | q < |s.nodes| && r < |s.nodes|
      ensures |s.nodes[q].lists| == |s.nodes| == |t.nodes[q].lists| && Told(s, q, r) <= Told(t, q, r)
    {
      assert LaidNode(s, q) && LaidNode(t, q);
    }
  }

  lemma {:induction false} CollectKeeps(s: State, p: nat)
    requires Consistent(s) && WellSized(s) && p < |s.nodes| && s.status[p].Arrived? && !s.status[p].collected
    requires s.status[p].manager < |s.nodes| && AtOwnBarrier(s, s.status[p].manager)
    ensures Fit(|s.nodes|, s.status[p].ivs) && Consistent(CollectFrom(s, p)) && Later(s, CollectFrom(s, p))
    ensures forall i: nat :: i < |s.nodes| ==> CollectFrom(s, p).nodes[i].lists[i] == s.nodes[i].lists[i]
  {
    hide Nodes.Inv;
    hide Prefixes;
    hide Exclusive;
    hide Later;
    CollectLater(s, p);
    var t := CollectFrom(s, p);
    LaterNow(s, t);
    forall q: nat | q < |t.nodes| ensures StatusOk(t, q) && MailOk(t, q) {
      CollectOne(s, p, q);
    }
    forall a: nat, q: nat | a < |t.nodes| && q < |t.nodes| ensures InverseOk(t, a, q) {
      assert InverseOk(s, a, q);
      if a == s.status[p].manager {
        CollectInverse(s, p, q);
      } else {
        InverseStays(s, t, a, q);
      }
    }
  }

  lemma CollectOne(s: State, p: nat, q: nat)
    requires Consistent(s) && WellSized(s) && p < |s.nodes| && s.status[p].Arrived? && !s.status[p].collected && q < |s.nodes|
    requires s.status[p].manager < |s.nodes| && AtOwnBarrier(s, s.status[p].manager) && Fit(|s.nodes|, s.status[p].ivs)
    requires var t := CollectFrom(s, p);
            && Replaced(s, t, s.status[p].manager) && Laid(t) && Prefixes(t) && Later(s, t)
            && var m := s.status[p].manager;
               && t.nodes[m].dirty == {} && t.nodes[m].lists[m] == s.nodes[m].lists[m]
               && (forall i: nat :: i < |s.nodes| ==> |s.nodes[m].lists[i]| <= |t.nodes[m].lists[i]|)
               && t.nodes[m].lists[p] == s.nodes[p].lists[p]
    ensures StatusOk(CollectFrom(s, p), q) && MailOk(CollectFrom(s, p), q)
  {
    hide Nodes.Inv;
    hide MailOk;
    hide Exclusive;
    hide InverseOk;
    hide Cut;
    hide Missing;
    hide Incorporate;
    var m, t := s.status[p].manager, CollectFrom(s, p);
    assert StatusOk(s, q) && MailOk(s, q) && StatusOk(s, p) && StatusOk(s, m);
    MailStays(s, t, q);
    if q != m && q != p {
      StatusStays(s, t, q);
    } else if q == p {
      assert Told(s, m, p) <= Told(t, m, p);
    }
  }

  lemma CollectInverse(s: State, p: nat, q: nat)
    requires Consistent(s) && WellSized(s) && p < |s.nodes| && s.status[p].Arrived? && !s.status[p].collected && q < |s.nodes|
    requires s.status[p].manager < |s.nodes| && AtOwnBarrier(s, s.status[p].manager) && Fit(|s.nodes|, s.status[p].ivs)
    requires Later(s, CollectFrom(s, p))
    ensures InverseOk(CollectFrom(s, p), s.status[p].manager, q)
  {
    hide Nodes.Inv;
    hide Exclusive;
    hide StatusOk;
    hide MailOk;
    hide Incorporate;
    hide Told;
    hide Cut;
    var m, t := s.status[p].manager, CollectFrom(s, p);
    CollectTakes(s, p);
    assert InverseOk(s, m, q);
    assert Told(s, q, m) <= Told(t, q, m);
    assert InverseFrom(s.nodes[m], t.nodes[m], s.nodes[p].lists[p], p);
    ListsAreCut(s, p);
    SeenIsTold(s, m, p, s.nodes[p].clock, t.nodes[m].inverse[p]);
  }

  lemma {:induction false} ReplyKeeps(s: State, m: nat)
    requires Consistent(s) && WellSized(s) && Enabled(s, Depart(m))
    ensures Consistent(Reply(s, m)) && Later(s, Reply(s, m))
    ensures forall q: nat :: q < |s.nodes| && q != m ==> |s.nodes[m].lists[m]| <= Told(Reply(s, m), q, m)
  {
    hide Nodes.Inv;
    hide Prefixes;
    hide Exclusive;
    hide Cut;
    hide Missing;
    var t := Reply(s, m);
    forall q: nat | q < |s.nodes| ensures s.inbox[q].None? && LaidNode(s, q) {
      assert StatusOk(s, q);
    }
    SameNodes(s, t);
    forall q: nat | q < |s.nodes| && q != m ensures |s.nodes[m].lists[m]| <= Told(t, q, m) {
      assert LaidNode(s, m);
    }
    forall q: nat | q < |t.nodes| ensures StatusOk(t, q) && MailOk(t, q) {
      ReplyOne(s, m, q);
    }
    forall a: nat, q: nat | a < |t.nodes| && q < |t.nodes| ensures InverseOk(t, a, q) {
      InverseStays(s, t, a, q);
    }
  }

  /** When all have been collected the manager has everybody's own intervals. */
  lemma ManagerHasAll(s: State, m: nat, i: nat)
    requires Consistent(s) && WellSized(s) && Enabled(s, Depart(m)) && i < |s.nodes|
    ensures i < |s.nodes[m].lists| && i < |s.nodes[i].lists| && s.nodes[m].lists[i] == s.nodes[i].lists[i]
  {
    hide Nodes.Inv;
    hide Exclusive;
    hide MailOk;
    hide InverseOk;
    assert StatusOk(s, i) && LaidNode(s, m) && LaidNode(s, i) && Prefix(s, m, i);
  }

  lemma ReplyOne(s: State, m: nat, q: nat)
    requires Consistent(s) && WellSized(s) && Enabled(s, Depart(m)) && q < |s.nodes|
    requires Laid(Reply(s, m)) && Later(s, Reply(s, m))
    ensures StatusOk(Reply(s, m), q) && MailOk(Reply(s, m), q)
  {
    hide Nodes.Inv;
    hide Exclusive;
    hide InverseOk;
    hide Cut;
    hide Missing;
    var t, c := Reply(s, m), s.nodes[m].clock;
    assert StatusOk(s, q) && LaidNode(s, q) && LaidNode(s, m);
    ListsAreCut(s, m);
    CutStays(s, t, c);
    forall i: nat | i < |s.nodes| ensures c[i] == |s.nodes[i].lists[i]| && s.nodes[q].clock[i] <= c[i] {
      ManagerHasAll(s, m, i);
      assert Prefix(s, q, i);
    }
    forall r: nat | r < |s.nodes| ensures LaidNode(s, r) && |s.nodes[q].lists[q]| <= Told(t, r, q) {
      assert LaidNode(s, r);
    }
  }

  // ---------------------------------------------------------------- page faults

  lemma MemoryMoves(s: State, t: State)
    requires Consistent(s) && t.status == s.status && t.inbox == s.inbox && t.home == s.home && |t.nodes| == |s.nodes|
    requires forall q: nat :: q < |s.nodes| ==>
               SameNews(s.nodes[q], t.nodes[q]) && Nodes.Inv(|s.nodes|, |s.home|, t.nodes[q])
               && (t.nodes[q].dirty == s.nodes[q].dirty || s.status[q].Running?)
    requires Exclusive(t) && Owned(t.nodes)
    ensures Consistent(t) && Later(s, t)
  {
    hide Nodes.Inv;
    hide Exclusive;
    forall p: nat | p < |t.nodes| ensures LaidNode(t, p) && LaidNode(s, p) {
      assert LaidNode(s, p);
      ShapeOf(|s.nodes|, |s.home|, t.nodes[p]);
    }
    forall p: nat, i: nat | p < |t.nodes| && i < |t.nodes| ensures Prefix(t, p, i) {
      assert Prefix(s, p, i);
    }
    assert Later(s, t);
    forall q: nat | q < |t.nodes| ensures StatusOk(t, q) && MailOk(t, q) {
      assert StatusOk(s, q) && MailOk(s, q);
      MailStays(s, t, q);
      if !s.status[q].Running? {
        StatusStays(s, t, q);
      }
    }
    forall a: nat, q: nat | a < |t.nodes| && q < |t.nodes| ensures InverseOk(t, a, q) {
      InverseStays(s, t, a, q);
    }
  }

  lemma ShareKeeps(n: nat, np: nat, x: Node, g: nat)
    requires Nodes.Inv(n, np, x) && g < np
    ensures Nodes.Inv(n, np, Share(x, g)) && SameNews(x, Share(x, g))
  {
    var y := Share(x, g);
    assert forall h: nat, i: nat, t: nat :: Noticed(y, h, i, t) <==> Noticed(x, h, i, t);
    assert forall h: nat :: Undiffed(y, h) <==> Undiffed(x, h);
  }

  lemma AnswerableStays(n: nat, np: nat, x: Node, m: Mark, m': Mark)
    requires Nodes.Inv(n, np, x) && Answerable(x, m) && Answerable(x, m') && m.page == m'.page
    ensures Answerable(Serve(x, m'), m)
  {
  }

  ghost predicate Served(n: nat, np: nat, x: Node, y: Node) {
    Nodes.Inv(n, np, y) && SameNews(x, y) && y.state == x.state && y.dirty == x.dirty && DiffsGrow(x, y)
  }

  lemma {:induction false} ServeAllKeeps(n: nat, np: nat, nodes: seq<Node>, g: nat, asks: seq<Ask>, p: nat)
    requires |nodes| == n && p < n && forall q: nat :: q < n ==> Nodes.Inv(n, np, nodes[q])
    requires forall k :: 0 <= k < |asks| ==> asks[k].server < n && asks[k].server != p
    requires forall k :: 0 <= k < |asks| ==> asks[k].mark.page == g && Answers(nodes[asks[k].server], asks[k].mark)
    ensures var r := ServeAll(nodes, asks);
            && r[p] == nodes[p]
            && (forall q: nat :: q < n ==> Served(n, np, nodes[q], r[q]))
            && (forall k :: 0 <= k < |asks| ==> asks[k].mark in r[asks[k].server].diffs)
            && (forall q: nat, m: Mark :: q < n && m in r[q].diffs ==> m in nodes[q].diffs || Ask(q, m) in asks)
    decreases |asks|
  {
    hide Nodes.Inv;
    if asks != [] {
      var a := asks[0];
      var x := nodes[a.server];
      ServeKeeps(n, np, x, a.mark);
      var next := nodes[a.server := Serve(x, a.mark)];
      forall k | 0 <= k < |asks[1..]| ensures Answers(next[asks[1..][k].server], asks[1..][k].mark) {
        assert asks[1..][k] == asks[k + 1];
        if asks[k + 1].server == a.server {
          AnswerableStays(n, np, x, asks[k + 1].mark, a.mark);
        }
      }
      ServeAllKeeps(n, np, next, g, asks[1..], p);
      forall q: nat | q < n ensures Served(n, np, nodes[q], ServeAll(nodes, asks)[q]) {
        assert Served(n, np, next[q], ServeAll(next, asks[1..])[q]);
      }
      var r := ServeAll(nodes, asks);
      forall q: nat, m: Mark | q < n && m in r[q].diffs ensures m in nodes[q].diffs || Ask(q, m) in asks {
        assert m in next[q].diffs || Ask(q, m) in asks[1..];
      }
      forall k | 0 <= k < |asks| ensures asks[k].mark in r[asks[k].server].diffs {
        if k == 0 {
          assert a.mark in next[a.server].diffs;
          assert Served(n, np, next[a.server], r[a.server]);
        } else {
          assert asks[k] == asks[1..][k - 1];
        }
      }
    }
  }

  /** All that is asked can be given, and for a page to be fetched it is every pending diff, each of another process. */
  ghost predicate Given(s: State, p: nat, g: nat, asks: seq<Ask>) {
    && AllAnswered(s.nodes, asks) && p < |s.nodes| && g < |s.nodes[p].state|
    && (s.nodes[p].state[g] != Valid && s.nodes[p].state[g] != Private ==> ProperAsks(|s.nodes|, s.nodes[p], g, asks))
  }

  /** In every reachable state a diff asked of a process with a later interval on the page can be answered:
      the process knows the notice, and has the diff or the twin it is made from. */
  lemma {:induction false} AskIsAnswered(s: State, p: nat, g: nat, a: Ask)
    requires Consistent(s) && p < |s.nodes| && LegalAsk(|s.nodes|, s.nodes[p], g, a)
    ensures Answers(s.nodes[a.server], a.mark)
  {
    hide Exclusive;
    hide StatusOk;
    hide MailOk;
    hide InverseOk;
    hide Covered;
    hide PagesRight;
    hide CanServe;
    hide OldestDiffed;
    hide TwinSees;
    hide InvalidNoticed;
    var x, y, n := s.nodes[p], s.nodes[a.server], |s.nodes|;
    var t: nat :| Noticed(x, g, a.server, t) && HadSeen(x.lists[a.server][t - 1], a.mark);
    assert LaidNode(s, p) && LaidNode(s, a.server);
    assert Prefix(s, p, a.server) && Prefix(s, p, a.mark.id) && Prefix(s, a.server, a.mark.id);
    assert x.lists[a.server][t - 1] == y.lists[a.server][t - 1];
    assert AtMost(y.lists[a.server][t - 1].vt, y.clock);
    SeenIsAnswerable(n, |s.home|, y, t, a.mark);
  }

  /** Exactly the diffs that the process asked has, or is itself to make, can be given. */
  lemma {:induction false} AnsweredIff(s: State, p: nat, g: nat, a: Ask)
    requires Consistent(s) && p < |s.nodes| && ProperAsk(|s.nodes|, s.nodes[p], g, a)
    ensures Answers(s.nodes[a.server], a.mark) <==> a.server == a.mark.id || a.mark in s.nodes[a.server].diffs
  {
    hide Exclusive;
    hide StatusOk;
    hide MailOk;
    hide InverseOk;
    assert LaidNode(s, p) && LaidNode(s, a.server) && Prefix(s, p, a.mark.id);
    OwnAnswered(|s.nodes|, |s.home|, s.nodes[a.server], a.mark);
  }

  lemma OwnAnswered(n: nat, np: nat, x: Node, m: Mark)
    requires Nodes.Inv(n, np, x) && (m.id == x.id ==> Noticed(x, m.page, m.id, m.time))
    ensures Answers(x, m) <==> m.id == x.id || m in x.diffs
  {
    hide CanServe;
    hide OldestDiffed;
    hide TwinSees;
    hide InvalidNoticed;
    hide Ascending;
  }

  function Shared(s: State, p: nat, g: nat): (r: seq<Node>)
    requires WellSized(s) && p < |s.nodes| && g < |s.home|
    ensures |r| == |s.nodes|
  {
    var h := s.home[g];
    if s.nodes[p].state[g] == Empty then s.nodes[h := Share(s.nodes[h], g)] else s.nodes
  }

  lemma {:induction false} SharedServer(s: State, p: nat, g: nat, asks: seq<Ask>, k: nat)
    requires Consistent(s) && WellSized(s) && p < |s.nodes| && g < |s.home| && Given(s, p, g, asks)
    requires k < |asks| && s.nodes[p].state[g] != Valid && s.nodes[p].state[g] != Private
    ensures asks[k].server < |s.nodes| && asks[k].server != p && asks[k].mark.page == g
    ensures Answers(Shared(s, p, g)[asks[k].server], asks[k].mark)
  {
    hide Nodes.Inv;
    hide StatusOk;
    hide MailOk;
    hide InverseOk;
    hide PageOk;
    hide Prefixes;
    hide Answers;
    hide Share;
    assert ProperAsk(|s.nodes|, s.nodes[p], g, asks[k]);
    SharedAnswers(s.nodes[asks[k].server], g, asks[k].mark);
  }

  lemma SharedNodes(s: State, p: nat, g: nat)
    requires Consistent(s) && WellSized(s) && p < |s.nodes| && g < |s.home|
    ensures var shared := Shared(s, p, g);
            && (s.nodes[p].state[g] != Private ==> shared[p] == s.nodes[p])
            && forall q: nat :: q < |s.nodes| ==> Nodes.Inv(|s.nodes|, |s.home|, shared[q]) && SameNews(s.nodes[q], shared[q])
  {
    hide Nodes.Inv;
    hide StatusOk;
    hide MailOk;
    hide InverseOk;
    hide Prefixes;
    assert PageOk(s, p, g);
    HomeHasCopy(s, p, g);
    ShareKeeps(|s.nodes|, |s.home|, s.nodes[s.home[g]], g);
  }

  /** The servers' side of a fault. */
  lemma {:induction false} AllServed(s: State, p: nat, g: nat, asks: seq<Ask>)
    requires Consistent(s) && WellSized(s) && p < |s.nodes| && g < |s.home| && Given(s, p, g, asks)
    requires forall k :: 0 <= k < |asks| ==> asks[k].server < |s.nodes|
    requires s.nodes[p].state[g] != Valid && s.nodes[p].state[g] != Private
    ensures var shared := Shared(s, p, g);
            var served := ServeAll(shared, asks);
            && served[p] == s.nodes[p]
            && (forall q: nat :: q < |s.nodes| ==> Served(|s.nodes|, |s.home|, shared[q], served[q]) && SameNews(s.nodes[q], shared[q]))
            && (forall k :: 0 <= k < |asks| ==> asks[k].mark in served[asks[k].server].diffs)
            && (forall q: nat, m: Mark :: q < |s.nodes| && m in served[q].diffs ==> m in shared[q].diffs || Ask(q, m) in asks)
  {
    hide Nodes.Inv;
    hide Consistent;
    hide ServeAll;
    hide Served;
    hide Shared;
    hide Given;
    hide Answers;
    hide SameNews;
    SharedNodes(s, p, g);
    forall k | 0 <= k < |asks|
      ensures asks[k].server < |s.nodes| && asks[k].server != p && asks[k].mark.page == g
      ensures Answers(Shared(s, p, g)[asks[k].server], asks[k].mark)
    {
      SharedServer(s, p, g, asks, k);
    }
    ServeAllKeeps(|s.nodes|, |s.home|, Shared(s, p, g), g, asks, p);
  }

  /** Fetching a page that is not valid. */
  lemma {:induction false} FetchKeepsAll(s: State, p: nat, g: nat, write: bool, asks: seq<Ask>)
    requires Consistent(s) && WellSized(s) && p < |s.nodes| && g < |s.home| && Given(s, p, g, asks)
    requires forall k :: 0 <= k < |asks| ==> asks[k].server < |s.nodes|
    requires s.nodes[p].state[g] == Invalid || s.nodes[p].state[g] == Empty
    ensures var r := Fault(s, p, g, write, asks);
            && |r| == |s.nodes|
            && (forall q: nat :: q < |r| ==> SameNews(s.nodes[q], r[q]) && Nodes.Inv(|s.nodes|, |s.home|, r[q]))
            && (forall q: nat :: q < |r| && q != p ==> r[q].dirty == s.nodes[q].dirty)
            && StatesAfter(s, p, g, r)
  {
    hide Nodes.Inv;
    hide StatusOk;
    hide MailOk;
    hide InverseOk;
    hide Exclusive;
    hide Prefixes;
    hide ServeAll;
    hide Given;
    var n, np, x := |s.nodes|, |s.home|, s.nodes[p];
    AllServed(s, p, g, asks);
    var shared := Shared(s, p, g);
    var served := ServeAll(shared, asks);
    AccessKeeps(n, np, x, g, write);
    var r := Fault(s, p, g, write, asks);
    forall q: nat | q < |r| && q != p
      ensures SameNews(s.nodes[q], r[q]) && r[q].dirty == s.nodes[q].dirty && Nodes.Inv(n, np, r[q]) && r[q].state == shared[q].state
    {
      assert Served(n, np, shared[q], served[q]);
    }
  }

  lemma HomeHasCopy(s: State, p: nat, g: nat)
    requires p < |s.nodes| && g < |s.home| && g < |s.nodes[p].state| && PageOk(s, p, g)
    ensures s.nodes[p].state[g] == Empty ==> s.home[g] != p
  {
  }

  lemma SharedAnswers(x: Node, g: nat, m: Mark)
    requires g < |x.state| && Answers(x, m)
    ensures Answers(Share(x, g), m)
  {
    assert Noticed(Share(x, g), m.page, m.id, m.time);
  }

  lemma {:induction false} FaultKeeps(s: State, p: nat, g: nat, write: bool, asks: seq<Ask>)
    requires Consistent(s) && WellSized(s) && p < |s.nodes| && g < |s.home| && Given(s, p, g, asks)
    requires s.status[p].Running?
    ensures forall k :: 0 <= k < |asks| ==> asks[k].server < |s.nodes|
    ensures var t := s.(nodes := Fault(s, p, g, write, asks));
            && Consistent(t) && Later(s, t)
            && forall q: nat :: q < |s.nodes| ==> SameNews(s.nodes[q], t.nodes[q])
  {
    hide Nodes.Inv;
    hide Prefixes;
    hide StatusOk;
    hide MailOk;
    hide InverseOk;
    hide Fault;
    var t := s.(nodes := Fault(s, p, g, write, asks));
    FaultEffect(s, p, g, write, asks);
    FaultExclusive(s, t, p, g);
    FaultOwned(s, p, g, write, asks);
    MemoryMoves(s, t);
  }

  /** The diffs a process fetches have been made by their makers. */
  lemma {:induction false} FaultOwned(s: State, p: nat, g: nat, write: bool, asks: seq<Ask>)
    requires Consistent(s) && WellSized(s) && p < |s.nodes| && g < |s.home| && Given(s, p, g, asks)
    requires forall k :: 0 <= k < |asks| ==> asks[k].server < |s.nodes|
    ensures Owned(Fault(s, p, g, write, asks))
  {
    hide Consistent;
    hide ServeAll;
    hide Given;
    hide Access;
    hide Owned;
    ConsistentOwned(s);
    ConsistentParts(s);
    var x := s.nodes[p];
    AccessKeeps(|s.nodes|, |s.home|, x, g, write);
    if x.state[g] == Private || x.state[g] == Valid {
      AccessedOwned(s.nodes, p, Access(x, g, write), g, write);
    } else {
      AllServed(s, p, g, asks);
      ServedOwned(s, p, g, asks);
      var served := ServeAll(Shared(s, p, g), asks);
      forall m: Mark | m.page == g && Noticed(x, g, m.id, m.time) ensures m in x.diffs || exists q: nat :: q < |served| && m in served[q].diffs {
        NoticedIsServed(s, p, g, asks, m);
      }
      AccessedOwned(served, p, Access(x, g, write), g, write);
    }
  }

  lemma NoticedIsServed(s: State, p: nat, g: nat, asks: seq<Ask>, m: Mark)
    requires p < |s.nodes| && g < |s.nodes[p].state| && Given(s, p, g, asks) && s.nodes[p].state[g] != Valid && s.nodes[p].state[g] != Private
    requires m.page == g && Noticed(s.nodes[p], g, m.id, m.time)
    ensures m in s.nodes[p].diffs || exists k :: 0 <= k < |asks| && asks[k].mark == m && asks[k].server < |s.nodes|
  {
    hide ProperAsk;
    hide Answers;
    if m !in s.nodes[p].diffs {
      assert m == Mark(g, m.id, m.time) && IsPending(s.nodes[p], g, m.id, m.time);
      assert IsAsked(asks, m);
    }
  }

  /** A process that gains diffs which somebody has. */
  lemma AccessedOwned(nodes: seq<Node>, p: nat, y: Node, g: nat, write: bool)
    requires Owned(nodes) && p < |nodes| && g < |nodes[p].state| && Accessed(nodes[p], y, g, write)
    requires nodes[p].state[g] != Private && nodes[p].state[g] != Valid ==>
               forall m: Mark :: m.page == g && Noticed(nodes[p], g, m.id, m.time) ==> m in nodes[p].diffs || exists q: nat :: q < |nodes| && m in nodes[q].diffs
    ensures Owned(nodes[p := y])
  {
    var r := nodes[p := y];
    forall q: nat, m: Mark | q < |r| && m in r[q].diffs ensures m.id < |r| && m in r[m.id].diffs {
      if q == p && m !in nodes[p].diffs {
        var o: nat :| o < |nodes| && m in nodes[o].diffs;
        assert m.id < |nodes| && m in nodes[m.id].diffs;
      }
    }
  }

  lemma ConsistentOwned(s: State)
    requires Consistent(s)
    ensures Owned(s.nodes) && forall q: nat :: q < |s.nodes| ==> s.nodes[q].id == q
  {
    hide Nodes.Inv;
  }

  lemma {:induction false} ServedOwned(s: State, p: nat, g: nat, asks: seq<Ask>)
    requires Consistent(s) && WellSized(s) && p < |s.nodes| && g < |s.home| && Given(s, p, g, asks)
    requires forall k :: 0 <= k < |asks| ==> asks[k].server < |s.nodes|
    requires s.nodes[p].state[g] != Valid && s.nodes[p].state[g] != Private
    ensures Owned(ServeAll(Shared(s, p, g), asks))
  {
    hide Nodes.Inv;
    hide Prefixes;
    hide Exclusive;
    hide StatusOk;
    hide MailOk;
    hide InverseOk;
    hide Owned;
    hide ServeAll;
    AllServed(s, p, g, asks);
    var shared := Shared(s, p, g);
    forall q: nat | q < |s.nodes| ensures DiffsGrow(s.nodes[q], shared[q]) {
    }
    OwnedStays(s.nodes, shared);
    forall q: nat | q < |s.nodes| ensures DiffsGrow(shared[q], ServeAll(shared, asks)[q]) {
      assert Served(|s.nodes|, |s.home|, shared[q], ServeAll(shared, asks)[q]);
    }
    OwnedStays(shared, ServeAll(shared, asks));
  }

  lemma {:induction false} FaultEffect(s: State, p: nat, g: nat, write: bool, asks: seq<Ask>)
    requires Consistent(s) && WellSized(s) && p < |s.nodes| && g < |s.home| && Given(s, p, g, asks)
    requires forall k :: 0 <= k < |asks| ==> asks[k].server < |s.nodes|
    ensures var r := Fault(s, p, g, write, asks);
            && |r| == |s.nodes|
            && (forall q: nat :: q < |r| ==> SameNews(s.nodes[q], r[q]) && Nodes.Inv(|s.nodes|, |s.home|, r[q]))
            && (forall q: nat :: q < |r| && q != p ==> r[q].dirty == s.nodes[q].dirty)
            && StatesAfter(s, p, g, r)
  {
    hide Nodes.Inv;
    hide Prefixes;
    hide Exclusive;
    hide StatusOk;
    hide MailOk;
    hide InverseOk;
    var x := s.nodes[p];
    if x.state[g] == Private || x.state[g] == Valid {
      AccessKeeps(|s.nodes|, |s.home|, x, g, write);
    } else {
      FetchKeepsAll(s, p, g, write, asks);
    }
  }

  /** The page becomes valid at `p`, and stops being private at its home; nothing else changes. */
  ghost predicate StatesAfter(s: State, p: nat, g: nat, r: seq<Node>)
    requires p < |s.nodes| && g < |s.home| && g < |s.nodes[p].state|
  {
    && |r| == |s.nodes|
    && forall q: nat :: q < |r| ==> StateAfter(s, p, g, q, r[q].state)
  }

  ghost predicate StateAfter(s: State, p: nat, g: nat, q: nat, state: seq<PageState>)
    requires p < |s.nodes| && g < |s.home| && g < |s.nodes[p].state| && q < |s.nodes|
  {
    if s.nodes[p].state[g] == Private || s.nodes[p].state[g] == Valid then state == s.nodes[q].state
    else if q == p then state == s.nodes[q].state[g := Valid]
    else if q == s.home[g] && s.nodes[p].state[g] == Empty then g < |s.nodes[q].state| && state == Share(s.nodes[q], g).state
    else state == s.nodes[q].state
  }

  lemma FaultExclusive(s: State, t: State, p: nat, g: nat)
    requires Exclusive(s) && WellSized(s) && p < |s.nodes| && g < |s.home| && t.home == s.home && StatesAfter(s, p, g, t.nodes)
    requires forall q: nat :: q < |s.nodes| ==> t.nodes[q].lists == s.nodes[q].lists
    ensures Exclusive(t)
  {
    forall q: nat, h: nat | q < |t.nodes| && h < |t.home| && h < |t.nodes[q].state| ensures PageOk(t, q, h) {
      assert SizedNode(s, q) && SizedNode(s, p) && SizedNode(s, s.home[g]);
      assert StateAfter(s, p, g, q, t.nodes[q].state);
      assert PageOk(s, q, h) && PageOk(s, p, g) && PageOk(s, s.home[g], g);
      if t.nodes[q].state[h] == Private {
        assert s.nodes[q].state[h] == Private;
        forall r: nat | r < |t.nodes| && r != q && h < |t.nodes[r].state| ensures t.nodes[r].state[h] == Empty {
          assert SizedNode(s, r);
          assert StateAfter(s, p, g, r, t.nodes[r].state);
        }
      }
    }
  }

  /** A fault keeps the system consistent, whether what is asked for can be given or not. */
  lemma {:induction false} TouchKeeps(s: State, p: nat, g: nat, write: bool)
    requires Consistent(s) && WellSized(s) && Enabled(s, Touch(p, g, write))
    ensures var t := Apply(s, Touch(p, g, write));
            && Consistent(t) && Later(s, t) && forall q: nat :: q < |s.nodes| ==> SameNews(s.nodes[q], t.nodes[q])
  {
    hide Consistent;
    hide Later;
    hide Fault;
    hide AllAnswered;
    var asks, t := Wanted(s.nodes[p], g), Apply(s, Touch(p, g, write));
    WantedGiven(s, p, g);
    if AllAnswered(s.nodes, asks) {
      FaultKeeps(s, p, g, write, asks);
    } else {
      ConsistentParts(s);
      MemoryMoves(s, t);
    }
  }

  lemma WantedGiven(s: State, p: nat, g: nat)
    requires Consistent(s) && WellSized(s) && p < |s.nodes| && g < |s.home|
    ensures g < |s.nodes[p].state| && (AllAnswered(s.nodes, Wanted(s.nodes[p], g)) ==> Given(s, p, g, Wanted(s.nodes[p], g)))
  {
    hide Nodes.Inv;
    hide RequestsFor;
    hide ProperAsks;
    hide AllAnswered;
    var x := s.nodes[p];
    if x.state[g] != Valid && x.state[g] != Private {
      RequestsAreProper(|s.nodes|, |s.home|, x, g);
    }
  }

  lemma ConsistentParts(s: State)
    requires Consistent(s)
    ensures forall q: nat :: q < |s.nodes| ==> Nodes.Inv(|s.nodes|, |s.home|, s.nodes[q])
    ensures Exclusive(s) && Owned(s.nodes)
    ensures forall t: State :: t.nodes == s.nodes && t.home == s.home ==> Exclusive(t)
  {
    hide Nodes.Inv;
    forall t: State | t.nodes == s.nodes && t.home == s.home ensures Exclusive(t) {
      forall p: nat, g: nat | p < |t.nodes| && g < |t.home| && g < |t.nodes[p].state| ensures PageOk(t, p, g) {
        assert PageOk(s, p, g);
      }
    }
  }

  /** What a fault of `p` on page `g` does to another process: its diffs grow by exactly those it is asked for, a twin
      goes with the diff made from it, its page states change only where it sends a private page, and its dirty pages
      and what it knows stay. */
  ghost predicate ServedBy(s: State, p: nat, g: nat, q: nat, z: Node)
    requires p < |s.nodes| && g < |s.home| && g < |s.nodes[p].state| && q < |s.nodes|
  {
    && SameNews(s.nodes[q], z) && z.dirty == s.nodes[q].dirty && StateAfter(s, p, g, q, z.state)
    && (forall m :: m in z.diffs <==> m in s.nodes[q].diffs || Ask(q, m) in Wanted(s.nodes[p], g))
    && z.id < |z.lists| && (forall h :: h in z.twins <==> h in z.dirty || Undiffed(z, h))
  }

  lemma TwinsAre(n: nat, np: nat, x: Node)
    requires Nodes.Inv(n, np, x)
    ensures forall h :: h in x.twins <==> h in x.dirty || Undiffed(x, h)
  {
    hide PagesRight;
    hide CanServe;
    hide OldestDiffed;
    hide TwinSees;
    hide InvalidNoticed;
    hide Ascending;
    forall h ensures h in x.twins <==> h in x.dirty || Undiffed(x, h) {
      assert Undiffed(x, h) ==> Noticed(x, h, x.id, Newest(x.lists[x.id], h));
    }
  }

  /** The whole effect of a read or write that does not fail. */
  lemma {:induction false} TouchEffect(s: State, p: nat, g: nat, write: bool)
    requires Consistent(s) && WellSized(s) && Enabled(s, Touch(p, g, write)) && !Apply(s, Touch(p, g, write)).failed
    ensures var t := Apply(s, Touch(p, g, write));
            && |t.nodes| == |s.nodes| && t == s.(nodes := t.nodes)
            && g < |s.nodes[p].state| && Accessed(s.nodes[p], t.nodes[p], g, write)
            && (forall q: nat :: q < |s.nodes| && q != p ==> ServedBy(s, p, g, q, t.nodes[q]))
  {
    hide Consistent;
    hide Fault;
    hide Accessed;
    hide ServedBy;
    hide RequestsFor;
    WantedGiven(s, p, g);
    FaultAccess(s, p, g, write, Wanted(s.nodes[p], g));
    forall q: nat | q < |s.nodes| && q != p ensures ServedBy(s, p, g, q, Apply(s, Touch(p, g, write)).nodes[q]) {
      FaultServed(s, p, g, write, Wanted(s.nodes[p], g), q);
    }
  }

  lemma {:induction false} FaultAccess(s: State, p: nat, g: nat, write: bool, asks: seq<Ask>)
    requires Consistent(s) && WellSized(s) && p < |s.nodes| && g < |s.home| && Given(s, p, g, asks)
    requires forall k :: 0 <= k < |asks| ==> asks[k].server < |s.nodes|
    ensures var r := Fault(s, p, g, write, asks); |r| == |s.nodes| && Accessed(s.nodes[p], r[p], g, write)
  {
    hide Nodes.Inv;
    hide Prefixes;
    hide Exclusive;
    hide StatusOk;
    hide MailOk;
    hide InverseOk;
    hide Accessed;
    hide Given;
    hide ServeAll;
    var x := s.nodes[p];
    AccessKeeps(|s.nodes|, |s.home|, x, g, write);
    if x.state[g] != Private && x.state[g] != Valid {
      AllServed(s, p, g, asks);
    }
  }

  lemma {:induction false} FaultServed(s: State, p: nat, g: nat, write: bool, asks: seq<Ask>, q: nat)
    requires Consistent(s) && WellSized(s) && p < |s.nodes| && g < |s.home| && Given(s, p, g, asks) && q < |s.nodes| && q != p
    requires forall k :: 0 <= k < |asks| ==> asks[k].server < |s.nodes|
    requires asks == Wanted(s.nodes[p], g)
    ensures var r := Fault(s, p, g, write, asks); |r| == |s.nodes| && ServedBy(s, p, g, q, r[q])
  {
    hide Consistent;
    hide Given;
    hide ServeAll;
    hide Access;
    hide RequestsFor;
    hide Nodes.Inv;
    FaultEffect(s, p, g, write, asks);
    var x := s.nodes[p];
    var r := Fault(s, p, g, write, asks);
    assert StateAfter(s, p, g, q, r[q].state);
    TwinsAre(|s.nodes|, |s.home|, r[q]);
    ShapeOf(|s.nodes|, |s.home|, r[q]);
    if x.state[g] != Private && x.state[g] != Valid {
      AllServed(s, p, g, asks);
      var shared := Shared(s, p, g);
      var served := ServeAll(shared, asks);
      assert r[q] == served[q] && Served(|s.nodes|, |s.home|, shared[q], served[q]);
      forall m ensures m in r[q].diffs <==> m in s.nodes[q].diffs || Ask(q, m) in asks {
        if Ask(q, m) in asks {
          var k :| 0 <= k < |asks| && asks[k] == Ask(q, m);
          assert asks[k].mark in served[asks[k].server].diffs;
        }
      }
    }
  }
}
