/** Causal closure: having seen an interval means having seen all that its maker had seen.

    It holds in exactly the runs in which no process grants a lock from a clock that is not closed. Only the
    manager of a barrier that is still collecting arrivals can have such a clock. */
module Causality {
  import opened Clocks
  import opened Nodes
  import opened Requests
  import opened Systems
  import opened SystemSteps
  import opened Runs

  /** A vector that contains, with each interval it counts, all that interval had seen. */
  ghost predicate Closed(s: State, c: seq<nat>) {
    && Cuttable(s, c)
    && forall i: nat, k: nat :: i < |c| && k < c[i] ==> AtMost(s.nodes[i].lists[i][k].vt, c)
  }

  /** What a process can tell from its own lists: it has seen all that the newest interval it holds of
      each process had seen. */
  predicate NewestSeen(x: Node) {
    forall i :: 0 <= i < |x.lists| && x.lists[i] != [] ==> AtMost(x.lists[i][|x.lists[i]| - 1].vt, x.clock)
  }

  lemma {:induction false} ClosedIff(s: State, p: nat)
    requires Consistent(s) && p < |s.nodes|
    ensures Closed(s, s.nodes[p].clock) <==> NewestSeen(s.nodes[p])
  {
    hide StatusOk;
    hide MailOk;
    hide InverseOk;
    hide Exclusive;
    hide Covered;
    hide PagesRight;
    hide CanServe;
    hide OldestDiffed;
    hide TwinSees;
    hide InvalidNoticed;
    ListsAreCut(s, p);
    var x := s.nodes[p];
    assert LaidNode(s, p);
    if NewestSeen(x) {
      forall i: nat, k: nat | i < |x.clock| && k < x.clock[i] ensures AtMost(s.nodes[i].lists[i][k].vt, x.clock) {
        assert Prefix(s, p, i);
        assert Ascending(s.nodes[i].lists[i], s.nodes[i].clock);
        var last := x.clock[i] - 1;
        assert x.lists[i][last] == s.nodes[i].lists[i][last];
        assert k < last ==> AtMost(s.nodes[i].lists[i][k].vt, s.nodes[i].lists[i][last].vt);
      }
    }
    if Closed(s, x.clock) {
      forall i: nat | i < |x.lists| && x.lists[i] != [] ensures AtMost(x.lists[i][|x.lists[i]| - 1].vt, x.clock) {
        assert Prefix(s, p, i);
      }
    }
  }

  lemma ClosedStays(s: State, t: State, c: seq<nat>)
    requires Later(s, t) && Closed(s, c)
    ensures Closed(t, c)
  {
    CutStays(s, t, c);
    forall i: nat, k: nat | i < |c| && k < c[i] ensures AtMost(t.nodes[i].lists[i][k].vt, c) {
      assert s.nodes[i].lists[i] <= t.nodes[i].lists[i];
    }
  }

  /** A vector that counts one more interval, itself stamped with that vector or less. */
  lemma ClosedAdvanced(s: State, t: State, p: nat, c: seq<nat>, d: seq<nat>)
    requires Later(s, t) && Closed(s, c) && p < |s.nodes| && AtMost(c, d) && Cuttable(t, d)
    requires d == c[p := d[p]]
    requires forall k: nat :: c[p] <= k < d[p] ==> AtMost(t.nodes[p].lists[p][k].vt, d)
    ensures Closed(t, d)
  {
    ClosedStays(s, t, c);
    forall i: nat, k: nat | i < |d| && k < d[i] ensures AtMost(t.nodes[i].lists[i][k].vt, d) {
      assert k < c[i] ==> AtMost(t.nodes[i].lists[i][k].vt, c);
    }
  }

  ghost predicate OwnClosed(s: State, i: nat, k: nat) {
    i < |s.nodes| && i < |s.nodes[i].lists| && k < |s.nodes[i].lists[i]| && Closed(s, s.nodes[i].lists[i][k].vt)
  }

  ghost predicate ProcessClosed(s: State, p: nat)
    requires p < |s.nodes| && p < |s.status| && p < |s.inbox|
  {
    && (AtOwnBarrier(s, p) || Closed(s, s.nodes[p].clock))
    && (s.status[p].Requesting? ==> Closed(s, s.status[p].vt))
    && (s.inbox[p].Some? ==> Closed(s, s.inbox[p].value.sent))
  }

  /** Each of two intervals had seen the other. */
  ghost predicate Mutual(s: State, i: nat, k: nat, j: nat, l: nat) {
    && i < |s.nodes| && j < |s.nodes| && i < |s.nodes[i].lists| && j < |s.nodes[j].lists|
    && k < |s.nodes[i].lists[i]| && l < |s.nodes[j].lists[j]|
    && i < |s.nodes[j].lists[j][l].vt| && j < |s.nodes[i].lists[i][k].vt|
    && k < s.nodes[j].lists[j][l].vt[i] && l < s.nodes[i].lists[i][k].vt[j]
  }

  ghost predicate NoneMutual(s: State) {
    forall i: nat, k: nat, j: nat, l: nat :: i != j ==> !Mutual(s, i, k, j, l)
  }

  /** An interval that was made before another cannot have seen it. */
  lemma NoneMutualStays(s: State, t: State, p: nat)
    requires Consistent(s) && Later(s, t) && p < |s.nodes| && NoneMutual(s)
    requires forall q: nat :: q < |s.nodes| && q != p ==> t.nodes[q].lists[q] == s.nodes[q].lists[q]
    requires |t.nodes[p].lists[p]| <= |s.nodes[p].lists[p]| + 1
    ensures NoneMutual(t)
  {
    hide Nodes.Inv;
    hide StatusOk;
    hide MailOk;
    hide InverseOk;
    hide Exclusive;
    assert LaidNode(s, p) && LaidNode(t, p);
    assert s.nodes[p].lists[p] <= t.nodes[p].lists[p];
    forall i: nat, k: nat, j: nat, l: nat | i != j && Mutual(t, i, k, j, l) ensures false {
      assert LaidNode(s, i) && LaidNode(s, j);
      assert !Mutual(s, i, k, j, l);
      if i == p && k == |s.nodes[p].lists[p]| {
        StampBound(s, j, l, p);
      } else if j == p && l == |s.nodes[p].lists[p]| {
        StampBound(s, i, k, p);
      }
    }
  }

  lemma StampBound(s: State, j: nat, l: nat, p: nat)
    requires Consistent(s) && j < |s.nodes| && p < |s.nodes| && j < |s.nodes[j].lists| && l < |s.nodes[j].lists[j]|
    ensures p < |s.nodes[p].lists| && p < |s.nodes[j].lists[j][l].vt|
    ensures s.nodes[j].lists[j][l].vt[p] <= |s.nodes[p].lists[p]|
  {
    hide StatusOk;
    hide MailOk;
    hide InverseOk;
    hide Exclusive;
    assert LaidNode(s, j) && LaidNode(s, p) && Prefix(s, j, p);
    assert Ascending(s.nodes[j].lists[j], s.nodes[j].clock);
  }

  ghost predicate CausalState(s: State) {
    && Consistent(s) && NoneMutual(s)
    && (forall i: nat, k: nat :: i < |s.nodes| && i < |s.nodes[i].lists| && k < |s.nodes[i].lists[i]| ==> OwnClosed(s, i, k))
    && (forall p: nat :: p < |s.nodes| ==> ProcessClosed(s, p))
  }

  lemma OwnStays(s: State, t: State, i: nat, k: nat)
    requires Later(s, t) && OwnClosed(s, i, k)
    ensures OwnClosed(t, i, k)
  {
    assert s.nodes[i].lists[i] <= t.nodes[i].lists[i];
    ClosedStays(s, t, s.nodes[i].lists[i][k].vt);
  }

  lemma ProcessStays(s: State, t: State, p: nat)
    requires Later(s, t) && p < |s.nodes| && ProcessClosed(s, p)
    requires t.nodes[p].clock == s.nodes[p].clock || AtOwnBarrier(t, p)
    requires AtOwnBarrier(s, p) ==> AtOwnBarrier(t, p)
    requires t.inbox[p] == s.inbox[p] || t.inbox[p].None?
    requires t.status[p].Requesting? ==> t.status[p] == s.status[p]
    ensures ProcessClosed(t, p)
  {
    if !AtOwnBarrier(s, p) {
      ClosedStays(s, t, s.nodes[p].clock);
    }
    if s.status[p].Requesting? {
      ClosedStays(s, t, s.status[p].vt);
    }
    if s.inbox[p].Some? {
      ClosedStays(s, t, s.inbox[p].value.sent);
    }
  }

  // ---------------------------------------------------------------- the steps that stamp or merge

  lemma {:induction false} CloseCausal(s: State, p: nat)
    requires CausalState(s) && WellSized(s) && p < |s.nodes|
    ensures CausalState(CloseAt(s, p))
  {
    hide Nodes.Inv;
    hide Closed;
    hide Prefixes;
    hide Exclusive;
    hide MailOk;
    hide InverseOk;
    var x, t := s.nodes[p], CloseAt(s, p);
    CloseKeeps(s, p);
    CloseLater(s, p);
    if x.dirty == {} {
      assert t == s;
    } else {
      CreateEffect(x, x.clock);
      assert StatusOk(s, p) && ProcessClosed(s, p);
      assert !AtOwnBarrier(s, p);
      var d := t.nodes[p].clock;
      assert d == Advanced(x.clock, p);
      NoneMutualStays(s, t, p);
      ClosedNow(s, t, p, d);
      forall i: nat, k: nat | i < |t.nodes| && i < |t.nodes[i].lists| && k < |t.nodes[i].lists[i]| ensures OwnClosed(t, i, k) {
        if i != p || k < |x.lists[p]| {
          assert OwnClosed(s, i, k);
          OwnStays(s, t, i, k);
        }
      }
      forall q: nat | q < |t.nodes| ensures ProcessClosed(t, q) {
        assert ProcessClosed(s, q);
        if q != p {
          ProcessStays(s, t, q);
        } else {
          assert LaidNode(s, p);
          CloseSelf(s, t, p);
        }
      }
    }
  }

  lemma CloseSelf(s: State, t: State, p: nat)
    requires Later(s, t) && p < |s.nodes| && ProcessClosed(s, p) && Closed(t, t.nodes[p].clock)
    requires t.status == s.status && t.inbox == s.inbox
    ensures ProcessClosed(t, p)
  {
    hide Closed;
    if s.status[p].Requesting? {
      ClosedStays(s, t, s.status[p].vt);
    }
    if s.inbox[p].Some? {
      ClosedStays(s, t, s.inbox[p].value.sent);
    }
  }

  lemma ClosedNow(s: State, t: State, p: nat, d: seq<nat>)
    requires Consistent(s) && Later(s, t) && Laid(t) && Prefixes(t) && p < |s.nodes| && Closed(s, s.nodes[p].clock)
    requires d == t.nodes[p].clock == Advanced(s.nodes[p].clock, p)
    requires |t.nodes[p].lists[p]| == |s.nodes[p].lists[p]| + 1
    requires t.nodes[p].lists[p][|s.nodes[p].lists[p]|].vt == d
    ensures Closed(t, d)
  {
    hide Nodes.Inv;
    hide StatusOk;
    hide MailOk;
    hide InverseOk;
    hide Exclusive;
    assert LaidNode(s, p) && LaidNode(t, p);
    ListsAreCut(t, p);
    ClosedAdvanced(s, t, p, s.nodes[p].clock, d);
  }

  lemma MergedClosed(s: State, t: State, p: nat, c: seq<nat>, b: Basis)
    requires Consistent(s) && Later(s, t) && Prefixes(t) && p < |s.nodes| && Closed(s, s.nodes[p].clock) && Closed(s, c)
    requires Merged(|s.nodes|, |s.home|, s.nodes[p], t.nodes[p], Cut(s, c), 0, b) && Ready(s.nodes[p], b)
    ensures Closed(t, t.nodes[p].clock)
  {
    hide Nodes.Inv;
    hide StatusOk;
    hide MailOk;
    hide InverseOk;
    hide Exclusive;
    hide Merged;
    hide Cut;
    var x, y := s.nodes[p], t.nodes[p];
    ListsAreCut(t, p);
    assert LaidNode(s, p) && LaidNode(t, p);
    forall i: nat | i < |s.nodes| ensures x.clock[i] <= y.clock[i] && c[i] <= y.clock[i]
      && (i != p ==> y.clock[i] <= x.clock[i] || y.clock[i] <= c[i]) {
      MergedLists(s, p, y, c, b, i);
    }
    ClosedStays(s, t, x.clock);
    ClosedStays(s, t, c);
    forall i: nat, k: nat | i < |y.clock| && k < y.clock[i] ensures AtMost(t.nodes[i].lists[i][k].vt, y.clock) {
      if k < x.clock[i] {
        assert AtMost(t.nodes[i].lists[i][k].vt, x.clock);
      } else if k < c[i] {
        assert AtMost(t.nodes[i].lists[i][k].vt, c);
      } else {
        assert i == p;
        OwnNew(|s.nodes|, |s.home|, x, y, Cut(s, c), b, k);
      }
    }
  }

  /** The interval closed while incorporating. */
  lemma OwnNew(n: nat, np: nat, x: Node, y: Node, lists: seq<seq<Interval>>, b: Basis, k: nat)
    requires Merged(n, np, x, y, lists, 0, b) && Nodes.Inv(n, np, x) && Ready(x, b) && |x.lists[x.id]| <= k < |y.lists[x.id]|
    ensures k == |x.lists[x.id]| == x.clock[x.id] && b.Saved? && MayStamp(x, b.vt)
    ensures y.lists[x.id][k].vt == Advanced(b.vt, x.id)
    ensures (forall i :: 0 <= i < n ==> x.clock[i] <= y.clock[i]) && |y.lists[x.id]| == y.clock[x.id] == k + 1
    ensures AtMost(y.lists[x.id][k].vt, y.clock)
  {
    hide Covered;
    hide PagesRight;
    hide CanServe;
    hide OldestDiffed;
    hide TwinSees;
    hide InvalidNoticed;
    assert Shape(n, np, y);
    forall i | 0 <= i < n ensures x.clock[i] <= y.clock[i] {
      if i != x.id {
        assert y.lists[i] == Longer(x.lists[i], lists[i]);
      }
    }
  }

  lemma MergedOwn(s: State, p: nat, y: Node, c: seq<nat>, b: Basis)
    requires Laid(s) && p < |s.nodes| && Cuttable(s, c) && Merged(|s.nodes|, |s.home|, s.nodes[p], y, Cut(s, c), 0, b)
    ensures p < |y.lists| && p < |s.nodes[p].lists| && |y.lists[p]| <= |s.nodes[p].lists[p]| + 1
  {
    hide Nodes.Inv;
    assert LaidNode(s, p);
  }

  lemma {:induction false} ReceiveCausal(s: State, p: nat, b: Basis)
    requires CausalState(s) && WellSized(s) && p < |s.nodes| && s.inbox[p].Some? && Ready(s.nodes[p], b)
    requires b == (if s.status[p].Requesting? then Saved(s.status[p].vt) else Live)
    ensures b.Saved? ==> |b.vt| == |s.nodes|
    ensures Fit(|s.nodes|, s.inbox[p].value.ivs) && CausalState(Receive(s, p, b))
  {
    hide Nodes.Inv;
    hide Closed;
    hide Prefixes;
    hide Exclusive;
    hide StatusOk;
    hide InverseOk;
    hide Incorporate;
    hide Merged;
    hide Cut;
    hide Missing;
    hide Ready;
    assert MailOk(s, p) && ProcessClosed(s, p);
    ReceiveKeeps(s, p, b);
    ReceiveLater(s, p, b);
    ReceiveMerges(s, p, b);
    var x, t, c := s.nodes[p], Receive(s, p, b), s.inbox[p].value.sent;
    assert !AtOwnBarrier(s, p);
    MergedClosed(s, t, p, c, b);
    MergedOwn(s, p, t.nodes[p], c, b);
    NoneMutualStays(s, t, p);
    forall i: nat, k: nat | i < |t.nodes| && i < |t.nodes[i].lists| && k < |t.nodes[i].lists[i]| ensures OwnClosed(t, i, k) {
      assert LaidNode(s, i);
      if i != p || k < |x.lists[p]| {
        assert OwnClosed(s, i, k);
        OwnStays(s, t, i, k);
      } else {
        NewStampClosed(s, t, p, c, b, k);
      }
    }
    forall q: nat | q < |t.nodes| ensures ProcessClosed(t, q) {
      assert ProcessClosed(s, q);
      if q != p {
        ProcessStays(s, t, q);
      }
    }
  }

  lemma NewStampClosed(s: State, t: State, p: nat, c: seq<nat>, b: Basis, k: nat)
    requires Consistent(s) && Later(s, t) && Prefixes(t) && p < |s.nodes| && Cuttable(s, c)
    requires Merged(|s.nodes|, |s.home|, s.nodes[p], t.nodes[p], Cut(s, c), 0, b) && Ready(s.nodes[p], b)
    requires |s.nodes[p].lists[p]| <= k < |t.nodes[p].lists[p]| && (b.Saved? ==> Closed(s, b.vt))
    ensures OwnClosed(t, p, k)
  {
    hide Nodes.Inv;
    hide StatusOk;
    hide MailOk;
    hide InverseOk;
    hide Exclusive;
    hide Merged;
    hide Cut;
    hide Ascending;
    assert LaidNode(s, p) && LaidNode(t, p);
    OwnNew(|s.nodes|, |s.home|, s.nodes[p], t.nodes[p], Cut(s, c), b, k);
    var d := Advanced(b.vt, p);
    CutStays(s, t, b.vt);
    ClosedAdvanced(s, t, p, b.vt, d);
  }

  // ---------------------------------------------------------------- the other steps

  /** A step that leaves every clock alone, except that of a collecting manager, and posts nothing that is not closed. */
  lemma QuietCausal(s: State, t: State)
    requires CausalState(s) && Consistent(t) && Later(s, t)
    requires forall i: nat :: i < |s.nodes| ==> t.nodes[i].lists[i] == s.nodes[i].lists[i]
    requires forall p: nat :: p < |s.nodes| ==>
               && (t.nodes[p].clock == s.nodes[p].clock || AtOwnBarrier(t, p))
               && (AtOwnBarrier(s, p) ==> AtOwnBarrier(t, p) || Closed(s, t.nodes[p].clock))
               && (t.inbox[p] == s.inbox[p] || t.inbox[p].None? || Closed(s, t.inbox[p].value.sent))
               && (t.status[p].Requesting? ==> t.status[p] == s.status[p] || Closed(s, t.status[p].vt))
    ensures CausalState(t)
  {
    hide Consistent;
    hide Laid;
    hide Closed;
    LaterNow(s, t);
    if |s.nodes| > 0 {
      NoneMutualStays(s, t, 0);
    }
    forall i: nat, k: nat | i < |t.nodes| && i < |t.nodes[i].lists| && k < |t.nodes[i].lists[i]| ensures OwnClosed(t, i, k) {
      assert OwnClosed(s, i, k) by { LaidLists(s, i); }
      OwnStays(s, t, i, k);
    }
    forall q: nat | q < |t.nodes| ensures ProcessClosed(t, q) {
      assert ProcessClosed(s, q);
      QuietProcess(s, t, q);
    }
  }

  lemma LaidLists(s: State, i: nat)
    requires Laid(s) && i < |s.nodes|
    ensures i < |s.nodes[i].lists|
  {
    hide Nodes.Inv;
    assert LaidNode(s, i);
  }

  lemma QuietProcess(s: State, t: State, p: nat)
    requires Later(s, t) && p < |s.nodes| && ProcessClosed(s, p)
    requires t.nodes[p].clock == s.nodes[p].clock || AtOwnBarrier(t, p)
    requires AtOwnBarrier(s, p) ==> AtOwnBarrier(t, p) || Closed(s, t.nodes[p].clock)
    requires t.inbox[p] == s.inbox[p] || t.inbox[p].None? || Closed(s, t.inbox[p].value.sent)
    requires t.status[p].Requesting? ==> t.status[p] == s.status[p] || Closed(s, t.status[p].vt)
    ensures ProcessClosed(t, p)
  {
    hide Closed;
    if !AtOwnBarrier(t, p) {
      ClosedStays(s, t, t.nodes[p].clock);
    }
    if t.status[p].Requesting? {
      ClosedStays(s, t, t.status[p].vt);
    }
    if t.inbox[p].Some? {
      ClosedStays(s, t, t.inbox[p].value.sent);
    }
  }

  /** Once all arrivals are collected, the manager's clock is closed. */
  lemma {:induction false} DepartClosed(s: State, m: nat)
    requires Consistent(s) && WellSized(s) && Enabled(s, Depart(m))
    ensures Closed(s, s.nodes[m].clock)
  {
    hide StatusOk;
    hide MailOk;
    hide InverseOk;
    hide Exclusive;
    hide Covered;
    hide PagesRight;
    hide CanServe;
    hide OldestDiffed;
    hide TwinSees;
    hide InvalidNoticed;
    var T := s.nodes[m].clock;
    ListsAreCut(s, m);
    forall i: nat, k: nat | i < |T| && k < T[i] ensures AtMost(s.nodes[i].lists[i][k].vt, T) {
      assert Ascending(s.nodes[i].lists[i], s.nodes[i].clock);
      assert LaidNode(s, i) && LaidNode(s, m);
      ManagerHasAll(s, m, i);
      forall j: nat | j < |T| ensures s.nodes[i].clock[j] <= T[j] {
        assert Prefix(s, i, j);
        ManagerHasAll(s, m, j);
      }
    }
  }

  /** A manager that is collecting arrivals grants a lock only if it has seen what its newest intervals had. */
  ghost predicate Careful(s: State, step: Step) {
    step.Grant? && step.from < |s.nodes| && AtOwnBarrier(s, step.from) ==> NewestSeen(s.nodes[step.from])
  }

  lemma PostCausal(s: State, from: nat, p: nat)
    requires CausalState(s) && WellSized(s) && from < |s.nodes| && p < |s.nodes| && from != p
    requires s.status[p].Requesting? && |s.status[p].vt| == |s.nodes| && s.inbox[p].None? && Closed(s, s.nodes[from].clock)
    ensures CausalState(Post(s, from, p))
  {
    hide Consistent;
    hide Closed;
    PostKeeps(s, from, p);
    QuietCausal(s, Post(s, from, p));
  }

  lemma {:induction false} GrantCausal(s: State, from: nat, p: nat, close: bool)
    requires CausalState(s) && WellSized(s) && Enabled(s, Grant(from, p, close)) && Careful(s, Grant(from, p, close))
    ensures CausalState(Apply(s, Grant(from, p, close)))
  {
    hide Nodes.Inv;
    hide Closed;
    hide Laid;
    hide Prefixes;
    hide Exclusive;
    hide MailOk;
    hide InverseOk;
    hide Post;
    var t := if close then CloseAt(s, from) else s;
    if close {
      CloseCausal(s, from);
    }
    assert ProcessClosed(t, from) && StatusOk(s, from);
    if AtOwnBarrier(s, from) {
      assert t == s;
      ClosedIff(s, from);
    }
    PostCausal(t, from, p);
  }

  lemma ArriveCausal(s: State, p: nat, m: nat)
    requires CausalState(s) && WellSized(s) && Enabled(s, Arrive(p, m))
    ensures CausalState(Apply(s, Arrive(p, m)))
  {
    hide Consistent;
    hide Closed;
    hide CausalState;
    CausalIsConsistent(s);
    CloseKeeps(s, p);
    CloseCausal(s, p);
    var t := CloseAt(s, p);
    RegisterKeeps(t, p, m);
    QuietCausal(t, Register(t, p, m));
  }

  lemma CollectCausal(s: State, p: nat)
    requires CausalState(s) && WellSized(s) && Enabled(s, Collect(p))
    ensures CausalState(Apply(s, Collect(p)))
  {
    hide Consistent;
    hide Closed;
    hide CausalState;
    hide CollectFrom;
    CausalIsConsistent(s);
    CollectKeeps(s, p);
    CollectQuiet(s, p);
    QuietCausal(s, CollectFrom(s, p));
  }

  /** Collecting changes only the manager's node and the arrival it marks as taken. */
  lemma CollectQuiet(s: State, p: nat)
    requires WellSized(s) && Enabled(s, Collect(p))
    ensures var m, t := s.status[p].manager, CollectFrom(s, p);
            && t.inbox == s.inbox && AtOwnBarrier(t, m)
            && (forall q: nat :: q < |s.nodes| && q != m ==> t.nodes[q] == s.nodes[q])
            && (forall q: nat :: q < |s.nodes| ==> AtOwnBarrier(s, q) ==> AtOwnBarrier(t, q))
            && (forall q: nat :: q < |s.nodes| && t.status[q].Requesting? ==> t.status[q] == s.status[q])
  {
    hide Incorporate;
  }

  lemma DepartCausal(s: State, m: nat)
    requires CausalState(s) && WellSized(s) && Enabled(s, Depart(m))
    ensures CausalState(Apply(s, Depart(m)))
  {
    hide Consistent;
    hide Closed;
    hide CausalState;
    CausalIsConsistent(s);
    hide Later;
    hide Missing;
    DepartClosed(s, m);
    ReplyKeeps(s, m);
    var t := Reply(s, m);
    QuietCausal(s, t);
    TellAllKeeps(t, m);
    QuietCausal(t, TellAll(t, m));
  }

  lemma LeaveCausal(s: State, p: nat)
    requires CausalState(s) && WellSized(s) && Enabled(s, Leave(p))
    ensures CausalState(Apply(s, Leave(p)))
  {
    hide Consistent;
    hide Closed;
    hide CausalState;
    CausalIsConsistent(s);
    hide Incorporate;
    LeaverClean(s, p);
    ReceiveCausal(s, p, Live);
    var t := Receive(s, p, Live);
    CausalIsConsistent(t);
    LeaveTold(s, p);
    TellAllKeeps(t, p);
    QuietCausal(t, TellAll(t, p));
  }

  lemma LeaverClean(s: State, p: nat)
    requires Consistent(s) && WellSized(s) && Enabled(s, Leave(p))
    ensures Ready(s.nodes[p], Live)
  {
    hide Nodes.Inv;
    assert StatusOk(s, p);
  }

  /** Nothing but a grant from a clock that is not closed breaks closure, and that always does. */
  lemma {:induction false} StepCausal(s: State, step: Step)
    requires CausalState(s) && WellSized(s) && Enabled(s, step)
    ensures CausalState(Apply(s, step)) <==> Careful(s, step)
  {
    hide Consistent;
    hide Closed;
    hide Ready;
    hide CausalState;
    hide NewestSeen;
    CausalIsConsistent(s);
    match step {
      case Touch(p, g, write) => TouchCausal(s, p, g, write);
      case Request(p) => RequestCausal(s, p);
      case Grant(from, p, close) =>
        if Careful(s, step) {
          GrantCausal(s, from, p, close);
        } else {
          GrantNotCausal(s, from, p, close);
        }
      case Deliver(p) =>
        RequesterReady(s, p);
        ReceiveCausal(s, p, Saved(s.status[p].vt));
      case Arrive(p, m) => ArriveCausal(s, p, m);
      case Collect(p) => CollectCausal(s, p);
      case Depart(m) => DepartCausal(s, m);
      case Leave(p) => LeaveCausal(s, p);
    }
  }

  lemma TouchCausal(s: State, p: nat, g: nat, write: bool)
    requires CausalState(s) && WellSized(s) && Enabled(s, Touch(p, g, write))
    ensures CausalState(Apply(s, Touch(p, g, write)))
  {
    hide Consistent;
    hide Closed;
    hide CausalState;
    hide Fault;
    hide Wanted;
    CausalIsConsistent(s);
    TouchKeeps(s, p, g, write);
    QuietCausal(s, Apply(s, Touch(p, g, write)));
  }

  /** A grant passes on the clock it is made from. */
  lemma GrantNotCausal(s: State, from: nat, p: nat, close: bool)
    requires CausalState(s) && WellSized(s) && Enabled(s, Grant(from, p, close)) && !Careful(s, Grant(from, p, close))
    ensures !CausalState(Apply(s, Grant(from, p, close)))
  {
    hide Nodes.Inv;
    hide Closed;
    hide Prefixes;
    hide Exclusive;
    hide MailOk;
    hide InverseOk;
    hide Missing;
    var t := Apply(s, Grant(from, p, close));
    assert StatusOk(s, from);
    assert (if close then CloseAt(s, from) else s) == s;
    StepKeeps(s, Grant(from, p, close));
    assert t.inbox[p].value.sent == t.nodes[from].clock == s.nodes[from].clock;
    ClosedIff(t, from);
    assert CausalState(t) ==> ProcessClosed(t, p);
  }

  lemma RequestCausal(s: State, p: nat)
    requires CausalState(s) && WellSized(s) && Enabled(s, Request(p))
    ensures CausalState(Apply(s, Request(p)))
  {
    hide Consistent;
    hide Closed;
    RequestKeeps(s, p);
    assert ProcessClosed(s, p);
    QuietCausal(s, Apply(s, Request(p)));
  }

  // ---------------------------------------------------------------- runs

  ghost predicate CarefulRun(s: State, steps: seq<Step>)
    requires IsRun(s, steps)
    decreases |steps|
  {
    steps == [] || (Careful(s, steps[0]) && CarefulRun(Apply(s, steps[0]), steps[1..]))
  }

  /** Closure holds in every state the run goes through. */
  ghost predicate CausalThroughout(s: State, steps: seq<Step>)
    requires IsRun(s, steps)
    decreases |steps|
  {
    CausalState(s) && (steps == [] || CausalThroughout(Apply(s, steps[0]), steps[1..]))
  }

  /** The runs that keep closure are exactly those in which no process grants a lock from a clock that is not closed. */
  lemma {:induction false} CausalIffCareful(s: State, steps: seq<Step>)
    requires CausalState(s) && WellSized(s) && IsRun(s, steps)
    ensures CausalThroughout(s, steps) <==> CarefulRun(s, steps)
    decreases |steps|
  {
    hide CausalState;
    hide Enabled;
    hide Apply;
    hide Careful;
    if steps != [] {
      var t := Apply(s, steps[0]);
      StepCausal(s, steps[0]);
      if Careful(s, steps[0]) {
        CausalIsConsistent(t);
        ConsistentSized(t);
        CausalIffCareful(t, steps[1..]);
      }
    }
  }

  lemma {:induction false} RunCausal(s: State, steps: seq<Step>)
    requires CausalState(s) && WellSized(s) && IsRun(s, steps) && CarefulRun(s, steps)
    ensures CausalState(Runs.After(s, steps)) && WellSized(Runs.After(s, steps))
    decreases |steps|
  {
    hide CausalState;
    hide Enabled;
    hide Apply;
    if steps != [] {
      StepCausal(s, steps[0]);
      assert Consistent(s) && Consistent(Apply(s, steps[0])) by { CausalIsConsistent(s); CausalIsConsistent(Apply(s, steps[0])); }
      ConsistentSized(Apply(s, steps[0]));
      RunCausal(Apply(s, steps[0]), steps[1..]);
    }
  }

  lemma CausalIsConsistent(s: State)
    requires CausalState(s)
    ensures Consistent(s)
  {
  }

  lemma InitCausal(n: nat, home: seq<nat>)
    requires Homes(n, home)
    ensures CausalState(Init(n, home))
  {
    hide Consistent;
    InitConsistent(n, home);
  }

  /** The stamps of all intervals made so far. */
  ghost function Stamps(s: State): set<Stamp> {
    set i: nat, k: nat | i < |s.nodes| && i < |s.nodes[i].lists| && k < |s.nodes[i].lists[i]| ::
      Stamp(i, s.nodes[i].lists[i][k].vt)
  }

  lemma {:induction false} StampsCausal(s: State)
    requires CausalState(s)
    ensures Causal(|s.nodes|, Stamps(s))
  {
    hide Consistent;
    hide Closed;
    var n := |s.nodes|;
    forall a | a in Stamps(s) ensures Fits(n, a) && exists k: nat :: Made(s, a, k) {
      var i: nat, k: nat :| i < |s.nodes| && i < |s.nodes[i].lists| && k < |s.nodes[i].lists[i]| && a == Stamp(i, s.nodes[i].lists[i][k].vt);
      MadeAt(s, i, k);
      assert Made(s, a, k);
    }
    forall a, b | a in Stamps(s) && b in Stamps(s) && Precedes(a, b)
      ensures AtMost(a.vt, b.vt) && (a != b ==> a.vt[b.id] < b.vt[b.id])
    {
      var k: nat :| Made(s, a, k);
      var l: nat :| Made(s, b, l);
      PairCausal(s, a, k, b, l);
    }
  }

  ghost predicate Made(s: State, a: Stamp, k: nat) {
    && a.id < |s.nodes| && a.id < |s.nodes[a.id].lists| && k < |s.nodes[a.id].lists[a.id]|
    && a.vt == s.nodes[a.id].lists[a.id][k].vt && Fits(|s.nodes|, a) && a.vt[a.id] == k + 1
  }

  lemma MadeAt(s: State, i: nat, k: nat)
    requires Consistent(s) && i < |s.nodes| && i < |s.nodes[i].lists| && k < |s.nodes[i].lists[i]|
    ensures Made(s, Stamp(i, s.nodes[i].lists[i][k].vt), k)
  {
    hide Nodes.Inv;
    ShapeOf(|s.nodes|, |s.home|, s.nodes[i]);
    assert WellStamped(|s.nodes|, |s.home|, s.nodes[i].lists[i][k], i, k);
  }

  lemma PairCausal(s: State, a: Stamp, k: nat, b: Stamp, l: nat)
    requires CausalState(s) && Made(s, a, k) && Made(s, b, l) && Precedes(a, b)
    ensures AtMost(a.vt, b.vt) && (a != b ==> a.vt[b.id] < b.vt[b.id])
  {
    hide Consistent;
    assert OwnClosed(s, b.id, l);
    assert AtMost(a.vt, b.vt);
    assert a.id != b.id ==> !Mutual(s, a.id, k, b.id, l);
  }

  lemma ClosedHere(s: State, p: nat)
    requires CausalState(s) && p < |s.nodes| && !AtOwnBarrier(s, p)
    ensures NewestSeen(s.nodes[p])
  {
    hide Nodes.Inv;
    hide Closed;
    hide NewestSeen;
    assert ProcessClosed(s, p);
    ClosedIff(s, p);
  }
}
