/** Barriers: whoever leaves one, however late, leaves with the manager's clock and intervals; and when all have left
    and done nothing since, the memory can be collected. */
module Barriers {
  import opened Clocks
  import opened Nodes
  import opened Requests
  import opened Systems
  import opened SystemSteps
  import opened Runs
  import opened Causality
  import opened Collection
  import opened Guarantees
  import opened ReleaseConsistency

  // ---------------------------------------------------------------- one barrier

  /** Between the manager's replies and the next thing anybody does: everybody has left with clock `T` and has
      written nothing, or has a reply on its way that brings it there. */
  ghost predicate Leaving(s: State, T: seq<nat>) {
    && Cuttable(s, T)
    && forall q: nat :: q < |s.nodes| && q < |s.status| && q < |s.inbox| ==> LeavingOne(s, T, q)
  }

  ghost predicate LeavingOne(s: State, T: seq<nat>, q: nat)
    requires q < |s.nodes| && q < |s.status| && q < |s.inbox|
  {
    || (s.status[q].Running? && s.nodes[q].clock == T && s.nodes[q].dirty == {})
    || (s.status[q].Departing? && s.inbox[q].Some? && s.inbox[q].value.sent == T)
  }

  /** The manager replies with a clock that has, for each process, that process's own time on arrival. */
  lemma {:induction false} BarrierReplies(s: State, m: nat)
    requires Consistent(s) && WellSized(s) && Enabled(s, Depart(m))
    ensures m < |s.nodes|
    ensures var t, T := Apply(s, Depart(m)), s.nodes[m].clock;
            && Leaving(t, T)
            && (forall q: nat :: q < |s.nodes| ==> T[q] == s.status[q].vt[q] == |s.nodes[q].lists[q]|)
            && (forall q: nat :: q < |s.nodes| && q != m ==> t.nodes[m].inverse[q] == T[m])
  {
    hide Nodes.Inv;
    hide Exclusive;
    hide MailOk;
    hide InverseOk;
    hide Missing;
    var t, T := Apply(s, Depart(m)), s.nodes[m].clock;
    forall q: nat | q < |s.nodes| ensures T[q] == s.status[q].vt[q] == |s.nodes[q].lists[q]| && LeavingOne(t, T, q) {
      assert StatusOk(s, q) && LaidNode(s, m);
      ManagerHasAll(s, m, q);
    }
    forall i | 0 <= i < |T| ensures i < |t.nodes[i].lists| && T[i] <= |t.nodes[i].lists[i]| {
      assert LaidNode(s, i);
    }
  }

  /** Leaving sets the clock to exactly what the manager had, and the lists with it. */
  lemma {:induction false} BarrierLeaves(s: State, p: nat, T: seq<nat>)
    requires Leaving(s, T) && Consistent(s) && WellSized(s) && Enabled(s, Leave(p))
    ensures var t := Apply(s, Leave(p));
            && Leaving(t, T) && t.nodes[p].clock == T && t.nodes[p].lists == Cut(t, T)
            && (forall q: nat :: q < |t.nodes| && q != p ==> t.nodes[p].inverse[q] == T[p])
  {
    hide Nodes.Inv;
    hide Exclusive;
    hide StatusOk;
    hide MailOk;
    hide InverseOk;
    hide Incorporate;
    hide Cut;
    assert LeavingOne(s, T, p);
    StepConsistent(s, Leave(p));
    LeaveClock(s, p);
    LeaveTells(s, p);
    var t := Apply(s, Leave(p));
    ListsAreCut(t, p);
    LeaveOwn(s, p);
    forall i | 0 <= i < |T| ensures i < |t.nodes[i].lists| && T[i] <= |t.nodes[i].lists[i]| {
      assert LaidNode(s, i) && LaidNode(t, i);
    }
    forall q: nat | q < |t.nodes| ensures LeavingOne(t, T, q) {
      assert LeavingOne(s, T, q);
    }
  }

  lemma {:induction false} LeaveOwn(s: State, p: nat)
    requires Consistent(s) && WellSized(s) && Enabled(s, Leave(p))
    ensures var t := Apply(s, Leave(p));
            && |t.nodes| == |s.nodes| && |t.nodes[p].lists| == |s.nodes|
            && s.nodes[p].lists[p] <= t.nodes[p].lists[p] && t.nodes[p].dirty == {}
            && (forall q: nat :: q < |s.nodes| && q != p ==> t.nodes[q] == s.nodes[q])
  {
    hide Nodes.Inv;
    hide Exclusive;
    hide MailOk;
    hide InverseOk;
    hide Incorporate;
    assert StatusOk(s, p);
    LeaverClean(s, p);
    ReceiveMerges(s, p, Live);
    assert SizedNode(s, p);
  }

  /** The clock of a process that leaves a barrier is the manager's. */
  lemma {:induction false} LeaveClock(s: State, p: nat)
    requires Consistent(s) && WellSized(s) && Enabled(s, Leave(p))
    ensures Apply(s, Leave(p)).nodes[p].clock == s.inbox[p].value.sent
  {
    hide Nodes.Inv;
    hide Exclusive;
    hide MailOk;
    hide InverseOk;
    hide Incorporate;
    hide Cut;
    assert StatusOk(s, p) && LaidNode(s, p);
    var r, t, T := Receive(s, p, Live), Apply(s, Leave(p)), s.inbox[p].value.sent;
    ReceiveMerges(s, p, Live);
    StepConsistent(s, Leave(p));
    assert LaidNode(t, p);
    forall i: nat | i < |s.nodes| ensures t.nodes[p].clock[i] == T[i] {
      MergedLists(s, p, r.nodes[p], T, Live, i);
    }
  }

  /** All who have left have the same clock and hold the same intervals. */
  lemma {:induction false} BarrierAgreement(s: State, T: seq<nat>, p: nat, q: nat)
    requires Consistent(s) && Leaving(s, T) && p < |s.nodes| && q < |s.nodes|
    requires p < |s.status| && q < |s.status| && s.status[p].Running? && s.status[q].Running?
    ensures s.nodes[p].clock == s.nodes[q].clock == T && s.nodes[p].lists == s.nodes[q].lists
  {
    hide Nodes.Inv;
    assert LeavingOne(s, T, p) && LeavingOne(s, T, q);
    ListsAreCut(s, p);
    ListsAreCut(s, q);
  }

  ghost predicate OnlyLeaves(steps: seq<Step>) {
    forall k :: 0 <= k < |steps| ==> steps[k].Leave?
  }

  lemma {:induction false} LeavesKeep(s: State, steps: seq<Step>, T: seq<nat>)
    requires Leaving(s, T) && Consistent(s) && WellSized(s) && IsRun(s, steps) && OnlyLeaves(steps)
    ensures Leaving(Runs.After(s, steps), T)
    decreases |steps|
  {
    hide Leaving;
    hide Consistent;
    hide Enabled;
    hide Apply;
    if steps != [] {
      assert steps[0].Leave?;
      BarrierLeaves(s, steps[0].p, T);
      StepKeeps(s, steps[0]);
      LeavesKeep(Apply(s, steps[0]), steps[1..], T);
    }
  }

  /** When, after a barrier's replies, everybody has left and done nothing else, the memory can be collected: all
      hold the same intervals and have written nothing since. */
  lemma {:induction false} BarrierIsQuiet(s: State, m: nat, steps: seq<Step>, t: State)
    requires Reachable(s) && WellSized(s) && Enabled(s, Depart(m))
    requires Leads(Apply(s, Depart(m)), steps, t) && OnlyLeaves(steps) && forall q: nat :: q < |t.status| ==> t.status[q].Running?
    ensures Quiet(t)
  {
    hide Leaving;
    hide Consistent;
    hide Apply;
    hide Enabled;
    ReachableConsistent(s);
    BarrierReplies(s, m);
    StepKeeps(s, Depart(m));
    var T := s.nodes[m].clock;
    LeavesKeep(Apply(s, Depart(m)), steps, T);
    RunKeeps(Apply(s, Depart(m)), steps);
    AllLeft(t, T);
  }

  lemma AllLeft(s: State, T: seq<nat>)
    requires Consistent(s) && WellSized(s) && Leaving(s, T) && forall q: nat :: q < |s.status| ==> s.status[q].Running?
    ensures Quiet(s)
  {
    hide Consistent;
    forall p: nat, q: nat | p < |s.nodes| && q < |s.nodes|
      ensures s.nodes[p].dirty == {} && s.nodes[p].lists == s.nodes[q].lists
    {
      assert LeavingOne(s, T, p);
      BarrierAgreement(s, T, p, q);
    }
  }

  // ---------------------------------------------------------------- late leavers

  /** Nothing but leaving takes a process's reply away, whatever the others do meanwhile. */
  lemma {:induction false} ReplyStays(s: State, step: Step, p: nat)
    requires Consistent(s) && WellSized(s) && Enabled(s, step) && p < |s.nodes| && s.status[p].Departing? && step != Leave(p)
    ensures p < |Apply(s, step).status| && p < |Apply(s, step).inbox|
    ensures Apply(s, step).status[p] == s.status[p] && Apply(s, step).inbox[p] == s.inbox[p]
  {
    hide Consistent;
    hide Incorporate;
    hide Missing;
    hide Create;
    hide Fault;
    hide AllAnswered;
    hide Wanted;
  }

  lemma {:induction false} RunReplyStays(s: State, steps: seq<Step>, p: nat)
    requires Consistent(s) && WellSized(s) && IsRun(s, steps) && p < |s.nodes| && s.status[p].Departing? && Leave(p) !in steps
    ensures p < |Runs.After(s, steps).status| && p < |Runs.After(s, steps).inbox|
    ensures Runs.After(s, steps).status[p] == s.status[p] && Runs.After(s, steps).inbox[p] == s.inbox[p]
    decreases |steps|
  {
    hide Consistent;
    hide Enabled;
    hide Apply;
    if steps != [] {
      StepKeeps(s, steps[0]);
      ReplyStays(s, steps[0], p);
      RunReplyStays(Apply(s, steps[0]), steps[1..], p);
    }
  }

  lemma {:induction false} DepartPosts(s: State, m: nat, p: nat)
    requires Consistent(s) && WellSized(s) && Enabled(s, Depart(m)) && p < |s.nodes| && p != m
    ensures m < |s.nodes|
    ensures var t := Apply(s, Depart(m));
            p < |t.status| && t.status[p].Departing? && p < |t.inbox| && t.inbox[p].Some? && t.inbox[p].value.sent == s.nodes[m].clock
  {
    hide Consistent;
    hide Missing;
  }

  /** However long a process takes to leave, and whatever the others, barriers included, do before it does, it leaves
      with the clock and the intervals the manager had when it replied. */
  lemma {:induction false} SlowLeaver(s: State, m: nat, steps: seq<Step>, w: State, p: nat)
    requires Reachable(s) && WellSized(s) && Enabled(s, Depart(m)) && p < |s.nodes| && p != m
    requires Leads(Apply(s, Depart(m)), steps, w) && Leave(p) !in steps && !w.failed && WellSized(w)
    ensures Enabled(w, Leave(p))
    ensures var z := Apply(w, Leave(p));
            && p < |z.nodes| && z.nodes[p].clock == s.nodes[m].clock && z.nodes[p].lists == s.nodes[m].lists
            && forall q: nat :: q < |z.nodes| && q != p && q < |z.nodes[p].inverse| ==> z.nodes[p].inverse[q] == s.nodes[m].clock[p]
  {
    hide Consistent;
    hide Apply;
    hide Enabled;
    hide IsRun;
    hide Runs.After;
    hide Kept;
    ReachableConsistent(s);
    DepartPosts(s, m, p);
    var t, T := Apply(s, Depart(m)), s.nodes[m].clock;
    StepKeeps(s, Depart(m));
    RunKeeps(t, steps);
    RunReplyStays(t, steps, p);
    CanLeave(w, p);
    var z := Apply(w, Leave(p));
    StepKeeps(w, Leave(p));
    LeaveClock(w, p);
    LeaveTells(w, p);
    forall q: nat | q < |s.nodes| ensures Kept(s.nodes[q], z.nodes[q]) {
      StepKept(s, Depart(m), q);
      RunKept(t, steps, q);
      StepKept(w, Leave(p), q);
      KeptTransitive(s.nodes[q], t.nodes[q], w.nodes[q]);
      KeptTransitive(s.nodes[q], w.nodes[q], z.nodes[q]);
    }
    SameCut(s, z, m, p);
  }

  lemma LeaveTells(s: State, p: nat)
    requires Consistent(s) && WellSized(s) && Enabled(s, Leave(p))
    ensures var z := Apply(s, Leave(p));
            && p < |z.nodes| && p < |z.nodes[p].clock|
            && forall q: nat :: q < |z.nodes| && q != p && q < |z.nodes[p].inverse| ==> z.nodes[p].inverse[q] == z.nodes[p].clock[p]
  {
    hide Consistent;
    hide Incorporate;
    assert SizedNode(Receive(s, p, Live), p);
  }

  lemma CanLeave(s: State, p: nat)
    requires Consistent(s) && WellSized(s) && p < |s.nodes| && s.status[p].Departing? && !s.failed
    ensures Enabled(s, Leave(p))
  {
    hide Nodes.Inv;
    hide Prefixes;
    hide Exclusive;
    hide InverseOk;
    hide Cut;
    hide Missing;
    assert StatusOk(s, p);
    MailIsSendable(s, p);
  }

  /** Processes with equal clocks at different times hold the same intervals, for no list is ever cut back. */
  lemma SameCut(s: State, z: State, m: nat, p: nat)
    requires Consistent(s) && Consistent(z) && |z.nodes| == |s.nodes| && m < |s.nodes| && p < |s.nodes|
    requires z.nodes[p].clock == s.nodes[m].clock && forall q: nat :: q < |s.nodes| ==> Kept(s.nodes[q], z.nodes[q])
    ensures z.nodes[p].lists == s.nodes[m].lists
  {
    hide Nodes.Inv;
    hide Exclusive;
    hide StatusOk;
    hide MailOk;
    hide InverseOk;
    ListsAreCut(s, m);
    ListsAreCut(z, p);
    forall i | 0 <= i < |s.nodes| ensures z.nodes[p].lists[i] == s.nodes[m].lists[i] {
      assert LaidNode(s, i) && LaidNode(s, m) && LaidNode(z, p) && Kept(s.nodes[i], z.nodes[i]);
    }
    assert LaidNode(s, m) && LaidNode(z, p);
  }

  // ---------------------------------------------------------------- getting through

  /** Everybody has arrived at the barrier of manager `m`. */
  ghost predicate AllArrived(s: State, m: nat) {
    && m < |s.nodes| == |s.status|
    && forall q: nat :: q < |s.status| ==> s.status[q].Arrived? && s.status[q].manager == m
  }

  ghost predicate CollectedBelow(s: State, k: nat) {
    forall q: nat :: q < k && q < |s.status| && s.status[q].Arrived? ==> s.status[q].collected
  }

  lemma {:induction false} CollectOneMore(s: State, m: nat, k: nat)
    requires Consistent(s) && WellSized(s) && !s.failed && AllArrived(s, m) && CollectedBelow(s, k) && k < |s.nodes| && !s.status[k].collected
    ensures Enabled(s, Collect(k))
    ensures var t := Apply(s, Collect(k)); !t.failed && |t.nodes| == |s.nodes| && AllArrived(t, m) && CollectedBelow(t, k + 1)
  {
    hide Consistent;
    hide Incorporate;
    CollectTakes(s, k);
  }

  /** Whatever arrivals the manager has taken, it can take the rest. */
  lemma {:induction false} CollectRest(s: State, m: nat, k: nat) returns (steps: seq<Step>)
    requires Consistent(s) && WellSized(s) && !s.failed && AllArrived(s, m) && CollectedBelow(s, k) && k <= |s.nodes|
    ensures IsRun(s, steps)
    ensures var t := Runs.After(s, steps);
            Consistent(t) && WellSized(t) && !t.failed && |t.nodes| == |s.nodes| && AllArrived(t, m) && CollectedBelow(t, |t.nodes|)
    decreases |s.nodes| - k
  {
    hide Consistent;
    hide Enabled;
    hide Apply;
    hide AllArrived;
    if k == |s.nodes| {
      steps := [];
    } else if ArrivedAndCollected(s, k) {
      assert CollectedBelow(s, k + 1);
      steps := CollectRest(s, m, k + 1);
    } else {
      CollectNow(s, m, k);
      CollectOneMore(s, m, k);
      StepKeeps(s, Collect(k));
      var rest := CollectRest(Apply(s, Collect(k)), m, k + 1);
      Prepend(s, Collect(k), rest);
      steps := [Collect(k)] + rest;
    }
  }

  ghost predicate ArrivedAndCollected(s: State, k: nat) {
    k < |s.status| && s.status[k].Arrived? && s.status[k].collected
  }

  lemma CollectNow(s: State, m: nat, k: nat)
    requires AllArrived(s, m) && k < |s.status| && !ArrivedAndCollected(s, k)
    ensures s.status[k].Arrived? && !s.status[k].collected
  {
  }

  lemma DepartNow(s: State, m: nat)
    requires Consistent(s) && WellSized(s) && !s.failed && AllArrived(s, m) && CollectedBelow(s, |s.nodes|)
    ensures Enabled(s, Depart(m)) && !Apply(s, Depart(m)).failed
  {
    hide Nodes.Inv;
    hide Prefixes;
    hide Exclusive;
    hide MailOk;
    hide InverseOk;
    hide Missing;
    forall q: nat | q < |s.nodes| ensures s.status[q].collected && |s.status[q].vt| == |s.nodes| {
      assert StatusOk(s, q);
    }
  }

  ghost predicate LeftBelow(s: State, k: nat) {
    forall q: nat :: q < k && q < |s.status| ==> s.status[q].Running?
  }

  lemma LeaveNow(s: State, T: seq<nat>, k: nat)
    requires Consistent(s) && WellSized(s) && !s.failed && Leaving(s, T) && LeftBelow(s, k) && k < |s.nodes| && !s.status[k].Running?
    ensures Enabled(s, Leave(k)) && !Apply(s, Leave(k)).failed && LeftBelow(Apply(s, Leave(k)), k + 1)
  {
    hide Consistent;
    hide Incorporate;
    assert LeavingOne(s, T, k);
    CanLeave(s, k);
  }

  /** Whoever has left, the others can. */
  lemma {:induction false} LeaveRest(s: State, T: seq<nat>, k: nat) returns (steps: seq<Step>)
    requires Consistent(s) && WellSized(s) && !s.failed && Leaving(s, T) && LeftBelow(s, k) && k <= |s.nodes|
    ensures IsRun(s, steps)
    ensures var t := Runs.After(s, steps); Consistent(t) && WellSized(t) && !t.failed && Leaving(t, T) && LeftBelow(t, |t.nodes|)
    decreases |s.nodes| - k
  {
    hide Consistent;
    hide Enabled;
    hide Apply;
    hide Leaving;
    if k == |s.nodes| {
      steps := [];
    } else if s.status[k].Running? {
      steps := LeaveRest(s, T, k + 1);
    } else {
      LeaveNow(s, T, k);
      BarrierLeaves(s, k, T);
      StepKeeps(s, Leave(k));
      var rest := LeaveRest(Apply(s, Leave(k)), T, k + 1);
      Prepend(s, Leave(k), rest);
      steps := [Leave(k)] + rest;
    }
  }

  /** A barrier completes: once everybody has arrived, however many arrivals have been taken, there is a run by which
      all get through it, after which everybody runs, holds the same intervals and has written nothing. */
  lemma {:induction false} BarrierCompletes(s: State, m: nat) returns (steps: seq<Step>, t: State)
    requires Reachable(s) && WellSized(s) && !s.failed && AllArrived(s, m)
    ensures Leads(s, steps, t) && !t.failed && |t.nodes| == |s.nodes| && Quiet(t)
    ensures forall q: nat :: q < |t.nodes| && q < |t.status| ==> t.status[q].Running?
  {
    hide Consistent;
    hide Enabled;
    hide Apply;
    hide Leaving;
    ReachableConsistent(s);
    var first := CollectRest(s, m, 0);
    var a := Runs.After(s, first);
    DepartNow(a, m);
    BarrierReplies(a, m);
    StepKeeps(a, Depart(m));
    var b, T := Apply(a, Depart(m)), a.nodes[m].clock;
    var last := LeaveRest(b, T, 0);
    t := Runs.After(b, last);
    RunKeeps(b, last);
    AllLeft(t, T);
    Prepend(a, Depart(m), last);
    Concat(s, first, [Depart(m)] + last);
    steps := first + ([Depart(m)] + last);
  }

  /** A lock request completes: whoever grants it, the requester then takes the grant and runs. */
  lemma {:induction false} GrantCompletes(s: State, from: nat, p: nat, close: bool)
    requires Reachable(s) && WellSized(s) && Enabled(s, Grant(from, p, close))
    ensures var u := Apply(s, Grant(from, p, close));
            && WellSized(u) && Enabled(u, Deliver(p))
            && p < |Apply(u, Deliver(p)).status| && Apply(u, Deliver(p)).status[p].Running? && Apply(u, Deliver(p)).inbox[p].None?
  {
    hide Nodes.Inv;
    hide Prefixes;
    hide Exclusive;
    hide InverseOk;
    hide Missing;
    hide Incorporate;
    hide Cut;
    ReachableConsistent(s);
    StepKeeps(s, Grant(from, p, close));
    var u := Apply(s, Grant(from, p, close));
    assert StatusOk(u, p);
    MailIsSendable(u, p);
  }
}
