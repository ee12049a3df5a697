/** What holds in every state of every run of the whole system, collections included. */
module Guarantees {
  import opened Clocks
  import opened Nodes
  import opened PageStacks
  import opened Requests
  import opened Systems
  import opened SystemSteps
  import opened Runs
  import opened Causality
  import opened ManagerChoice
  import opened Collection
  import NoticeOrder
  import Batching
  import Fetches

  /** A state that a number of runs from the initial state lead to, each ended by a collection in which every page's
      manager keeps a copy. */
  ghost predicate Collected(t: State) {
    exists n: nat, home: seq<nat>, epochs: seq<seq<Step>> :: CollectedBy(n, home, epochs, t)
  }

  ghost predicate CollectedBy(n: nat, home: seq<nat>, epochs: seq<seq<Step>>, t: State) {
    Homes(n, home) && IsEpochs(Init(n, home), epochs) && AfterEpochs(Init(n, home), epochs) == t
  }

  ghost predicate Leads(t: State, steps: seq<Step>, s: State) {
    IsRun(t, steps) && Runs.After(t, steps) == s
  }

  ghost predicate LeadsCarefully(t: State, steps: seq<Step>, s: State) {
    Leads(t, steps, s) && CarefulRun(t, steps)
  }

  /** A state that some run from the initial state reaches, with any number of collections before. */
  ghost predicate Reachable(s: State) {
    exists t: State, steps: seq<Step> :: Collected(t) && Leads(t, steps, s)
  }

  /** A state reached by a run in which no collecting manager grants a lock from a clock that is not closed. */
  ghost predicate CarefullyReachable(s: State) {
    exists t: State, steps: seq<Step> :: Collected(t) && LeadsCarefully(t, steps, s)
  }

  lemma {:induction false} CollectedCausal(t: State)
    requires Collected(t)
    ensures CausalState(t) && WellSized(t) && !t.failed
  {
    hide CausalState;
    hide IsEpochs;
    hide AfterEpochs;
    var n: nat, home: seq<nat>, epochs: seq<seq<Step>> :| CollectedBy(n, home, epochs, t);
    InitConsistent(n, home);
    InitCausal(n, home);
    EpochsKeep(Init(n, home), epochs);
  }

  lemma {:induction false} ReachableConsistent(s: State)
    requires Reachable(s)
    ensures Consistent(s) && WellSized(s)
  {
    hide Consistent;
    hide CausalState;
    hide Collected;
    var t: State, steps: seq<Step> :| Collected(t) && Leads(t, steps, s);
    CollectedCausal(t);
    CausalIsConsistent(t);
    RunKeeps(t, steps);
  }

  lemma {:induction false} CarefulCausal(s: State)
    requires CarefullyReachable(s)
    ensures CausalState(s) && WellSized(s) && Reachable(s) && !s.failed
  {
    hide CausalState;
    hide Collected;
    var t: State, steps: seq<Step> :| Collected(t) && LeadsCarefully(t, steps, s);
    CollectedCausal(t);
    RunCausal(t, steps);
    Fetches.RunSucceeds(t, steps);
  }

  /** The stamps of all intervals are causally closed, and so is the clock of every process but a manager
      that is collecting arrivals. */
  lemma {:induction false} RunsAreCausal(s: State)
    requires CarefullyReachable(s)
    ensures Causal(|s.nodes|, Stamps(s))
    ensures forall p: nat :: p < |s.nodes| && !AtOwnBarrier(s, p) ==> NewestSeen(s.nodes[p])
  {
    hide CausalState;
    hide NewestSeen;
    CarefulCausal(s);
    StampsCausal(s);
    forall p: nat | p < |s.nodes| && !AtOwnBarrier(s, p) ensures NewestSeen(s.nodes[p]) {
      ClosedHere(s, p);
    }
  }

  // ---------------------------------------------------------------- what every reachable state satisfies

  /** A page with a twin is valid, and is either dirty or has its newest own notice without a diff, never
      both; a page without a twin is not dirty and all its own notices have their diffs. */
  lemma {:induction false} TwinCoverage(s: State, p: nat, g: nat)
    requires Reachable(s) && p < |s.nodes|
    ensures WellSized(s) && SizedNode(s, p)
    ensures var x := s.nodes[p];
            && (g in x.twins ==> g < |x.state| && x.state[g] == Valid && (g in x.dirty <==> !Undiffed(x, g)))
            && (g !in x.twins ==> g !in x.dirty && forall t: nat :: Noticed(x, g, p, t) ==> Mark(g, p, t) in x.diffs)
  {
    ReachableConsistent(s);
    assert Nodes.Inv(|s.nodes|, |s.home|, s.nodes[p]);
    assert LaidNode(s, p);
  }

  /** When a message is incorporated without a clock, or with the live one, no page is dirty; with a saved
      clock and a dirty page, the saved clock still has the process's current own time. */
  lemma {:induction false} ClockToStampWith(s: State, p: nat)
    requires Reachable(s) && p < |s.nodes|
    ensures WellSized(s) && SizedNode(s, p)
    ensures Enabled(s, Collect(p)) ==> s.nodes[s.status[p].manager].dirty == {}
    ensures Enabled(s, Leave(p)) ==> s.nodes[p].dirty == {}
    ensures Enabled(s, Deliver(p)) && s.nodes[p].dirty != {} ==> s.status[p].vt[p] == s.nodes[p].clock[p]
  {
    hide Nodes.Inv;
    hide Prefixes;
    hide Exclusive;
    hide MailOk;
    hide InverseOk;
    ReachableConsistent(s);
    assert StatusOk(s, p);
    if Enabled(s, Collect(p)) {
      assert StatusOk(s, s.status[p].manager);
    }
  }

  /** What a process knows of another is the other's intervals up to the time in its clock, numbered
      without a gap. */
  lemma {:induction false} KnowledgeIsPrefix(s: State, p: nat, i: nat)
    requires Reachable(s) && p < |s.nodes| && i < |s.nodes|
    ensures i < |s.nodes[p].clock| && i < |s.nodes[p].lists| && i < |s.nodes[i].lists|
    ensures s.nodes[p].clock[i] <= |s.nodes[i].lists[i]|
    ensures s.nodes[p].lists[i] == s.nodes[i].lists[i][..s.nodes[p].clock[i]]
    ensures forall k: nat :: k < |s.nodes[p].lists[i]| ==>
              s.nodes[p].lists[i][k].id == i && i < |s.nodes[p].lists[i][k].vt| && s.nodes[p].lists[i][k].vt[i] == k + 1
  {
    hide Nodes.Inv;
    ReachableConsistent(s);
    assert LaidNode(s, p) && LaidNode(s, i) && Prefix(s, p, i);
    ShapeOf(|s.nodes|, |s.home|, s.nodes[p]);
    forall k: nat | k < |s.nodes[p].lists[i]|
      ensures s.nodes[p].lists[i][k].id == i && i < |s.nodes[p].lists[i][k].vt| && s.nodes[p].lists[i][k].vt[i] == k + 1
    {
      assert WellStamped(|s.nodes|, |s.home|, s.nodes[p].lists[i][k], i, k);
    }
  }

  /** `inverse` never runs ahead of what the other process has been told; nothing on its way, it never
      exceeds what the other knows. */
  lemma {:induction false} InverseNeverAhead(s: State, p: nat, q: nat)
    requires Reachable(s) && p < |s.nodes| && q < |s.nodes| && p != q
    ensures WellSized(s) && SizedNode(s, p) && SizedNode(s, q)
    ensures s.nodes[p].inverse[q] <= Told(s, q, p)
    ensures s.inbox[q].None? ==> s.nodes[p].inverse[q] <= s.nodes[q].clock[p]
  {
    hide Nodes.Inv;
    ReachableConsistent(s);
    assert LaidNode(s, p) && LaidNode(s, q) && InverseOk(s, p, q);
  }

  /** After a run without a grant from a clock that is not closed no request has failed, and whatever page that is
      not valid a process touches, it asks for every pending diff, and every process it asks can answer. */
  lemma {:induction false} DiffsCanBeServed(s: State, p: nat, g: nat)
    requires CarefullyReachable(s) && p < |s.nodes| && g < |s.home|
    ensures !s.failed && g < |s.nodes[p].state|
    ensures s.nodes[p].state[g] != Valid ==>
              && NoticeOrder.NewestFirst(NoticeOrder.SortAll(PageNotices(s.nodes[p], g)))
              && ProperAsks(|s.nodes|, s.nodes[p], g, RequestsFor(s.nodes[p], g))
              && AllAnswered(s.nodes, RequestsFor(s.nodes[p], g))
  {
    hide Consistent;
    hide CausalState;
    hide Stamps;
    hide NoticeOrder.NewestFirst;
    hide NoticeOrder.SortAll;
    hide PageNotices;
    hide RequestsFor;
    hide ProperAsks;
    hide AllAnswered;
    CarefulCausal(s);
    CausalIsConsistent(s);
    StampsCausal(s);
    Fetches.NodeInv(s, p);
    if s.nodes[p].state[g] != Valid {
      Fetches.PageCanBeFetched(s, p, g);
    }
  }

  /** In any run, a read or write fails exactly if the page has to be fetched and a diff is asked of a process that
      is not its maker and has not got it; and never where having seen is transitive among the pending notices. */
  lemma {:induction false} RequestFailsIff(s: State, p: nat, g: nat, write: bool)
    requires Reachable(s) && WellSized(s) && Enabled(s, Touch(p, g, write))
    ensures Apply(s, Touch(p, g, write)).failed <==>
              && (s.nodes[p].state[g] == Invalid || s.nodes[p].state[g] == Empty)
              && exists a :: Fetches.Refused(s, p, g, a)
    ensures Batching.Sighted(NoticeOrder.SortAll(PageNotices(s.nodes[p], g))) ==> !Apply(s, Touch(p, g, write)).failed
  {
    hide Consistent;
    hide Fault;
    hide Fetches.Refused;
    hide RequestsFor;
    hide AllAnswered;
    hide NoticeOrder.SortAll;
    hide PageNotices;
    hide Batching.Sighted;
    ReachableConsistent(s);
    Fetches.NodeInv(s, p);
    Fetches.FailsIff(s, p, g, write);
    var x := s.nodes[p];
    if Batching.Sighted(NoticeOrder.SortAll(PageNotices(x, g))) && x.state[g] != Valid && x.state[g] != Private {
      Fetches.SightedIsAnswered(s, p, g);
    }
  }

  /** Messages are always readable, so whoever waits for one that has come can go on. */
  lemma {:induction false} MessagesFit(s: State, p: nat)
    requires Reachable(s) && p < |s.nodes|
    ensures WellSized(s)
    ensures !s.failed && s.status[p].Requesting? && s.inbox[p].Some? ==> Enabled(s, Deliver(p))
    ensures !s.failed && s.status[p].Departing? ==> Enabled(s, Leave(p))
    ensures !s.failed && s.status[p].Arrived? && !s.status[p].collected && AtOwnBarrier(s, s.status[p].manager) ==>
              Enabled(s, Collect(p))
  {
    hide Nodes.Inv;
    hide Prefixes;
    hide Exclusive;
    hide InverseOk;
    hide Cut;
    hide Missing;
    ReachableConsistent(s);
    assert StatusOk(s, p);
    if s.inbox[p].Some? {
      MailIsSendable(s, p);
    }
    if s.status[p].Arrived? && !s.status[p].collected && AtOwnBarrier(s, s.status[p].manager) {
      CollectTakes(s, p);
    }
  }

  // ---------------------------------------------------------------- what is told

  /** A grant brings exactly the intervals that the request's vector lacks, and the granting process then takes the
      other to know just what it is being told; nobody else's records change. */
  lemma {:induction false} GrantTells(s: State, from: nat, p: nat, close: bool)
    requires Reachable(s) && WellSized(s) && Enabled(s, Grant(from, p, close))
    ensures var u := Apply(s, Grant(from, p, close));
            && WellSized(u) && |u.nodes| == |s.nodes| && SizedNode(u, from) && SizedNode(u, p) && u.status == s.status
            && u.inbox == s.inbox[p := Some(Mail(Missing(u.nodes[from].lists, s.status[p].vt), u.nodes[from].clock))]
            && u.nodes[from].inverse[p] == u.nodes[from].clock[from] == |u.nodes[from].lists[from]| == Told(u, p, from)
            && (forall q: nat :: q < |s.nodes| && q != p ==> u.nodes[from].inverse[q] == s.nodes[from].inverse[q])
            && (forall q: nat :: q < |s.nodes| && q != from ==> u.nodes[q] == s.nodes[q])
            && (close ==> u.nodes[from].dirty == {})
  {
    hide Nodes.Inv;
    hide Prefixes;
    hide Exclusive;
    hide StatusOk;
    hide InverseOk;
    hide Missing;
    ReachableConsistent(s);
    StepKeeps(s, Grant(from, p, close));
    var u := Apply(s, Grant(from, p, close));
    assert SizedNode(u, from) && SizedNode(u, p) && SizedNode(s, from) && LaidNode(u, from);
    assert Prefix(u, p, from) by { PrefixHere(u, p, from); }
  }

  lemma PrefixHere(s: State, p: nat, i: nat)
    requires Consistent(s) && p < |s.nodes| && i < |s.nodes|
    ensures Prefix(s, p, i)
  {
    hide Nodes.Inv;
  }

  /** On arrival at a barrier the open interval is closed, and the manager is sent exactly the own intervals that it
      is not known to have. */
  lemma {:induction false} ArrivalTells(s: State, p: nat, m: nat)
    requires Reachable(s) && WellSized(s) && Enabled(s, Arrive(p, m))
    ensures var u := Apply(s, Arrive(p, m));
            && WellSized(u) && |u.nodes| == |s.nodes| && SizedNode(u, p) && u.nodes[p].dirty == {} && u.inbox == s.inbox
            && u.nodes[p].inverse == s.nodes[p].inverse
            && u.status[p].Arrived? && u.status[p].manager == m && u.status[p].vt == u.nodes[p].clock
            && (p != m ==> u.nodes[p].inverse[m] <= |u.nodes[p].lists[p]| && u.status[p].ivs == u.nodes[p].lists[p][u.nodes[p].inverse[m]..])
            && (p == m ==> u.status[p].ivs == [])
            && (forall q: nat :: q < |s.nodes| && q != p ==> u.nodes[q] == s.nodes[q] && u.status[q] == s.status[q])
  {
    hide Nodes.Inv;
    hide Prefixes;
    hide Exclusive;
    hide StatusOk;
    hide MailOk;
    ReachableConsistent(s);
    StepKeeps(s, Arrive(p, m));
    var u := Apply(s, Arrive(p, m));
    assert SizedNode(u, p) && SizedNode(s, p);
    if p != m {
      assert InverseOk(u, p, m);
      ToldBound(u, m, p);
    }
  }

  // ---------------------------------------------------------------- collections

  /** All processes name the same manager for a page. It has a copy after the collection, so the page does not lose
      its last one, exactly if its copy is valid or nobody's newest notice had seen its own; after a run without a
      grant from a clock that is not closed that is always so, and no request of the collection fails. */
  lemma {:induction false} NoPageIsLost(s: State, p: nat, g: nat)
    requires Reachable(s) && Quiet(s) && p < |s.nodes| && g < |s.home| && WellSized(s)
    ensures var t := Sweep(s);
            && g < |t.home| && t.home[g] == NewHome(s.nodes[p], g, s.home[g]) && t.home[g] < |t.nodes|
            && g < |t.nodes[t.home[g]].state| && (t.nodes[t.home[g]].state[g] != Empty <==> HomeKeeps(s, g))
    ensures CarefullyReachable(s) ==> HomeKeeps(s, g) && !Sweep(s).failed
  {
    hide Consistent;
    hide CausalState;
    hide Stamps;
    hide NewHome;
    hide HomeKeeps;
    hide KeepersServed;
    ReachableConsistent(s);
    HomeKeepsIff(s, p, g);
    if CarefullyReachable(s) {
      CarefulCausal(s);
      StampsCausal(s);
      CausalSweeps(s);
    }
  }

  /** A page that becomes private does so at one process; nobody else has a copy, so nobody asks for the diff of the
      twin that is thrown away; and the process is the manager, if the manager keeps a copy. */
  lemma {:induction false} PrivateIsExclusive(s: State, p: nat, q: nat, g: nat)
    requires Reachable(s) && Quiet(s) && p < |s.nodes| && q < |s.nodes| && g < |s.home| && WellSized(s)
    ensures SizedNode(s, p) && SizedNode(s, q) && s.nodes[p].id == p && s.nodes[q].id == q
    ensures StateAfterSweep(s.nodes[p], g) == Private && q != p ==> StateAfterSweep(s.nodes[q], g) == Empty
    ensures StateAfterSweep(s.nodes[p], g) == Private && HomeKeeps(s, g) ==> NewHome(s.nodes[0], g, s.home[g]) == p
  {
    hide Consistent;
    hide NewHome;
    hide HomeKeeps;
    hide StateAfterSweep;
    ReachableConsistent(s);
    assert SizedNode(s, p) && SizedNode(s, q);
    if StateAfterSweep(s.nodes[p], g) == Private {
      PrivateAfter(s, p, q, g);
    }
  }

  /** What a collection makes of a copy of a page, in any run: private if it was, or if it is valid and nobody has had
      the diff of one of the process's own notices of it; valid if it is and all those have had theirs asked for, or
      if it is invalid and the process has a notice of it that no other process's had seen; else empty. */
  lemma {:induction false} CollectedCopy(s: State, p: nat, g: nat)
    requires Reachable(s) && Quiet(s) && p < |s.nodes| && g < |s.home| && WellSized(s)
    ensures var x, y := s.nodes[p], Sweep(s).nodes[p];
            && |x.state| == |y.state| == |s.home|
            && (y.state[g] == Private <==> x.state[g] == Private || (x.state[g] == Valid && Unshared(s, p, g)))
            && (y.state[g] == Valid <==> (x.state[g] == Valid && !Unshared(s, p, g)) || (x.state[g] == Invalid && Unsurpassed(s, p, g)))
            && (y.state[g] == Empty <==> x.state[g] == Empty || (x.state[g] == Invalid && !Unsurpassed(s, p, g)))
  {
    hide Consistent;
    hide Sweep;
    hide Unshared;
    hide Unsurpassed;
    ReachableConsistent(s);
    SweepStates(s, p, g);
  }

  /** In any run, a collection fails exactly if a process that keeps an invalid copy asks for a diff of a process that
      is not its maker and has not got it. */
  lemma {:induction false} CollectionFailsIff(s: State)
    requires Reachable(s) && Quiet(s) && WellSized(s)
    ensures Sweep(s).failed <==> s.failed || exists p: nat, g: nat, a :: KeeperRefused(s, p, g, a)
  {
    hide Consistent;
    hide Sweep;
    hide KeeperRefused;
    ReachableConsistent(s);
    SweepFailsIff(s);
  }

  /** A process that discards a copy always finds a manager to name. */
  lemma {:induction false} DiscardFindsManager(s: State, p: nat, g: nat)
    requires Reachable(s) && Quiet(s) && p < |s.nodes| && g < |s.home| && WellSized(s)
    ensures g < |s.nodes[p].state| && |Latest(s.nodes[p], g)| == |s.nodes|
    ensures s.nodes[p].state[g] == Invalid ==> Best(Latest(s.nodes[p], g), |s.nodes|).Some?
  {
    hide Consistent;
    hide Best;
    ReachableConsistent(s);
    assert SizedNode(s, p);
    ChosenIs(s, p, g);
    if Best(Latest(s.nodes[p], g), |s.nodes|).None? {
      UnwrittenStays(s, p, g);
    }
  }
}
