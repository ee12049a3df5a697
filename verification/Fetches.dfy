/** Bringing a page up to date in a running system: when the requests that the pending notices are packed into can
    all be answered. */
module Fetches {
  import opened Clocks
  import opened Nodes
  import opened Requests
  import opened Systems
  import opened SystemSteps
  import opened Runs
  import opened Causality
  import opened PageStacks
  import NoticeOrder
  import Batching

  // ---------------------------------------------------------------- under causal closure

  /** The notices the sort takes form a linear extension that can be packed. */
  lemma {:induction false} PendingSorts(s: State, p: nat, g: nat)
    requires Consistent(s) && Causal(|s.nodes|, Stamps(s)) && p < |s.nodes|
    ensures var w := NoticeOrder.SortAll(PageNotices(s.nodes[p], g));
            && NoticeOrder.NewestFirst(w) && Batching.Sighted(w)
            && multiset(w) == multiset(NoticeOrder.AllPending(PageNotices(s.nodes[p], g)))
  {
    hide Nodes.Inv;
    hide Prefixes;
    hide Exclusive;
    hide StatusOk;
    hide MailOk;
    hide InverseOk;
    hide NoticeOrder.NewestFirst;
    hide Batching.Sighted;
    hide NoticeOrder.SortAll;
    hide NoticeOrder.AllPending;
    hide PageNotices;
    var n, stamps, lists := |s.nodes|, Stamps(s), PageNotices(s.nodes[p], g);
    var w := NoticeOrder.SortAll(lists);
    PageWellFormed(n, |s.home|, s.nodes[p], g);
    PendingStamps(s, p, g);
    NoticeOrder.SortIsLinearExtension(n, stamps, lists);
    NoticeOrder.SameElements(w, NoticeOrder.AllPending(lists));
    Batching.CausalIsSighted(n, stamps, w);
  }

  /** Whoever is asked by a process that has seen a later interval of its own on the page can answer. */
  lemma {:induction false} LegalIsAnswered(s: State, p: nat, g: nat, asks: seq<Ask>)
    requires Consistent(s) && p < |s.nodes| && forall a :: a in asks ==> LegalAsk(|s.nodes|, s.nodes[p], g, a)
    ensures AllAnswered(s.nodes, asks)
  {
    hide Consistent;
    hide Answers;
    forall k | 0 <= k < |asks| ensures asks[k].server < |s.nodes| && Answers(s.nodes[asks[k].server], asks[k].mark) {
      assert asks[k] in asks;
      assert LegalAsk(|s.nodes|, s.nodes[p], g, asks[k]);
      AskIsAnswered(s, p, g, asks[k]);
    }
  }

  /** Where having seen is transitive among the pending notices of a page, every request for them can be answered. */
  lemma {:induction false} SightedIsAnswered(s: State, p: nat, g: nat)
    requires Consistent(s) && p < |s.nodes| && g < |s.home| && g < |s.nodes[p].state| && s.nodes[p].state[g] != Valid
    requires Batching.Sighted(NoticeOrder.SortAll(PageNotices(s.nodes[p], g)))
    ensures forall a :: a in RequestsFor(s.nodes[p], g) ==> LegalAsk(|s.nodes|, s.nodes[p], g, a)
    ensures AllAnswered(s.nodes, RequestsFor(s.nodes[p], g))
  {
    hide Consistent;
    hide Nodes.Inv;
    hide AllAnswered;
    hide LegalAsk;
    hide NoticeOrder.SortAll;
    hide Batching.Sighted;
    hide PageNotices;
    hide RequestsFor;
    NodeInv(s, p);
    RequestsAreLegal(|s.nodes|, |s.home|, s.nodes[p], g);
    LegalIsAnswered(s, p, g, RequestsFor(s.nodes[p], g));
  }

  /** With causally closed stamps the pending notices of a page sort into a linear extension, the requests they
      are packed into go to later writers of the page that had seen them, and every one can be answered. */
  lemma {:induction false} PageCanBeFetched(s: State, p: nat, g: nat)
    requires Consistent(s) && Causal(|s.nodes|, Stamps(s)) && p < |s.nodes| && g < |s.home|
    requires g < |s.nodes[p].state| && s.nodes[p].state[g] != Valid
    ensures NoticeOrder.NewestFirst(NoticeOrder.SortAll(PageNotices(s.nodes[p], g)))
    ensures ProperAsks(|s.nodes|, s.nodes[p], g, RequestsFor(s.nodes[p], g))
    ensures forall a :: a in RequestsFor(s.nodes[p], g) ==> LegalAsk(|s.nodes|, s.nodes[p], g, a)
    ensures AllAnswered(s.nodes, RequestsFor(s.nodes[p], g))
  {
    hide Consistent;
    hide Nodes.Inv;
    hide AllAnswered;
    hide ProperAsks;
    hide LegalAsk;
    hide Stamps;
    hide NoticeOrder.NewestFirst;
    hide NoticeOrder.SortAll;
    hide NoticeOrder.AllPending;
    hide Batching.Sighted;
    hide PageNotices;
    hide RequestsFor;
    NodeInv(s, p);
    PendingSorts(s, p, g);
    RequestsAreProper(|s.nodes|, |s.home|, s.nodes[p], g);
    SightedIsAnswered(s, p, g);
  }

  /** So while stamps are causally closed no step fails. */
  lemma {:induction false} StepSucceeds(s: State, step: Step)
    requires CausalState(s) && WellSized(s) && Enabled(s, step)
    ensures !Apply(s, step).failed
  {
    hide CausalState;
    hide Incorporate;
    hide Missing;
    hide Create;
    hide RequestsFor;
    hide Fault;
    hide Stamps;
    hide Consistent;
    CausalIsConsistent(s);
    if step.Touch? {
      var x := s.nodes[step.p];
      NodeInv(s, step.p);
      StampsCausal(s);
      if x.state[step.page] != Valid && x.state[step.page] != Private {
        PageCanBeFetched(s, step.p, step.page);
      }
    }
  }

  lemma {:induction false} RunSucceeds(s: State, steps: seq<Step>)
    requires CausalState(s) && WellSized(s) && IsRun(s, steps) && CarefulRun(s, steps) && !s.failed
    ensures !Runs.After(s, steps).failed
    decreases |steps|
  {
    hide CausalState;
    hide Enabled;
    hide Apply;
    hide Careful;
    if steps != [] {
      var t := Apply(s, steps[0]);
      StepCausal(s, steps[0]);
      StepSucceeds(s, steps[0]);
      CausalIsConsistent(t);
      ConsistentSized(t);
      RunSucceeds(t, steps[1..]);
    }
  }

  // ---------------------------------------------------------------- in general

  /** A request that cannot be given: for a diff that the process asked is not to make itself and has not got. */
  ghost predicate Refused(s: State, p: nat, g: nat, a: Ask) {
    && p < |s.nodes| && a in RequestsFor(s.nodes[p], g) && a.server < |s.nodes|
    && a.server != a.mark.id && a.mark !in s.nodes[a.server].diffs
  }

  /** The requests for a page cannot all be answered exactly if one of them is refused. */
  lemma {:induction false} RefusedIff(s: State, p: nat, g: nat)
    requires Consistent(s) && p < |s.nodes| && g < |s.home| && g < |s.nodes[p].state| && s.nodes[p].state[g] != Valid
    ensures !AllAnswered(s.nodes, RequestsFor(s.nodes[p], g)) <==> exists a :: Refused(s, p, g, a)
  {
    hide Consistent;
    hide RequestsFor;
    hide Nodes.Inv;
    hide ProperAsk;
    hide Answers;
    var n, x := |s.nodes|, s.nodes[p];
    NodeInv(s, p);
    var asks := RequestsFor(x, g);
    RequestsAreProper(n, |s.home|, x, g);
    forall k | 0 <= k < |asks|
      ensures asks[k].server < n && (Answers(s.nodes[asks[k].server], asks[k].mark) <==> !Refused(s, p, g, asks[k]))
    {
      assert ProperAsk(n, x, g, asks[k]) && asks[k] in asks;
      ProperServer(n, x, g, asks[k]);
      AnsweredIff(s, p, g, asks[k]);
    }
    assert (exists a :: Refused(s, p, g, a)) <==> exists k :: 0 <= k < |asks| && Refused(s, p, g, asks[k]);
  }

  /** Exactly when a read or write fails: the page has to be fetched, and some diff is asked of a process that
      has not got it and is not its maker. */
  lemma {:induction false} FailsIff(s: State, p: nat, g: nat, write: bool)
    requires Consistent(s) && WellSized(s) && Enabled(s, Touch(p, g, write))
    ensures Apply(s, Touch(p, g, write)).failed <==>
              && (s.nodes[p].state[g] == Invalid || s.nodes[p].state[g] == Empty)
              && exists a :: Refused(s, p, g, a)
  {
    hide Consistent;
    hide RequestsFor;
    hide Fault;
    hide AllAnswered;
    hide Refused;
    NodeInv(s, p);
    NothingWanted(s.nodes);
    if s.nodes[p].state[g] != Valid && s.nodes[p].state[g] != Private {
      RefusedIff(s, p, g);
    }
  }

  lemma NothingWanted(nodes: seq<Node>)
    ensures AllAnswered(nodes, [])
  {
  }

  lemma NodeInv(s: State, p: nat)
    requires Consistent(s) && p < |s.nodes|
    ensures Nodes.Inv(|s.nodes|, |s.home|, s.nodes[p]) && |s.nodes[p].state| == |s.home| && s.nodes[p].id == p
  {
    hide Nodes.Inv;
    assert LaidNode(s, p);
  }

  lemma PendingStamps(s: State, p: nat, g: nat)
    requires Consistent(s) && p < |s.nodes|
    ensures forall a :: a in NoticeOrder.AllPending(PageNotices(s.nodes[p], g)) ==> a in Stamps(s)
  {
    hide Nodes.Inv;
    hide Exclusive;
    hide StatusOk;
    hide MailOk;
    hide InverseOk;
    var w := NoticeOrder.AllPending(PageNotices(s.nodes[p], g));
    SortedArePending(|s.nodes|, |s.home|, s.nodes[p], g, w);
    forall a | a in w ensures a in Stamps(s) {
      assert PendingAs(s.nodes[p], g, a.id, a);
      assert Prefix(s, p, a.id) && LaidNode(s, a.id);
      assert s.nodes[a.id].lists[a.id][Time(a) - 1].vt == a.vt;
    }
  }
}
