/** Garbage collection after a barrier: every process decides alone which of its copies to keep and who
    manages the pages it has no copy of, then all records of intervals are dropped. */
module Collection {
  import opened Clocks
  import opened Nodes
  import opened Requests
  import opened Systems
  import opened SystemSteps
  import opened Runs
  import opened Causality
  import opened ManagerChoice
  import Fetches

  // ---------------------------------------------------------------- keeping or discarding

  /** The newest notice of page `g` by each process. */
  function Latest(x: Node, g: nat): seq<Option<Stamp>> {
    seq(|x.lists|, i requires 0 <= i < |x.lists| => LatestOf(x.lists[i], i, g))
  }

  function LatestOf(list: seq<Interval>, i: nat, g: nat): Option<Stamp> {
    var t := Newest(list, g);
    if t == 0 then None else Some(Stamp(i, list[t - 1].vt))
  }

  /** A process keeps an invalid copy if it wrote the page and nobody else wrote it later, having seen that. */
  predicate Keeps(x: Node, g: nat)
    requires x.id < |x.lists|
  {
    var time := Newest(x.lists[x.id], g);
    time > 0 && Unseen(Latest(x, g), x.id, time)
  }

  function StateAfterSweep(x: Node, g: nat): PageState
    requires x.id < |x.lists| && g < |x.state|
  {
    match x.state[g]
    case Valid => if g in x.twins then Private else Valid
    case Invalid => if Keeps(x, g) then Valid else Empty
    case Private => Private
    case Empty => Empty
  }

  /** The manager of a page for a process without a copy: the one the scan picks, else the one it had. */
  function NewHome(x: Node, g: nat, home: nat): nat {
    match Best(Latest(x, g), |x.lists|)
    case None => home
    case Some(f) => f.id
  }

  function Bare(n: nat, p: nat, state: seq<PageState>): Node {
    Node(p, seq(n, i => 0), seq(n, i => []), seq(n, i => 0), {}, {}, state, {})
  }

  function SweepNode(x: Node): Node
    requires x.id < |x.lists|
  {
    Bare(|x.lists|, x.id, seq(|x.state|, g requires 0 <= g < |x.state| => StateAfterSweep(x, g)))
  }

  /** Everybody has left the barrier and done nothing since. */
  ghost predicate Quiet(s: State) {
    forall p: nat, q: nat :: p < |s.nodes| && q < |s.nodes| && p < |s.status| ==>
      s.status[p].Running? && s.nodes[p].dirty == {} && s.nodes[p].lists == s.nodes[q].lists
  }

  /** The process brings its invalid copy of the page up to date, to keep it. */
  predicate Refreshes(s: State, p: nat, g: nat) {
    && p < |s.nodes| && s.nodes[p].id < |s.nodes[p].lists| && g < |s.nodes[p].state|
    && s.nodes[p].state[g] == Invalid && Keeps(s.nodes[p], g)
  }

  /** Whoever keeps an invalid copy can fetch what that takes. */
  ghost predicate KeepersServed(s: State) {
    forall p: nat, g: nat :: Refreshes(s, p, g) ==> AllAnswered(s.nodes, RequestsFor(s.nodes[p], g))
  }

  ghost function Sweep(s: State): State
    requires WellSized(s)
  {
    s.(home := if |s.nodes| == 0 then s.home
               else seq(|s.home|, g requires 0 <= g < |s.home| => NewHome(s.nodes[0], g, s.home[g])),
       nodes := seq(|s.nodes|, p requires 0 <= p < |s.nodes| => SweepNode(s.nodes[p])),
       failed := s.failed || !KeepersServed(s))
  }

  /** The process that the scan picks for a page has a valid copy, or a notice of the page that nobody's newest
      notice had seen. */
  ghost predicate HomeKeeps(s: State, g: nat)
    requires |s.nodes| > 0
  {
    match Best(Latest(s.nodes[0], g), |s.nodes[0].lists|)
    case None => true
    case Some(f) =>
      && f.id < |s.nodes| && g < |s.nodes[f.id].state|
      && (s.nodes[f.id].state[g] == Valid || Unseen(Latest(s.nodes[0], g), f.id, Time(f)))
  }

  ghost predicate HomesKeep(s: State) {
    |s.nodes| > 0 ==> forall g: nat :: g < |s.home| ==> HomeKeeps(s, g)
  }

  // ---------------------------------------------------------------- the decisions agree

  lemma QuietLists(s: State, p: nat, i: nat)
    requires Consistent(s) && Quiet(s) && p < |s.nodes| && i < |s.nodes|
    ensures |s.nodes[p].lists| == |s.nodes| && s.nodes[p].lists == s.nodes[i].lists && s.nodes[p].id == p
    ensures s.nodes[p].dirty == {} && s.status[p].Running?
    ensures Nodes.Inv(|s.nodes|, |s.home|, s.nodes[p])
  {
    hide Nodes.Inv;
    assert LaidNode(s, p);
  }

  /** All processes see the same newest notices, so they pick the same manager. */
  lemma {:induction false} SameChoice(s: State, p: nat, q: nat, g: nat)
    requires Consistent(s) && Quiet(s) && p < |s.nodes| && q < |s.nodes|
    ensures Latest(s.nodes[p], g) == Latest(s.nodes[q], g)
    ensures forall home: nat :: NewHome(s.nodes[p], g, home) == NewHome(s.nodes[q], g, home)
  {
    hide Consistent;
    QuietLists(s, p, q);
  }

  /** A newest notice and the stamp of its interval. */
  lemma LatestMade(s: State, p: nat, g: nat, i: nat)
    requires Consistent(s) && Quiet(s) && p < |s.nodes| && i < |s.nodes|
    ensures |Latest(s.nodes[p], g)| == |s.nodes| == |s.nodes[p].lists|
    ensures var a := Latest(s.nodes[p], g)[i];
            && (a.Some? <==> Newest(s.nodes[p].lists[i], g) > 0)
            && (a.Some? ==>
                  && a.value.id == i && |a.value.vt| == |s.nodes| && a.value in Stamps(s)
                  && Time(a.value) == Newest(s.nodes[p].lists[i], g)
                  && a.value.vt == s.nodes[p].lists[i][Newest(s.nodes[p].lists[i], g) - 1].vt)
  {
    hide Nodes.Inv;
    hide Exclusive;
    hide StatusOk;
    hide MailOk;
    hide InverseOk;
    QuietLists(s, p, i);
    var t := Newest(s.nodes[p].lists[i], g);
    if t > 0 {
      MadeAt(s, i, t - 1);
    }
  }

  lemma LatestDistinct(s: State, p: nat, g: nat)
    requires Consistent(s) && Quiet(s) && p < |s.nodes| && Causal(|s.nodes|, Stamps(s))
    ensures Distinct(Latest(s.nodes[p], g))
  {
    hide Consistent;
    hide Stamps;
    hide Latest;
    var l := Latest(s.nodes[p], g);
    LatestMade(s, p, g, p);
    forall i: nat, j: nat | i < |l| && j < |l| && i != j && l[i].Some? && l[j].Some?
      ensures !(AtMost(l[i].value.vt, l[j].value.vt) && AtMost(l[j].value.vt, l[i].value.vt))
    {
      LatestMade(s, p, g, i);
      LatestMade(s, p, g, j);
      var a, b := l[i].value, l[j].value;
      assert AtMost(a.vt, b.vt) ==> Precedes(a, b);
    }
  }

  /** The notice the scan ends with, as a process's newest. */
  lemma ChosenIs(s: State, p: nat, g: nat)
    requires Consistent(s) && Quiet(s) && p < |s.nodes|
    ensures |Latest(s.nodes[p], g)| == |s.nodes| == |s.nodes[p].lists|
    ensures var l := Latest(s.nodes[p], g);
            var best := Best(l, |s.nodes|);
            && (best.None? <==> forall k :: 0 <= k < |l| ==> l[k].None?)
            && (best.Some? ==> best.value.id < |s.nodes| && best == l[best.value.id])
  {
    hide Consistent;
    hide Latest;
    hide Stamps;
    LatestMade(s, p, g, p);
    var l := Latest(s.nodes[p], g);
    BestIsOne(l, |l|);
    var best := Best(l, |l|);
    if best.Some? {
      var f :| 0 <= f < |l| && best == l[f];
      LatestMade(s, p, g, f);
    }
  }

  lemma ChosenMaximal(s: State, p: nat, g: nat)
    requires Consistent(s) && Quiet(s) && p < |s.nodes| && Causal(|s.nodes|, Stamps(s))
    ensures |Latest(s.nodes[p], g)| == |s.nodes| == |s.nodes[p].lists|
    ensures var l := Latest(s.nodes[p], g);
            var best := Best(l, |s.nodes|);
            best.Some? ==> best.value.id < |s.nodes| && IsMaximal(l, |l|, best.value.id) && best == l[best.value.id]
  {
    hide Consistent;
    hide Latest;
    hide Stamps;
    LatestMade(s, p, g, p);
    LatestDistinct(s, p, g);
    var l := Latest(s.nodes[p], g);
    BestIsMaximal(l, |l|);
    var best := Best(l, |l|);
    if best.Some? {
      var f :| 0 <= f < |l| && IsMaximal(l, |l|, f) && best == l[f];
      LatestMade(s, p, g, f);
    }
  }

  /** Nobody's newest notice has seen the chosen one. */
  lemma {:induction false} ChosenUnseen(s: State, p: nat, g: nat)
    requires Consistent(s) && Quiet(s) && p < |s.nodes| && Causal(|s.nodes|, Stamps(s))
    requires |Latest(s.nodes[p], g)| == |s.nodes| && Best(Latest(s.nodes[p], g), |s.nodes|).Some?
    ensures var f := Best(Latest(s.nodes[p], g), |s.nodes|).value;
            Unseen(Latest(s.nodes[p], g), f.id, Time(f))
  {
    hide Consistent;
    hide Latest;
    hide Stamps;
    hide Best;
    ChosenMaximal(s, p, g);
    var l := Latest(s.nodes[p], g);
    var f := Best(l, |s.nodes|).value;
    LatestMade(s, p, g, f.id);
    forall j: nat | j < |l| && j != f.id && l[j].Some? ensures f.id < |l[j].value.vt| && l[j].value.vt[f.id] < Time(f) {
      LatestMade(s, p, g, j);
      var o := l[j].value;
      assert Precedes(f, o) ==> AtMost(f.vt, o.vt);
    }
  }

  /** The manager that is named has a copy afterwards exactly if its copy is valid or its notice unseen. */
  lemma {:induction false} HomeKeepsIff(s: State, p: nat, g: nat)
    requires Consistent(s) && WellSized(s) && Quiet(s) && p < |s.nodes| && g < |s.home|
    ensures var h := NewHome(s.nodes[0], g, s.home[g]);
            && h < |s.nodes| && h == NewHome(s.nodes[p], g, s.home[g])
            && s.nodes[h].id == h && h < |s.nodes[h].lists| && g < |s.nodes[h].state|
            && (StateAfterSweep(s.nodes[h], g) != Empty <==> HomeKeeps(s, g))
  {
    hide Nodes.Inv;
    hide StatusOk;
    hide MailOk;
    hide InverseOk;
    hide Prefixes;
    hide Owned;
    hide Latest;
    hide Best;
    hide Stamps;
    SameChoice(s, 0, p, g);
    ChosenIs(s, 0, g);
    var h := NewHome(s.nodes[0], g, s.home[g]);
    SameChoice(s, 0, h, g);
    QuietLists(s, h, 0);
    assert LaidNode(s, h);
    if Best(Latest(s.nodes[0], g), |s.nodes|).Some? {
      LatestMade(s, 0, g, h);
      OwnCopy(|s.nodes|, |s.home|, s.nodes[h], g, Newest(s.nodes[h].lists[h], g));
    } else {
      UnwrittenStays(s, h, g);
      assert PageOk(s, h, g);
    }
  }

  /** Under causal stamps the process picked keeps its copy. */
  lemma {:induction false} ChosenKeeps(s: State, g: nat)
    requires Consistent(s) && WellSized(s) && Quiet(s) && |s.nodes| > 0 && Causal(|s.nodes|, Stamps(s)) && g < |s.home|
    ensures HomeKeeps(s, g)
  {
    hide Consistent;
    hide Latest;
    hide Stamps;
    hide Best;
    HomeKeepsIff(s, 0, g);
    ChosenIs(s, 0, g);
    if Best(Latest(s.nodes[0], g), |s.nodes|).Some? {
      ChosenUnseen(s, 0, g);
    }
  }

  lemma OwnCopy(n: nat, np: nat, x: Node, g: nat, t: nat)
    requires Nodes.Inv(n, np, x) && g < np
    ensures |x.state| == np && x.id < |x.lists|
    ensures Noticed(x, g, x.id, t) ==> x.state[g] == Valid || x.state[g] == Invalid
  {
    hide Covered;
    hide CanServe;
    hide OldestDiffed;
    hide TwinSees;
    hide InvalidNoticed;
  }

  /** A process with a valid copy and a twin wrote the page last: everybody else's newest notice has been seen
      by its own. */
  lemma TwinSawAll(s: State, p: nat, g: nat, i: nat)
    requires Consistent(s) && Quiet(s) && p < |s.nodes| && i < |s.nodes| && g in s.nodes[p].twins
    ensures |s.nodes[p].lists| == |s.nodes| && Undiffed(s.nodes[p], g)
    ensures var t, own := Newest(s.nodes[p].lists[i], g), Newest(s.nodes[p].lists[p], g);
            own > 0 && i < |s.nodes[p].lists[p][own - 1].vt| && t <= s.nodes[p].lists[p][own - 1].vt[i]
  {
    hide Consistent;
    QuietLists(s, p, i);
    var x := s.nodes[p];
    TwinSeen(|s.nodes|, |s.home|, x, g, i, Newest(x.lists[i], g));
  }

  lemma TwinSeen(n: nat, np: nat, x: Node, g: nat, i: nat, t: nat)
    requires Nodes.Inv(n, np, x) && x.dirty == {} && g in x.twins && i < n
    ensures Undiffed(x, g)
    ensures var own := Newest(x.lists[x.id], g); i < |x.lists[x.id][own - 1].vt| && (Noticed(x, g, i, t) || t == 0 ==> t <= x.lists[x.id][own - 1].vt[i])
  {
    hide PagesRight;
    hide CanServe;
    hide OldestDiffed;
    hide InvalidNoticed;
    hide Ascending;
    assert Undiffed(x, g);
    var own := Newest(x.lists[x.id], g);
    assert WellStamped(n, np, x.lists[x.id][own - 1], x.id, own - 1);
    assert Noticed(x, g, i, t) ==> SeenBy(x, g, i, t);
  }

  lemma {:induction false} TwinIsChosen(s: State, p: nat, g: nat)
    requires Consistent(s) && Quiet(s) && p < |s.nodes| && Causal(|s.nodes|, Stamps(s)) && g in s.nodes[p].twins
    ensures |Latest(s.nodes[p], g)| == |s.nodes|
    ensures var best := Best(Latest(s.nodes[p], g), |s.nodes|); best.Some? && best.value.id == p
  {
    hide Consistent;
    hide Latest;
    hide Stamps;
    hide Best;
    ChosenIs(s, p, g);
    ChosenMaximal(s, p, g);
    LatestMade(s, p, g, p);
    TwinSawAll(s, p, g, p);
    var l := Latest(s.nodes[p], g);
    var best := Best(l, |s.nodes|);
    assert l[p].Some?;
    var c := best.value.id;
    LatestMade(s, p, g, c);
    TwinSawAll(s, p, g, c);
    var f, own := best.value, l[p].value;
    assert Precedes(f, own);
    assert AtMost(f.vt, own.vt);
  }

  /** Everybody else then discards: no one keeps a copy, valid or not, of a page that becomes private. */
  lemma {:induction false} OthersDiscard(s: State, p: nat, q: nat, g: nat)
    requires Consistent(s) && Quiet(s) && p < |s.nodes| && q < |s.nodes| && q != p && g in s.nodes[p].twins && g < |s.home|
    ensures |s.nodes[q].lists| == |s.nodes| && s.nodes[q].id == q && g < |s.nodes[q].state| && StateAfterSweep(s.nodes[q], g) == Empty
  {
    hide Nodes.Inv;
    hide Exclusive;
    hide StatusOk;
    hide MailOk;
    hide InverseOk;
    hide Prefixes;
    QuietLists(s, q, p);
    QuietLists(s, p, q);
    TwinSawAll(s, p, g, q);
    var x, y := s.nodes[p], s.nodes[q];
    var own := Newest(x.lists[p], g);
    assert LaidNode(s, q);
    assert Noticed(y, g, p, own);
    NotValidHere(|s.nodes|, |s.home|, y, g, p, own);
    LatestMade(s, q, g, p);
  }

  lemma NotValidHere(n: nat, np: nat, y: Node, g: nat, i: nat, t: nat)
    requires Nodes.Inv(n, np, y) && Noticed(y, g, i, t) && i != y.id && g < np
    ensures |y.state| == np && y.state[g] != Private && (y.state[g] == Valid ==> Mark(g, i, t) in y.diffs)
  {
    hide Covered;
    hide CanServe;
    hide OldestDiffed;
    hide TwinSees;
    hide InvalidNoticed;
  }

  /** A page nobody wrote is left alone. */
  lemma {:induction false} UnwrittenStays(s: State, p: nat, g: nat)
    requires Consistent(s) && Quiet(s) && p < |s.nodes| && g < |s.home|
    requires |Latest(s.nodes[p], g)| == |s.nodes| && Best(Latest(s.nodes[p], g), |s.nodes|).None?
    ensures |s.nodes[p].lists| == |s.nodes| && s.nodes[p].id == p && g < |s.nodes[p].state|
    ensures StateAfterSweep(s.nodes[p], g) == s.nodes[p].state[g] != Invalid && g !in s.nodes[p].twins
  {
    hide Consistent;
    hide Latest;
    hide Stamps;
    hide Best;
    ChosenIs(s, p, g);
    QuietLists(s, p, p);
    var x := s.nodes[p];
    forall i: nat, t: nat ensures !Noticed(x, g, i, t) {
      if i < |s.nodes| {
        LatestMade(s, p, g, i);
      }
    }
    Unnoticed(|s.nodes|, |s.home|, x, g);
  }

  lemma Unnoticed(n: nat, np: nat, x: Node, g: nat)
    requires Nodes.Inv(n, np, x) && x.dirty == {} && g < np && forall i: nat, t: nat :: !Noticed(x, g, i, t)
    ensures |x.state| == np && x.state[g] != Invalid && g !in x.twins
  {
    hide CanServe;
    hide OldestDiffed;
    hide TwinSees;
    hide Ascending;
    if g in x.twins {
      TwinHasNotice(x, g);
    }
  }

  // ---------------------------------------------------------------- the state after a collection

  lemma BareInv(n: nat, p: nat, state: seq<PageState>)
    requires p < n && forall g :: 0 <= g < |state| ==> state[g] != Invalid
    ensures Nodes.Inv(n, |state|, Bare(n, p, state))
  {
    var x := Bare(n, p, state);
    assert forall g: nat, i: nat, t: nat :: !Noticed(x, g, i, t);
  }

  /** A page that becomes or stays private is so at one process; nobody else keeps a copy, so the diff of the
      twin that is thrown away is not asked for. */
  lemma {:induction false} PrivateAfter(s: State, p: nat, q: nat, g: nat)
    requires Consistent(s) && WellSized(s) && Quiet(s) && g < |s.home|
    requires p < |s.nodes| && q < |s.nodes| && StateAfterSweep(s.nodes[p], g) == Private
    ensures p != q ==> StateAfterSweep(s.nodes[q], g) == Empty
    ensures HomeKeeps(s, g) ==> NewHome(s.nodes[0], g, s.home[g]) == p
  {
    hide Nodes.Inv;
    hide StatusOk;
    hide MailOk;
    hide InverseOk;
    hide Prefixes;
    hide Owned;
    hide Latest;
    hide Best;
    hide Stamps;
    hide HomeKeeps;
    QuietLists(s, p, q);
    HomeKeepsIff(s, p, g);
    var h := NewHome(s.nodes[0], g, s.home[g]);
    if g in s.nodes[p].twins {
      if p != q {
        OthersDiscard(s, p, q, g);
      }
      if p != h {
        OthersDiscard(s, p, h, g);
      }
    } else {
      assert s.nodes[p].state[g] == Private && PageOk(s, p, g);
      assert LaidNode(s, q);
      NobodyWrote(s, p, g);
      SameChoice(s, p, q, g);
      ChosenIs(s, q, g);
      UnwrittenStays(s, q, g);
    }
  }

  lemma NobodyWrote(s: State, p: nat, g: nat)
    requires Consistent(s) && Quiet(s) && g < |s.home| && p < |s.nodes|
    requires g < |s.nodes[p].state| && s.nodes[p].state[g] == Private
    ensures |Latest(s.nodes[p], g)| == |s.nodes| && Best(Latest(s.nodes[p], g), |s.nodes|).None?
  {
    hide Nodes.Inv;
    hide StatusOk;
    hide MailOk;
    hide InverseOk;
    hide Prefixes;
    hide Owned;
    hide Latest;
    hide Best;
    hide Stamps;
    ChosenIs(s, p, g);
    assert PageOk(s, p, g);
    var l := Latest(s.nodes[p], g);
    forall k: nat | k < |l| ensures l[k].None? {
      LatestMade(s, p, g, k);
      QuietLists(s, p, k);
      assert LaidNode(s, k);
    }
  }

  lemma {:induction false} SweepExclusive(s: State)
    requires Consistent(s) && WellSized(s) && Quiet(s)
    ensures Exclusive(Sweep(s)) <==> HomesKeep(s)
  {
    hide Consistent;
    hide Stamps;
    hide StateAfterSweep;
    hide NewHome;
    hide HomeKeeps;
    hide KeepersServed;
    var t := Sweep(s);
    forall p: nat, g: nat | p < |t.nodes| && g < |t.home| && g < |t.nodes[p].state|
      ensures t.home[g] < |t.nodes| && (HomeKeeps(s, g) ==> PageOk(t, p, g))
    {
      HomeKeepsIff(s, p, g);
      if t.nodes[p].state[g] == Private {
        forall q: nat | q < |t.nodes| && g < |t.nodes[q].state|
          ensures (q != p ==> t.nodes[q].state[g] == Empty) && (HomeKeeps(s, g) ==> t.home[g] == p)
        {
          PrivateAfter(s, p, q, g);
        }
      }
    }
    forall g: nat | g < |t.home| ensures t.home[g] < |t.nodes| && (Exclusive(t) ==> HomeKeeps(s, g)) {
      HomeKeepsIff(s, 0, g);
      assert Exclusive(t) ==> PageOk(t, t.home[g], g);
    }
  }

  lemma SweptQuiet(s: State)
    requires Consistent(s) && WellSized(s) && Quiet(s)
    ensures var t := Sweep(s);
            forall p: nat :: p < |t.nodes| ==>
              t.inbox[p].None? && t.status[p].Running? && LaidNode(t, p) && Nodes.Inv(|t.nodes|, |t.home|, t.nodes[p])
  {
    hide Nodes.Inv;
    hide PageOk;
    hide StateAfterSweep;
    hide NewHome;
    hide KeepersServed;
    var t := Sweep(s);
    forall p: nat | p < |t.nodes|
      ensures t.inbox[p].None? && t.status[p].Running? && LaidNode(t, p) && Nodes.Inv(|t.nodes|, |t.home|, t.nodes[p])
    {
      SweptNode(s, p);
      assert StatusOk(s, p);
      assert s.status[p].Running? && s.nodes[p].dirty == {} && s.nodes[p].lists == s.nodes[p].lists;
    }
  }

  /** A collection leaves the system consistent exactly if every process that a page's new manager is has a valid
      copy or a notice nobody had seen.  The clocks are then closed, there being no intervals left, whatever they
      were before. */
  lemma {:induction false} SweepIff(s: State)
    requires Consistent(s) && WellSized(s) && Quiet(s)
    ensures Consistent(Sweep(s)) <==> HomesKeep(s)
    ensures HomesKeep(s) ==> CausalState(Sweep(s)) && WellSized(Sweep(s))
  {
    hide Nodes.Inv;
    hide PageOk;
    hide Exclusive;
    hide HomesKeep;
    hide SweepNode;
    hide NewHome;
    hide KeepersServed;
    SweepExclusive(s);
    SweptQuiet(s);
    var t := Sweep(s);
    if HomesKeep(s) {
      SweptBare(s);
      LaidSized(t);
    }
  }

  lemma SweptBare(s: State)
    requires Consistent(s) && WellSized(s)
    ensures forall p: nat :: p < |s.nodes| ==> Sweep(s).nodes[p] == Bare(|s.nodes|, p, Sweep(s).nodes[p].state)
  {
    hide Nodes.Inv;
    hide NewHome;
    hide KeepersServed;
    forall p: nat | p < |s.nodes| ensures Sweep(s).nodes[p] == Bare(|s.nodes|, p, Sweep(s).nodes[p].state) {
      assert LaidNode(s, p);
      assert SweepNode(s.nodes[p]) == Bare(|s.nodes|, p, SweepNode(s.nodes[p]).state);
    }
  }

  lemma SweptNode(s: State, p: nat)
    requires Consistent(s) && WellSized(s) && p < |s.nodes|
    ensures Nodes.Inv(|s.nodes|, |s.home|, SweepNode(s.nodes[p]))
  {
    hide Nodes.Inv;
    assert LaidNode(s, p);
    var state := SweepNode(s.nodes[p]).state;
    BareInv(|s.nodes|, p, state);
  }

  /** With causally closed stamps all managers keep a copy and all that is asked for can be given. */
  lemma {:induction false} CausalSweeps(s: State)
    requires Consistent(s) && WellSized(s) && Quiet(s) && Causal(|s.nodes|, Stamps(s))
    ensures HomesKeep(s) && KeepersServed(s)
  {
    hide Consistent;
    hide Stamps;
    hide HomeKeeps;
    hide RequestsFor;
    hide AllAnswered;
    hide Keeps;
    if |s.nodes| > 0 {
      forall g: nat | g < |s.home| ensures HomeKeeps(s, g) {
        ChosenKeeps(s, g);
      }
    }
    forall p: nat, g: nat | Refreshes(s, p, g) ensures AllAnswered(s.nodes, RequestsFor(s.nodes[p], g)) {
      Fetches.NodeInv(s, p);
      Fetches.PageCanBeFetched(s, p, g);
    }
  }

  // ---------------------------------------------------------------- what becomes of a page

  /** Process `p` has a notice of the page whose diff nobody has. */
  ghost predicate Unshared(s: State, p: nat, g: nat)
    requires p < |s.nodes|
  {
    exists time: nat :: UnsharedAt(s, p, g, time)
  }

  ghost predicate UnsharedAt(s: State, p: nat, g: nat, time: nat)
    requires p < |s.nodes|
  {
    Noticed(s.nodes[p], g, p, time) && forall q: nat :: q < |s.nodes| ==> Mark(g, p, time) !in s.nodes[q].diffs
  }

  /** Process `p` has a notice of the page that no other process's notice of it had seen. */
  ghost predicate Unsurpassed(s: State, p: nat, g: nat)
    requires p < |s.nodes|
  {
    exists time: nat :: UnsurpassedAt(s, p, g, time)
  }

  ghost predicate UnsurpassedAt(s: State, p: nat, g: nat, time: nat)
    requires p < |s.nodes|
  {
    && Noticed(s.nodes[p], g, p, time)
    && forall j: nat, u: nat :: j != p && Noticed(s.nodes[p], g, j, u) ==> !HadSeen(s.nodes[p].lists[j][u - 1], Mark(g, p, time))
  }

  /** A valid copy becomes private exactly if some own notice of it was never turned into a diff. */
  lemma {:induction false} TwinIsUnshared(s: State, p: nat, g: nat)
    requires Consistent(s) && Quiet(s) && p < |s.nodes|
    ensures g in s.nodes[p].twins <==> Unshared(s, p, g)
  {
    hide Nodes.Inv;
    hide Prefixes;
    hide Exclusive;
    hide StatusOk;
    hide MailOk;
    hide InverseOk;
    QuietLists(s, p, p);
    var x := s.nodes[p];
    OwnUndiffed(|s.nodes|, |s.home|, x, g);
    if g in x.twins {
      assert UnsharedAt(s, p, g, Newest(x.lists[p], g));
    }
  }

  lemma OwnUndiffed(n: nat, np: nat, x: Node, g: nat)
    requires Nodes.Inv(n, np, x) && x.dirty == {}
    ensures g in x.twins ==>
              Noticed(x, g, x.id, Newest(x.lists[x.id], g)) && Mark(g, x.id, Newest(x.lists[x.id], g)) !in x.diffs
    ensures g !in x.twins ==> forall t: nat :: Noticed(x, g, x.id, t) ==> Mark(g, x.id, t) in x.diffs
  {
    hide PagesRight;
    hide CanServe;
    hide OldestDiffed;
    hide TwinSees;
    hide InvalidNoticed;
    hide Ascending;
    if g in x.twins {
      TwinHasNotice(x, g);
    }
  }

  /** The scan over the newest notices tells whether any notice had seen the own one. */
  lemma {:induction false} KeepsIsUnsurpassed(s: State, p: nat, g: nat)
    requires Consistent(s) && Quiet(s) && p < |s.nodes|
    ensures |s.nodes[p].lists| == |s.nodes| && s.nodes[p].id == p && (Keeps(s.nodes[p], g) <==> Unsurpassed(s, p, g))
  {
    hide Consistent;
    hide Stamps;
    QuietLists(s, p, p);
    LatestMade(s, p, g, p);
    var x, l := s.nodes[p], Latest(s.nodes[p], g);
    var own := Newest(x.lists[p], g);
    if Keeps(x, g) {
      forall j: nat, u: nat | j != p && Noticed(x, g, j, u) ensures !HadSeen(x.lists[j][u - 1], Mark(g, p, own)) {
        LatestMade(s, p, g, j);
        NewestSawMost(s, p, g, j, u);
        assert l[j].Some?;
      }
      assert UnsurpassedAt(s, p, g, own);
    }
    if Unsurpassed(s, p, g) {
      var time: nat :| UnsurpassedAt(s, p, g, time);
      forall j: nat | j < |l| && j != p && l[j].Some? ensures p < |l[j].value.vt| && l[j].value.vt[p] < own {
        LatestMade(s, p, g, j);
        assert Noticed(x, g, j, Newest(x.lists[j], g));
      }
    }
  }

  lemma NewestSawMost(s: State, p: nat, g: nat, j: nat, u: nat)
    requires Consistent(s) && Quiet(s) && p < |s.nodes| && j < |s.nodes| && Noticed(s.nodes[p], g, j, u)
    ensures u <= Newest(s.nodes[p].lists[j], g)
    ensures AtMost(s.nodes[p].lists[j][u - 1].vt, s.nodes[p].lists[j][Newest(s.nodes[p].lists[j], g) - 1].vt)
  {
    hide Prefixes;
    hide Exclusive;
    hide StatusOk;
    hide MailOk;
    hide InverseOk;
    hide Covered;
    hide PagesRight;
    hide CanServe;
    hide OldestDiffed;
    hide TwinSees;
    hide InvalidNoticed;
    QuietLists(s, p, j);
    assert Ascending(s.nodes[j].lists[j], s.nodes[j].clock);
  }

  /** What a collection makes of a copy of a page, whatever the stamps: a private one stays private, and a valid one
      becomes so exactly if nobody has had the diff of one of the process's notices of it; an invalid copy is kept,
      and brought up to date, exactly if the process wrote the page and no other process did having seen that; and
      an empty one stays empty. All records are gone. */
  lemma {:induction false} SweepStates(s: State, p: nat, g: nat)
    requires Consistent(s) && WellSized(s) && Quiet(s) && p < |s.nodes| && g < |s.home|
    ensures var x, y := s.nodes[p], Sweep(s).nodes[p];
            && |x.state| == |y.state| == |s.home|
            && (y.state[g] == Private <==> x.state[g] == Private || (x.state[g] == Valid && Unshared(s, p, g)))
            && (y.state[g] == Valid <==> (x.state[g] == Valid && !Unshared(s, p, g)) || (x.state[g] == Invalid && Unsurpassed(s, p, g)))
            && (y.state[g] == Empty <==> x.state[g] == Empty || (x.state[g] == Invalid && !Unsurpassed(s, p, g)))
            && y.twins == {} == y.dirty && y.diffs == {} && |y.lists| == |y.clock| == |s.nodes|
            && (forall i :: 0 <= i < |s.nodes| ==> y.lists[i] == [] && y.clock[i] == 0 == y.inverse[i])
  {
    hide Consistent;
    hide Keeps;
    hide Unshared;
    hide Unsurpassed;
    hide NewHome;
    hide KeepersServed;
    QuietLists(s, p, p);
    Fetches.NodeInv(s, p);
    TwinIsUnshared(s, p, g);
    KeepsIsUnsurpassed(s, p, g);
  }

  /** A process keeps an invalid copy and asks for a diff that cannot be given. */
  ghost predicate KeeperRefused(s: State, p: nat, g: nat, a: Ask) {
    && p < |s.nodes| && g < |s.nodes[p].state| && s.nodes[p].state[g] == Invalid && Unsurpassed(s, p, g)
    && Fetches.Refused(s, p, g, a)
  }

  /** A collection fails exactly if a process that keeps an invalid copy asks for a diff of a process that is not its
      maker and has not got it. */
  lemma {:induction false} SweepFailsIff(s: State)
    requires Consistent(s) && WellSized(s) && Quiet(s)
    ensures Sweep(s).failed <==> s.failed || exists p: nat, g: nat, a :: KeeperRefused(s, p, g, a)
  {
    hide Consistent;
    hide RequestsFor;
    hide AllAnswered;
    hide Keeps;
    hide Unsurpassed;
    hide SweepNode;
    hide NewHome;
    hide Fetches.Refused;
    forall p: nat, g: nat | Refreshes(s, p, g)
      ensures !AllAnswered(s.nodes, RequestsFor(s.nodes[p], g)) <==> exists a :: KeeperRefused(s, p, g, a)
    {
      KeepsIsUnsurpassed(s, p, g);
      Fetches.NodeInv(s, p);
      Fetches.RefusedIff(s, p, g);
      assert forall a :: KeeperRefused(s, p, g, a) <==> Fetches.Refused(s, p, g, a);
    }
    forall p: nat, g: nat, a | KeeperRefused(s, p, g, a) ensures Refreshes(s, p, g) {
      KeepsIsUnsurpassed(s, p, g);
    }
  }

  // ---------------------------------------------------------------- fetching while others sweep

  /** The first half of a collection at one process: copies are kept or discarded, twins freed, and the diffs of
      the pages it keeps fetched; the records are still there. */
  ghost function SweepPages(x: Node): Node
    requires x.id < |x.lists|
  {
    x.(state := seq(|x.state|, g requires 0 <= g < |x.state| => StateAfterSweep(x, g)),
       twins := {},
       diffs := x.diffs + set g: nat, i: nat, t: nat |
         g < |x.state| && x.state[g] == Invalid && Keeps(x, g) && i < |x.lists| && 1 <= t <= |x.lists[i]|
         && g in x.lists[i][t - 1].pages :: Mark(g, i, t))
  }

  /** Some processes have gone through that half, the others not yet. */
  ghost function SweptSome(s: State, who: set<nat>): (nodes: seq<Node>)
    requires WellSized(s)
    ensures |nodes| == |s.nodes|
  {
    seq(|s.nodes|, p requires 0 <= p < |s.nodes| => if p in who then SweepPages(s.nodes[p]) else s.nodes[p])
  }

  /** What a process that keeps an invalid copy asks for is given from a diff at hand, never from a twin. */
  lemma {:induction false} KeptNeedsNoTwin(s: State, p: nat, g: nat, q: nat, m: Mark)
    requires Consistent(s) && Quiet(s) && Refreshes(s, p, g) && q < |s.nodes| && q != p && m.page == g
    ensures Answers(s.nodes[q], m) <==> m in s.nodes[q].diffs
  {
    hide Nodes.Inv;
    hide Keeps;
    QuietLists(s, p, q);
    QuietLists(s, q, p);
    assert LaidNode(s, p);
    if g in s.nodes[q].twins {
      OthersDiscard(s, q, p, g);
    }
    HeldIsAnswered(|s.nodes|, |s.home|, s.nodes[q], m);
  }

  lemma HeldIsAnswered(n: nat, np: nat, x: Node, m: Mark)
    requires Nodes.Inv(n, np, x) && m.page !in x.twins
    ensures Answers(x, m) <==> m in x.diffs
  {
    hide Covered;
    hide CanServe;
    hide OldestDiffed;
    hide TwinSees;
    hide InvalidNoticed;
    hide Ascending;
  }

  /** So it can be given whoever else has already gone through its own copies, exactly if it could at the start. */
  lemma {:induction false} KeepersUndisturbed(s: State, p: nat, g: nat, who: set<nat>)
    requires Consistent(s) && WellSized(s) && Quiet(s) && Refreshes(s, p, g) && p !in who
    ensures AllAnswered(s.nodes, RequestsFor(s.nodes[p], g)) ==> AllAnswered(SweptSome(s, who), RequestsFor(s.nodes[p], g))
  {
    hide Consistent;
    hide RequestsFor;
    hide Keeps;
    hide Answers;
    hide StateAfterSweep;
    hide ProperAsk;
    var asks := RequestsFor(s.nodes[p], g);
    Fetches.NodeInv(s, p);
    RequestsAreProper(|s.nodes|, |s.home|, s.nodes[p], g);
    if AllAnswered(s.nodes, asks) {
      forall k | 0 <= k < |asks|
        ensures asks[k].server < |s.nodes| && Answers(SweptSome(s, who)[asks[k].server], asks[k].mark)
      {
        assert ProperAsk(|s.nodes|, s.nodes[p], g, asks[k]);
        ProperServer(|s.nodes|, s.nodes[p], g, asks[k]);
        KeptNeedsNoTwin(s, p, g, asks[k].server, asks[k].mark);
        Fetches.NodeInv(s, asks[k].server);
        SweptAnswers(s.nodes[asks[k].server], asks[k].mark);
      }
    }
  }

  lemma SweptAnswers(x: Node, m: Mark)
    requires x.id < |x.lists| && Answers(x, m) && m in x.diffs
    ensures Answers(SweepPages(x), m)
  {
    assert Noticed(SweepPages(x), m.page, m.id, m.time);
  }

  // ---------------------------------------------------------------- runs with collections

  /** A number of runs, each ending at a barrier that everybody has left, with a collection after each in which
      every page's manager keeps a copy and nobody's request fails. */
  ghost predicate IsEpochs(s: State, epochs: seq<seq<Step>>)
    decreases |epochs|
  {
    epochs == [] ||
    (&& WellSized(s) && IsRun(s, epochs[0])
     && var t := Runs.After(s, epochs[0]);
        WellSized(t) && Quiet(t) && HomesKeep(t) && !Sweep(t).failed && IsEpochs(Sweep(t), epochs[1..]))
  }

  ghost function AfterEpochs(s: State, epochs: seq<seq<Step>>): State
    requires IsEpochs(s, epochs)
    decreases |epochs|
  {
    if epochs == [] then s else AfterEpochs(Sweep(Runs.After(s, epochs[0])), epochs[1..])
  }

  /** However careless the runs were, what a collection leaves is causally closed again. */
  lemma {:induction false} EpochsKeep(s: State, epochs: seq<seq<Step>>)
    requires CausalState(s) && WellSized(s) && !s.failed && IsEpochs(s, epochs)
    ensures CausalState(AfterEpochs(s, epochs)) && WellSized(AfterEpochs(s, epochs)) && !AfterEpochs(s, epochs).failed
    decreases |epochs|
  {
    hide CausalState;
    hide Consistent;
    hide Quiet;
    hide Sweep;
    hide HomesKeep;
    if epochs != [] {
      CausalIsConsistent(s);
      RunKeeps(s, epochs[0]);
      SweepIff(Runs.After(s, epochs[0]));
      EpochsKeep(Sweep(Runs.After(s, epochs[0])), epochs[1..]);
    }
  }
}
