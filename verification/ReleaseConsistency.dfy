/** What the protocol is for: whoever acquires a lock knows of every page that the process granting it had
    written before it released the lock. */
module ReleaseConsistency {
  import opened Clocks
  import opened Nodes
  import opened Requests
  import opened Systems
  import opened SystemSteps
  import opened Runs
  import opened Causality
  import opened Collection
  import opened Guarantees

  /** The pages that were dirty stay dirty until an interval is closed, and the first interval closed names
      them all. */
  ghost predicate Kept(x: Node, y: Node) {
    && y.id == x.id && x.id < |x.lists| && x.id < |y.lists| && x.lists[x.id] <= y.lists[x.id]
    && (|y.lists[x.id]| == |x.lists[x.id]| ==> x.dirty <= y.dirty)
    && (|y.lists[x.id]| > |x.lists[x.id]| ==> x.dirty <= y.lists[x.id][|x.lists[x.id]|].pages)
    && |y.lists| == |x.lists| && forall i :: 0 <= i < |x.lists| ==> |x.lists[i]| <= |y.lists[i]|
  }

  lemma KeptTransitive(x: Node, y: Node, z: Node)
    requires Kept(x, y) && Kept(y, z)
    ensures Kept(x, z)
  {
    var k := |x.lists[x.id]|;
    assert |y.lists[x.id]| > k ==> y.lists[x.id][k] == z.lists[x.id][k];
  }

  lemma CreateKept(x: Node, v: seq<nat>)
    requires x.id < |v| && x.id < |x.clock| && x.id < |x.lists|
    ensures Kept(x, Create(x, v))
  {
  }

  lemma OwnPartKept(x: Node, y: Node, b: Basis)
    requires OwnPart(x, y, b) && |y.lists| == |x.lists| && forall i :: 0 <= i < |x.lists| ==> |x.lists[i]| <= |y.lists[i]|
    ensures Kept(x, y)
  {
  }

  lemma SameKept(x: Node, y: Node)
    requires y.id == x.id < |x.lists| && y.lists == x.lists && x.dirty <= y.dirty
    ensures Kept(x, y)
  {
  }

  lemma {:induction false} FaultKept(s: State, p: nat, g: nat, write: bool, asks: seq<Ask>, q: nat)
    requires Consistent(s) && WellSized(s) && p < |s.nodes| && g < |s.home| && Given(s, p, g, asks)
    requires forall k :: 0 <= k < |asks| ==> asks[k].server < |s.nodes|
    requires q < |s.nodes|
    ensures q < |Fault(s, p, g, write, asks)| && Kept(s.nodes[q], Fault(s, p, g, write, asks)[q])
  {
    hide Consistent;
    hide Given;
    hide ServeAll;
    hide Nodes.Inv;
    FaultEffect(s, p, g, write, asks);
    var x := s.nodes[p];
    assert SizedNode(s, q) && SizedNode(s, p);
    if q == p && x.state[g] != Private && x.state[g] != Valid {
      AllServed(s, p, g, asks);
    }
    SameKept(s.nodes[q], Fault(s, p, g, write, asks)[q]);
  }

  lemma TouchKept(s: State, p: nat, g: nat, write: bool, q: nat)
    requires Consistent(s) && WellSized(s) && Enabled(s, Touch(p, g, write)) && q < |s.nodes|
    ensures q < |Apply(s, Touch(p, g, write)).nodes| && Kept(s.nodes[q], Apply(s, Touch(p, g, write)).nodes[q])
  {
    hide Consistent;
    hide Given;
    hide Fault;
    hide Kept;
    WantedGiven(s, p, g);
    assert SizedNode(s, q);
    if AllAnswered(s.nodes, Wanted(s.nodes[p], g)) {
      FaultKept(s, p, g, write, Wanted(s.nodes[p], g), q);
    } else {
      SameKept(s.nodes[q], s.nodes[q]);
    }
  }

  lemma {:induction false} StepKept(s: State, step: Step, q: nat)
    requires Consistent(s) && WellSized(s) && Enabled(s, step) && q < |s.nodes|
    ensures q < |Apply(s, step).nodes| && Kept(s.nodes[q], Apply(s, step).nodes[q])
  {
    hide Consistent;
    hide AllAnswered;
    hide Fault;
    hide Incorporate;
    hide Missing;
    hide Create;
    hide Kept;
    hide Nodes.Inv;
    assert SizedNode(s, q);
    SameKept(s.nodes[q], s.nodes[q]);
    match step
    case Touch(p, g, write) => TouchKept(s, p, g, write, q);
    case Request(p) =>
    case Grant(from, p, close) => GrantKept(s, from, p, close, q);
    case Deliver(p) =>
      RequesterReady(s, p);
      ReceiveKept(s, p, Saved(s.status[p].vt), q);
    case Arrive(p, m) => CloseKept(s, p, q);
    case Collect(p) => CollectKept(s, p, q);
    case Depart(m) => TellKept(Reply(s, m), m, q);
    case Leave(p) =>
      LeaverClean(s, p);
      ReceiveKept(s, p, Live, q);
      TellKept(Receive(s, p, Live), p, q);
      KeptTransitive(s.nodes[q], Receive(s, p, Live).nodes[q], Apply(s, step).nodes[q]);
  }

  lemma CloseKept(s: State, p: nat, q: nat)
    requires WellSized(s) && p < |s.nodes| && q < |s.nodes|
    ensures Kept(s.nodes[q], CloseAt(s, p).nodes[q])
  {
    hide Create;
    assert SizedNode(s, q) && SizedNode(s, p);
    CreateKept(s.nodes[p], s.nodes[p].clock);
    SameKept(s.nodes[q], s.nodes[q]);
  }

  lemma TellKept(s: State, p: nat, q: nat)
    requires WellSized(s) && p < |s.nodes| && q < |s.nodes|
    ensures Kept(s.nodes[q], TellAll(s, p).nodes[q])
  {
    assert SizedNode(s, q);
  }

  lemma GrantKept(s: State, from: nat, p: nat, close: bool, q: nat)
    requires WellSized(s) && Enabled(s, Grant(from, p, close)) && q < |s.nodes|
    ensures Kept(s.nodes[q], Apply(s, Grant(from, p, close)).nodes[q])
  {
    hide Create;
    hide Missing;
    hide Kept;
    hide CloseAt;
    assert SizedNode(s, q);
    SameKept(s.nodes[q], s.nodes[q]);
    CloseKept(s, from, q);
    var t := if close then CloseAt(s, from) else s;
    assert SizedNode(t, q);
    SameKept(t.nodes[q], Post(t, from, p).nodes[q]);
    KeptTransitive(s.nodes[q], t.nodes[q], Post(t, from, p).nodes[q]);
  }

  lemma ReceiveKept(s: State, p: nat, b: Basis, q: nat)
    requires Consistent(s) && WellSized(s) && p < |s.nodes| && s.inbox[p].Some? && Ready(s.nodes[p], b) && q < |s.nodes|
    requires b.Saved? ==> |b.vt| == |s.nodes|
    ensures Fit(|s.nodes|, s.inbox[p].value.ivs) && Kept(s.nodes[q], Receive(s, p, b).nodes[q])
  {
    hide Nodes.Inv;
    hide Exclusive;
    hide StatusOk;
    hide MailOk;
    hide InverseOk;
    hide Incorporate;
    hide Kept;
    hide Cut;
    ReceiveMerges(s, p, b);
    assert SizedNode(s, q) && SizedNode(s, p);
    SameKept(s.nodes[q], s.nodes[q]);
    if q == p {
      forall i: nat | i < |s.nodes| ensures |s.nodes[p].lists[i]| <= |Receive(s, p, b).nodes[p].lists[i]| {
        MergedLists(s, p, Receive(s, p, b).nodes[p], s.inbox[p].value.sent, b, i);
      }
      MergedLists(s, p, Receive(s, p, b).nodes[p], s.inbox[p].value.sent, b, p);
      OwnPartKept(s.nodes[p], Receive(s, p, b).nodes[p], b);
    }
  }

  lemma CollectKept(s: State, p: nat, q: nat)
    requires Consistent(s) && WellSized(s) && Enabled(s, Collect(p)) && q < |s.nodes|
    ensures Kept(s.nodes[q], CollectFrom(s, p).nodes[q])
  {
    hide Consistent;
    hide Incorporate;
    hide Kept;
    CollectTakes(s, p);
    CollectLater(s, p);
    assert SizedNode(s, q) && SizedNode(s, s.status[p].manager);
    SameKept(s.nodes[q], s.nodes[q]);
    LaterNow(s, CollectFrom(s, p));
    assert LaidNode(CollectFrom(s, p), s.status[p].manager);
    var m := s.status[p].manager;
    OwnPartKept(s.nodes[m], CollectFrom(s, p).nodes[m], Null);
  }

  lemma {:induction false} RunKept(s: State, steps: seq<Step>, q: nat)
    requires Consistent(s) && WellSized(s) && IsRun(s, steps) && q < |s.nodes|
    ensures q < |Runs.After(s, steps).nodes| && Kept(s.nodes[q], Runs.After(s, steps).nodes[q])
    decreases |steps|
  {
    hide Consistent;
    hide Enabled;
    hide Apply;
    hide Kept;
    if steps == [] {
      assert SizedNode(s, q);
      SameKept(s.nodes[q], s.nodes[q]);
    } else {
      StepKeeps(s, steps[0]);
      StepKept(s, steps[0], q);
      var t := Apply(s, steps[0]);
      RunKept(t, steps[1..], q);
      KeptTransitive(s.nodes[q], t.nodes[q], Runs.After(s, steps).nodes[q]);
    }
  }

  // ---------------------------------------------------------------- what a grant brings

  /** A request waits with the vector it was made with until its grant is taken. */
  lemma {:induction false} RequestStays(s: State, step: Step, p: nat)
    requires WellSized(s) && Enabled(s, step) && p < |s.nodes| && s.status[p].Requesting? && step != Deliver(p)
    ensures p < |Apply(s, step).status| && Apply(s, step).status[p] == s.status[p]
  {
    hide Incorporate;
    hide Missing;
    hide Create;
    hide Fault;
    hide AllAnswered;
    hide Wanted;
  }

  lemma {:induction false} RunRequestStays(s: State, steps: seq<Step>, p: nat)
    requires Consistent(s) && WellSized(s) && IsRun(s, steps) && p < |s.nodes| && s.status[p].Requesting? && Deliver(p) !in steps
    ensures p < |Runs.After(s, steps).status| && Runs.After(s, steps).status[p] == s.status[p]
    decreases |steps|
  {
    hide Consistent;
    hide Enabled;
    hide Apply;
    if steps != [] {
      StepKeeps(s, steps[0]);
      RequestStays(s, steps[0], p);
      RunRequestStays(Apply(s, steps[0]), steps[1..], p);
    }
  }

  /** A process asks for a lock; whenever it is granted, it is sent exactly the intervals that the granting process has
      and it lacked when it asked. */
  lemma {:induction false} GrantBrings(s: State, p: nat, steps: seq<Step>, t: State, from: nat, close: bool)
    requires Reachable(s) && WellSized(s) && Enabled(s, Request(p))
    requires Leads(Apply(s, Request(p)), steps, t) && Deliver(p) !in steps && WellSized(t) && Enabled(t, Grant(from, p, close))
    ensures var u := Apply(t, Grant(from, p, close));
            && p < |s.nodes| && from < |u.nodes| && p < |u.inbox| && u.inbox[p].Some? && |s.nodes[p].clock| == |u.nodes[from].lists|
            && u.inbox[p].value.ivs == Missing(u.nodes[from].lists, s.nodes[p].clock)
            && u.inbox[p].value.sent == u.nodes[from].clock
  {
    hide Consistent;
    hide IsRun;
    hide Runs.After;
    hide Missing;
    ReachableConsistent(s);
    StepKeeps(s, Request(p));
    var r := Apply(s, Request(p));
    RunKeeps(r, steps);
    RunRequestStays(r, steps, p);
    assert SizedNode(s, p) && SizedNode(t, from);
  }

  // ---------------------------------------------------------------- acquiring after a release

  /** The time of the notice that stands for the latest writes to a page with a twin: the one still to be
      made if the page is dirty, else the newest one, whose diff is still to be made. */
  function OpenTime(x: Node, g: nat): nat
    requires x.id < |x.lists|
  {
    if g in x.dirty then |x.lists[x.id]| + 1 else Newest(x.lists[x.id], g)
  }

  /** Process `p` may grant in `t` a lock it released in `s`: it closes an interval at the grant unless it
      has closed one since the release. */
  ghost predicate GrantsAfter(s: State, t: State, p: nat, q: nat, close: bool)
    requires WellSized(s) && WellSized(t)
  {
    && Enabled(t, Grant(p, q, close)) && p < |s.nodes| && SizedNode(s, p) && SizedNode(t, p)
    && (close || t.nodes[p].clock[p] != s.nodes[p].clock[p])
  }

  /** The grant contains the notices of all that was written before the release. */
  lemma {:induction false} GrantCovers(s: State, steps: seq<Step>, t: State, p: nat, q: nat, close: bool)
    requires Consistent(s) && WellSized(s) && Leads(s, steps, t) && WellSized(t) && GrantsAfter(s, t, p, q, close)
    ensures var u := Apply(t, Grant(p, q, close));
            && p < |u.nodes| && Kept(s.nodes[p], u.nodes[p])
            && (s.nodes[p].dirty != {} ==> |u.nodes[p].lists[p]| > |s.nodes[p].lists[p]|)
            && q < |u.inbox| && u.inbox[q].Some? && u.inbox[q].value.sent == u.nodes[p].clock
  {
    hide Missing;
    hide Nodes.Inv;
    hide IsRun;
    hide Runs.After;
    hide Prefixes;
    hide Exclusive;
    hide StatusOk;
    hide MailOk;
    hide InverseOk;
    hide Owned;
    RunKeeps(s, steps);
    RunKept(s, steps, p);
    assert LaidNode(s, p) && LaidNode(t, p);
    StepKept(t, Grant(p, q, close), p);
    KeptTransitive(s.nodes[p], t.nodes[p], Apply(t, Grant(p, q, close)).nodes[p]);
  }

  lemma {:induction false} DeliverCovers(s: State, q: nat)
    requires Consistent(s) && WellSized(s) && Enabled(s, Deliver(q))
    ensures var t := Apply(s, Deliver(q));
            && Consistent(t) && WellSized(t) && q < |t.nodes| && |s.inbox[q].value.sent| == |t.nodes[q].clock| == |t.nodes[q].lists|
            && forall i: nat :: i < |t.nodes[q].clock| ==> s.inbox[q].value.sent[i] <= |t.nodes[q].lists[i]| == t.nodes[q].clock[i]
  {
    hide Nodes.Inv;
    hide Exclusive;
    hide StatusOk;
    hide MailOk;
    hide InverseOk;
    hide Incorporate;
    hide Cut;
    RequesterReady(s, q);
    StepKeeps(s, Deliver(q));
    ReceiveMerges(s, q, Saved(s.status[q].vt));
    var t := Apply(s, Deliver(q));
    assert LaidNode(t, q) && LaidNode(s, q);
    forall i: nat | i < |s.nodes| ensures s.inbox[q].value.sent[i] <= |t.nodes[q].lists[i]| {
      MergedLists(s, q, t.nodes[q], s.inbox[q].value.sent, Saved(s.status[q].vt), i);
    }
  }

  /** What the granting process knew at the release, the receiver knows at last. */
  lemma KnownAtLast(s: State, u: State, z: State, p: nat, q: nat)
    requires Consistent(s) && Consistent(u) && Consistent(z) && |s.nodes| == |u.nodes| == |z.nodes| && p < |s.nodes| && q < |z.nodes|
    requires Kept(s.nodes[p], u.nodes[p])
    requires |z.nodes[q].clock| == |u.nodes[p].clock| && forall i: nat :: i < |z.nodes[q].clock| ==> u.nodes[p].clock[i] <= z.nodes[q].clock[i]
    ensures |s.nodes[p].clock| == |z.nodes[q].clock| == |s.nodes|
    ensures forall i: nat :: i < |s.nodes| ==> s.nodes[p].clock[i] <= z.nodes[q].clock[i]
  {
    hide Nodes.Inv;
    assert LaidNode(s, p) && LaidNode(u, p) && LaidNode(z, q);
  }

  lemma OpenNotice(s: State, z: State, p: nat, q: nat, g: nat)
    requires Consistent(s) && Consistent(z) && |s.nodes| == |z.nodes| && p < |s.nodes| && q < |s.nodes| && p != q
    requires s.home == z.home && g in s.nodes[p].twins && Kept(s.nodes[p], z.nodes[p])
    requires p < |z.nodes[q].lists| && |s.nodes[p].lists[p]| <= |z.nodes[q].lists[p]|
    requires s.nodes[p].dirty != {} ==> |s.nodes[p].lists[p]| < |z.nodes[q].lists[p]|
    ensures s.nodes[p].id == p
    ensures var open := Mark(g, p, OpenTime(s.nodes[p], g));
            && Noticed(z.nodes[q], g, p, open.time)
            && (forall r: nat :: r < |s.nodes| ==> open !in s.nodes[r].diffs)
            && (g < |z.nodes[q].state| && z.nodes[q].state[g] == Valid ==> open in z.nodes[q].diffs)
  {
    hide Nodes.Inv;
    hide Exclusive;
    hide StatusOk;
    hide MailOk;
    hide InverseOk;
    assert LaidNode(s, p) && LaidNode(z, p) && LaidNode(z, q) && Prefix(z, q, p);
    var x := s.nodes[p];
    var t := OpenTime(x, g);
    StillOpen(|s.nodes|, |s.home|, x, g);
    assert Noticed(z.nodes[q], g, p, t);
    NotValidHere(|z.nodes|, |z.home|, z.nodes[q], g, p, t);
  }

  lemma StillOpen(n: nat, np: nat, x: Node, g: nat)
    requires Nodes.Inv(n, np, x) && g in x.twins
    ensures g < np && Mark(g, x.id, OpenTime(x, g)) !in x.diffs && OpenTime(x, g) > 0
    ensures g !in x.dirty ==> Noticed(x, g, x.id, OpenTime(x, g))
  {
    hide CanServe;
    hide OldestDiffed;
    hide TwinSees;
    hide InvalidNoticed;
    assert !Noticed(x, g, x.id, |x.lists[x.id]| + 1);
  }

  /** Some notice of `p` stands for what it had written to the page in `b`: nobody had its diff then, `q` knows it in
      `z`, and so has its diff if its copy is valid. */
  ghost predicate KnowsWrite(b: State, z: State, p: nat, q: nat, g: nat, time: nat)
    requires q < |z.nodes|
  {
    && Noticed(z.nodes[q], g, p, time)
    && (forall r: nat :: r < |b.nodes| ==> Mark(g, p, time) !in b.nodes[r].diffs)
    && (g < |z.nodes[q].state| && z.nodes[q].state[g] == Valid ==> Mark(g, p, time) in z.nodes[q].diffs)
  }

  /** A write that does not fail leaves the page with a twin, unless nobody else has a copy. */
  lemma {:induction false} WriteIsTracked(a: State, p: nat, g: nat)
    requires Consistent(a) && WellSized(a) && Enabled(a, Touch(p, g, true)) && !Apply(a, Touch(p, g, true)).failed
    ensures var b := Apply(a, Touch(p, g, true));
            && p < |b.nodes| && p < |a.nodes| && g < |a.nodes[p].state|
            && (a.nodes[p].state[g] != Private ==> g in b.nodes[p].twins)
            && (a.nodes[p].state[g] == Private ==>
                  forall r: nat :: r < |a.nodes| && r != p && g < |a.nodes[r].state| ==> a.nodes[r].state[g] == Empty)
  {
    hide Nodes.Inv;
    hide Prefixes;
    hide StatusOk;
    hide MailOk;
    hide InverseOk;
    hide Fault;
    hide RequestsFor;
    TouchEffect(a, p, g, true);
    assert PageOk(a, p, g);
  }

  /** What follows a write: `p` releases a lock in `s`, grants it to `q`, which receives it, with anything between. */
  ghost predicate Passed(b: State, before: seq<Step>, s: State, steps: seq<Step>, t: State, p: nat, q: nat, close: bool,
                         more: seq<Step>, w: State)
  {
    && WellSized(b) && Leads(b, before, s) && WellSized(s) && Leads(s, steps, t) && WellSized(t) && GrantsAfter(s, t, p, q, close)
    && var u := Apply(t, Grant(p, q, close));
       Leads(u, more, w) && WellSized(w) && Enabled(w, Deliver(q)) && q < |u.inbox| && w.inbox[q] == u.inbox[q]
  }

  /** The lists grow from the write to the receipt. */
  lemma {:induction false} PassedOn(b: State, before: seq<Step>, s: State, steps: seq<Step>, t: State, p: nat, q: nat, close: bool,
                                    more: seq<Step>, w: State)
    requires Consistent(b) && Passed(b, before, s, steps, t, p, q, close, more, w)
    ensures var z := Apply(w, Deliver(q));
            && Consistent(z) && WellSized(z) && |s.nodes| == |z.nodes| == |b.nodes| && z.home == b.home && p < |b.nodes| && q < |b.nodes| && p != q
            && Kept(b.nodes[p], z.nodes[p]) && SizedNode(z, q) && SizedNode(s, p) && SizedNode(b, p)
            && (forall i: nat :: i < |s.nodes| ==> s.nodes[p].clock[i] <= z.nodes[q].clock[i])
            && |b.nodes[p].lists[p]| <= |z.nodes[q].lists[p]|
            && (b.nodes[p].dirty != {} ==> |b.nodes[p].lists[p]| < |z.nodes[q].lists[p]|)
  {
    hide Consistent;
    hide Nodes.Inv;
    hide IsRun;
    hide Runs.After;
    hide Apply;
    hide AllAnswered;
    var u := Apply(t, Grant(p, q, close));
    RunKeeps(b, before);
    RunKeeps(s, steps);
    assert p < |s.nodes| && p != q && q < |t.nodes|;
    RunKept(b, before, p);
    StepKeeps(t, Grant(p, q, close));
    RunKeeps(u, more);
    GrantCovers(s, steps, t, p, q, close);
    RunKept(u, more, p);
    DeliverCovers(w, q);
    StepKeeps(w, Deliver(q));
    StepKept(w, Deliver(q), p);
    var z := Apply(w, Deliver(q));
    KeptTransitive(u.nodes[p], w.nodes[p], z.nodes[p]);
    KeptTransitive(s.nodes[p], u.nodes[p], z.nodes[p]);
    KeptTransitive(b.nodes[p], s.nodes[p], z.nodes[p]);
    KnownAtLast(s, u, z, p, q);
    SentLists(u, p);
    assert SizedNode(b, p) && SizedNode(s, p) && SizedNode(z, q);
  }

  /** Release consistency. Process `p` writes page `g`; later it releases a lock in `s`, later grants the lock to `q`,
      and later still `q` takes the grant. Then `q` has seen all that `p` had seen at the release, and unless `p` had
      the only copy at the write, `q` knows a notice whose diff nobody had when the write was done: so `q` cannot use
      a copy without that write. */
  lemma {:induction false} AcquirerKnows(a: State, g: nat, before: seq<Step>, s: State, steps: seq<Step>, t: State,
                                         p: nat, q: nat, close: bool, more: seq<Step>, w: State)
    requires Reachable(a) && WellSized(a) && Enabled(a, Touch(p, g, true)) && !Apply(a, Touch(p, g, true)).failed
    requires Passed(Apply(a, Touch(p, g, true)), before, s, steps, t, p, q, close, more, w)
    ensures var b, z := Apply(a, Touch(p, g, true)), Apply(w, Deliver(q));
            && q < |z.nodes| && p < |s.nodes| == |z.nodes| && WellSized(z) && SizedNode(z, q) && SizedNode(s, p)
            && (forall i: nat :: i < |s.nodes| ==> s.nodes[p].clock[i] <= z.nodes[q].clock[i])
            && p < |a.nodes| && g < |a.nodes[p].state|
            && (a.nodes[p].state[g] != Private ==> exists time: nat :: KnowsWrite(b, z, p, q, g, time))
            && (a.nodes[p].state[g] == Private ==>
                  forall r: nat :: r < |a.nodes| && r != p && g < |a.nodes[r].state| ==> a.nodes[r].state[g] == Empty)
  {
    hide Consistent;
    hide Nodes.Inv;
    hide Apply;
    hide Enabled;
    hide Kept;
    hide Leads;
    hide GrantsAfter;
    hide KnowsWrite;
    ReachableConsistent(a);
    WriteIsTracked(a, p, g);
    StepKeeps(a, Touch(p, g, true));
    var b, z := Apply(a, Touch(p, g, true)), Apply(w, Deliver(q));
    PassedOn(b, before, s, steps, t, p, q, close, more, w);
    if a.nodes[p].state[g] != Private {
      OpenNotice(b, z, p, q, g);
      OpenIsKnown(b, z, p, q, g, OpenTime(b.nodes[p], g));
    }
  }

  lemma OpenIsKnown(b: State, z: State, p: nat, q: nat, g: nat, time: nat)
    requires q < |z.nodes| && Noticed(z.nodes[q], g, p, time)
    requires forall r: nat :: r < |b.nodes| ==> Mark(g, p, time) !in b.nodes[r].diffs
    requires g < |z.nodes[q].state| && z.nodes[q].state[g] == Valid ==> Mark(g, p, time) in z.nodes[q].diffs
    ensures KnowsWrite(b, z, p, q, g, time)
  {
  }

  lemma SentLists(u: State, p: nat)
    requires Consistent(u) && p < |u.nodes|
    ensures p < |u.nodes[p].lists| && p < |u.nodes[p].clock| && u.nodes[p].clock[p] == |u.nodes[p].lists[p]|
  {
    hide Nodes.Inv;
    assert LaidNode(u, p);
  }
}
