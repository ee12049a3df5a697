/** What `inverse_time_` is at least: a process takes another to know of it all that the other's intervals had seen. */
module InverseTimes {
  import opened Clocks
  import opened Nodes
  import opened Requests
  import opened Systems
  import opened SystemSteps
  import opened Runs
  import opened Causality
  import opened Collection
  import opened Guarantees

  /** Whatever an interval of another process that `x` holds had seen of `x`, `x` takes that process to know. */
  ghost predicate Credited(x: Node) {
    forall q: nat, k: nat :: q < |x.lists| && q < |x.inverse| && q != x.id && k < |x.lists[q]| ==> CreditedFor(x, q, k)
  }

  ghost predicate CreditedFor(x: Node, q: nat, k: nat)
    requires q < |x.lists| && q < |x.inverse| && k < |x.lists[q]|
  {
    x.id < |x.lists[q][k].vt| && x.lists[q][k].vt[x.id] <= x.inverse[q]
  }

  ghost predicate AllCredited(s: State) {
    forall p: nat :: p < |s.nodes| ==> Credited(s.nodes[p])
  }

  lemma SameCredited(x: Node, y: Node)
    requires Credited(x) && SameNews(x, y)
    ensures Credited(y)
  {
    forall q: nat, k: nat | q < |y.lists| && q < |y.inverse| && q != y.id && k < |y.lists[q]| ensures CreditedFor(y, q, k) {
      assert CreditedFor(x, q, k);
    }
  }

  lemma CreateCredited(x: Node, v: seq<nat>)
    requires Credited(x) && x.id < |v| && x.id < |x.clock| && x.id < |x.lists|
    ensures Credited(Create(x, v))
  {
    var y := Create(x, v);
    forall q: nat, k: nat | q < |y.lists| && q < |y.inverse| && q != y.id && k < |y.lists[q]| ensures CreditedFor(y, q, k) {
      assert CreditedFor(x, q, k);
    }
  }

  lemma AbsorbCredited(x: Node, iv: Interval)
    requires Credited(x) && x.id < |x.lists| && iv.id < |x.lists| && iv.id < |x.clock| && iv.id < |iv.vt|
    requires x.id < |iv.vt| && iv.id < |x.inverse|
    ensures Credited(Absorb(x, iv))
  {
    hide Hit;
    var y := Absorb(x, iv);
    forall q: nat, k: nat | q < |y.lists| && q < |y.inverse| && q != y.id && k < |y.lists[q]| ensures CreditedFor(y, q, k) {
      if k < |x.lists[q]| {
        assert CreditedFor(x, q, k);
        assert y.lists[q][k] == x.lists[q][k];
      }
    }
  }

  lemma {:induction false} IncorporateCredited(x: Node, ivs: seq<Interval>, b: Basis)
    requires Credited(x) && Nodes.Sized(x) && Fit(|x.clock|, ivs) && (b.Saved? ==> |b.vt| == |x.clock|)
    ensures Credited(Incorporate(x, ivs, b))
    decreases |ivs|
  {
    hide Credited;
    hide Hit;
    hide Absorb;
    hide Create;
    if ivs != [] {
      var iv := ivs[0];
      if IsNew(x, iv) {
        CreateCredited(x, Base(x, b));
        AbsorbCredited(x, iv);
        CreateSized(x, Base(x, b));
        AbsorbCredited(Create(x, Base(x, b)), iv);
      }
      LearnSized(x, iv, b);
      IncorporateCredited(Learn(x, iv, b), ivs[1..], b);
    }
  }

  lemma LearnSized(x: Node, iv: Interval, b: Basis)
    requires Nodes.Sized(x) && |iv.vt| == |x.clock| && iv.id < |x.clock| && |Base(x, b)| == |x.clock|
    ensures Nodes.Sized(Learn(x, iv, b)) && |Learn(x, iv, b).clock| == |x.clock|
  {
    hide Hit;
  }

  lemma CreateSized(x: Node, v: seq<nat>)
    requires Nodes.Sized(x) && |v| == |x.clock|
    ensures Nodes.Sized(Create(x, v)) && |Create(x, v).clock| == |x.clock| && Create(x, v).id == x.id
  {
  }

  /** What any interval known to `p` had seen of `p` is at most `p`'s own time. */
  lemma SeenAtMostOwn(s: State, p: nat, q: nat, k: nat)
    requires Consistent(s) && p < |s.nodes| && q < |s.nodes| && q < |s.nodes[p].lists| && k < |s.nodes[p].lists[q]|
    ensures p < |s.nodes[p].lists[q][k].vt| && p < |s.nodes[p].clock| && s.nodes[p].lists[q][k].vt[p] <= s.nodes[p].clock[p]
  {
    hide Nodes.Inv;
    hide StatusOk;
    hide MailOk;
    hide InverseOk;
    hide Exclusive;
    assert Prefix(s, p, q) && LaidNode(s, p) && LaidNode(s, q);
    StampBound(s, q, k, p);
  }

  /** Setting an entry to the own time is always enough. */
  lemma ToldCredited(s: State, p: nat, inverse: seq<nat>)
    requires Consistent(s) && p < |s.nodes| && Credited(s.nodes[p]) && |inverse| == |s.nodes| == |s.nodes[p].lists| == |s.nodes[p].inverse| == |s.nodes[p].clock|
    requires forall q: nat :: q < |s.nodes| && q != p ==> inverse[q] == s.nodes[p].inverse[q] || inverse[q] == s.nodes[p].clock[p]
    requires s.nodes[p].id == p
    ensures Credited(s.nodes[p].(inverse := inverse))
  {
    hide Consistent;
    var x := s.nodes[p];
    var y := x.(inverse := inverse);
    forall q: nat, k: nat | q < |y.lists| && q < |y.inverse| && q != y.id && k < |y.lists[q]| ensures CreditedFor(y, q, k) {
      assert CreditedFor(x, q, k);
      SeenAtMostOwn(s, p, q, k);
    }
  }

  lemma CloseCredited(s: State, p: nat)
    requires WellSized(s) && AllCredited(s) && p < |s.nodes|
    ensures AllCredited(CloseAt(s, p))
  {
    hide Credited;
    hide Create;
    assert SizedNode(s, p);
    CreateCredited(s.nodes[p], s.nodes[p].clock);
  }

  lemma PostCredited(s: State, from: nat, p: nat)
    requires Consistent(s) && WellSized(s) && AllCredited(s) && from < |s.nodes| && p < |s.nodes|
    requires s.status[p].Requesting? && |s.status[p].vt| == |s.nodes|
    ensures AllCredited(Post(s, from, p))
  {
    hide Credited;
    hide Consistent;
    hide Missing;
    assert SizedNode(s, from);
    ToldCredited(s, from, s.nodes[from].inverse[p := s.nodes[from].clock[from]]);
  }

  lemma TellCredited(s: State, p: nat)
    requires Consistent(s) && WellSized(s) && AllCredited(s) && p < |s.nodes|
    ensures AllCredited(TellAll(s, p))
  {
    hide Credited;
    hide Consistent;
    assert SizedNode(s, p);
    ToldCredited(s, p, TellAll(s, p).nodes[p].inverse);
  }

  lemma ReceiveCredited(s: State, p: nat, b: Basis)
    requires WellSized(s) && AllCredited(s) && p < |s.nodes| && s.inbox[p].Some? && Fit(|s.nodes|, s.inbox[p].value.ivs)
    requires b.Saved? ==> |b.vt| == |s.nodes|
    ensures AllCredited(Receive(s, p, b))
  {
    hide Credited;
    hide Incorporate;
    assert SizedNode(s, p);
    IncorporateCredited(s.nodes[p], s.inbox[p].value.ivs, b);
  }

  lemma CollectCredited(s: State, p: nat)
    requires WellSized(s) && AllCredited(s) && Enabled(s, Collect(p))
    ensures AllCredited(CollectFrom(s, p))
  {
    hide Credited;
    hide Incorporate;
    assert SizedNode(s, s.status[p].manager);
    IncorporateCredited(s.nodes[s.status[p].manager], s.status[p].ivs, Null);
  }

  lemma TouchCredited(s: State, p: nat, g: nat, write: bool)
    requires Consistent(s) && WellSized(s) && AllCredited(s) && Enabled(s, Touch(p, g, write))
    ensures AllCredited(Apply(s, Touch(p, g, write)))
  {
    hide Consistent;
    hide Credited;
    hide Apply;
    TouchKeeps(s, p, g, write);
    StepSizes(s, Touch(p, g, write));
    forall q: nat | q < |s.nodes| ensures Credited(Apply(s, Touch(p, g, write)).nodes[q]) {
      SameCredited(s.nodes[q], Apply(s, Touch(p, g, write)).nodes[q]);
    }
  }

  lemma LeaveCredited(s: State, p: nat)
    requires Consistent(s) && WellSized(s) && AllCredited(s) && Enabled(s, Leave(p))
    ensures AllCredited(Apply(s, Leave(p)))
  {
    hide Consistent;
    hide AllCredited;
    hide Incorporate;
    LeaverClean(s, p);
    ReceiveKeeps(s, p, Live);
    ReceiveCredited(s, p, Live);
    TellCredited(Receive(s, p, Live), p);
  }

  lemma DepartCredited(s: State, m: nat)
    requires Consistent(s) && WellSized(s) && AllCredited(s) && Enabled(s, Depart(m))
    ensures AllCredited(Apply(s, Depart(m)))
  {
    hide Consistent;
    hide Credited;
    hide Missing;
    ReplyKeeps(s, m);
    TellCredited(Reply(s, m), m);
  }

  lemma GrantCredited(s: State, from: nat, p: nat, close: bool)
    requires Consistent(s) && WellSized(s) && AllCredited(s) && Enabled(s, Grant(from, p, close))
    ensures AllCredited(Apply(s, Grant(from, p, close)))
  {
    hide Consistent;
    hide AllCredited;
    hide Create;
    if close {
      CloseKeeps(s, from);
      CloseCredited(s, from);
    }
    PostCredited(if close then CloseAt(s, from) else s, from, p);
  }

  lemma {:induction false} StepCredited(s: State, step: Step)
    requires Consistent(s) && WellSized(s) && AllCredited(s) && Enabled(s, step)
    ensures AllCredited(Apply(s, step))
  {
    hide Consistent;
    hide AllCredited;
    hide Incorporate;
    hide Create;
    match step
    case Touch(p, g, write) => TouchCredited(s, p, g, write);
    case Request(p) => StatusCredited(s, Apply(s, step));
    case Grant(from, p, close) => GrantCredited(s, from, p, close);
    case Deliver(p) => ReceiveCredited(s, p, Saved(s.status[p].vt));
    case Arrive(p, m) =>
      CloseCredited(s, p);
      StatusCredited(CloseAt(s, p), Apply(s, step));
    case Collect(p) => CollectCredited(s, p);
    case Depart(m) => DepartCredited(s, m);
    case Leave(p) => LeaveCredited(s, p);
  }

  lemma StatusCredited(s: State, t: State)
    requires AllCredited(s) && t.nodes == s.nodes
    ensures AllCredited(t)
  {
  }

  lemma {:induction false} RunCredited(s: State, steps: seq<Step>)
    requires Consistent(s) && WellSized(s) && AllCredited(s) && IsRun(s, steps)
    ensures AllCredited(Runs.After(s, steps))
    decreases |steps|
  {
    hide Consistent;
    hide AllCredited;
    hide Enabled;
    hide Apply;
    if steps != [] {
      StepKeeps(s, steps[0]);
      StepCredited(s, steps[0]);
      RunCredited(Apply(s, steps[0]), steps[1..]);
    }
  }

  lemma {:induction false} EpochsCredited(s: State, epochs: seq<seq<Step>>)
    requires AllCredited(s) && IsEpochs(s, epochs)
    ensures AllCredited(AfterEpochs(s, epochs))
    decreases |epochs|
  {
    hide AllCredited;
    hide Quiet;
    hide Sweep;
    hide HomesKeep;
    if epochs != [] {
      SweepCredited(Runs.After(s, epochs[0]));
      EpochsCredited(Sweep(Runs.After(s, epochs[0])), epochs[1..]);
    }
  }

  lemma SweepCredited(s: State)
    requires WellSized(s)
    ensures AllCredited(Sweep(s))
  {
    hide NewHome;
    hide KeepersServed;
    hide StateAfterSweep;
  }

  lemma InitCredited(n: nat, home: seq<nat>)
    ensures AllCredited(Init(n, home))
  {
  }

  /** In every reachable state `inverse_time_` is between what the other process's intervals, as far as they are known,
      had seen and what the other has been told. */
  lemma {:induction false} InverseBetween(s: State, p: nat, q: nat, k: nat)
    requires Reachable(s) && p < |s.nodes| && q < |s.nodes| && p != q
    requires q < |s.nodes[p].lists| && k < |s.nodes[p].lists[q]|
    ensures WellSized(s) && SizedNode(s, p) && SizedNode(s, q) && p < |s.nodes[p].lists[q][k].vt|
    ensures s.nodes[p].lists[q][k].vt[p] <= s.nodes[p].inverse[q] <= Told(s, q, p)
  {
    hide Consistent;
    hide CausalState;
    hide Collected;
    hide Told;
    InverseNeverAhead(s, p, q);
    var t: State, steps: seq<Step> :| Collected(t) && Leads(t, steps, s);
    CollectedCausal(t);
    CausalIsConsistent(t);
    CollectedCredited(t);
    RunCredited(t, steps);
    assert Credited(s.nodes[p]);
    assert s.nodes[p].id == p && CreditedFor(s.nodes[p], q, k);
  }

  lemma CollectedCredited(t: State)
    requires Collected(t)
    ensures AllCredited(t)
  {
    hide AllCredited;
    hide IsEpochs;
    hide AfterEpochs;
    var n: nat, home: seq<nat>, epochs: seq<seq<Step>> :| CollectedBy(n, home, epochs, t);
    InitCredited(n, home);
    EpochsCredited(Init(n, home), epochs);
  }
}
