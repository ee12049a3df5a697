/** Runs that break causal closure: the manager of a barrier, having collected one arrival, grants a lock. Process 1
    had seen an interval of process 2; the manager 0 is sent only process 1's own interval, passes it on to
    process 3, and the interval process 3 then makes counts process 1's but not the one of process 2 that came
    before it. All three wrote the same page. After the barrier a fetch of that page asks process 3 for a diff that
    it cannot give, and a collection has everybody name process 1 the manager of a page it discards. */
module LateGrant {
  import opened Clocks
  import opened Nodes
  import opened Requests
  import opened Systems
  import opened SystemSteps
  import opened Runs
  import opened Causality
  import opened ManagerChoice
  import opened Collection
  import opened Guarantees
  import opened LateGrantSteps

  lemma Start()
    ensures Init(4, HOME) == S0 && Homes(4, HOME)
  {
    assert Fresh(4, HOME, 0) == A0;
    assert Fresh(4, HOME, 1) == B0;
    assert Fresh(4, HOME, 2) == C0;
    assert Fresh(4, HOME, 3) == D0;
  }

  const STEPS: seq<Step> := [
    Request(2), Grant(0, 2, true), Deliver(2), Touch(2, 0, true),
    Request(1), Grant(2, 1, true), Deliver(1), Touch(1, 0, true), Arrive(1, 0),
    Arrive(0, 0), Collect(1), Request(3), Grant(0, 3, false),
    Deliver(3), Touch(3, 0, true), Arrive(3, 0),
    Arrive(2, 0), Collect(3), Collect(2), Depart(0), Leave(3), Leave(1), Leave(2)]

  /** The steps from `k` up to `to` lead from `s` to `z`. */
  ghost predicate Part(k: nat, to: nat, s: State, z: State) {
    k <= to <= |STEPS| && IsRun(s, STEPS[k..to]) && Runs.After(s, STEPS[k..to]) == z
  }

  lemma Nothing(k: nat, s: State)
    requires k <= |STEPS|
    ensures Part(k, k, s, s)
  {
  }

  lemma Link(k: nat, to: nat, s: State, t: State, z: State)
    requires k < |STEPS| && WellSized(s) && Enabled(s, STEPS[k]) && Apply(s, STEPS[k]) == t && Part(k + 1, to, t, z)
    ensures Part(k, to, s, z)
  {
    hide Enabled;
    hide Apply;
    hide WellSized;
    assert STEPS[k..to][0] == STEPS[k];
    assert STEPS[k..to][1..] == STEPS[k + 1..to];
  }

  lemma {:induction false} UpToNine(to: nat, z: State)
    requires Part(9, to, S9, z)
    ensures Part(0, to, S0, z)
  {
    hide Enabled;
    hide Apply;
    hide WellSized;
    hide Part;
    Step9(); Link(8, to, S8, S9, z);
    Step8(); Link(7, to, S7, S8, z);
    Step7(); Link(6, to, S6, S7, z);
    Step6(); Link(5, to, S5, S6, z);
    Step5(); Link(4, to, S4, S5, z);
    Step4(); Link(3, to, S0, S4, z);
    Step3(); Link(2, to, S2, S0, z);
    Step2(); Link(1, to, S1, S2, z);
    Step1(); Link(0, to, S0, S1, z);
  }

  lemma {:induction false} UpToSixteen(to: nat, z: State)
    requires Part(16, to, S16, z)
    ensures Part(9, to, S9, z)
  {
    hide Enabled;
    hide Apply;
    hide WellSized;
    hide Part;
    Step16(); Link(15, to, S15, S16, z);
    Step15(); Link(14, to, S14, S15, z);
    Step14(); Link(13, to, S13, S14, z);
    Step13(); Link(12, to, S12, S13, z);
    Step12(); Link(11, to, S11, S12, z);
    Step11(); Link(10, to, S10, S11, z);
    Step10(); Link(9, to, S9, S10, z);
  }

  lemma {:induction false} UpToTwentyOne(to: nat, z: State)
    requires Part(21, to, S21, z)
    ensures Part(16, to, S16, z)
  {
    hide Enabled;
    hide Apply;
    hide WellSized;
    hide Part;
    Step21(); Link(20, to, S20, S21, z);
    Step20(); Link(19, to, S19, S20, z);
    Step19(); Link(18, to, S18, S19, z);
    Step18(); Link(17, to, S17, S18, z);
    Step17(); Link(16, to, S16, S17, z);
  }

  lemma {:induction false} UpToTheEnd()
    ensures Part(21, 23, S21, S23)
  {
    hide Enabled;
    hide Apply;
    hide WellSized;
    hide Part;
    Nothing(23, S23);
    Step23(); Link(22, 23, S22, S23, S23);
    Step22(); Link(21, 23, S21, S22, S23);
  }

  lemma PartIsReachable(to: nat, z: State)
    requires Part(0, to, S0, z)
    ensures Reachable(z) && Leads(S0, STEPS[..to], z)
  {
    hide IsRun;
    hide Runs.After;
    Start();
    assert CollectedBy(4, HOME, [], S0);
    assert STEPS[0..to] == STEPS[..to];
    assert Leads(S0, STEPS[..to], z);
  }

  lemma {:induction false} AllReachable()
    ensures Reachable(S16) && Reachable(S21) && Reachable(S23) && Leads(S0, STEPS[..21], S21)
  {
    hide Part;
    hide Reachable;
    hide Leads;
    Nothing(16, S16);
    UpToSixteen(16, S16);
    UpToNine(16, S16);
    PartIsReachable(16, S16);
    Nothing(21, S21);
    UpToTwentyOne(21, S21);
    UpToSixteen(21, S21);
    UpToNine(21, S21);
    PartIsReachable(21, S21);
    UpToTheEnd();
    UpToTwentyOne(23, S23);
    UpToSixteen(23, S23);
    UpToNine(23, S23);
    PartIsReachable(23, S23);
  }

  /** The stamps of a reachable state need not be causally closed. */
  lemma {:induction false} NotAlwaysCausal()
    ensures Reachable(S16) && !Causal(4, Stamps(S16))
  {
    hide Reachable;
    AllReachable();
    var a, b := Stamp(1, I1.vt), Stamp(3, I3.vt);
    assert S16.nodes[1].lists[1][0] == I1 && S16.nodes[3].lists[3][0] == I3;
    assert a in Stamps(S16) && b in Stamps(S16) && Precedes(a, b);
    assert a.vt[2] > b.vt[2];
  }

  /** A fetch can fail: process 0 reads the page after the barrier, packs the three notices into one request, to
      process 3, and that has neither the diff of process 2 nor a twin. */
  lemma {:induction false} FetchCanFail()
    ensures Reachable(S21) && !S21.failed && WellSized(S21) && Enabled(S21, Touch(0, 0, false))
    ensures Reachable(Apply(S21, Touch(0, 0, false))) && Apply(S21, Touch(0, 0, false)).failed
  {
    hide Reachable;
    hide Apply;
    hide Enabled;
    AllReachable();
    FetchFails();
    Start();
    assert CollectedBy(4, HOME, [], S0);
    OneMore(S0, STEPS[..21], S21, Touch(0, 0, false));
  }

  lemma OneMore(t: State, steps: seq<Step>, s: State, step: Step)
    requires Collected(t) && Leads(t, steps, s) && WellSized(s) && Enabled(s, step)
    ensures Reachable(Apply(s, step))
  {
    hide Collected;
    hide Enabled;
    hide Apply;
    Extend(t, steps, step);
    assert Leads(t, steps + [step], Apply(s, step));
  }

  /** A collection can lose a page: everybody has left the barrier and names process 1 the manager, which has a copy
      that is not valid and discards it. */
  lemma {:induction false} PageCanBeLost()
    ensures Reachable(S23) && Quiet(S23) && !S23.failed && WellSized(S23)
    ensures Sweep(S23).home == [1] && Sweep(S23).nodes[1].state == [Empty] && !Consistent(Sweep(S23))
    ensures forall p: nat :: p < 4 ==> NewHome(S23.nodes[p], 0, 1) == 1
  {
    hide Reachable;
    hide Consistent;
    hide KeepersServed;
    AllReachable();
    ReachableConsistent(S23);
    Chosen(S23);
    NotKept();
    assert !HomeKeeps(S23, 0);
    SweepIff(S23);
    assert Sweep(S23).home == [1];
    assert Sweep(S23).nodes[1].state == [Empty];
  }

  lemma Chosen(s: State)
    requires s == S23
    ensures Latest(A3, 0) == Latest(B6, 0) == [None, Some(Stamp(1, I1.vt)), Some(Stamp(2, I2.vt)), Some(Stamp(3, I3.vt))]
    ensures forall p: nat :: p < 4 ==> Best(Latest(s.nodes[p], 0), 4) == Some(Stamp(1, I1.vt))
  {
    assert Newest([], 0) == 0;
    assert [I1][..0] == [] && Newest([I1], 0) == 1 && Newest([I2], 0) == 1 && Newest([I3], 0) == 1;
    var l := [None, Some(Stamp(1, I1.vt)), Some(Stamp(2, I2.vt)), Some(Stamp(3, I3.vt))];
    assert Latest(A3, 0) == Latest(B6, 0) == Latest(C4, 0) == Latest(D4, 0) == l;
    assert Best(l, 1) == None;
    assert Best(l, 2) == l[1];
    assert !AtMost(I1.vt, I2.vt) by { assert I1.vt[1] > I2.vt[1]; }
    assert Best(l, 3) == l[1];
    assert !AtMost(I1.vt, I3.vt) by { assert I1.vt[2] > I3.vt[2]; }
    assert Best(l, 4) == l[1];
  }

  lemma NotKept()
    ensures !Unseen(Latest(B6, 0), 1, 1) && !Keeps(B6, 0) && StateAfterSweep(B6, 0) == Empty
  {
    Chosen(S23);
    assert Latest(B6, 0)[3].value.vt[1] == 1;
    assert Newest(FULL[1], 0) == 1;
  }
}
