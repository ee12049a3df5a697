/** The states of the runs in `LateGrant`, and that each step leads from one to the next. */
module LateGrantSteps {
  import opened Clocks
  import opened Nodes
  import opened PageStacks
  import opened Requests
  import opened Systems
  import NoticeOrder
  import Batching

  const HOME: seq<nat> := [1]

  const I1 := Interval(1, [0, 1, 1, 0], {0})
  const I2 := Interval(2, [0, 0, 1, 0], {0})
  const I3 := Interval(3, [0, 1, 0, 1], {0})
  const M1 := Mark(0, 1, 1)
  const M2 := Mark(0, 2, 1)
  const M3 := Mark(0, 3, 1)

  const ZERO: seq<nat> := [0, 0, 0, 0]
  const ALL: seq<nat> := [0, 1, 1, 1]
  const NONE: seq<seq<Interval>> := [[], [], [], []]
  const FULL: seq<seq<Interval>> := [[], [I1], [I2], [I3]]

  // process 0, the manager of the barrier
  const A0 := Node(0, ZERO, NONE, ZERO, {}, {}, [Empty], {})
  const A1 := A0.(clock := [0, 1, 0, 0], lists := [[], [I1], [], []])
  const A2 := A0.(clock := [0, 1, 0, 1], lists := [[], [I1], [], [I3]])
  const A3 := A0.(clock := ALL, lists := FULL)
  // process 1, the manager of the page
  const B0 := Node(1, ZERO, NONE, ZERO, {}, {}, [Private], {})
  const B1 := B0.(state := [Valid])
  const B2 := B0.(clock := [0, 0, 1, 0], lists := [[], [], [I2], []], state := [Invalid])
  const B3 := B2.(state := [Valid], dirty := {0}, twins := {0}, diffs := {M2})
  const B4 := B3.(clock := [0, 1, 1, 0], lists := [[], [I1], [I2], []], dirty := {})
  const B5 := B4.(twins := {}, diffs := {M2, M1})
  const B6 := Node(1, ALL, FULL, [1, 0, 1, 1], {}, {}, [Invalid], {M2, M1})
  // process 2
  const C0 := Node(2, ZERO, NONE, ZERO, {}, {}, [Empty], {})
  const C1 := C0.(state := [Valid], dirty := {0}, twins := {0})
  const C2 := C1.(clock := [0, 0, 1, 0], lists := [[], [], [I2], []], dirty := {}, inverse := [0, 1, 0, 0])
  const C3 := C2.(twins := {}, diffs := {M2})
  const C4 := Node(2, ALL, FULL, [1, 1, 0, 1], {}, {}, [Invalid], {M2})
  // process 3
  const D0 := Node(3, ZERO, NONE, ZERO, {}, {}, [Empty], {})
  const D1 := D0.(clock := [0, 1, 0, 0], lists := [[], [I1], [], []])
  const D2 := D1.(state := [Valid], dirty := {0}, twins := {0}, diffs := {M1})
  const D3 := D2.(clock := [0, 1, 0, 1], lists := [[], [I1], [], [I3]], dirty := {})
  const D4 := Node(3, ALL, FULL, [1, 1, 1, 0], {}, {}, [Invalid], {M1, M3})

  const ALL_RUN: seq<Status> := [Running, Running, Running, Running]
  const NO_MAIL: seq<Option<Mail>> := [None, None, None, None]
  const AT0 := Arrived(0, ZERO, [], true)
  const AT1 := Arrived(0, [0, 1, 1, 0], [I1], false)
  const AT2 := Arrived(0, [0, 0, 1, 0], [I2], false)
  const AT3 := Arrived(0, [0, 1, 0, 1], [I3], false)
  const TO1 := Some(Mail([I3], ALL))
  const TO2 := Some(Mail([I1, I3], ALL))
  const TO3 := Some(Mail([I2], ALL))
  const GO1 := Departing([0, 1, 1, 0])
  const GO2 := Departing([0, 0, 1, 0])
  const GO3 := Departing([0, 1, 0, 1])

  const S0 := State(HOME, [A0, B0, C0, D0], ALL_RUN, NO_MAIL, false)
  const S1 := S0.(status := [Running, Running, Requesting(ZERO), Running])
  const S2 := S1.(inbox := [None, None, Some(Mail([], ZERO)), None])
  const S4 := State(HOME, [A0, B1, C1, D0], ALL_RUN, NO_MAIL, false)
  const S5 := S4.(status := [Running, Requesting(ZERO), Running, Running])
  const S6 := State(HOME, [A0, B1, C2, D0], S5.status, [None, Some(Mail([I2], [0, 0, 1, 0])), None, None], false)
  const S7 := State(HOME, [A0, B2, C2, D0], ALL_RUN, NO_MAIL, false)
  const S8 := State(HOME, [A0, B3, C3, D0], ALL_RUN, NO_MAIL, false)
  const S9 := State(HOME, [A0, B4, C3, D0], [Running, AT1, Running, Running], NO_MAIL, false)
  const S10 := State(HOME, [A0, B4, C3, D0], [AT0, AT1, Running, Running], NO_MAIL, false)
  const S11 := State(HOME, [A1, B4, C3, D0], [AT0, AT1.(collected := true), Running, Running], NO_MAIL, false)
  const S12 := S11.(status := [AT0, AT1.(collected := true), Running, Requesting(ZERO)])
  const S13 := S12.(inbox := [None, None, None, Some(Mail([I1], [0, 1, 0, 0]))])
  const S14 := State(HOME, [A1, B4, C3, D1], S11.status, NO_MAIL, false)
  const S15 := State(HOME, [A1, B5, C3, D2], S11.status, NO_MAIL, false)
  const S16 := State(HOME, [A1, B5, C3, D3], [AT0, AT1.(collected := true), Running, AT3], NO_MAIL, false)
  const S17 := State(HOME, [A1, B5, C3, D3], [AT0, AT1.(collected := true), AT2, AT3], NO_MAIL, false)
  const S18 := State(HOME, [A2, B5, C3, D3], [AT0, AT1.(collected := true), AT2, AT3.(collected := true)], NO_MAIL, false)
  const S19 := State(HOME, [A3, B5, C3, D3],
                     [AT0, AT1.(collected := true), AT2.(collected := true), AT3.(collected := true)], NO_MAIL, false)
  const S20 := State(HOME, [A3, B5, C3, D3], [Running, GO1, GO2, GO3], [None, TO1, TO2, TO3], false)
  const S21 := State(HOME, [A3, B5, C3, D4], [Running, GO1, GO2, Running], [None, TO1, TO2, None], false)
  const S22 := State(HOME, [A3, B6, C3, D4], [Running, Running, GO2, Running], [None, None, TO2, None], false)
  const S23 := State(HOME, [A3, B6, C4, D4], ALL_RUN, NO_MAIL, false)

  // ---------------------------------------------------------------- four lists

  lemma MissingOfFour(lists: seq<seq<Interval>>, v: seq<nat>)
    requires |lists| == |v| == 4
    ensures Missing(lists, v) == Nodes.After(lists[0], v[0]) + (Nodes.After(lists[1], v[1]) + (Nodes.After(lists[2], v[2]) + Nodes.After(lists[3], v[3])))
  {
    assert MissingFrom(lists, v, 4) == [];
    assert MissingFrom(lists, v, 3) == Nodes.After(lists[3], v[3]);
    assert MissingFrom(lists, v, 2) == Nodes.After(lists[2], v[2]) + MissingFrom(lists, v, 3);
    assert MissingFrom(lists, v, 1) == Nodes.After(lists[1], v[1]) + MissingFrom(lists, v, 2);
  }

  /** The stack of a process with no interval, or with one that names the page. */
  lemma ShortStacks(iv: Interval, diffs: set<Mark>)
    requires 0 in iv.pages
    ensures NoticesOf([], 0, diffs) == []
    ensures NoticesOf([iv], 0, diffs) == [NoticeOrder.Notice(Stamp(iv.id, iv.vt), Mark(0, iv.id, 1) in diffs)]
  {
    assert [iv][..0] == [];
  }

  lemma ShortPending(a: Stamp)
    ensures NoticeOrder.Pending([]) == [] && NoticeOrder.Pending([NoticeOrder.Notice(a, false)]) == [a]
  {
    assert [NoticeOrder.Notice(a, false)][1..] == [];
  }

  function WithPending(a: seq<Stamp>, b: seq<Stamp>): seq<Stamp> {
    NoticeOrder.InsertAll(a, 0, b)
  }

  lemma SortOfFour(lists: seq<seq<NoticeOrder.Notice>>)
    requires |lists| == 4
    ensures NoticeOrder.SortAll(lists) ==
              WithPending(WithPending(WithPending(WithPending([], NoticeOrder.Pending(lists[0])), NoticeOrder.Pending(lists[1])),
                              NoticeOrder.Pending(lists[2])), NoticeOrder.Pending(lists[3]))
  {
    assert lists[..3][..2] == lists[..2] && lists[..2][..1] == lists[..1] && lists[..1][..0] == [];
    assert NoticeOrder.SortAll([]) == [];
    assert NoticeOrder.SortAll(lists[..1]) == WithPending([], NoticeOrder.Pending(lists[0]));
    assert NoticeOrder.SortAll(lists[..2]) == WithPending(NoticeOrder.SortAll(lists[..1]), NoticeOrder.Pending(lists[1]));
    assert NoticeOrder.SortAll(lists[..3]) == WithPending(NoticeOrder.SortAll(lists[..2]), NoticeOrder.Pending(lists[2]));
  }

  lemma SortedOne(s: seq<Stamp>, a: Stamp)
    ensures WithPending(s, []) == s && WithPending(s, [a]) == NoticeOrder.Insert(s, NoticeOrder.Position(s, 0, a), a)
  {
    var p := NoticeOrder.Position(s, 0, a);
    assert [a][1..] == [];
    assert NoticeOrder.InsertAll(NoticeOrder.Insert(s, p, a), p + 1, []) == NoticeOrder.Insert(s, p, a);
  }

  // ---------------------------------------------------------------- requests

  lemma NoRequests(x: Node)
    requires x.lists == NONE
    ensures RequestsFor(x, 0) == []
  {
    ShortStacks(I1, x.diffs);
    ShortPending(Stamp(0, []));
    var lists := PageNotices(x, 0);
    SortOfFour(lists);
    SortedOne([], Stamp(0, []));
    assert NoticeOrder.SortAll(lists) == [];
  }

  /** One pending notice is asked of its maker. */
  lemma OneRequest(x: Node, iv: Interval)
    requires iv.id < 4 && x.lists == NONE[iv.id := [iv]] && 0 in iv.pages && |iv.vt| == 4 && iv.vt[iv.id] == 1
    requires x.diffs == {}
    ensures RequestsFor(x, 0) == [Ask(iv.id, Mark(0, iv.id, 1))]
  {
    var a := Stamp(iv.id, iv.vt);
    ShortStacks(iv, x.diffs);
    ShortPending(a);
    var lists := PageNotices(x, 0);
    SortOfFour(lists);
    SortedOne([], a);
    SortedOne([a], a);
    assert NoticeOrder.Insert([], 0, a) == [a];
    assert NoticeOrder.SortAll(lists) == [a];
    OneBatch(a);
  }

  lemma OneBatch(a: Stamp)
    ensures AsksOf(Batching.PackAll([a]), 0) == [Ask(a.id, Mark(0, a.id, Time(a)))]
  {
    var w := [a];
    assert Batching.Asked(w, 0, 0) == [];
    assert Batching.Asked(w, -1, 0) == [(a.id, Time(a))];
    assert Batching.PackAll(w) == [Batching.Batch(a.id, -1, 0, [(a.id, Time(a))])];
    assert Batching.PackAll(w)[1..] == [];
  }

  /** The manager of the barrier packs all three notices into one request, to process 3. */
  lemma AllToThree()
    ensures Ask(3, M2) in RequestsFor(A3, 0)
  {
    var a1, a2, a3 := Stamp(1, I1.vt), Stamp(2, I2.vt), Stamp(3, I3.vt);
    ShortStacks(I1, {});
    ShortStacks(I2, {});
    ShortStacks(I3, {});
    ShortPending(a1);
    ShortPending(a2);
    ShortPending(a3);
    SortOfFour(PageNotices(A3, 0));
    SortedOne([], a1);
    SortedOne([a1], a2);
    SortedOne([a1, a2], a3);
    var w := [a3, a1, a2];
    assert NoticeOrder.Insert([], 0, a1) == [a1];
    assert NoticeOrder.Position([a1], 0, a2) == 1;
    assert NoticeOrder.Insert([a1], 1, a2) == [a1, a2];
    assert NoticeOrder.Position([a1, a2], 0, a3) == 0;
    assert NoticeOrder.Insert([a1, a2], 0, a3) == w;
    assert NoticeOrder.SortAll(PageNotices(A3, 0)) == w;
    OneOfThree(w);
  }

  lemma OneOfThree(w: seq<Stamp>)
    requires w == [Stamp(3, I3.vt), Stamp(1, I1.vt), Stamp(2, I2.vt)]
    ensures Ask(3, M2) in AsksOf(Batching.PackAll(w), 0)
  {
    assert Batching.Sees(w, 1, 2) && Batching.Sees(w, 0, 1);
    assert Batching.Dominator(w, 1, 1) == 1;
    assert Batching.Dominator(w, 0, 0) == 0;
    assert Batching.EndOf(w, 0, -1) == -1;
    assert Batching.EndOf(w, 1, 0) == -1;
    assert Batching.EndOf(w, 2, 1) == -1;
    Batching.AskedHas(w, -1, 2, 2);
    var b := Batching.BatchAt(w, 2);
    assert b.to == 3 && (2, 1) in b.asked;
    assert Batching.PackAll(w)[0] == b;
    AskedIsAsk(Batching.PackAll(w), 0, 0, (2, 1));
  }

  // ---------------------------------------------------------------- steps in general

  lemma KnowsNothing(x: Node)
    requires x.lists == NONE
    ensures Known(x, 0) == {}
  {
  }

  lemma KnowsOne(x: Node, iv: Interval)
    requires iv.id < 4 && x.lists == NONE[iv.id := [iv]] && 0 in iv.pages
    ensures Known(x, 0) == {Mark(0, iv.id, 1)}
  {
    assert Noticed(x, 0, iv.id, 1);
    forall m | m in Known(x, 0) ensures m == Mark(0, iv.id, 1) {
      assert Noticed(x, 0, m.id, m.time);
    }
  }

  /** Noting one interval while nothing is dirty. */
  lemma OneInterval(x: Node, iv: Interval, b: Basis)
    requires Nodes.Sized(x) && |iv.vt| == |x.clock| && iv.id < |x.clock| && (b.Saved? ==> |b.vt| == |x.clock|)
    requires IsNew(x, iv) && x.dirty == {}
    ensures Fit(|x.clock|, [iv])
    ensures Incorporate(x, [iv], b) == Absorb(x, iv)
  {
    assert [iv][1..] == [];
    assert Learn(x, iv, b) == Absorb(x, iv);
  }

  // ---------------------------------------------------------------- process 2 gets the lock and writes

  lemma Step1()
    ensures WellSized(S0) && Enabled(S0, Request(2)) && Apply(S0, Request(2)) == S1
  {
  }

  lemma Step2()
    ensures WellSized(S1) && Enabled(S1, Grant(0, 2, true)) && Apply(S1, Grant(0, 2, true)) == S2
  {
    hide Missing;
    MissingOfFour(NONE, ZERO);
    assert Missing(NONE, ZERO) == [];
    assert ZERO[2 := 0] == ZERO;
    assert S1.nodes[0 := A0] == S1.nodes;
  }

  lemma Step3()
    ensures WellSized(S2) && Enabled(S2, Deliver(2)) && Apply(S2, Deliver(2)) == S0
  {
    assert Incorporate(C0, [], Saved(ZERO)) == C0;
  }

  lemma Step4()
    ensures WellSized(S0) && Enabled(S0, Touch(2, 0, true)) && Apply(S0, Touch(2, 0, true)) == S4
  {
    hide RequestsFor;
    NoRequests(C0);
    KnowsNothing(C0);
    assert Share(B0, 0) == B1 by { assert [Private][0 := Valid] == [Valid]; }
    assert MakeTwin(Fetch(C0, 0), 0) == C1 by { assert [Empty][0 := Valid] == [Valid]; }
    assert S0.nodes[1 := B1][2 := C1] == S4.nodes;
    assert Fault(S0, 2, 0, true, []) == S4.nodes;
  }

  // ---------------------------------------------------------------- process 1 gets it from process 2, writes, and arrives

  lemma Step5()
    ensures WellSized(S4) && Enabled(S4, Request(1)) && Apply(S4, Request(1)) == S5
  {
  }

  lemma Step6()
    ensures WellSized(S5) && Enabled(S5, Grant(2, 1, true)) && Apply(S5, Grant(2, 1, true)) == S6
  {
    hide Missing;
    var lists := [[], [], [I2], []];
    MissingOfFour(lists, ZERO);
    assert Missing(lists, ZERO) == [I2];
    assert Advanced(ZERO, 2) == I2.vt;
    assert [] + [I2] == [I2];
    assert ZERO[2 := 1] == C2.clock;
    assert NONE[2 := [I2]] == C2.lists;
    assert Create(C1, ZERO) == C2.(inverse := ZERO);
    assert ZERO[1 := 1] == C2.inverse;
    assert S5.nodes[2 := C2] == S6.nodes;
    assert S5.nodes[2 := C2.(inverse := ZERO)][2 := C2] == S6.nodes;
  }

  lemma Step7()
    ensures WellSized(S6) && Enabled(S6, Deliver(1)) && Apply(S6, Deliver(1)) == S7
  {
    hide Incorporate;
    OneInterval(B1, I2, Saved(ZERO));
    assert [] + [I2] == [I2];
    assert NONE[2 := [I2]] == B2.lists;
    assert ZERO[2 := 1] == B2.clock;
    assert Absorb(B1, I2) == B2;
    assert S6.nodes[1 := B2] == S7.nodes;
  }

  lemma Step8()
    ensures WellSized(S7) && Enabled(S7, Touch(1, 0, true)) && Apply(S7, Touch(1, 0, true)) == S8
  {
    hide RequestsFor;
    assert NONE[2 := [I2]] == B2.lists;
    OneRequest(B2, I2);
    KnowsOne(B2, I2);
    var asks := [Ask(2, M2)];
    assert [I2][..0] == [];
    assert Noticed(C2, 0, 2, 1);
    assert Answers(C2, M2);
    assert Serve(C2, M2) == C3;
    assert asks[1..] == [];
    assert S7.nodes[2 := C3] == [A0, B2, C3, D0];
    assert ServeAll(S7.nodes, asks) == [A0, B2, C3, D0];
    assert MakeTwin(Fetch(B2, 0), 0) == B3 by { assert [Invalid][0 := Valid] == [Valid]; }
    assert [A0, B2, C3, D0][1 := B3] == S8.nodes;
    assert Fault(S7, 1, 0, true, asks) == S8.nodes;
  }

  lemma Step9()
    ensures WellSized(S8) && Enabled(S8, Arrive(1, 0)) && Apply(S8, Arrive(1, 0)) == S9
  {
    assert Advanced(B3.clock, 1) == I1.vt;
    assert [] + [I1] == [I1];
    assert B3.clock[1 := 1] == B4.clock;
    assert B3.lists[1 := [I1]] == B4.lists;
    assert Create(B3, B3.clock) == B4;
    assert S8.nodes[1 := B4] == S9.nodes;
    assert [I1][0..] == [I1];
    assert S8.status[1 := AT1] == S9.status;
  }

  // ---------------------------------------------------------------- the manager collects it and grants a lock to process 3

  lemma Step10()
    ensures WellSized(S9) && Enabled(S9, Arrive(0, 0)) && Apply(S9, Arrive(0, 0)) == S10
  {
    assert S9.nodes[0 := A0] == S9.nodes;
    assert S9.status[0 := AT0] == S10.status;
  }

  lemma Step11()
    ensures WellSized(S10) && Enabled(S10, Collect(1)) && Apply(S10, Collect(1)) == S11
  {
    hide Incorporate;
    OneInterval(A0, I1, Null);
    assert [] + [I1] == [I1];
    assert NONE[1 := [I1]] == A1.lists;
    assert ZERO[1 := 1] == A1.clock;
    assert Absorb(A0, I1) == A1;
    assert S10.nodes[0 := A1] == S11.nodes;
    assert S10.status[1 := AT1.(collected := true)] == S11.status;
  }

  lemma Step12()
    ensures WellSized(S11) && Enabled(S11, Request(3)) && Apply(S11, Request(3)) == S12
  {
    assert S11.status[3 := Requesting(ZERO)] == S12.status;
  }

  lemma Step13()
    ensures WellSized(S12) && Enabled(S12, Grant(0, 3, false)) && Apply(S12, Grant(0, 3, false)) == S13
  {
    hide Missing;
    MissingOfFour(A1.lists, ZERO);
    assert [I1][0..] == [I1];
    assert Missing(A1.lists, ZERO) == [I1];
    assert ZERO[3 := 0] == ZERO;
    assert A1.(inverse := ZERO) == A1;
    assert S12.nodes[0 := A1] == S12.nodes;
    assert S12.inbox[3 := Some(Mail([I1], A1.clock))] == S13.inbox;
  }

  // ---------------------------------------------------------------- process 3 writes and arrives

  lemma Step14()
    ensures WellSized(S13) && Enabled(S13, Deliver(3)) && Apply(S13, Deliver(3)) == S14
  {
    hide Incorporate;
    OneInterval(D0, I1, Saved(ZERO));
    assert [] + [I1] == [I1];
    assert NONE[1 := [I1]] == D1.lists;
    assert ZERO[1 := 1] == D1.clock;
    assert Absorb(D0, I1) == D1;
    assert S13.nodes[3 := D1] == S14.nodes;
    assert S13.status[3 := Running] == S14.status;
  }

  lemma Step15()
    ensures WellSized(S14) && Enabled(S14, Touch(3, 0, true)) && Apply(S14, Touch(3, 0, true)) == S15
  {
    hide RequestsFor;
    assert NONE[1 := [I1]] == D1.lists;
    OneRequest(D1, I1);
    KnowsOne(D1, I1);
    var asks := [Ask(1, M1)];
    assert [I1][..0] == [];
    assert Noticed(B4, 0, 1, 1);
    assert Answers(B4, M1);
    assert Serve(B4, M1) == B5;
    assert asks[1..] == [];
    assert Share(B4, 0) == B4;
    assert S14.nodes[1 := B4] == S14.nodes;
    assert S14.nodes[1 := B5] == [A1, B5, C3, D1];
    assert ServeAll(S14.nodes, asks) == [A1, B5, C3, D1];
    assert MakeTwin(Fetch(D1, 0), 0) == D2 by { assert [Empty][0 := Valid] == [Valid]; }
    assert [A1, B5, C3, D1][3 := D2] == S15.nodes;
    assert Fault(S14, 3, 0, true, asks) == S15.nodes;
  }

  lemma Step16()
    ensures WellSized(S15) && Enabled(S15, Arrive(3, 0)) && Apply(S15, Arrive(3, 0)) == S16
  {
    assert Advanced(D2.clock, 3) == I3.vt;
    assert [] + [I3] == [I3];
    assert D2.clock[3 := 1] == D3.clock;
    assert D2.lists[3 := [I3]] == D3.lists;
    assert Create(D2, D2.clock) == D3;
    assert S15.nodes[3 := D3] == S16.nodes;
    assert [I3][0..] == [I3];
    assert S15.status[3 := AT3] == S16.status;
  }

  // ---------------------------------------------------------------- the barrier is completed

  lemma Step17()
    ensures WellSized(S16) && Enabled(S16, Arrive(2, 0)) && Apply(S16, Arrive(2, 0)) == S17
  {
    assert S16.nodes[2 := C3] == S16.nodes;
    assert [I2][0..] == [I2];
    assert S16.status[2 := AT2] == S17.status;
  }

  lemma Step18()
    ensures WellSized(S17) && Enabled(S17, Collect(3)) && Apply(S17, Collect(3)) == S18
  {
    hide Incorporate;
    OneInterval(A1, I3, Null);
    assert [] + [I3] == [I3];
    assert A1.lists[3 := [I3]] == A2.lists;
    assert A1.clock[3 := 1] == A2.clock;
    assert Absorb(A1, I3) == A2;
    assert S17.nodes[0 := A2] == S18.nodes;
    assert S17.status[3 := AT3.(collected := true)] == S18.status;
  }

  lemma Step19()
    ensures WellSized(S18) && Enabled(S18, Collect(2)) && Apply(S18, Collect(2)) == S19
  {
    hide Incorporate;
    OneInterval(A2, I2, Null);
    assert [] + [I2] == [I2];
    assert A2.lists[2 := [I2]] == A3.lists;
    assert A2.clock[2 := 1] == A3.clock;
    assert Absorb(A2, I2) == A3;
    assert S18.nodes[0 := A3] == S19.nodes;
    assert S18.status[2 := AT2.(collected := true)] == S19.status;
  }

  lemma Step20()
    ensures WellSized(S19) && Enabled(S19, Depart(0)) && Apply(S19, Depart(0)) == S20
  {
    hide Missing;
    MissingOfFour(FULL, [0, 1, 1, 0]);
    MissingOfFour(FULL, [0, 0, 1, 0]);
    MissingOfFour(FULL, [0, 1, 0, 1]);
    assert Missing(FULL, [0, 1, 1, 0]) == [I3];
    assert Missing(FULL, [0, 0, 1, 0]) == [I1, I3];
    assert Missing(FULL, [0, 1, 0, 1]) == [I2];
    var r := Reply(S19, 0);
    assert r.status == S20.status;
    assert r.inbox == S20.inbox;
    assert TellAll(r, 0).nodes[0].inverse == ZERO;
    assert S19.nodes[0 := A3] == S20.nodes;
  }

  lemma Step21()
    ensures WellSized(S20) && Enabled(S20, Leave(3)) && Apply(S20, Leave(3)) == S21
  {
    hide Incorporate;
    OneInterval(D3, I2, Live);
    var d := D4.(inverse := ZERO);
    assert [] + [I2] == [I2];
    assert D3.lists[2 := [I2]] == FULL;
    assert D3.clock[2 := 1] == ALL;
    assert [I3][..0] == [];
    assert OwnMark(D3, 0) == M3;
    assert Absorb(D3, I2).state == [Invalid];
    assert Hit(D3, I2) == {0};
    assert Absorb(D3, I2).diffs == {M1, M3};
    assert Absorb(D3, I2) == d;
    var r := Receive(S20, 3, Live);
    assert r == S21.(nodes := [A3, B5, C3, d]);
    assert TellAll(r, 3).nodes[3].inverse == D4.inverse;
    assert [A3, B5, C3, d][3 := D4] == S21.nodes;
  }

  lemma Step22()
    ensures WellSized(S21) && Enabled(S21, Leave(1)) && Apply(S21, Leave(1)) == S22
  {
    hide Incorporate;
    OneInterval(B5, I3, Live);
    var b := B6.(inverse := [0, 0, 0, 1]);
    assert [] + [I3] == [I3];
    assert B5.lists[3 := [I3]] == FULL;
    assert B5.clock[3 := 1] == ALL;
    assert ZERO[3 := 1] == b.inverse;
    assert Absorb(B5, I3).state == [Invalid];
    assert Absorb(B5, I3) == b;
    var r := Receive(S21, 1, Live);
    assert r == S22.(nodes := [A3, b, C3, D4]);
    assert TellAll(r, 1).nodes[1].inverse == B6.inverse;
    assert [A3, b, C3, D4][1 := B6] == S22.nodes;
  }

  lemma TwoIntervals()
    ensures Fit(4, [I1, I3]) && Incorporate(C3, [I1, I3], Live) == C4.(inverse := [0, 1, 0, 0])
  {
    hide Incorporate;
    var c := C3.(clock := [0, 1, 1, 0], lists := [[], [I1], [I2], []], state := [Invalid]);
    assert [] + [I1] == [I1] && [] + [I3] == [I3];
    assert C3.lists[1 := [I1]] == c.lists && C3.clock[1 := 1] == c.clock;
    assert Absorb(C3, I1).state == [Invalid];
    assert Learn(C3, I1, Live) == c;
    IncorporateStep(C3, [I1, I3], Live);
    assert [I1, I3][1..] == [I3];
    OneInterval(c, I3, Live);
    assert c.lists[3 := [I3]] == FULL && c.clock[3 := 1] == ALL;
    assert Absorb(c, I3).state == [Invalid];
    assert Absorb(c, I3) == C4.(inverse := [0, 1, 0, 0]);
  }

  lemma Step23()
    ensures WellSized(S22) && Enabled(S22, Leave(2)) && Apply(S22, Leave(2)) == S23
  {
    hide Incorporate;
    TwoIntervals();
    var c := C4.(inverse := [0, 1, 0, 0]);
    var r := Receive(S22, 2, Live);
    assert r == S23.(nodes := [A3, B6, c, D4]);
    assert TellAll(r, 2).nodes[2].inverse == C4.inverse;
    assert [A3, B6, c, D4][2 := C4] == S23.nodes;
  }

  /** The fetch that fails: process 3 has the notice of process 2 but neither its diff nor a twin. */
  lemma FetchFails()
    ensures WellSized(S21) && Enabled(S21, Touch(0, 0, false)) && Apply(S21, Touch(0, 0, false)) == S21.(failed := true)
  {
    hide RequestsFor;
    AllToThree();
    var asks := RequestsFor(A3, 0);
    assert Wanted(A3, 0) == asks;
    var k :| 0 <= k < |asks| && asks[k] == Ask(3, M2);
    assert !Answers(D4, M2);
    assert !AllAnswered(S21.nodes, asks);
  }
}
