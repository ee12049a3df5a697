/** Whole runs from the initial state, and what holds in every state of every run. */
module Runs {
  import opened Clocks
  import opened Nodes
  import opened Requests
  import opened Systems
  import opened SystemSteps

  /** Nobody has made an interval; every page is private at its home and empty elsewhere. */
  function Init(n: nat, home: seq<nat>): State {
    State(home, seq(n, p requires 0 <= p => Fresh(n, home, p)), seq(n, p => Running), seq(n, p => None), false)
  }

  predicate Homes(n: nat, home: seq<nat>) {
    forall g :: 0 <= g < |home| ==> home[g] < n
  }

  lemma FreshInv(n: nat, home: seq<nat>, p: nat)
    requires p < n
    ensures Nodes.Inv(n, |home|, Fresh(n, home, p))
  {
    var x := Fresh(n, home, p);
    assert forall g: nat, i: nat, t: nat :: !Noticed(x, g, i, t);
  }

  lemma InitConsistent(n: nat, home: seq<nat>)
    requires Homes(n, home)
    ensures Consistent(Init(n, home)) && WellSized(Init(n, home))
  {
    hide Nodes.Inv;
    var s := Init(n, home);
    forall p: nat | p < n ensures Nodes.Inv(n, |home|, s.nodes[p]) {
      FreshInv(n, home, p);
    }
    forall p: nat | p < n ensures LaidNode(s, p) {
    }
    forall p: nat, g: nat | p < n && g < |home| && g < |s.nodes[p].state| ensures PageOk(s, p, g) {
    }
    LaidSized(s);
  }

  lemma {:induction false} StepKeeps(s: State, step: Step)
    requires Consistent(s) && WellSized(s) && Enabled(s, step)
    ensures Consistent(Apply(s, step)) && WellSized(Apply(s, step))
    ensures |Apply(s, step).nodes| == |s.nodes| && Apply(s, step).home == s.home
  {
    StepSizes(s, step);
    StepConsistent(s, step);
  }

  lemma StepSizes(s: State, step: Step)
    requires WellSized(s) && Enabled(s, step)
    ensures |Apply(s, step).nodes| == |s.nodes| && Apply(s, step).home == s.home
  {
    hide AllAnswered;
    hide Incorporate;
    hide Missing;
    hide Create;
  }

  lemma {:induction false} StepConsistent(s: State, step: Step)
    requires Consistent(s) && WellSized(s) && Enabled(s, step)
    ensures Consistent(Apply(s, step)) && WellSized(Apply(s, step))
  {
    hide Consistent;
    hide Laid;
    hide Exclusive;
    hide Ready;
    hide Fault;
    hide AllAnswered;
    hide Post;
    hide Receive;
    hide TellAll;
    hide Register;
    hide CollectFrom;
    hide Reply;
    hide CloseAt;
    match step {
    case Touch(p, g, write) => TouchKeeps(s, p, g, write);
    case Request(p) => RequestKeeps(s, p);
    case Grant(from, p, close) =>
      if close {
        CloseKeeps(s, from);
      }
      PostKeeps(if close then CloseAt(s, from) else s, from, p);
    case Deliver(p) =>
      RequesterReady(s, p);
      ReceiveKeeps(s, p, Saved(s.status[p].vt));
    case Arrive(p, m) =>
      CloseKeeps(s, p);
      RegisterKeeps(CloseAt(s, p), p, m);
    case Collect(p) => CollectKeeps(s, p);
    case Depart(m) =>
      ReplyKeeps(s, m);
      TellAllKeeps(Reply(s, m), m);
    case Leave(p) => LeaveKeeps(s, p);
    }
    ConsistentSized(Apply(s, step));
  }

  lemma ConsistentSized(s: State)
    requires Consistent(s)
    ensures WellSized(s)
  {
    hide Nodes.Inv;
    LaidSized(s);
  }

  /** A process waiting for a lock with a dirty page has closed no interval since it asked. */
  lemma RequesterReady(s: State, p: nat)
    requires Consistent(s) && p < |s.nodes| && s.status[p].Requesting?
    ensures Ready(s.nodes[p], Saved(s.status[p].vt))
  {
    hide Nodes.Inv;
    assert StatusOk(s, p);
  }

  lemma LeaveTold(s: State, p: nat)
    requires Consistent(s) && WellSized(s) && Enabled(s, Leave(p))
    ensures var t := Receive(s, p, Live);
            forall q: nat :: q < |t.nodes| && q != p ==> |t.nodes[p].lists[p]| <= Told(t, q, p)
  {
    hide Nodes.Inv;
    hide Prefixes;
    hide Exclusive;
    hide MailOk;
    hide InverseOk;
    hide Incorporate;
    assert StatusOk(s, p);
    ReceiveKeeps(s, p, Live);
    ReceiveMerges(s, p, Live);
  }

  lemma LeaveKeeps(s: State, p: nat)
    requires Consistent(s) && WellSized(s) && Enabled(s, Leave(p))
    ensures Consistent(Apply(s, Leave(p)))
  {
    hide Nodes.Inv;
    hide Prefixes;
    hide Exclusive;
    hide MailOk;
    hide InverseOk;
    hide Incorporate;
    assert StatusOk(s, p);
    ReceiveKeeps(s, p, Live);
    LeaveTold(s, p);
    TellAllKeeps(Receive(s, p, Live), p);
  }

  // ---------------------------------------------------------------- runs

  ghost predicate IsRun(s: State, steps: seq<Step>)
    decreases |steps|
  {
    steps == [] || (WellSized(s) && Enabled(s, steps[0]) && IsRun(Apply(s, steps[0]), steps[1..]))
  }

  ghost function After(s: State, steps: seq<Step>): State
    requires IsRun(s, steps)
    decreases |steps|
  {
    if steps == [] then s else After(Apply(s, steps[0]), steps[1..])
  }

  lemma {:induction false} RunKeeps(s: State, steps: seq<Step>)
    requires Consistent(s) && WellSized(s) && IsRun(s, steps)
    ensures Consistent(After(s, steps)) && WellSized(After(s, steps))
    ensures |After(s, steps).nodes| == |s.nodes| && After(s, steps).home == s.home
    decreases |steps|
  {
    hide Consistent;
    hide Enabled;
    hide Apply;
    if steps != [] {
      StepKeeps(s, steps[0]);
      RunKeeps(Apply(s, steps[0]), steps[1..]);
    }
  }

  lemma {:induction false} Extend(s: State, steps: seq<Step>, step: Step)
    requires IsRun(s, steps) && WellSized(After(s, steps)) && Enabled(After(s, steps), step)
    ensures IsRun(s, steps + [step]) && After(s, steps + [step]) == Apply(After(s, steps), step)
    decreases |steps|
  {
    hide Enabled;
    hide Apply;
    hide WellSized;
    if steps == [] {
      assert ([] + [step])[1..] == [];
    } else {
      assert (steps + [step])[1..] == steps[1..] + [step];
      Extend(Apply(s, steps[0]), steps[1..], step);
    }
  }

  lemma Prepend(s: State, step: Step, rest: seq<Step>)
    requires WellSized(s) && Enabled(s, step) && IsRun(Apply(s, step), rest)
    ensures IsRun(s, [step] + rest) && After(s, [step] + rest) == After(Apply(s, step), rest)
  {
    hide Enabled;
    hide Apply;
    assert ([step] + rest)[1..] == rest;
  }

  lemma {:induction false} Concat(s: State, a: seq<Step>, b: seq<Step>)
    requires IsRun(s, a) && IsRun(After(s, a), b)
    ensures IsRun(s, a + b) && After(s, a + b) == After(After(s, a), b)
    decreases |a|
  {
    hide Enabled;
    hide Apply;
    hide WellSized;
    if a == [] {
      assert a + b == b;
    } else {
      assert (a + b)[1..] == a[1..] + b;
      Concat(Apply(s, a[0]), a[1..], b);
    }
  }
}
