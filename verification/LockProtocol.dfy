/** The distributed lock queue: one lock, any number of processes.

    `LockEntry` is the record one process keeps for the lock, updated in place by the three entry
    points.  `State` is the whole system: every process's record, where each process stands in its
    program, and the messages on the wire.  The network delivers each message once, in any order. */
module LockProtocol {

  // ---------------------------------------------------------------- one process's record

  datatype Lock = Lock(held: bool, next: nat, tail: nat)

  datatype AcquireResult = Reacquired | Entered | Asked(to: nat)
  datatype HandleResult = Granted | Queued | Forwarded(to: nat) | Unexpected
  datatype ReleaseResult = Rereleased | Kept | Passed(to: nat)

  function AcquireBy(self: nat, manager: nat, l: Lock): (Lock, AcquireResult) {
    if l.held then
      (l, Reacquired)
    else if l.next == self then
      (l.(held := true), Entered)
    else if manager == self then
      (Lock(true, self, self), Asked(l.tail))
    else
      (l.(held := true, next := self), Asked(manager))
  }

  function HandleBy(self: nat, manager: nat, l: Lock, from: nat): (Lock, HandleResult) {
    if l.next == self then
      (Lock(l.held, from, if manager == self then from else l.tail), if l.held then Queued else Granted)
    else if manager == self then
      (l.(tail := from), Forwarded(l.tail))
    else
      (l, Unexpected)
  }

  function ReleaseBy(self: nat, l: Lock): (Lock, ReleaseResult) {
    if !l.held then
      (l, Rereleased)
    else
      (l.(held := false), if l.next != self then Passed(l.next) else Kept)
  }

  class LockEntry {
    const self: nat
    const manager: nat
    var held: bool
    var next: nat
    var tail: nat

    function Value(): Lock
      reads this
    {
      Lock(held, next, tail)
    }

    constructor (self: nat, manager: nat)
      ensures this.self == self && this.manager == manager
      ensures Value() == InitialLock()
    {
      this.self, this.manager := self, manager;
      held, next, tail := false, 0, 0;
    }

    method Acquire() returns (r: AcquireResult)
      modifies this
      ensures (Value(), r) == AcquireBy(self, manager, old(Value()))
    {
      if held {
        return Reacquired;
      }
      held := true;
      if next == self {
        return Entered;
      }
      next := self;
      var to := manager;
      if to == self {
        to := tail;
        tail := self;
      }
      return Asked(to);
    }

    method Handle(from: nat) returns (r: HandleResult)
      modifies this
      ensures (Value(), r) == HandleBy(self, manager, old(Value()), from)
    {
      if next == self {
        r := if held then Queued else Granted;
        next := from;
        if manager == self {
          tail := from;
        }
      } else if manager == self {
        r := Forwarded(tail);
        tail := from;
      } else {
        r := Unexpected;
      }
    }

    method Release() returns (r: ReleaseResult)
      modifies this
      ensures (Value(), r) == ReleaseBy(self, old(Value()))
    {
      if !held {
        return Rereleased;
      }
      held := false;
      r := if next != self then Passed(next) else Kept;
    }
  }

  // ---------------------------------------------------------------- the whole system

  /** Where a process stands: outside, blocked in the acquire, or past it. */
  datatype Phase = Idle | Waiting | Inside

  datatype Message = Request(from: nat, to: nat) | Grant(to: nat)

  /** `moved` lists the processes the manager's `tail` was set to, in order; `granted` lists the
      receivers of grants in the order they were sent.  `crashed` records that an error exit of the
      lock code was taken, `doubled` that a message was sent while an equal one was in flight (the
      wire is a set, so this flag is what shows that no message is ever merged with another). */
  datatype State = State(
    manager: nat,
    locks: seq<Lock>,
    phases: seq<Phase>,
    net: set<Message>,
    moved: seq<nat>,
    granted: seq<nat>,
    crashed: bool,
    doubled: bool)
  {
    predicate Proc(p: nat) {
      p < |locks| && p < |phases|
    }
  }

  datatype Step = AcquireStep(p: nat) | ReleaseStep(p: nat) | Deliver(m: Message)

  function InitialLock(): Lock {
    Lock(false, 0, 0)
  }

  function Init(n: nat, manager: nat): State {
    State(manager, seq(n, _ => InitialLock()), seq(n, _ => Idle), {}, [], [], false, false)
  }

  /** A program asks for the lock only while outside and gives it back only while inside; the
      network can deliver any message that is in flight. */
  predicate Enabled(s: State, a: Step) {
    match a
    case AcquireStep(p) => s.Proc(p) && s.phases[p] == Idle
    case ReleaseStep(p) => s.Proc(p) && s.phases[p] == Inside
    case Deliver(m) => m in s.net && s.Proc(m.to)
  }

  function Post(s: State, m: Message): State {
    s.(net := s.net + {m}, doubled := s.doubled || m in s.net)
  }

  function Take(s: State, m: Message): State {
    s.(net := s.net - {m})
  }

  function ApplyAcquire(s: State, p: nat): State
    requires s.Proc(p)
  {
    var (l, r) := AcquireBy(p, s.manager, s.locks[p]);
    var t := s.(locks := s.locks[p := l]);
    match r
    case Reacquired => t.(crashed := true)
    case Entered => t.(phases := s.phases[p := Inside])
    case Asked(to) =>
      Post(t.(phases := s.phases[p := Waiting],
              moved := if p == s.manager then s.moved + [p] else s.moved),
           Request(p, to))
  }

  function ApplyRelease(s: State, p: nat): State
    requires s.Proc(p)
  {
    var (l, r) := ReleaseBy(p, s.locks[p]);
    var t := s.(locks := s.locks[p := l], phases := s.phases[p := Idle]);
    match r
    case Rereleased => t.(crashed := true)
    case Kept => t
    case Passed(to) => Post(t.(granted := s.granted + [to]), Grant(to))
  }

  function ApplyRequest(s: State, from: nat, p: nat): State
    requires s.Proc(p)
  {
    var (l, r) := HandleBy(p, s.manager, s.locks[p], from);
    var t := Take(s, Request(from, p))
             .(locks := s.locks[p := l], moved := if p == s.manager then s.moved + [from] else s.moved);
    match r
    case Granted => Post(t.(granted := s.granted + [from]), Grant(from))
    case Queued => t
    case Forwarded(to) => Post(t, Request(from, to))
    case Unexpected => t.(crashed := true)
  }

  function ApplyGrant(s: State, p: nat): State
    requires s.Proc(p)
  {
    Take(s, Grant(p)).(phases := s.phases[p := Inside])
  }

  function Apply(s: State, a: Step): State
    requires Enabled(s, a)
  {
    match a
    case AcquireStep(p) => ApplyAcquire(s, p)
    case ReleaseStep(p) => ApplyRelease(s, p)
    case Deliver(Request(from, to)) => ApplyRequest(s, from, to)
    case Deliver(Grant(to)) => ApplyGrant(s, to)
  }

  /** The state after a schedule of steps; a step that is not enabled is passed over. */
  function After(n: nat, manager: nat, schedule: seq<Step>): State {
    if schedule == [] then
      Init(n, manager)
    else
      var s := After(n, manager, schedule[..|schedule| - 1]);
      var a := schedule[|schedule| - 1];
      if Enabled(s, a) then Apply(s, a) else s
  }

  // ---------------------------------------------------------------- the queue

  predicate Distinct(q: seq<nat>) {
    forall i, j :: 0 <= i < j < |q| ==> q[i] != q[j]
  }

  ghost predicate Follows(q: seq<nat>, a: nat, b: nat) {
    exists i :: 0 <= i < |q| - 1 && q[i] == a && q[i + 1] == b
  }

  ghost predicate Shape(s: State, q: seq<nat>) {
    && |s.phases| == |s.locks|
    && s.Proc(s.manager)
    && q != [] && Distinct(q)
    && (forall i :: 0 <= i < |q| ==> s.Proc(q[i]))
  }

  /** `q` is the queue hidden in the links: `q[0]` is where the token is or is heading, and each
      `q[i]` either already points at `q[i + 1]` or has that process's request on its way. */
  ghost predicate LinkAt(s: State, q: seq<nat>, i: int)
    requires Shape(s, q) && 0 <= i < |q|
  {
    var a := q[i];
    if i == |q| - 1 then
      s.locks[a].next == a
    else
      || (s.locks[a].next == q[i + 1] && Request(q[i + 1], a) !in s.net)
      || (s.locks[a].next == a && a != s.manager && Request(q[i + 1], a) in s.net)
  }

  ghost predicate Asking(s: State, p: nat) {
    p != s.manager && Request(p, s.manager) in s.net
  }

  /** What a process looks like, by its place in the queue. */
  ghost predicate Place(s: State, q: seq<nat>, p: nat)
    requires Shape(s, q) && s.Proc(p)
  {
    && s.locks[p].held == (s.phases[p] != Idle)
    && if p == q[0] then
         && (s.phases[p] == Waiting <==> Grant(p) in s.net)
         && (s.phases[p] == Idle ==> s.locks[p].next == p)
       else if p in q then
         s.phases[p] == Waiting
       else if Asking(s, p) then
         s.phases[p] == Waiting && s.locks[p].next == p
       else
         s.phases[p] == Idle && s.locks[p].next != p
  }

  /** What a message on the wire means. */
  ghost predicate Meant(s: State, q: seq<nat>, m: Message)
    requires Shape(s, q)
  {
    match m
    case Grant(p) => p == q[0]
    case Request(f, t) => (t == s.manager && f != t && f !in q && s.Proc(f)) || Follows(q, t, f)
  }

  ghost predicate Inv(s: State, q: seq<nat>) {
    && Shape(s, q)
    && s.locks[s.manager].tail == q[|q| - 1]
    && (forall i {:trigger LinkAt(s, q, i)} :: 0 <= i < |q| ==> LinkAt(s, q, i))
    && (forall p: nat {:trigger Place(s, q, p)} :: s.Proc(p) ==> Place(s, q, p))
    && (forall m {:trigger Meant(s, q, m)} :: m in s.net ==> Meant(s, q, m))
    && s.moved == s.granted + q[1..]
    && !s.crashed && !s.doubled
  }

  lemma InitInv(n: nat, manager: nat)
    requires manager < n
    ensures Inv(Init(n, manager), [0])
  {
  }

  /** The owner of an idle token is the whole front of the queue. */
  lemma OwnerIsFirst(s: State, q: seq<nat>, p: nat)
    requires Inv(s, q) && s.Proc(p) && s.locks[p].next == p && s.phases[p] == Idle
    ensures p == q[0]
  {
    assert Place(s, q, p);
  }

  // ---------------------------------------------------------------- every step keeps it

  lemma EnterInv(s: State, q: seq<nat>, p: nat)
    requires Inv(s, q) && Enabled(s, AcquireStep(p)) && s.locks[p].next == p
    ensures Inv(ApplyAcquire(s, p), q)
  {
    OwnerIsFirst(s, q, p);
    var t := ApplyAcquire(s, p);
    assert Place(s, q, p);
    forall x: nat | t.Proc(x) ensures Place(t, q, x) { assert Place(s, q, x); }
    forall m | m in t.net ensures Meant(t, q, m) { assert Meant(s, q, m); }
    forall i | 0 <= i < |q| ensures LinkAt(t, q, i) { assert LinkAt(s, q, i); }
  }

  lemma AskManagerInv(s: State, q: seq<nat>, p: nat)
    requires Inv(s, q) && Enabled(s, AcquireStep(p)) && s.locks[p].next != p && p != s.manager
    ensures Inv(ApplyAcquire(s, p), q)
  {
    var t := ApplyAcquire(s, p);
    assert Place(s, q, p);
    forall x: nat | t.Proc(x) ensures Place(t, q, x) { assert Place(s, q, x); }
    forall m | m in t.net ensures Meant(t, q, m) { assert m in s.net ==> Meant(s, q, m); }
    forall i | 0 <= i < |q| ensures LinkAt(t, q, i) { assert LinkAt(s, q, i); }
  }

  lemma AppendFollows(q: seq<nat>, p: nat)
    requires q != [] && Distinct(q) && p !in q
    ensures Distinct(q + [p]) && forall x :: x in q + [p] <==> x in q || x == p
    ensures forall a, b :: Follows(q, a, b) ==> Follows(q + [p], a, b)
    ensures Follows(q + [p], q[|q| - 1], p)
    ensures forall a :: !Follows(q, a, p)
  {
    forall a, b | Follows(q, a, b) ensures Follows(q + [p], a, b) {
      var i :| 0 <= i < |q| - 1 && q[i] == a && q[i + 1] == b;
      assert (q + [p])[i] == a && (q + [p])[i + 1] == b;
    }
    assert (q + [p])[|q| - 1] == q[|q| - 1] && (q + [p])[|q| - 1 + 1] == p;
  }

  lemma TailFollows(q: seq<nat>)
    requires |q| > 1 && Distinct(q)
    ensures forall a, b :: Follows(q, a, b) && a != q[0] ==> Follows(q[1..], a, b)
    ensures forall b :: Follows(q, q[0], b) ==> b == q[1]
    ensures forall a :: !Follows(q, a, q[0])
    ensures Distinct(q[1..]) && forall x :: x in q[1..] <==> x in q && x != q[0]
  {
    assert q == [q[0]] + q[1..];
    forall a, b | Follows(q, a, b) && a != q[0] ensures Follows(q[1..], a, b) {
      var i :| 0 <= i < |q| - 1 && q[i] == a && q[i + 1] == b;
      assert q[1..][i - 1] == a && q[1..][i - 1 + 1] == b;
    }
  }

  lemma ManagerAsksInv(s: State, q: seq<nat>)
    requires Inv(s, q) && Enabled(s, AcquireStep(s.manager)) && s.locks[s.manager].next != s.manager
    ensures Inv(ApplyAcquire(s, s.manager), q + [s.manager])
  {
    hide Follows;
    hide Distinct;
    var t, p := ApplyAcquire(s, s.manager), s.manager;
    var q' := q + [p];
    var last := q[|q| - 1];
    assert Place(s, q, p) && p !in q;
    AppendFollows(q, p);
    assert !Meant(s, q, Request(p, last));
    forall x: nat | t.Proc(x) ensures Place(t, q', x) { assert Place(s, q, x); }
    forall m | m in t.net ensures Meant(t, q', m) { assert m in s.net ==> Meant(s, q, m); }
    assert LinkAt(s, q, |q| - 1);
    forall i | 0 <= i < |q'| ensures LinkAt(t, q', i) {
      assert i < |q| - 1 ==> LinkAt(s, q, i);
    }
  }

  lemma KeepInv(s: State, q: seq<nat>, p: nat)
    requires Inv(s, q) && Enabled(s, ReleaseStep(p)) && s.locks[p].next == p
    ensures Inv(ApplyRelease(s, p), q)
  {
    var t := ApplyRelease(s, p);
    assert Place(s, q, p);
    forall x: nat | t.Proc(x) ensures Place(t, q, x) { assert Place(s, q, x); }
    forall m | m in t.net ensures Meant(t, q, m) { assert Meant(s, q, m); }
    forall i | 0 <= i < |q| ensures LinkAt(t, q, i) { assert LinkAt(s, q, i); }
  }

  /** Giving the token to the successor drops the head of the queue. */
  lemma PassInv(s: State, q: seq<nat>, p: nat)
    requires Inv(s, q) && Enabled(s, ReleaseStep(p)) && s.locks[p].next != p
    ensures |q| > 1 && Inv(ApplyRelease(s, p), q[1..])
  {
    hide Follows;
    hide Distinct;
    var t, q' := ApplyRelease(s, p), q[1..];
    assert Place(s, q, p) && p == q[0];
    assert LinkAt(s, q, 0);
    TailFollows(q);
    assert Shape(t, q');
    assert t.moved == t.granted + q'[1..] by {
      assert q' == [q[1]] + q'[1..];
    }
    assert Place(s, q, q[1]) && !Meant(s, q, Grant(q[1])) && !Meant(s, q, Request(p, s.manager));
    forall x: nat | t.Proc(x) ensures Place(t, q', x) { assert Place(s, q, x); }
    forall m | m in t.net ensures Meant(t, q', m) { assert m in s.net ==> Meant(s, q, m); }
    forall i | 0 <= i < |q'| ensures LinkAt(t, q', i) { assert LinkAt(s, q, i + 1); }
  }

  lemma GrantInv(s: State, q: seq<nat>, p: nat)
    requires Inv(s, q) && Enabled(s, Deliver(Grant(p)))
    ensures Inv(ApplyGrant(s, p), q)
  {
    var t := ApplyGrant(s, p);
    assert Meant(s, q, Grant(p)) && Place(s, q, p);
    forall x: nat | t.Proc(x) ensures Place(t, q, x) { assert Place(s, q, x); }
    forall m | m in t.net ensures Meant(t, q, m) { assert Meant(s, q, m); }
    forall i | 0 <= i < |q| ensures LinkAt(t, q, i) { assert LinkAt(s, q, i); }
  }

  /** A forwarded request reaches the process it is to follow. */
  lemma ForwardFacts(s: State, q: seq<nat>, f: nat, p: nat) returns (i: nat)
    requires Inv(s, q) && Request(f, p) in s.net && Follows(q, p, f)
    ensures i < |q| - 1 && q[i] == p && q[i + 1] == f
    ensures p != s.manager && s.locks[p].next == p
    ensures !s.locks[p].held ==> i == 0
  {
    i :| 0 <= i < |q| - 1 && q[i] == p && q[i + 1] == f;
    assert LinkAt(s, q, i) && Place(s, q, p);
  }

  lemma ForwardQueuedInv(s: State, q: seq<nat>, f: nat, p: nat)
    requires Inv(s, q) && Enabled(s, Deliver(Request(f, p))) && Follows(q, p, f) && s.locks[p].held
    ensures Inv(ApplyRequest(s, f, p), q)
  {
    var t := ApplyRequest(s, f, p);
    var k := ForwardFacts(s, q, f, p);
    assert Place(s, q, p) && f in q;
    forall x: nat | t.Proc(x) ensures Place(t, q, x) { assert Place(s, q, x); }
    forall m | m in t.net ensures Meant(t, q, m) { assert Meant(s, q, m); }
    forall i | 0 <= i < |q| ensures LinkAt(t, q, i) { assert LinkAt(s, q, i); }
  }

  lemma ForwardGrantedLinks(s: State, q: seq<nat>, f: nat, p: nat)
    requires Inv(s, q) && Enabled(s, Deliver(Request(f, p))) && Follows(q, p, f) && !s.locks[p].held
    ensures var t := ApplyRequest(s, f, p);
            && |q| > 1 && q[0] == p && q[1] == f
            && t == s.(locks := s.locks[p := s.locks[p].(next := f)],
                       net := s.net - {Request(f, p)} + {Grant(f)},
                       granted := s.granted + [f])
            && Shape(t, q[1..]) && forall i :: 0 <= i < |q| - 1 ==> LinkAt(t, q[1..], i)
  {
    var t, q' := ApplyRequest(s, f, p), q[1..];
    var k := ForwardFacts(s, q, f, p);
    TailFollows(q);
    assert Place(s, q, f) && !Meant(s, q, Grant(f));
    assert Shape(t, q');
    forall i | 0 <= i < |q'| ensures LinkAt(t, q', i) { assert LinkAt(s, q, i + 1); }
  }

  lemma ForwardGrantedInv(s: State, q: seq<nat>, f: nat, p: nat)
    requires Inv(s, q) && Enabled(s, Deliver(Request(f, p))) && Follows(q, p, f) && !s.locks[p].held
    ensures Inv(ApplyRequest(s, f, p), q[1..])
  {
    hide Follows;
    hide LinkAt;
    hide ApplyRequest;
    hide Distinct;
    var t, q' := ApplyRequest(s, f, p), q[1..];
    ForwardGrantedLinks(s, q, f, p);
    var k := ForwardFacts(s, q, f, p);
    TailFollows(q);
    assert t.moved == t.granted + q'[1..] by {
      assert q' == [q[1]] + q'[1..];
    }
    assert Place(s, q, p) && Place(s, q, f) && !Meant(s, q, Grant(f)) && !Meant(s, q, Request(p, s.manager));
    forall x: nat | t.Proc(x) ensures Place(t, q', x) { assert Place(s, q, x); }
    forall m | m in t.net ensures Meant(t, q', m) { assert m in s.net ==> Meant(s, q, m); }
  }

  /** The manager points at itself exactly when it is the last of the queue. */
  lemma ManagerIsLast(s: State, q: seq<nat>)
    requires Inv(s, q)
    ensures s.locks[s.manager].next == s.manager <==> s.locks[s.manager].tail == s.manager
  {
    var m := s.manager;
    assert Place(s, q, m) && LinkAt(s, q, |q| - 1);
    if m in q {
      var i :| 0 <= i < |q| && q[i] == m;
      assert LinkAt(s, q, i);
    }
  }

  lemma ManagerForwardsInv(s: State, q: seq<nat>, f: nat)
    requires Inv(s, q) && Enabled(s, Deliver(Request(f, s.manager))) && !Follows(q, s.manager, f)
    requires s.locks[s.manager].next != s.manager
    ensures Inv(ApplyRequest(s, f, s.manager), q + [f])
  {
    hide Follows;
    hide Distinct;
    var t, q' := ApplyRequest(s, f, s.manager), q + [f];
    var last := q[|q| - 1];
    assert Meant(s, q, Request(f, s.manager));
    ManagerIsLast(s, q);
    AppendFollows(q, f);
    assert Place(s, q, f) && Asking(s, f);
    assert !Meant(s, q, Request(f, last));
    forall x: nat | t.Proc(x) ensures Place(t, q', x) { assert Place(s, q, x); }
    forall m | m in t.net ensures Meant(t, q', m) { assert m in s.net ==> Meant(s, q, m); }
    assert LinkAt(s, q, |q| - 1);
    forall i | 0 <= i < |q'| ensures LinkAt(t, q', i) {
      assert i < |q| - 1 ==> LinkAt(s, q, i);
    }
  }

  lemma ManagerQueuesInv(s: State, q: seq<nat>, f: nat)
    requires Inv(s, q) && Enabled(s, Deliver(Request(f, s.manager))) && !Follows(q, s.manager, f)
    requires s.locks[s.manager].next == s.manager && s.locks[s.manager].held
    ensures Inv(ApplyRequest(s, f, s.manager), q + [f])
  {
    hide Follows;
    hide Distinct;
    var t, q' := ApplyRequest(s, f, s.manager), q + [f];
    assert Meant(s, q, Request(f, s.manager));
    ManagerIsLast(s, q);
    AppendFollows(q, f);
    assert Place(s, q, f) && Asking(s, f) && Place(s, q, s.manager);
    forall x: nat | t.Proc(x) ensures Place(t, q', x) { assert Place(s, q, x); }
    forall m | m in t.net ensures Meant(t, q', m) { assert m in s.net ==> Meant(s, q, m); }
    assert LinkAt(s, q, |q| - 1);
    forall i | 0 <= i < |q'| ensures LinkAt(t, q', i) {
      assert i < |q| - 1 ==> LinkAt(s, q, i);
    }
  }

  lemma ManagerGrantsInv(s: State, q: seq<nat>, f: nat)
    requires Inv(s, q) && Enabled(s, Deliver(Request(f, s.manager))) && !Follows(q, s.manager, f)
    requires s.locks[s.manager].next == s.manager && !s.locks[s.manager].held
    ensures Inv(ApplyRequest(s, f, s.manager), [f])
  {
    var t := ApplyRequest(s, f, s.manager);
    assert Meant(s, q, Request(f, s.manager)) && Place(s, q, s.manager);
    ManagerIsLast(s, q);
    assert q == [s.manager];
    assert Place(s, q, f) && Asking(s, f) && !Meant(s, q, Grant(f));
    forall x: nat | t.Proc(x) ensures Place(t, [f], x) { assert Place(s, q, x); }
    forall m | m in t.net ensures Meant(t, [f], m) { assert m in s.net ==> Meant(s, q, m); }
    assert LinkAt(t, [f], 0);
  }

  lemma StepInv(s: State, q: seq<nat>, a: Step) returns (q': seq<nat>)
    requires Inv(s, q) && Enabled(s, a)
    ensures Inv(Apply(s, a), q')
  {
    match a
    case AcquireStep(p) =>
      if s.locks[p].next == p {
        EnterInv(s, q, p);
        q' := q;
      } else if p == s.manager {
        ManagerAsksInv(s, q);
        q' := q + [p];
      } else {
        AskManagerInv(s, q, p);
        q' := q;
      }
    case ReleaseStep(p) =>
      if s.locks[p].next == p {
        KeepInv(s, q, p);
        q' := q;
      } else {
        PassInv(s, q, p);
        q' := q[1..];
      }
    case Deliver(Grant(p)) =>
      GrantInv(s, q, p);
      q' := q;
    case Deliver(Request(f, p)) =>
      assert Meant(s, q, Request(f, p));
      if Follows(q, p, f) {
        if s.locks[p].held {
          ForwardQueuedInv(s, q, f, p);
          q' := q;
        } else {
          ForwardGrantedInv(s, q, f, p);
          q' := q[1..];
        }
      } else if s.locks[p].next != p {
        ManagerForwardsInv(s, q, f);
        q' := q + [f];
      } else if s.locks[p].held {
        ManagerQueuesInv(s, q, f);
        q' := q + [f];
      } else {
        ManagerGrantsInv(s, q, f);
        q' := [f];
      }
  }
  // ---------------------------------------------------------------- every run

  lemma {:induction false} RunInv(n: nat, manager: nat, schedule: seq<Step>) returns (q: seq<nat>)
    requires manager < n
    ensures Inv(After(n, manager, schedule), q)
    ensures |After(n, manager, schedule).locks| == n && After(n, manager, schedule).manager == manager
    decreases |schedule|
  {
    if schedule == [] {
      InitInv(n, manager);
      q := [0];
    } else {
      var before := schedule[..|schedule| - 1];
      q := RunInv(n, manager, before);
      var s, a := After(n, manager, before), schedule[|schedule| - 1];
      if Enabled(s, a) {
        q := StepInv(s, q, a);
      }
    }
  }

  /** The three forms the token takes. */
  ghost predicate HasToken(s: State, p: nat) {
    && s.Proc(p)
    && (s.phases[p] == Inside || Grant(p) in s.net || (s.phases[p] == Idle && s.locks[p].next == p))
  }

  /** One token per lock, in every reachable state and for every interleaving: so at most one
      process is inside, no error exit is taken, and no two equal messages are ever in flight. */
  lemma OneToken(n: nat, manager: nat, schedule: seq<Step>)
    requires manager < n
    ensures var s := After(n, manager, schedule);
            && (exists p :: HasToken(s, p))
            && (forall p, r :: HasToken(s, p) && HasToken(s, r) ==> p == r)
            && (forall p: nat :: Grant(p) in s.net ==> s.Proc(p) && s.phases[p] == Waiting)
            && !s.crashed && !s.doubled
  {
    var s := After(n, manager, schedule);
    var q := RunInv(n, manager, schedule);
    assert Place(s, q, q[0]) && HasToken(s, q[0]);
    forall p | HasToken(s, p) ensures p == q[0] {
      assert Place(s, q, p) && (Grant(p) in s.net ==> Meant(s, q, Grant(p)));
    }
    forall p: nat | Grant(p) in s.net ensures s.Proc(p) && s.phases[p] == Waiting {
      assert Meant(s, q, Grant(p)) && Place(s, q, q[0]);
    }
  }

  lemma MutualExclusion(n: nat, manager: nat, schedule: seq<Step>, p: nat, r: nat)
    requires manager < n && p < n && r < n
    ensures var s := After(n, manager, schedule);
            p < |s.phases| && r < |s.phases| && (s.phases[p] == Inside && s.phases[r] == Inside ==> p == r)
  {
    var q := RunInv(n, manager, schedule);
    OneToken(n, manager, schedule);
    var s := After(n, manager, schedule);
    assert s.phases[p] == Inside ==> HasToken(s, p);
    assert s.phases[r] == Inside ==> HasToken(s, r);
  }

  /** Any request in flight is addressed to a process that will queue, grant or forward it: the
      handler's error exit is unreachable. */
  lemma RequestIsExpected(n: nat, manager: nat, schedule: seq<Step>, f: nat, t: nat)
    requires manager < n
    requires Request(f, t) in After(n, manager, schedule).net
    ensures var s := After(n, manager, schedule);
            && s.Proc(t) && f != t
            && !HandleBy(t, manager, s.locks[t], f).1.Unexpected?
            && (t == manager || s.locks[t].next == t)
  {
    var s := After(n, manager, schedule);
    var q := RunInv(n, manager, schedule);
    assert Meant(s, q, Request(f, t));
    if Follows(q, t, f) {
      var i := ForwardFacts(s, q, f, t);
    }
  }

  /** `b` comes right after `a`: `a` points at it, or its request to `a` is in flight. */
  ghost predicate Succeeds(s: State, a: nat, b: nat)
    requires s.Proc(a)
  {
    b != a && (s.locks[a].next == b || (s.locks[a].next == a && Request(b, a) in s.net))
  }

  ghost predicate IsQueue(s: State, q: seq<nat>) {
    && q != [] && Distinct(q)
    && (forall i :: 0 <= i < |q| ==> s.Proc(q[i]))
    && HasToken(s, q[0])
    && (forall i :: 0 <= i < |q| - 1 ==> Succeeds(s, q[i], q[i + 1]))
    && s.Proc(s.manager)
    && q[|q| - 1] == s.locks[s.manager].tail
    && s.moved == s.granted + q[1..]
    && (forall p: nat :: s.Proc(p) && s.phases[p] == Waiting ==> p in q || Request(p, s.manager) in s.net)
    && (forall i :: 1 <= i < |q| ==> s.phases[q[i]] == Waiting)
  }

  /** The links and the requests in flight spell out an acyclic queue that starts at the token and
      ends at the manager's `tail`.  Behind the token it holds exactly the processes the manager
      has moved `tail` to and that have no grant yet, in that order, so grants follow the order of
      the tail moves; a waiting process outside it still has its request on the way to the manager. */
  lemma QueueFromLinks(n: nat, manager: nat, schedule: seq<Step>)
    requires manager < n
    ensures exists q :: IsQueue(After(n, manager, schedule), q)
    ensures After(n, manager, schedule).granted <= After(n, manager, schedule).moved
  {
    var s := After(n, manager, schedule);
    var q := RunInv(n, manager, schedule);
    assert Place(s, q, q[0]);
    forall i | 0 <= i < |q| - 1 ensures Succeeds(s, q[i], q[i + 1]) {
      assert LinkAt(s, q, i);
    }
    forall p: nat | s.Proc(p) && s.phases[p] == Waiting ensures p in q || Request(p, s.manager) in s.net {
      assert Place(s, q, p);
    }
    forall i | 1 <= i < |q| ensures s.phases[q[i]] == Waiting {
      assert Place(s, q, q[i]);
    }
    assert IsQueue(s, q);
  }

  lemma ManagerPointsAtItself(n: nat, manager: nat, schedule: seq<Step>)
    requires manager < n
    ensures var s := After(n, manager, schedule);
            && s.Proc(manager)
            && (s.locks[manager].next == manager <==> s.locks[manager].tail == manager)
  {
    var q := RunInv(n, manager, schedule);
    ManagerIsLast(After(n, manager, schedule), q);
  }

  /** No reachable state is stuck: while someone waits, a message can be delivered or a process
      inside can release. */
  lemma SomethingCanHappen(n: nat, manager: nat, schedule: seq<Step>, p: nat)
    requires manager < n && p < n
    requires p < |After(n, manager, schedule).phases| && After(n, manager, schedule).phases[p] == Waiting
    ensures exists a: Step :: !a.AcquireStep? && Enabled(After(n, manager, schedule), a)
  {
    var s := After(n, manager, schedule);
    var q := RunInv(n, manager, schedule);
    assert Place(s, q, p) && Place(s, q, q[0]);
    if s.phases[q[0]] == Inside {
      assert Enabled(s, ReleaseStep(q[0]));
    } else if s.phases[q[0]] == Waiting {
      assert Enabled(s, Deliver(Grant(q[0])));
    } else if |q| > 1 {
      assert LinkAt(s, q, 0);
      assert Enabled(s, Deliver(Request(q[1], q[0])));
    } else {
      assert Enabled(s, Deliver(Request(p, s.manager)));
    }
  }
}
