/** All processes together: page faults, lock requests and grants, and barriers, in any interleaving.

    A step is one handler or one call between two waits; messages are delivered once. Which process
    grants a lock to which request is left open here. */
module Systems {
  import opened Clocks
  import opened Nodes
  import opened Requests

  datatype Option<T> = None | Some(value: T)

  /** A grant or a barrier reply on its way; `sent` is the sender's clock, kept for the proof. */
  datatype Mail = Mail(ivs: seq<Interval>, sent: seq<nat>)

  datatype Status =
    | Running
    | Requesting(vt: seq<nat>)
    | Arrived(manager: nat, vt: seq<nat>, ivs: seq<Interval>, collected: bool)
    | Departing(vt: seq<nat>)

  /** `home[g]` is the manager of page `g`.  `failed` is set once a process has been asked for a diff that it has
      neither got nor a twin to make it from; there the model stops. */
  datatype State = State(home: seq<nat>, nodes: seq<Node>, status: seq<Status>, inbox: seq<Option<Mail>>, failed: bool)

  datatype Step =
    | Touch(p: nat, page: nat, write: bool)
    | Request(p: nat)
    | Grant(from: nat, p: nat, close: bool)
    | Deliver(p: nat)
    | Arrive(p: nat, manager: nat)
    | Collect(p: nat)
    | Depart(manager: nat)
    | Leave(p: nat)

  // ---------------------------------------------------------------- steps

  predicate WellSized(s: State) {
    && |s.nodes| == |s.status| == |s.inbox|
    && (forall p: nat :: p < |s.nodes| ==> s.nodes[p].id == p && SizedNode(s, p))
    && (forall g: nat :: g < |s.home| ==> s.home[g] < |s.nodes|)
  }

  predicate SizedNode(s: State, p: nat)
    requires p < |s.nodes|
  {
    |s.nodes[p].lists| == |s.nodes[p].clock| == |s.nodes[p].inverse| == |s.nodes| && |s.nodes[p].state| == |s.home|
  }

  function CloseAt(s: State, p: nat): (t: State)
    requires WellSized(s) && p < |s.nodes|
    ensures WellSized(t) && |t.nodes| == |s.nodes| && t.status == s.status && t.inbox == s.inbox && t.home == s.home && t.failed == s.failed
  {
    s.(nodes := s.nodes[p := Create(s.nodes[p], s.nodes[p].clock)])
  }

  /** Sends process `p`, waiting with vector `v`, what `from` has and `v` lacks. */
  function Post(s: State, from: nat, p: nat): State
    requires WellSized(s) && from < |s.nodes| && p < |s.nodes| && s.status[p].Requesting? && |s.status[p].vt| == |s.nodes|
  {
    var x := s.nodes[from];
    s.(nodes := s.nodes[from := x.(inverse := x.inverse[p := x.clock[from]])],
       inbox := s.inbox[p := Some(Mail(Missing(x.lists, s.status[p].vt), x.clock))])
  }

  function Receive(s: State, p: nat, b: Basis): (t: State)
    requires WellSized(s) && p < |s.nodes| && s.inbox[p].Some? && Fit(|s.nodes|, s.inbox[p].value.ivs)
    requires b.Saved? ==> |b.vt| == |s.nodes|
    ensures WellSized(t) && |t.nodes| == |s.nodes|
  {
    s.(nodes := s.nodes[p := Incorporate(s.nodes[p], s.inbox[p].value.ivs, b)],
       status := s.status[p := Running],
       inbox := s.inbox[p := None])
  }

  /** After a barrier everybody knows all that `p` has. */
  function TellAll(s: State, p: nat): State
    requires WellSized(s) && p < |s.nodes|
  {
    var x := s.nodes[p];
    s.(nodes := s.nodes[p := x.(inverse :=
      seq(|s.nodes|, j requires 0 <= j < |s.nodes| => if j == p then x.inverse[j] else x.clock[p]))])
  }

  function Register(s: State, p: nat, m: nat): State
    requires WellSized(s) && p < |s.nodes| && m < |s.nodes|
  {
    var x := s.nodes[p];
    var ivs := if p == m then [] else After(x.lists[p], x.inverse[m]);
    s.(status := s.status[p := Arrived(m, x.clock, ivs, p == m)])
  }

  function CollectFrom(s: State, p: nat): State
    requires WellSized(s) && p < |s.nodes| && s.status[p].Arrived? && s.status[p].manager < |s.nodes|
    requires Fit(|s.nodes|, s.status[p].ivs)
  {
    var m := s.status[p].manager;
    s.(nodes := s.nodes[m := Incorporate(s.nodes[m], s.status[p].ivs, Null)],
       status := s.status[p := s.status[p].(collected := true)])
  }

  /** The manager's replies to everybody. */
  function Reply(s: State, m: nat): (t: State)
    requires WellSized(s) && m < |s.nodes|
    requires forall q: nat :: q < |s.nodes| ==> s.status[q].Arrived? && |s.status[q].vt| == |s.nodes|
    ensures WellSized(t) && t.nodes == s.nodes
  {
    var x := s.nodes[m];
    s.(status := seq(|s.nodes|, q requires 0 <= q < |s.nodes| => if q == m then Running else Departing(s.status[q].vt)),
       inbox := seq(|s.nodes|, q requires 0 <= q < |s.nodes| =>
         if q == m then None else Some(Mail(Missing(x.lists, s.status[q].vt), x.clock))))
  }

  /** The home of a page no longer has it to itself once it has sent a copy. */
  function Share(x: Node, g: nat): Node
    requires g < |x.state|
  {
    if x.state[g] == Private then x.(state := x.state[g := Valid]) else x
  }

  function ServeAll(nodes: seq<Node>, asks: seq<Ask>): (r: seq<Node>)
    requires forall k :: 0 <= k < |asks| ==> asks[k].server < |nodes|
    ensures |r| == |nodes|
    decreases |asks|
  {
    if asks == [] then nodes
    else ServeAll(nodes[asks[0].server := Serve(nodes[asks[0].server], asks[0].mark)], asks[1..])
  }

  /** The faults that reading or writing a page takes. */
  function Fault(s: State, p: nat, g: nat, write: bool, asks: seq<Ask>): seq<Node>
    requires WellSized(s) && p < |s.nodes| && g < |s.home|
    requires forall k :: 0 <= k < |asks| ==> asks[k].server < |s.nodes|
  {
    var x := s.nodes[p];
    if x.state[g] == Private || x.state[g] == Valid then
      s.nodes[p := Access(x, g, write)]
    else
      var h := s.home[g];
      var shared := if x.state[g] == Empty then s.nodes[h := Share(s.nodes[h], g)] else s.nodes;
      var served := ServeAll(shared, asks);
      if g < |served[p].state| then served[p := Access(served[p], g, write)] else served
  }

  ghost predicate Enabled(s: State, step: Step)
    requires WellSized(s)
  {
    var n := |s.nodes|;
    !s.failed && match step
    case Touch(p, g, write) => p < n && g < |s.home| && s.status[p].Running?
    case Request(p) => p < n && s.status[p].Running?
    case Grant(from, p, close) =>
      from < n && p < n && from != p && s.status[p].Requesting? && |s.status[p].vt| == n && s.inbox[p].None?
    case Deliver(p) =>
      && p < n && s.status[p].Requesting? && s.inbox[p].Some?
      && |s.status[p].vt| == n && Fit(n, s.inbox[p].value.ivs)
    case Arrive(p, m) => p < n && m < n && s.status[p].Running?
    case Collect(p) =>
      && p < n && s.status[p].Arrived? && !s.status[p].collected && Fit(n, s.status[p].ivs)
      && s.status[p].manager < n && AtOwnBarrier(s, s.status[p].manager)
    case Depart(m) =>
      && m < n && AtOwnBarrier(s, m)
      && forall q: nat :: q < n ==> s.status[q].Arrived? && s.status[q].manager == m && s.status[q].collected && |s.status[q].vt| == n
    case Leave(p) => p < n && s.status[p].Departing? && s.inbox[p].Some? && Fit(n, s.inbox[p].value.ivs)
  }

  /** The manager of a barrier that has arrived there itself. */
  predicate AtOwnBarrier(s: State, m: nat) {
    m < |s.status| && s.status[m].Arrived? && s.status[m].manager == m
  }

  ghost function Apply(s: State, step: Step): State
    requires WellSized(s) && Enabled(s, step)
  {
    match step
    case Touch(p, g, write) =>
      var asks := Wanted(s.nodes[p], g);
      if AllAnswered(s.nodes, asks) then s.(nodes := Fault(s, p, g, write, asks)) else s.(failed := true)
    case Request(p) => s.(status := s.status[p := Requesting(s.nodes[p].clock)])
    case Grant(from, p, close) => Post(if close then CloseAt(s, from) else s, from, p)
    case Deliver(p) => Receive(s, p, Saved(s.status[p].vt))
    case Arrive(p, m) => Register(CloseAt(s, p), p, m)
    case Collect(p) => CollectFrom(s, p)
    case Depart(m) => TellAll(Reply(s, m), m)
    case Leave(p) => var t := Receive(s, p, Live); TellAll(t, p)
  }

  // ---------------------------------------------------------------- what must hold

  /** How much of process `p` process `q` has been told: what it knows or what is on its way. */
  function Told(s: State, q: nat, p: nat): nat
    requires q < |s.nodes| && q < |s.inbox| && p < |s.nodes[q].lists|
  {
    var known := |s.nodes[q].lists[p]|;
    if s.inbox[q].Some? && p < |s.inbox[q].value.sent| && known < s.inbox[q].value.sent[p] then
      s.inbox[q].value.sent[p]
    else
      known
  }

  ghost predicate Laid(s: State) {
    && |s.nodes| == |s.status| == |s.inbox|
    && (forall p: nat :: p < |s.nodes| ==> s.nodes[p].id == p && Nodes.Inv(|s.nodes|, |s.home|, s.nodes[p]))
    && (forall p: nat :: p < |s.nodes| ==> LaidNode(s, p))
  }

  ghost predicate LaidNode(s: State, p: nat)
    requires p < |s.nodes|
  {
    && |s.nodes[p].lists| == |s.nodes[p].clock| == |s.nodes[p].inverse| == |s.nodes| && |s.nodes[p].state| == |s.home|
    && (forall i: nat :: i < |s.nodes| ==> |s.nodes[p].lists[i]| == s.nodes[p].clock[i])
  }

  /** What a process knows of another is a prefix of the other's own list. */
  ghost predicate Prefixes(s: State) {
    forall p: nat, i: nat :: p < |s.nodes| && i < |s.nodes| ==> Prefix(s, p, i)
  }

  ghost predicate Prefix(s: State, p: nat, i: nat) {
    && p < |s.nodes| && i < |s.nodes| && i < |s.nodes[p].lists| && i < |s.nodes[i].lists|
    && s.nodes[p].lists[i] <= s.nodes[i].lists[i]
  }

  /** Whoever holds a page privately is its home, and nobody else has a copy or wrote it. */
  ghost predicate Exclusive(s: State) {
    && (forall g: nat :: g < |s.home| ==> s.home[g] < |s.nodes|)
    && (forall p: nat, g: nat :: p < |s.nodes| && g < |s.home| && g < |s.nodes[p].state| ==> PageOk(s, p, g))
  }

  ghost predicate PageOk(s: State, p: nat, g: nat)
    requires p < |s.nodes| && g < |s.home| && g < |s.nodes[p].state|
  {
    && (s.home[g] == p ==> s.nodes[p].state[g] != Empty)
    && (s.nodes[p].state[g] == Private ==>
          && s.home[g] == p
          && (forall q: nat :: q < |s.nodes| && q != p && g < |s.nodes[q].state| ==> s.nodes[q].state[g] == Empty)
          && (forall i: nat, k: nat :: i < |s.nodes| && i < |s.nodes[i].lists| && k < |s.nodes[i].lists[i]| ==>
                g !in s.nodes[i].lists[i][k].pages))
  }

  ghost predicate StatusOk(s: State, p: nat)
    requires Laid(s) && p < |s.nodes|
  {
    var x := s.nodes[p];
    match s.status[p]
    case Running => s.inbox[p].None?
    case Requesting(v) => AtMost(v, x.clock) && (x.dirty != {} ==> MayStamp(x, v))
    case Arrived(m, v, ivs, collected) =>
      && s.inbox[p].None? && x.dirty == {} && m < |s.nodes|
      && |ivs| <= |x.lists[p]| && ivs == x.lists[p][|x.lists[p]| - |ivs|..]
      && |v| == |s.nodes| && v[p] == |x.lists[p]|
      && (p != m ==> v == x.clock && |x.lists[p]| - |ivs| <= Told(s, m, p))
      && (p == m ==> collected)
      && (collected ==> s.status[m].Arrived? && s.status[m].manager == m && |s.nodes[m].lists[p]| == |x.lists[p]|)
    case Departing(v) =>
      && s.inbox[p].Some? && x.dirty == {} && v == x.clock && AtMost(v, s.inbox[p].value.sent)
      && s.inbox[p].value.sent[p] == |x.lists[p]|
      && (forall q: nat :: q < |s.nodes| ==> |x.lists[p]| <= Told(s, q, p))
  }

  /** The lists of a process with clock `c`. */
  function Cut(s: State, c: seq<nat>): (r: seq<seq<Interval>>)
    requires Cuttable(s, c)
    ensures |r| == |c|
  {
    seq(|c|, i requires 0 <= i < |c| => s.nodes[i].lists[i][..c[i]])
  }

  predicate Cuttable(s: State, c: seq<nat>) {
    |c| == |s.nodes| && forall i :: 0 <= i < |c| ==> i < |s.nodes[i].lists| && c[i] <= |s.nodes[i].lists[i]|
  }

  ghost predicate MailOk(s: State, p: nat)
    requires Laid(s) && p < |s.nodes|
  {
    s.inbox[p].Some? ==>
      && Cuttable(s, s.inbox[p].value.sent)
      && (s.status[p].Requesting? || s.status[p].Departing?)
      && |s.status[p].vt| == |s.nodes|
      && s.inbox[p].value.ivs == Missing(Cut(s, s.inbox[p].value.sent), s.status[p].vt)
  }

  /** A process never believes another to know more of it than that one has been told. */
  ghost predicate InverseOk(s: State, p: nat, q: nat)
    requires Laid(s) && p < |s.nodes| && q < |s.nodes|
  {
    p != q ==> s.nodes[p].inverse[q] <= Told(s, q, p)
  }

  /** Nobody has a diff that its maker has not made. */
  ghost predicate Owned(nodes: seq<Node>) {
    forall q: nat, m: Mark :: q < |nodes| && m in nodes[q].diffs ==> m.id < |nodes| && m in nodes[m.id].diffs
  }

  ghost predicate Consistent(s: State) {
    && Laid(s) && Prefixes(s) && Exclusive(s) && Owned(s.nodes)
    && (forall p: nat :: p < |s.nodes| ==> StatusOk(s, p))
    && (forall p: nat :: p < |s.nodes| ==> MailOk(s, p))
    && (forall p: nat, q: nat :: p < |s.nodes| && q < |s.nodes| ==> InverseOk(s, p, q))
  }
}
