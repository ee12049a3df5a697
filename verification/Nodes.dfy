/** What one process keeps: its clock, the intervals it knows, and the state of its pages.

    A write notice is a page, a process and a time: the interval of that time of that process names
    the page. A notice is pushed on the page exactly when its interval is enqueued, so the stacks of
    notices are read off the lists of intervals; what is kept beside them is which notices have their diff. */
module Nodes {
  import opened Clocks

  datatype Interval = Interval(id: nat, vt: seq<nat>, pages: set<nat>)

  datatype PageState = Valid | Invalid | Private | Empty

  /** A write notice of `page` by process `id` at its time `time`. */
  datatype Mark = Mark(page: nat, id: nat, time: nat)

  /** The vector an interval made while incorporating is stamped with: none, the process's own clock
      itself, or the copy saved when the lock was requested. */
  datatype Basis = Null | Live | Saved(vt: seq<nat>)

  datatype Node = Node(
    id: nat,
    clock: seq<nat>,
    lists: seq<seq<Interval>>,
    inverse: seq<nat>,
    dirty: set<nat>,
    twins: set<nat>,
    state: seq<PageState>,
    diffs: set<Mark>)

  /** A process at the start: nothing known, its pages private where it is their manager and empty elsewhere. */
  function Fresh(n: nat, home: seq<nat>, p: nat): Node {
    Node(p, seq(n, i => 0), seq(n, i => []), seq(n, i => 0), {}, {},
         seq(|home|, g requires 0 <= g < |home| => if home[g] == p then Private else Empty), {})
  }

  // ---------------------------------------------------------------- steps

  function Advanced(v: seq<nat>, i: nat): seq<nat>
    requires i < |v|
  {
    v[i := v[i] + 1]
  }

  /** Closes the current interval if a page is dirty, stamped with `v` advanced. */
  function Create(x: Node, v: seq<nat>): (y: Node)
    requires x.id < |v| && x.id < |x.clock| && x.id < |x.lists|
    ensures y.id == x.id && |y.lists| == |x.lists| && |y.clock| == |x.clock|
  {
    if x.dirty == {} then
      x
    else
      var vt := Advanced(v, x.id);
      x.(clock := x.clock[x.id := vt[x.id]],
         lists := x.lists[x.id := x.lists[x.id] + [Interval(x.id, vt, x.dirty)]],
         dirty := {})
  }

  /** The time of the last interval of a list that names a page, 0 if none does. */
  function Newest(list: seq<Interval>, g: nat): (t: nat)
    ensures t <= |list|
    ensures t > 0 ==> g in list[t - 1].pages
    ensures forall k :: t <= k < |list| ==> g !in list[k].pages
  {
    if list == [] then 0
    else if g in list[|list| - 1].pages then |list|
    else Newest(list[..|list| - 1], g)
  }

  predicate Noticed(x: Node, g: nat, i: nat, t: nat) {
    i < |x.lists| && 1 <= t <= |x.lists[i]| && g in x.lists[i][t - 1].pages
  }

  /** The mark of a process's own newest notice of a page. */
  function OwnMark(x: Node, g: nat): Mark
    requires x.id < |x.lists|
  {
    Mark(g, x.id, Newest(x.lists[x.id], g))
  }

  /** The newest own notice of the page has no diff yet. */
  predicate Undiffed(x: Node, g: nat)
    requires x.id < |x.lists|
  {
    Newest(x.lists[x.id], g) > 0 && OwnMark(x, g) !in x.diffs
  }

  predicate IsNew(x: Node, iv: Interval) {
    iv.id < |x.clock| && iv.id < |iv.vt| && x.clock[iv.id] < iv.vt[iv.id]
  }

  /** The pages that an interval invalidates. */
  function Hit(x: Node, iv: Interval): set<nat> {
    set g | g in iv.pages && g < |x.state| && x.state[g] == Valid
  }

  /** Enqueues an interval, invalidates its pages, and makes the diffs their twins stand for. */
  function Absorb(x: Node, iv: Interval): Node
    requires x.id < |x.lists| && iv.id < |x.lists| && iv.id < |x.clock| && iv.id < |iv.vt|
    requires x.id < |iv.vt| && iv.id < |x.inverse|
  {
    var hit := Hit(x, iv);
    var seen := iv.vt[x.id];
    x.(clock := x.clock[iv.id := iv.vt[iv.id]],
       lists := x.lists[iv.id := x.lists[iv.id] + [iv]],
       inverse := if seen > x.inverse[iv.id] then x.inverse[iv.id := seen] else x.inverse,
       state := seq(|x.state|, g requires 0 <= g < |x.state| => if g in hit then Invalid else x.state[g]),
       twins := x.twins - hit,
       diffs := x.diffs + set g | g in hit * x.twins :: OwnMark(x, g))
  }

  function Base(x: Node, b: Basis): seq<nat> {
    if b.Saved? then b.vt else x.clock
  }

  /** A dirty page that is about to be invalidated has the current interval closed first. */
  function Learn(x: Node, iv: Interval, b: Basis): Node
    requires Sized(x) && |iv.vt| == |x.clock| && iv.id < |x.clock| && |Base(x, b)| == |x.clock|
  {
    if !IsNew(x, iv) then x
    else if Hit(x, iv) * x.dirty != {} then Absorb(Create(x, Base(x, b)), iv)
    else Absorb(x, iv)
  }

  predicate Sized(x: Node) {
    x.id < |x.clock| == |x.lists| == |x.inverse|
  }

  predicate Fit(n: nat, ivs: seq<Interval>) {
    forall k :: 0 <= k < |ivs| ==> |ivs[k].vt| == n && ivs[k].id < n
  }

  function Incorporate(x: Node, ivs: seq<Interval>, b: Basis): (y: Node)
    requires Sized(x) && Fit(|x.clock|, ivs) && (b.Saved? ==> |b.vt| == |x.clock|)
    ensures Sized(y) && |y.clock| == |x.clock| && |y.state| == |x.state| && y.id == x.id
    decreases |ivs|
  {
    if ivs == [] then x else Incorporate(Learn(x, ivs[0], b), ivs[1..], b)
  }

  /** Everything known about a page, once the pending diffs have been fetched and applied. */
  function Known(x: Node, g: nat): set<Mark> {
    set i: nat, t: nat | i < |x.lists| && 1 <= t <= |x.lists[i]| && g in x.lists[i][t - 1].pages :: Mark(g, i, t)
  }

  function Fetch(x: Node, g: nat): Node
    requires g < |x.state|
  {
    x.(state := x.state[g := Valid], diffs := x.diffs + Known(x, g))
  }

  function MakeTwin(x: Node, g: nat): Node {
    x.(twins := x.twins + {g}, dirty := x.dirty + {g})
  }

  /** A process's own side of reading or writing a page: it is brought up to date unless it is, and the first write
      since the last diff makes a twin. */
  function Access(x: Node, g: nat, write: bool): Node
    requires g < |x.state|
  {
    if x.state[g] == Private then
      x
    else
      var y := if x.state[g] == Valid then x else Fetch(x, g);
      if write && g !in y.twins then MakeTwin(y, g) else y
  }

  /** Answers a request for one diff, making it from the twin if there is none yet. */
  function Serve(x: Node, m: Mark): Node {
    if m in x.diffs then x else x.(diffs := x.diffs + {m}, twins := x.twins - {m.page})
  }

  // ---------------------------------------------------------------- the invariant of one process

  predicate WellStamped(n: nat, np: nat, iv: Interval, i: nat, k: nat) {
    iv.id == i < n && |iv.vt| == n && iv.vt[i] == k + 1 && forall g :: g in iv.pages ==> g < np
  }

  /** Lists are contiguous: the interval at place `k` has time `k + 1`, and the clock counts them. */
  ghost predicate Shape(n: nat, np: nat, x: Node) {
    && x.id < n && |x.clock| == |x.lists| == |x.inverse| == n && |x.state| == np
    && (forall g :: g in x.twins ==> g < np)
    && (forall i: nat :: i < n ==> |x.lists[i]| == x.clock[i])
    && (forall i: nat, k: nat :: i < n && k < |x.lists[i]| ==> WellStamped(n, np, x.lists[i][k], i, k))
  }

  /** A process's own stamps never decrease and never pass `v`. */
  ghost predicate Ascending(list: seq<Interval>, v: seq<nat>) {
    && (forall k :: 0 <= k < |list| ==> AtMost(list[k].vt, v))
    && (forall k, l :: 0 <= k < l < |list| ==> AtMost(list[k].vt, list[l].vt))
  }

  /** Twin coverage: a page with a twin is dirty or has an undiffed newest own notice, never both;
      and no other own notice lacks its diff. */
  ghost predicate Covered(x: Node)
    requires x.id < |x.lists|
  {
    && x.dirty <= x.twins
    && (forall g :: g in x.twins ==> (g in x.dirty <==> !Undiffed(x, g)))
    && (forall g: nat, t: nat :: Noticed(x, g, x.id, t) && Mark(g, x.id, t) !in x.diffs ==>
          g in x.twins && t == Newest(x.lists[x.id], g))
  }

  ghost predicate PagesRight(x: Node) {
    && (forall g :: g in x.twins ==> g < |x.state| && x.state[g] == Valid)
    && (forall g: nat, i: nat, t: nat :: g < |x.state| && x.state[g] == Valid && i != x.id && Noticed(x, g, i, t) ==>
          Mark(g, i, t) in x.diffs)
    && (forall g: nat, i: nat, t: nat :: g < |x.state| && x.state[g] == Private ==> !Noticed(x, g, i, t))
    && (forall m :: m in x.diffs ==> Noticed(x, m.page, m.id, m.time))
    && (forall g: nat, t: nat :: Noticed(x, g, x.id, t) ==> g < |x.state| && x.state[g] != Empty)
  }

  /** The newest own interval on a page with a twin had seen all that is known about the page. */
  ghost predicate TwinSees(x: Node)
    requires x.id < |x.lists|
  {
    forall g: nat, i: nat, t: nat :: g in x.twins && g !in x.dirty && Noticed(x, g, i, t) ==> SeenBy(x, g, i, t)
  }

  /** An invalid page is one somebody wrote. */
  ghost predicate InvalidNoticed(x: Node) {
    forall g: nat :: g < |x.state| && x.state[g] == Invalid ==> exists i: nat, t: nat :: Noticed(x, g, i, t)
  }

  predicate SeenBy(x: Node, g: nat, i: nat, t: nat)
    requires x.id < |x.lists|
  {
    var newest := Newest(x.lists[x.id], g);
    newest > 0 && i < |x.lists[x.id][newest - 1].vt| && t <= x.lists[x.id][newest - 1].vt[i]
  }

  /** Whatever an own interval that wrote a page had seen of that page, its diff is at hand. */
  ghost predicate CanServe(x: Node) {
    forall g: nat, t: nat, i: nat, u: nat ::
      Noticed(x, g, x.id, t) && Noticed(x, g, i, u) && i != x.id
      && i < |x.lists[x.id][t - 1].vt| && u <= x.lists[x.id][t - 1].vt[i] ==>
        Mark(g, i, u) in x.diffs
  }

  /** The notices of a page by one process get their diffs oldest first. */
  ghost predicate OldestDiffed(x: Node) {
    forall g: nat, i: nat, t: nat, u: nat ::
      Mark(g, i, t) in x.diffs && u < t && Noticed(x, g, i, u) ==> Mark(g, i, u) in x.diffs
  }

  ghost predicate Inv(n: nat, np: nat, x: Node) {
    && Shape(n, np, x) && Ascending(x.lists[x.id], x.clock) && Covered(x) && PagesRight(x) && CanServe(x)
    && OldestDiffed(x) && TwinSees(x) && InvalidNoticed(x)
  }

  // ---------------------------------------------------------------- every step keeps it

  lemma NewestSnoc(list: seq<Interval>, iv: Interval, g: nat)
    ensures Newest(list + [iv], g) == if g in iv.pages then |list| + 1 else Newest(list, g)
  {
    assert (list + [iv])[..|list|] == list;
  }

  /** `v` may stamp the next own interval. */
  ghost predicate MayStamp(x: Node, v: seq<nat>) {
    && x.id < |x.lists| && AtMost(v, x.clock) && x.id < |v| && v[x.id] == x.clock[x.id] && Ascending(x.lists[x.id], v)
    && CoversDirty(x, v)
  }

  /** All that is known about the dirty pages was known at `v`. */
  ghost predicate CoversDirty(x: Node, v: seq<nat>) {
    forall g: nat, i: nat, t: nat :: g in x.dirty && Noticed(x, g, i, t) ==> i < |v| && t <= v[i]
  }

  lemma CreateKeepsShape(n: nat, np: nat, x: Node, v: seq<nat>)
    requires Inv(n, np, x) && MayStamp(x, v)
    ensures var y := Create(x, v); Shape(n, np, y) && Ascending(y.lists[y.id], y.clock)
  {
    hide Covered;
    hide PagesRight;
    hide CanServe;
    hide OldestDiffed;
    hide TwinSees;
    hide InvalidNoticed;
    if x.dirty != {} {
      assert x.dirty <= x.twins by { DirtyTwins(x); }
      var y := Create(x, v);
      var iv := Interval(x.id, Advanced(v, x.id), x.dirty);
      assert WellStamped(n, np, iv, x.id, |x.lists[x.id]|);
      assert y.lists[x.id] == x.lists[x.id] + [iv];
      forall i: nat, k: nat | i < n && k < |y.lists[i]| ensures WellStamped(n, np, y.lists[i][k], i, k) {
        if k < |x.lists[i]| {
          assert WellStamped(n, np, x.lists[i][k], i, k);
        }
      }
    }
  }

  lemma NoticedAfterCreate(x: Node, v: seq<nat>, g: nat, i: nat, t: nat)
    requires x.id < |v| && x.id < |x.clock| && x.id < |x.lists| && x.dirty != {}
    ensures Noticed(Create(x, v), g, i, t) <==>
            Noticed(x, g, i, t) || (i == x.id && t == |x.lists[x.id]| + 1 && g in x.dirty)
  {
  }

  lemma CreateKeepsCover(n: nat, np: nat, x: Node, v: seq<nat>)
    requires Inv(n, np, x) && MayStamp(x, v) && x.dirty != {}
    ensures Covered(Create(x, v))
  {
    var y := Create(x, v);
    var iv := Interval(x.id, Advanced(v, x.id), x.dirty);
    assert y.lists[x.id] == x.lists[x.id] + [iv];
    forall g: nat ensures Newest(y.lists[x.id], g) == if g in x.dirty then |x.lists[x.id]| + 1 else Newest(x.lists[x.id], g) {
      NewestSnoc(x.lists[x.id], iv, g);
    }
    forall g | g in y.twins ensures Undiffed(y, g) {
      if g in x.dirty {
        assert !Noticed(x, g, x.id, |x.lists[x.id]| + 1);
      } else {
        assert Undiffed(x, g);
      }
    }
    forall g: nat, t: nat | Noticed(y, g, x.id, t) && Mark(g, x.id, t) !in y.diffs
      ensures g in y.twins && t == Newest(y.lists[x.id], g)
    {
      NoticedAfterCreate(x, v, g, x.id, t);
    }
  }

  lemma CreateKeepsPages(n: nat, np: nat, x: Node, v: seq<nat>)
    requires Inv(n, np, x) && MayStamp(x, v) && x.dirty != {}
    ensures PagesRight(Create(x, v)) && CanServe(Create(x, v))
  {
    hide Create;
    hide Covered;
    var y := Create(x, v);
    CreateEffect(x, v);
    forall g: nat, i: nat, t: nat ensures Noticed(y, g, i, t) <==>
            Noticed(x, g, i, t) || (i == x.id && t == |x.lists[x.id]| + 1 && g in x.dirty) {
      NoticedAfterCreate(x, v, g, i, t);
    }
    assert x.dirty <= x.twins by { DirtyTwins(x); }
    forall g: nat, t: nat, i: nat, u: nat |
      Noticed(y, g, x.id, t) && Noticed(y, g, i, u) && i != x.id && u <= y.lists[x.id][t - 1].vt[i]
      ensures Mark(g, i, u) in y.diffs
    {
      assert Noticed(x, g, i, u);
      if Noticed(x, g, x.id, t) {
      } else {
        assert g in x.twins;
      }
    }
  }

  lemma DirtyTwins(x: Node)
    requires x.id < |x.lists| && Covered(x)
    ensures x.dirty <= x.twins
  {
  }

  lemma CreateEffect(x: Node, v: seq<nat>)
    requires x.id < |v| && x.id < |x.clock| && x.id < |x.lists| && x.dirty != {}
    ensures var y := Create(x, v);
            && y.id == x.id && y.state == x.state && y.twins == x.twins && y.diffs == x.diffs && y.inverse == x.inverse
            && y.dirty == {} && |y.lists| == |x.lists| && |y.clock| == |x.clock|
            && (forall i :: 0 <= i < |x.lists| && i != x.id ==> y.lists[i] == x.lists[i])
            && y.lists[x.id] == x.lists[x.id] + [Interval(x.id, Advanced(v, x.id), x.dirty)]
            && y.clock == x.clock[x.id := v[x.id] + 1]
  {
  }

  lemma CreateKeepsOldest(n: nat, np: nat, x: Node, v: seq<nat>)
    requires Inv(n, np, x) && MayStamp(x, v) && x.dirty != {}
    ensures OldestDiffed(Create(x, v))
  {
    hide Covered;
    hide CanServe;
    var y := Create(x, v);
    forall g: nat, i: nat, t: nat, u: nat | Mark(g, i, t) in y.diffs && u < t && Noticed(y, g, i, u)
      ensures Mark(g, i, u) in y.diffs
    {
      NoticedAfterCreate(x, v, g, i, u);
      assert Noticed(x, g, i, t);
    }
  }

  /** Notices are never taken back. */
  lemma InvalidStays(x: Node, y: Node)
    requires InvalidNoticed(x) && |y.state| == |x.state|
    requires forall g: nat :: g < |x.state| && y.state[g] == Invalid ==>
               x.state[g] == Invalid || exists i: nat, t: nat :: Noticed(y, g, i, t)
    requires forall g: nat, i: nat, t: nat :: Noticed(x, g, i, t) ==> Noticed(y, g, i, t)
    ensures InvalidNoticed(y)
  {
    forall g: nat | g < |y.state| && y.state[g] == Invalid ensures exists i: nat, t: nat :: Noticed(y, g, i, t) {
      if x.state[g] == Invalid {
        var i: nat, t: nat :| Noticed(x, g, i, t);
        assert Noticed(y, g, i, t);
      }
    }
  }

  lemma CreateKeepsInvalid(n: nat, np: nat, x: Node, v: seq<nat>)
    requires Inv(n, np, x) && MayStamp(x, v) && x.dirty != {}
    ensures InvalidNoticed(Create(x, v))
  {
    hide Create;
    hide CanServe;
    hide OldestDiffed;
    hide PagesRight;
    hide Covered;
    hide TwinSees;
    CreateEffect(x, v);
    forall g: nat, i: nat, t: nat | Noticed(x, g, i, t) ensures Noticed(Create(x, v), g, i, t) {
      NoticedAfterCreate(x, v, g, i, t);
    }
    InvalidStays(x, Create(x, v));
  }

  lemma CreateKeepsSees(n: nat, np: nat, x: Node, v: seq<nat>)
    requires Inv(n, np, x) && MayStamp(x, v) && x.dirty != {}
    ensures TwinSees(Create(x, v))
  {
    hide Create;
    hide CanServe;
    hide OldestDiffed;
    hide PagesRight;
    CreateEffect(x, v);
    var y := Create(x, v);
    forall g: nat, i: nat, t: nat | g in y.twins && g !in y.dirty && Noticed(y, g, i, t) ensures SeenBy(y, g, i, t) {
      NoticedAfterCreate(x, v, g, i, t);
      NewestSnoc(x.lists[x.id], Interval(x.id, Advanced(v, x.id), x.dirty), g);
      assert g !in x.dirty ==> Noticed(x, g, i, t) && SeenBy(x, g, i, t);
    }
  }

  lemma {:induction false} CreateKeeps(n: nat, np: nat, x: Node, v: seq<nat>)
    requires Inv(n, np, x) && MayStamp(x, v)
    ensures Inv(n, np, Create(x, v))
  {
    CreateKeepsShape(n, np, x, v);
    if x.dirty != {} {
      CreateKeepsCover(n, np, x, v);
      CreateKeepsPages(n, np, x, v);
      CreateKeepsOldest(n, np, x, v);
      CreateKeepsSees(n, np, x, v);
      CreateKeepsInvalid(n, np, x, v);
    }
  }

  /** `iv` is the next interval of another process, and names no private page. */
  ghost predicate Next(n: nat, np: nat, x: Node, iv: Interval) {
    && Shape(n, np, x) && iv.id < n && iv.id != x.id && WellStamped(n, np, iv, iv.id, |x.lists[iv.id]|)
    && forall g :: g in iv.pages ==> g < np && x.state[g] != Private
  }

  lemma AbsorbEffect(n: nat, np: nat, x: Node, iv: Interval)
    requires Next(n, np, x, iv)
    ensures var y := Absorb(x, iv);
            && y.id == x.id && y.dirty == x.dirty && |y.lists| == |x.lists| && |y.state| == |x.state|
            && (forall i :: 0 <= i < n && i != iv.id ==> y.lists[i] == x.lists[i])
            && y.lists[iv.id] == x.lists[iv.id] + [iv]
            && y.clock == x.clock[iv.id := x.clock[iv.id] + 1]
            && y.twins == x.twins - Hit(x, iv)
            && (forall g :: g in Hit(x, iv) ==> g < np && x.state[g] == Valid)
            && |y.inverse| == n
            && (forall i :: 0 <= i < n && i != iv.id ==> y.inverse[i] == x.inverse[i])
            && y.inverse[iv.id] == (if iv.vt[x.id] > x.inverse[iv.id] then iv.vt[x.id] else x.inverse[iv.id])
            && (forall g :: 0 <= g < np ==> y.state[g] == if g in Hit(x, iv) then Invalid else x.state[g])
            && (forall m :: m in y.diffs <==> m in x.diffs || (m.page in Hit(x, iv) * x.twins && m == OwnMark(x, m.page)))
  {
  }

  lemma NoticedAfterAbsorb(n: nat, np: nat, x: Node, iv: Interval, g: nat, i: nat, t: nat)
    requires Next(n, np, x, iv)
    ensures Noticed(Absorb(x, iv), g, i, t) <==>
            Noticed(x, g, i, t) || (i == iv.id && t == |x.lists[i]| + 1 && g in iv.pages)
  {
    hide Hit;
  }

  lemma AbsorbKeepsShape(n: nat, np: nat, x: Node, iv: Interval)
    requires Inv(n, np, x) && Next(n, np, x, iv)
    ensures var y := Absorb(x, iv); Shape(n, np, y) && Ascending(y.lists[y.id], y.clock)
  {
    hide Absorb;
    hide Hit;
    hide Covered;
    hide PagesRight;
    hide CanServe;
    hide OldestDiffed;
    hide TwinSees;
    hide InvalidNoticed;
    AbsorbEffect(n, np, x, iv);
    var y := Absorb(x, iv);
    forall i: nat, k: nat | i < n && k < |y.lists[i]| ensures WellStamped(n, np, y.lists[i][k], i, k) {
      if k < |x.lists[i]| {
        assert WellStamped(n, np, x.lists[i][k], i, k);
      }
    }
  }

  lemma AbsorbKeepsCover(n: nat, np: nat, x: Node, iv: Interval)
    requires Inv(n, np, x) && Next(n, np, x, iv) && Hit(x, iv) * x.dirty == {}
    ensures Covered(Absorb(x, iv))
  {
    hide Absorb;
    hide Hit;
    hide PagesRight;
    hide CanServe;
    hide OldestDiffed;
    hide TwinSees;
    hide InvalidNoticed;
    hide Ascending;
    AbsorbEffect(n, np, x, iv);
    var y := Absorb(x, iv);
    assert y.lists[x.id] == x.lists[x.id];
    forall g | g in y.dirty ensures g in y.twins {
      assert g !in Hit(x, iv) * x.dirty;
    }
    forall g: nat, t: nat | Noticed(y, g, x.id, t) && Mark(g, x.id, t) !in y.diffs
      ensures g in y.twins && t == Newest(y.lists[x.id], g)
    {
      assert Noticed(x, g, x.id, t);
      assert Mark(g, x.id, t) !in x.diffs;
      var own := OwnMark(x, g);
      assert g in Hit(x, iv) ==> own in y.diffs;
    }
    forall g | g in y.twins ensures g in y.dirty <==> !Undiffed(y, g) {
      assert g in x.twins;
      assert OwnMark(x, g) in y.diffs <==> OwnMark(x, g) in x.diffs;
    }
  }

  lemma TwinHasNotice(x: Node, g: nat)
    requires x.id < |x.lists| && Covered(x) && g in x.twins && g !in x.dirty
    ensures Noticed(x, g, x.id, Newest(x.lists[x.id], g)) && Undiffed(x, g)
  {
  }

  lemma AbsorbKeepsPages(n: nat, np: nat, x: Node, iv: Interval)
    requires Inv(n, np, x) && Next(n, np, x, iv) && Hit(x, iv) * x.dirty == {}
    ensures PagesRight(Absorb(x, iv)) && CanServe(Absorb(x, iv))
  {
    hide Absorb;
    hide Covered;
    AbsorbEffect(n, np, x, iv);
    var y := Absorb(x, iv);
    forall g: nat, i: nat, t: nat ensures Noticed(y, g, i, t) <==>
            Noticed(x, g, i, t) || (i == iv.id && t == |x.lists[i]| + 1 && g in iv.pages) {
      NoticedAfterAbsorb(n, np, x, iv, g, i, t);
    }
    forall m | m in y.diffs ensures Noticed(y, m.page, m.id, m.time) {
      if m !in x.diffs {
        assert m.page !in Hit(x, iv) * x.dirty;
        TwinHasNotice(x, m.page);
      }
    }
    forall g: nat, t: nat, i: nat, u: nat |
      Noticed(y, g, x.id, t) && Noticed(y, g, i, u) && i != x.id && u <= y.lists[x.id][t - 1].vt[i]
      ensures Mark(g, i, u) in y.diffs
    {
      assert Noticed(x, g, x.id, t);
      assert AtMost(x.lists[x.id][t - 1].vt, x.clock);
      assert Noticed(x, g, i, u);
    }
  }

  /** What incorporating needs: if a page is dirty, the saved vector is the clock of the request, and
      no own interval has been closed since. */
  ghost predicate Ready(x: Node, b: Basis) {
    x.dirty != {} ==> b.Saved? && MayStamp(x, b.vt)
  }

  /** What incorporating may do to the process's own intervals: nothing, or close the current one. */
  ghost predicate OwnPart(x: Node, y: Node, b: Basis) {
    && y.id == x.id && x.id < |x.lists| && x.id < |y.lists|
    && (|| (y.lists[x.id] == x.lists[x.id] && y.dirty == x.dirty)
        || (&& x.dirty != {} && b.Saved? && x.id < |b.vt| && y.dirty == {}
            && y.lists[x.id] == x.lists[x.id] + [Interval(x.id, Advanced(b.vt, x.id), x.dirty)]))
  }

  /** No diff is lost, and the only new ones are the process's own. */
  ghost predicate DiffsGrow(x: Node, y: Node) {
    y.id == x.id && x.diffs <= y.diffs && forall m :: m in y.diffs ==> m in x.diffs || m.id == x.id
  }

  /** Pages only go from valid to invalid. */
  ghost predicate PagesMove(x: Node, y: Node) {
    && |y.state| == |x.state| && DiffsGrow(x, y)
    && forall g :: 0 <= g < |x.state| ==> y.state[g] == x.state[g] || (x.state[g] == Valid && y.state[g] == Invalid)
  }

  /** One interval: either it is only noted, or the current interval is closed and then it is noted. */
  lemma {:induction false} LearnCases(n: nat, np: nat, x: Node, iv: Interval, b: Basis)
    requires Inv(n, np, x) && Next(n, np, x, iv) && Ready(x, b) && |Base(x, b)| == n
    ensures var y := Learn(x, iv, b);
            && Inv(n, np, y) && Ready(y, b)
            && y.lists[iv.id] == x.lists[iv.id] + [iv]
            && (forall i :: 0 <= i < n && i != iv.id && i != x.id ==> y.lists[i] == x.lists[i])
            && OwnPart(x, y, b) && PagesMove(x, y)
            && (forall i :: 0 <= i < n && i != iv.id ==> y.inverse[i] == x.inverse[i])
            && y.inverse[iv.id] == if iv.vt[x.id] > x.inverse[iv.id] then iv.vt[x.id] else x.inverse[iv.id]
  {
    hide Covered;
    hide PagesRight;
    hide CanServe;
    hide OldestDiffed;
    hide TwinSees;
    hide InvalidNoticed;
    hide Absorb;
    hide Create;
    hide Hit;
    var y := Learn(x, iv, b);
    assert IsNew(x, iv);
    if Hit(x, iv) * x.dirty != {} {
      assert x.dirty != {};
      CreateKeeps(n, np, x, b.vt);
      CreateEffect(x, b.vt);
      var c := Create(x, b.vt);
      AbsorbKeepsAll(n, np, c, iv);
      AbsorbEffect(n, np, c, iv);
    } else {
      AbsorbKeepsAll(n, np, x, iv);
      AbsorbEffect(n, np, x, iv);
      if x.dirty != {} {
        AbsorbCoversDirty(n, np, x, iv, b.vt);
      }
    }
  }

  lemma AbsorbCoversDirty(n: nat, np: nat, x: Node, iv: Interval, v: seq<nat>)
    requires Inv(n, np, x) && Next(n, np, x, iv) && Hit(x, iv) * x.dirty == {} && CoversDirty(x, v)
    ensures CoversDirty(Absorb(x, iv), v)
  {
    hide Absorb;
    hide CanServe;
    hide OldestDiffed;
    hide TwinSees;
    hide InvalidNoticed;
    AbsorbEffect(n, np, x, iv);
    var y := Absorb(x, iv);
    forall g: nat, i: nat, t: nat | g in y.dirty && Noticed(y, g, i, t) ensures i < |v| && t <= v[i] {
      NoticedAfterAbsorb(n, np, x, iv, g, i, t);
      assert g !in Hit(x, iv) * x.dirty;
      assert g in x.twins;
    }
  }

  lemma AbsorbKeepsAll(n: nat, np: nat, x: Node, iv: Interval)
    requires Inv(n, np, x) && Next(n, np, x, iv) && Hit(x, iv) * x.dirty == {}
    ensures Inv(n, np, Absorb(x, iv))
  {
    hide Hit;
    hide Covered;
    hide PagesRight;
    hide CanServe;
    hide OldestDiffed;
    hide TwinSees;
    hide InvalidNoticed;
    AbsorbKeepsShape(n, np, x, iv);
    AbsorbKeepsCover(n, np, x, iv);
    AbsorbKeepsPages(n, np, x, iv);
    AbsorbKeepsOldest(n, np, x, iv);
    AbsorbKeepsSees(n, np, x, iv);
    AbsorbKeepsInvalid(n, np, x, iv);
  }

  lemma AbsorbKeepsInvalid(n: nat, np: nat, x: Node, iv: Interval)
    requires Inv(n, np, x) && Next(n, np, x, iv)
    ensures InvalidNoticed(Absorb(x, iv))
  {
    hide Absorb;
    hide CanServe;
    hide OldestDiffed;
    hide PagesRight;
    hide Covered;
    hide TwinSees;
    AbsorbEffect(n, np, x, iv);
    var y := Absorb(x, iv);
    forall g: nat, i: nat, t: nat | Noticed(x, g, i, t) ensures Noticed(y, g, i, t) {
      NoticedAfterAbsorb(n, np, x, iv, g, i, t);
    }
    forall g: nat | g < np && y.state[g] == Invalid && x.state[g] != Invalid ensures exists i: nat, t: nat :: Noticed(y, g, i, t) {
      NoticedAfterAbsorb(n, np, x, iv, g, iv.id, |x.lists[iv.id]| + 1);
      assert Noticed(y, g, iv.id, |x.lists[iv.id]| + 1);
    }
    InvalidStays(x, y);
  }

  lemma AbsorbKeepsSees(n: nat, np: nat, x: Node, iv: Interval)
    requires Inv(n, np, x) && Next(n, np, x, iv)
    ensures TwinSees(Absorb(x, iv))
  {
    hide Absorb;
    hide CanServe;
    hide OldestDiffed;
    AbsorbEffect(n, np, x, iv);
    var y := Absorb(x, iv);
    forall g: nat, i: nat, t: nat | g in y.twins && g !in y.dirty && Noticed(y, g, i, t) ensures SeenBy(y, g, i, t) {
      NoticedAfterAbsorb(n, np, x, iv, g, i, t);
      assert g in x.twins && g !in iv.pages;
      assert SeenBy(x, g, i, t);
    }
  }

  lemma AbsorbKeepsOldest(n: nat, np: nat, x: Node, iv: Interval)
    requires Inv(n, np, x) && Next(n, np, x, iv)
    ensures OldestDiffed(Absorb(x, iv))
  {
    hide Absorb;
    hide Hit;
    hide CanServe;
    AbsorbEffect(n, np, x, iv);
    var y := Absorb(x, iv);
    forall g: nat, i: nat, t: nat, u: nat | Mark(g, i, t) in y.diffs && u < t && Noticed(y, g, i, u)
      ensures Mark(g, i, u) in y.diffs
    {
      NoticedAfterAbsorb(n, np, x, iv, g, i, u);
      if Mark(g, i, t) in x.diffs {
        assert Noticed(x, g, i, t);
        assert Noticed(x, g, i, u);
      } else {
        assert Mark(g, i, t) == OwnMark(x, g);
        assert Noticed(x, g, i, u);
      }
    }
  }

  /** Changes to pages, twins and diffs alone. */
  ghost predicate SameNews(x: Node, y: Node) {
    y.id == x.id && y.lists == x.lists && y.clock == x.clock && y.inverse == x.inverse
  }

  lemma SameNotices(x: Node, y: Node)
    requires SameNews(x, y)
    ensures forall g: nat, i: nat, t: nat :: Noticed(y, g, i, t) <==> Noticed(x, g, i, t)
    ensures x.id < |x.lists| ==> forall g: nat, i: nat, t: nat :: SeenBy(y, g, i, t) <==> SeenBy(x, g, i, t)
  {
  }

  lemma SameShape(n: nat, np: nat, x: Node, y: Node)
    requires Inv(n, np, x) && SameNews(x, y) && |y.state| == np && forall g :: g in y.twins ==> g < np
    ensures Shape(n, np, y) && Ascending(y.lists[y.id], y.clock)
  {
    hide Covered;
    hide PagesRight;
    hide CanServe;
    hide OldestDiffed;
    hide TwinSees;
    hide InvalidNoticed;
  }

  /** More diffs never hurt what has to do with serving. */
  lemma SameServing(n: nat, np: nat, x: Node, y: Node)
    requires Inv(n, np, x) && SameNews(x, y) && x.diffs <= y.diffs
    ensures CanServe(y)
  {
    hide Covered;
    hide PagesRight;
    hide OldestDiffed;
    hide TwinSees;
    hide InvalidNoticed;
    SameNotices(x, y);
  }

  lemma {:induction false} FetchKeeps(n: nat, np: nat, x: Node, g: nat)
    requires Inv(n, np, x) && g < np && x.state[g] != Valid && x.state[g] != Private
    ensures Inv(n, np, Fetch(x, g))
  {
    hide Covered;
    hide CanServe;
    var y := Fetch(x, g);
    SameShape(n, np, x, y);
    SameServing(n, np, x, y);
    SameNotices(x, y);
    FetchCovered(n, np, x, g);
    assert forall m :: m in y.diffs <==> m in x.diffs || (m.page == g && Noticed(x, g, m.id, m.time));
  }

  lemma FetchCovered(n: nat, np: nat, x: Node, g: nat)
    requires Inv(n, np, x) && g < np && x.state[g] != Valid
    ensures Covered(Fetch(x, g))
  {
    hide CanServe;
    hide OldestDiffed;
    hide TwinSees;
    hide InvalidNoticed;
    hide Ascending;
    var y := Fetch(x, g);
    SameNotices(x, y);
    assert forall m :: m in y.diffs <==> m in x.diffs || (m.page == g && Noticed(x, g, m.id, m.time));
    forall h | h in y.twins ensures h in y.dirty <==> !Undiffed(y, h) {
      assert h != g;
    }
  }

  lemma MakeTwinCovered(n: nat, np: nat, x: Node, g: nat)
    requires Inv(n, np, x) && g < np && x.state[g] == Valid && g !in x.twins
    ensures Covered(MakeTwin(x, g))
  {
    hide PagesRight;
    hide CanServe;
    hide OldestDiffed;
    hide TwinSees;
    hide InvalidNoticed;
    hide Ascending;
    var y := MakeTwin(x, g);
    SameNotices(x, y);
    forall h | h in y.twins ensures h in y.dirty <==> !Undiffed(y, h) {
      assert Undiffed(x, h) ==> Noticed(x, h, x.id, Newest(x.lists[x.id], h));
    }
  }

  lemma {:induction false} MakeTwinKeeps(n: nat, np: nat, x: Node, g: nat)
    requires Inv(n, np, x) && g < np && x.state[g] == Valid && g !in x.twins
    ensures Inv(n, np, MakeTwin(x, g))
  {
    hide CanServe;
    hide Covered;
    var y := MakeTwin(x, g);
    SameShape(n, np, x, y);
    SameServing(n, np, x, y);
    SameNotices(x, y);
    MakeTwinCovered(n, np, x, g);
  }

  /** What touching a page does to a process: a private page stays as it is. Any other ends up valid; a write leaves it
      with a twin, and dirty if it had no twin; a read leaves twins and dirty pages alone; and the diffs gained are
      those of the page's notices, if it was not valid. */
  ghost predicate Accessed(x: Node, y: Node, g: nat, write: bool)
    requires g < |x.state|
  {
    && SameNews(x, y)
    && (x.state[g] == Private ==> y == x)
    && (x.state[g] != Private ==>
          && y.state == x.state[g := Valid]
          && (forall h :: h in y.twins <==> h in x.twins || (h == g && write))
          && (forall h :: h in y.dirty <==> h in x.dirty || (h == g && write && g !in x.twins))
          && (forall m :: m in y.diffs <==> m in x.diffs || (x.state[g] != Valid && m.page == g && Noticed(x, g, m.id, m.time))))
  }

  lemma {:induction false} AccessKeeps(n: nat, np: nat, x: Node, g: nat, write: bool)
    requires Inv(n, np, x) && g < np && |x.state| == np
    ensures Inv(n, np, Access(x, g, write)) && Accessed(x, Access(x, g, write), g, write)
  {
    hide Inv;
    if x.state[g] != Private {
      if x.state[g] != Valid {
        FetchKeeps(n, np, x, g);
      }
      var y := if x.state[g] == Valid then x else Fetch(x, g);
      if write && g !in y.twins {
        MakeTwinKeeps(n, np, y, g);
      }
    }
  }

  /** The request can be answered: the notice is known, and its diff is at hand or is what the twin stands for. */
  predicate Answerable(x: Node, m: Mark)
    requires x.id < |x.lists|
  {
    && Noticed(x, m.page, m.id, m.time)
    && (m in x.diffs || (m.id == x.id && m == OwnMark(x, m.page) && m.page in x.twins && m.page !in x.dirty))
  }

  lemma ServeCovered(n: nat, np: nat, x: Node, m: Mark)
    requires Inv(n, np, x) && Answerable(x, m)
    ensures Covered(Serve(x, m))
  {
    hide PagesRight;
    hide CanServe;
    hide OldestDiffed;
    hide TwinSees;
    hide InvalidNoticed;
    hide Ascending;
    var y := Serve(x, m);
    SameNotices(x, y);
    forall h | h in y.twins ensures h in y.dirty <==> !Undiffed(y, h) {
    }
  }

  lemma {:induction false} ServeKeeps(n: nat, np: nat, x: Node, m: Mark)
    requires Inv(n, np, x) && Answerable(x, m)
    ensures Inv(n, np, Serve(x, m))
  {
    hide CanServe;
    var y := Serve(x, m);
    SameShape(n, np, x, y);
    SameServing(n, np, x, y);
    SameNotices(x, y);
    ServeCovered(n, np, x, m);
  }

  /** A process can answer for whatever an own interval on the page had seen. */
  lemma {:induction false} SeenIsAnswerable(n: nat, np: nat, x: Node, t: nat, m: Mark)
    requires Inv(n, np, x) && Noticed(x, m.page, x.id, t) && Noticed(x, m.page, m.id, m.time)
    requires m.time <= x.lists[x.id][t - 1].vt[m.id]
    ensures Answerable(x, m)
  {
  }

  // ---------------------------------------------------------------- a whole message

  function After(list: seq<Interval>, t: nat): seq<Interval> {
    if t <= |list| then list[t..] else []
  }

  /** What a process with lists `lists` sends to one with vector `v`: process by process, what is newer. */
  function Missing(lists: seq<seq<Interval>>, v: seq<nat>): seq<Interval>
    requires |v| == |lists|
  {
    MissingFrom(lists, v, 0)
  }

  function MissingFrom(lists: seq<seq<Interval>>, v: seq<nat>, i: nat): seq<Interval>
    requires |v| == |lists| && i <= |lists|
    decreases |lists| - i
  {
    if i == |lists| then [] else After(lists[i], v[i]) + MissingFrom(lists, v, i + 1)
  }

  function Longer(a: seq<Interval>, b: seq<Interval>): seq<Interval> {
    if |a| < |b| then b else a
  }

  /** A list of process `i` that `x` could be sent. */
  ghost predicate Sendable(n: nat, np: nat, x: Node, list: seq<Interval>, i: nat) {
    && i < n == |x.lists| && (list <= x.lists[i] || x.lists[i] <= list) && (i == x.id ==> list <= x.lists[i])
    && forall k :: 0 <= k < |list| ==>
         WellStamped(n, np, list[k], i, k) && forall g :: g in list[k].pages ==> g < |x.state| && x.state[g] != Private
  }

  lemma {:induction false} SendableFits(n: nat, np: nat, x: Node, list: seq<Interval>, i: nat, k: nat)
    requires Sendable(n, np, x, list, i)
    ensures Fit(n, After(list, k))
  {
    forall j | 0 <= j < |After(list, k)| ensures |After(list, k)[j].vt| == n && After(list, k)[j].id < n {
      assert WellStamped(n, np, list[k + j], i, k + j);
    }
  }

  lemma SendableStays(n: nat, np: nat, x: Node, y: Node, list: seq<Interval>, i: nat)
    requires Sendable(n, np, x, list, i) && PagesMove(x, y) && |y.lists| == |x.lists| && y.id == x.id
    requires y.lists[i] == x.lists[i] || (i == x.id && x.lists[i] <= y.lists[i]) ||
             (i != x.id && y.lists[i] <= list)
    ensures Sendable(n, np, y, list, i)
  {
  }

  lemma NoMove(x: Node, b: Basis)
    requires Sized(x) && (b.Saved? ==> |b.vt| == |x.clock|)
    ensures OwnPart(x, x, b) && PagesMove(x, x) && Incorporate(x, [], b) == x
  {
  }

  lemma IncorporateStep(x: Node, ivs: seq<Interval>, b: Basis)
    requires Sized(x) && Fit(|x.clock|, ivs) && (b.Saved? ==> |b.vt| == |x.clock|) && ivs != []
    ensures Incorporate(x, ivs, b) == Incorporate(Learn(x, ivs[0], b), ivs[1..], b)
  {
  }

  lemma MovesTransitive(x: Node, y: Node, z: Node, b: Basis)
    requires OwnPart(x, y, b) && OwnPart(y, z, b) && PagesMove(x, y) && PagesMove(y, z)
    ensures OwnPart(x, z, b) && PagesMove(x, z)
  {
  }

  /** One process's part of a message: the old intervals are passed over, the new ones noted. */
  ghost predicate TookList(n: nat, np: nat, x: Node, y: Node, list: seq<Interval>, i: nat, b: Basis) {
    && Inv(n, np, y) && Ready(y, b) && OwnPart(x, y, b) && PagesMove(x, y) && i < n == |x.lists| == |x.inverse|
    && (i != x.id ==> y.lists[i] == Longer(x.lists[i], list))
    && (forall j :: 0 <= j < n && j != i && j != x.id ==> y.lists[j] == x.lists[j])
    && (forall j :: 0 <= j < n && j != i ==> y.inverse[j] == x.inverse[j])
    && InverseFrom(x, y, list, i)
  }

  /** A process's entry in `inverse` is kept, or is what one of its intervals had seen. */
  ghost predicate InverseFrom(x: Node, y: Node, list: seq<Interval>, i: nat) {
    && i < |y.inverse| && i < |x.inverse|
    && (y.inverse[i] == x.inverse[i] ||
        exists k :: 0 <= k < |list| && x.id < |list[k].vt| && y.inverse[i] == list[k].vt[x.id])
  }

  lemma TookNothing(n: nat, np: nat, x: Node, list: seq<Interval>, i: nat, b: Basis)
    requires Inv(n, np, x) && Ready(x, b) && i < n && (i != x.id ==> |list| <= |x.lists[i]|)
    ensures TookList(n, np, x, x, list, i, b)
  {
    hide Ready;
    hide Covered;
    hide PagesRight;
    hide CanServe;
    hide OldestDiffed;
    hide TwinSees;
    hide InvalidNoticed;
    hide Ascending;
  }

  /** After noting `list[k]`, the rest of the list. */
  lemma TookOneMore(n: nat, np: nat, x: Node, list: seq<Interval>, i: nat, k: nat, b: Basis, z: Node)
    requires Inv(n, np, x) && Ready(x, b) && (b.Saved? ==> |b.vt| == n) && k < |list|
    requires i < n && x.lists[i] == list[..k] && Next(n, np, x, list[k]) && list[k].id == i
    requires TookList(n, np, Learn(x, list[k], b), z, list, i, b)
    ensures TookList(n, np, x, z, list, i, b)
  {
    hide Inv;
    hide Learn;
    hide Ready;
    hide OwnPart;
    hide PagesMove;
    ShapeOf(n, np, x);
    LearnCases(n, np, x, list[k], b);
    var y := Learn(x, list[k], b);
    MovesTransitive(x, y, z, b);
    OwnId(x, y, b);
    ShapeOf(n, np, y);
    ShapeOf(n, np, z);
    if z.inverse[i] == y.inverse[i] != x.inverse[i] {
      assert 0 <= k < |list| && x.id < |list[k].vt| && z.inverse[i] == list[k].vt[x.id];
    }
  }

  lemma OwnId(x: Node, y: Node, b: Basis)
    requires OwnPart(x, y, b)
    ensures y.id == x.id && x.id < |x.lists| && x.id < |y.lists| && x.lists[x.id] <= y.lists[x.id]
  {
  }

  lemma {:induction false} TakeList(n: nat, np: nat, x: Node, list: seq<Interval>, i: nat, k: nat, b: Basis)
    requires Inv(n, np, x) && Ready(x, b) && (b.Saved? ==> |b.vt| == n) && Sendable(n, np, x, list, i)
    requires k <= |x.lists[i]| && k <= |list|
    requires Fit(n, list[k..])
    ensures TookList(n, np, x, Incorporate(x, list[k..], b), list, i, b)
    decreases |list| - k
  {
    hide Inv;
    hide Learn;
    hide Ready;
    hide OwnPart;
    hide PagesMove;
    hide Incorporate;
    hide TookList;
    ShapeOf(n, np, x);
    if k == |list| {
      assert list[k..] == [];
      NoMove(x, b);
      TookNothing(n, np, x, list, i, b);
    } else {
      var iv := list[k];
      assert WellStamped(n, np, iv, i, k);
      assert list[k..][0] == iv && list[k..][1..] == list[k + 1..];
      IncorporateStep(x, list[k..], b);
      if k < |x.lists[i]| {
        LearnOld(x, iv, b);
        TakeList(n, np, x, list, i, k + 1, b);
      } else {
        LearnCases(n, np, x, iv, b);
        var y := Learn(x, iv, b);
        ShapeOf(n, np, y);
        OwnId(x, y, b);
        assert y.lists[i] == list[..k + 1];
        SendableStays(n, np, x, y, list, i);
        TakeList(n, np, y, list, i, k + 1, b);
        TookOneMore(n, np, x, list, i, k, b, Incorporate(y, list[k + 1..], b));
      }
    }
  }

  lemma ShapeOf(n: nat, np: nat, x: Node)
    requires Inv(n, np, x)
    ensures Shape(n, np, x)
  {
  }

  lemma LearnOld(x: Node, iv: Interval, b: Basis)
    requires Sized(x) && |iv.vt| == |x.clock| && iv.id < |x.clock| && |Base(x, b)| == |x.clock|
    requires iv.vt[iv.id] <= x.clock[iv.id]
    ensures Learn(x, iv, b) == x
  {
  }

  lemma {:induction false} IncorporateInTwo(x: Node, a: seq<Interval>, c: seq<Interval>, b: Basis)
    requires Sized(x) && Fit(|x.clock|, a) && Fit(|x.clock|, c) && (b.Saved? ==> |b.vt| == |x.clock|)
    ensures Fit(|x.clock|, a + c)
    ensures Incorporate(x, a + c, b) == Incorporate(Incorporate(x, a, b), c, b)
    decreases |a|
  {
    hide Learn;
    if a == [] {
      assert a + c == c;
    } else {
      assert (a + c)[0] == a[0] && (a + c)[1..] == a[1..] + c;
      LearnSized(x, a[0], b);
      IncorporateInTwo(Learn(x, a[0], b), a[1..], c, b);
    }
  }

  lemma LearnSized(x: Node, iv: Interval, b: Basis)
    requires Sized(x) && |iv.vt| == |x.clock| && iv.id < |x.clock| && |Base(x, b)| == |x.clock|
    ensures Sized(Learn(x, iv, b)) && |Learn(x, iv, b).clock| == |x.clock| && Learn(x, iv, b).id == x.id
  {
  }

  /** The lists a message was cut from, and that the receiver had at least `v` of each. */
  ghost predicate SendableAll(n: nat, np: nat, x: Node, lists: seq<seq<Interval>>, v: seq<nat>, from: nat) {
    && |lists| == |v| == |x.lists| == n
    && forall i: nat :: from <= i < n ==> Sendable(n, np, x, lists[i], i) && v[i] <= |x.lists[i]|
  }

  /** The receiver's lists become the longer of its own and the sender's; its own list grows by at most
      the one interval it had open. */
  ghost predicate Merged(n: nat, np: nat, x: Node, y: Node, lists: seq<seq<Interval>>, from: nat, b: Basis) {
    && Inv(n, np, y) && Ready(y, b) && OwnPart(x, y, b) && PagesMove(x, y) && |lists| == |x.lists| == |x.inverse| == n
    && (forall i: nat :: from <= i < n && i != x.id ==> y.lists[i] == Longer(x.lists[i], lists[i]))
    && (forall i: nat :: i < from && i < n && i != x.id ==> y.lists[i] == x.lists[i])
    && (forall i: nat :: i < n ==> InverseFrom(x, y, lists[i], i))
  }

  lemma {:induction false} MissingFits(n: nat, np: nat, x: Node, lists: seq<seq<Interval>>, v: seq<nat>, i: nat)
    requires i <= n && SendableAll(n, np, x, lists, v, i)
    ensures Fit(n, MissingFrom(lists, v, i))
    decreases n - i
  {
    if i < n {
      SendableFits(n, np, x, lists[i], i, v[i]);
      MissingFits(n, np, x, lists, v, i + 1);
    }
  }

  lemma {:induction false} MergeFrom(n: nat, np: nat, x: Node, lists: seq<seq<Interval>>, v: seq<nat>, i: nat, b: Basis)
    requires Inv(n, np, x) && Ready(x, b) && (b.Saved? ==> |b.vt| == n)
    requires i <= n && SendableAll(n, np, x, lists, v, i) && Fit(n, MissingFrom(lists, v, i))
    ensures Merged(n, np, x, Incorporate(x, MissingFrom(lists, v, i), b), lists, i, b)
    decreases n - i
  {
    hide Inv;
    hide Ready;
    hide OwnPart;
    hide PagesMove;
    hide Incorporate;
    hide TookList;
    hide Sendable;
    hide InverseFrom;
    hide Merged;
    ShapeOf(n, np, x);
    if i == n {
      MergedNothing(n, np, x, lists, b);
    } else {
      var part, rest := After(lists[i], v[i]), MissingFrom(lists, v, i + 1);
      PartTaken(n, np, x, lists, v, i, b);
      var y := Incorporate(x, part, b);
      MergeFrom(n, np, y, lists, v, i + 1, b);
      MergeStep(n, np, x, part, rest, lists, i, b);
    }
  }

  lemma MergeStep(n: nat, np: nat, x: Node, part: seq<Interval>, rest: seq<Interval>, lists: seq<seq<Interval>>, i: nat, b: Basis)
    requires Sized(x) && |x.clock| == n && Fit(n, part) && Fit(n, rest) && (b.Saved? ==> |b.vt| == n) && i < n == |lists|
    requires var y := Incorporate(x, part, b);
             TookList(n, np, x, y, lists[i], i, b) && Merged(n, np, y, Incorporate(y, rest, b), lists, i + 1, b)
    ensures Fit(n, part + rest) && Merged(n, np, x, Incorporate(x, part + rest, b), lists, i, b)
  {
    hide Incorporate;
    hide TookList;
    hide Merged;
    IncorporateInTwo(x, part, rest, b);
    var y := Incorporate(x, part, b);
    MergedOneMore(n, np, x, y, Incorporate(y, rest, b), lists, i, b);
  }

  /** One process's part of a message, and that the rest of the message can then be taken. */
  lemma PartTaken(n: nat, np: nat, x: Node, lists: seq<seq<Interval>>, v: seq<nat>, i: nat, b: Basis)
    requires Inv(n, np, x) && Ready(x, b) && (b.Saved? ==> |b.vt| == n) && Sized(x) && |x.clock| == n
    requires i < n && SendableAll(n, np, x, lists, v, i)
    ensures var part := After(lists[i], v[i]);
            && Fit(n, part) && Fit(n, MissingFrom(lists, v, i + 1))
            && var y := Incorporate(x, part, b);
               && TookList(n, np, x, y, lists[i], i, b)
               && Inv(n, np, y) && Ready(y, b) && SendableAll(n, np, y, lists, v, i + 1)
  {
    hide Inv;
    hide Ready;
    hide Incorporate;
    hide Sendable;
    hide OwnPart;
    hide PagesMove;
    hide InverseFrom;
    SendableFits(n, np, x, lists[i], i, v[i]);
    MissingFits(n, np, x, lists, v, i + 1);
    TakePart(n, np, x, lists[i], i, v[i], b);
    SendableLater(n, np, x, Incorporate(x, After(lists[i], v[i]), b), lists, v, i, b);
  }

  lemma MergedNothing(n: nat, np: nat, x: Node, lists: seq<seq<Interval>>, b: Basis)
    requires Inv(n, np, x) && Ready(x, b) && Sized(x) && |lists| == n == |x.lists| && (b.Saved? ==> |b.vt| == n)
    ensures Merged(n, np, x, x, lists, n, b) && Incorporate(x, [], b) == x
  {
    hide Inv;
    hide Ready;
    NoMove(x, b);
    SameInverse(n, x, x, lists);
  }

  lemma SameInverse(n: nat, x: Node, y: Node, lists: seq<seq<Interval>>)
    requires |x.inverse| == n == |lists| && y.inverse == x.inverse
    ensures forall j: nat :: j < n ==> InverseFrom(x, y, lists[j], j)
  {
  }

  lemma TakePart(n: nat, np: nat, x: Node, list: seq<Interval>, i: nat, t: nat, b: Basis)
    requires Inv(n, np, x) && Ready(x, b) && (b.Saved? ==> |b.vt| == n) && Sendable(n, np, x, list, i)
    requires t <= |x.lists[i]| && Fit(n, After(list, t))
    ensures TookList(n, np, x, Incorporate(x, After(list, t), b), list, i, b)
  {
    hide Inv;
    hide Ready;
    hide Incorporate;
    hide TookList;
    ShapeOf(n, np, x);
    if t <= |list| {
      TakeList(n, np, x, list, i, t, b);
    } else {
      NoMove(x, b);
      TookNothing(n, np, x, list, i, b);
    }
  }

  lemma SendableLater(n: nat, np: nat, x: Node, y: Node, lists: seq<seq<Interval>>, v: seq<nat>, i: nat, b: Basis)
    requires i < n && SendableAll(n, np, x, lists, v, i) && TookList(n, np, x, y, lists[i], i, b)
    ensures SendableAll(n, np, y, lists, v, i + 1)
  {
    hide Inv;
    hide Ready;
    hide OwnPart;
    hide PagesMove;
    hide Sendable;
    ShapeOf(n, np, y);
    OwnId(x, y, b);
    forall j: nat | i + 1 <= j < n ensures Sendable(n, np, y, lists[j], j) && v[j] <= |y.lists[j]| {
      SendableStays(n, np, x, y, lists[j], j);
    }
  }

  lemma MergedOneMore(n: nat, np: nat, x: Node, y: Node, z: Node, lists: seq<seq<Interval>>, i: nat, b: Basis)
    requires i < n == |lists| && TookList(n, np, x, y, lists[i], i, b) && Merged(n, np, y, z, lists, i + 1, b)
    ensures Merged(n, np, x, z, lists, i, b)
  {
    hide Inv;
    hide Ready;
    hide OwnPart;
    hide PagesMove;
    hide InverseFrom;
    OwnId(x, y, b);
    MovesTransitive(x, y, z, b);
    forall j: nat | j < n ensures InverseFrom(x, z, lists[j], j) {
      ShapeOf(n, np, y);
      InverseOneMore(x, y, z, lists[j], j, i, lists[i]);
    }
  }

  lemma InverseOneMore(x: Node, y: Node, z: Node, list: seq<Interval>, j: nat, i: nat, listI: seq<Interval>)
    requires j < |x.inverse| && j < |y.inverse| && InverseFrom(y, z, list, j) && y.id == x.id && i < |y.inverse| && i < |x.inverse|
    requires j == i ==> list == listI
    requires j != i ==> y.inverse[j] == x.inverse[j]
    requires InverseFrom(x, y, listI, i)
    ensures InverseFrom(x, z, list, j)
  {
  }

  lemma {:induction false} IncorporateOld(x: Node, ivs: seq<Interval>, b: Basis)
    requires Sized(x) && Fit(|x.clock|, ivs) && (b.Saved? ==> |b.vt| == |x.clock|)
    requires AllOld(|x.clock|, x.clock, ivs)
    ensures Incorporate(x, ivs, b) == x
    decreases |ivs|
  {
    if ivs != [] {
      LearnOld(x, ivs[0], b);
      IncorporateOld(x, ivs[1..], b);
    }
  }

  /** Intervals that a process with clock `c` already has. */
  ghost predicate AllOld(n: nat, c: seq<nat>, ivs: seq<Interval>) {
    |c| == n && forall k :: 0 <= k < |ivs| ==> Old(n, c, ivs[k])
  }

  ghost predicate Old(n: nat, c: seq<nat>, iv: Interval) {
    |c| == n && |iv.vt| == n && iv.id < n && iv.vt[iv.id] <= c[iv.id]
  }

  lemma {:induction false} MissingTimes(n: nat, np: nat, x: Node, lists: seq<seq<Interval>>, v: seq<nat>, i: nat, c: seq<nat>)
    requires i <= n && SendableAll(n, np, x, lists, v, i) && |c| == n
    requires forall j: nat :: i <= j < n ==> |lists[j]| <= c[j]
    ensures AllOld(n, c, MissingFrom(lists, v, i))
    decreases n - i
  {
    if i < n {
      MissingTimes(n, np, x, lists, v, i + 1, c);
      var part := After(lists[i], v[i]);
      forall k | 0 <= k < |part| ensures Old(n, c, part[k]) {
        assert WellStamped(n, np, lists[i][v[i] + k], i, v[i] + k);
      }
    }
  }

  /** Incorporating what a sender with lists `lists` computed for the vector `v` gives the pointwise
      maximum of the clocks, except that the receiver's own component may grow by the one interval it
      closed; the lists stay contiguous, and the same message a second time changes nothing. */
  lemma {:induction false} ClockMerge(n: nat, np: nat, x: Node, lists: seq<seq<Interval>>, v: seq<nat>, b: Basis)
    requires Inv(n, np, x) && Ready(x, b) && (b.Saved? ==> |b.vt| == n)
    requires SendableAll(n, np, x, lists, v, 0)
    ensures Fit(n, Missing(lists, v))
    ensures var y := Incorporate(x, Missing(lists, v), b);
            && Merged(n, np, x, y, lists, 0, b)
            && (forall i: nat :: i < n && i != x.id ==>
                  y.clock[i] == if x.clock[i] < |lists[i]| then |lists[i]| else x.clock[i])
            && x.clock[x.id] <= y.clock[x.id] <= x.clock[x.id] + 1
            && (x.dirty == {} ==> y.clock[x.id] == x.clock[x.id])
            && Incorporate(y, Missing(lists, v), b) == y
  {
    hide Ready;
    hide Sendable;
    hide Covered;
    hide PagesRight;
    hide CanServe;
    hide OldestDiffed;
    hide TwinSees;
    hide InvalidNoticed;
    hide Ascending;
    hide Incorporate;
    MissingFits(n, np, x, lists, v, 0);
    MergeFrom(n, np, x, lists, v, 0, b);
    var y := Incorporate(x, Missing(lists, v), b);
    assert Shape(n, np, y);
    forall j: nat | j < n ensures |lists[j]| <= y.clock[j] {
      OwnListSent(n, np, x, lists[j], j);
    }
    MissingTimes(n, np, x, lists, v, 0, y.clock);
    IncorporateOld(y, Missing(lists, v), b);
  }

  lemma OwnListSent(n: nat, np: nat, x: Node, list: seq<Interval>, i: nat)
    requires Sendable(n, np, x, list, i)
    ensures i == x.id ==> |list| <= |x.lists[i]|
  {
  }
}
