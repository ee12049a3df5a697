/** A process as an object that its steps update in place. */
module Processes {
  import opened Clocks
  import opened Nodes

  /** The pages an interval invalidates, one at a time: a page that is dirty has the current interval
      closed first, and then its twin is turned into the diff of the newest own notice. */
  function SettleBy(x: Node, g: nat, b: Basis): Node
    requires Sized(x) && |Base(x, b)| == |x.clock|
  {
    if g !in x.twins then
      x
    else
      var c := if g in x.dirty then Create(x, Base(x, b)) else x;
      c.(diffs := c.diffs + {OwnMark(c, g)}, twins := c.twins - {g})
  }

  /** The outcome for a whole set of valid pages, in whatever order they come. */
  function Noted(x: Node, hit: set<nat>, b: Basis): Node
    requires Sized(x) && |Base(x, b)| == |x.clock|
  {
    var c := Closed(x, hit, b);
    c.(state := seq(|x.state|, g requires 0 <= g < |x.state| => if g in hit then Invalid else x.state[g]),
       twins := x.twins - hit,
       diffs := x.diffs + Marks(c, hit * x.twins))
  }

  /** What the twin loop relies on: coverage, and diffs of known notices only. */
  ghost predicate Loopable(x: Node, b: Basis) {
    && Sized(x) && (b.Saved? ==> |b.vt| == |x.clock|)
    && Covered(x) && (x.dirty != {} ==> b.Saved?)
    && forall m :: m in x.diffs ==> Noticed(x, m.page, m.id, m.time)
  }

  lemma CreateUndiffed(x: Node, v: seq<nat>, g: nat)
    requires Sized(x) && |v| == |x.clock| && Covered(x) && g in x.twins
    requires forall m :: m in x.diffs ==> Noticed(x, m.page, m.id, m.time)
    ensures var c := Create(x, v); c.twins == x.twins && c.diffs == x.diffs && Undiffed(c, g)
    ensures g !in x.dirty ==> OwnMark(Create(x, v), g) == OwnMark(x, g)
  {
    if x.dirty != {} {
      NewestSnoc(x.lists[x.id], Interval(x.id, Advanced(v, x.id), x.dirty), g);
      assert !Noticed(x, g, x.id, |x.lists[x.id]| + 1);
    }
  }

  lemma SettleKeeps(x: Node, g: nat, b: Basis)
    requires Loopable(x, b)
    ensures Loopable(SettleBy(x, g, b), b)
  {
    hide Create;
    if g in x.twins {
      var c := if g in x.dirty then Create(x, Base(x, b)) else x;
      if g in x.dirty {
        CreateLoopable(x, b);
        CreateUndiffed(x, Base(x, b), g);
      }
      SettleOne(c, g, b);
    }
  }

  lemma CreateLoopable(x: Node, b: Basis)
    requires Loopable(x, b) && x.dirty != {}
    ensures Loopable(Create(x, Base(x, b)), b)
  {
    hide Create;
    var v := Base(x, b);
    var c := Create(x, v);
    CreateEffect(x, v);
    forall g | g in c.twins ensures g in c.dirty <==> !Undiffed(c, g) {
      CreateUndiffed(x, v, g);
    }
    forall g: nat, t: nat | Noticed(c, g, c.id, t) && Mark(g, c.id, t) !in c.diffs ensures g in c.twins && t == Newest(c.lists[c.id], g) {
      NoticedAfterCreate(x, v, g, x.id, t);
      NewestSnoc(x.lists[x.id], Interval(x.id, Advanced(v, x.id), x.dirty), g);
    }
    forall m | m in c.diffs ensures Noticed(c, m.page, m.id, m.time) {
      NoticedAfterCreate(x, v, m.page, m.id, m.time);
    }
  }

  lemma SettleOne(c: Node, g: nat, b: Basis)
    requires Loopable(c, b) && g in c.twins && g !in c.dirty
    ensures Loopable(c.(diffs := c.diffs + {OwnMark(c, g)}, twins := c.twins - {g}), b)
  {
    var d := c.(diffs := c.diffs + {OwnMark(c, g)}, twins := c.twins - {g});
    assert forall h: nat, i: nat, t: nat :: Noticed(d, h, i, t) <==> Noticed(c, h, i, t);
    assert Undiffed(c, g);
    forall h | h in d.twins ensures h in d.dirty <==> !Undiffed(d, h) {
    }
  }

  /** The interval is closed once a dirty page is among those hit. */
  function Closed(x: Node, hit: set<nat>, b: Basis): (c: Node)
    requires Sized(x) && |Base(x, b)| == |x.clock|
    ensures c.id == x.id && |c.lists| == |x.lists| && |c.clock| == |x.clock|
  {
    if hit * x.dirty != {} then Create(x, Base(x, b)) else x
  }

  lemma ClosedOneMore(x: Node, hit: set<nat>, g: nat, b: Basis)
    requires Sized(x) && |Base(x, b)| == |x.clock|
    ensures g !in x.dirty || hit * x.dirty != {} ==> Closed(x, hit + {g}, b) == Closed(x, hit, b)
    ensures g in x.dirty || hit * x.dirty != {} ==> Closed(x, hit + {g}, b) == Create(x, Base(x, b))
    ensures g in x.dirty && hit * x.dirty == {} ==> Closed(x, hit, b) == x
  {
    hide Create;
    assert (hit + {g}) * x.dirty == hit * x.dirty + if g in x.dirty then {g} else {};
  }

  /** The marks made for the pages hit. */
  function Marks(c: Node, pages: set<nat>): set<Mark>
    requires c.id < |c.lists|
  {
    set g | g in pages :: OwnMark(c, g)
  }

  lemma MarksOneMore(x: Node, hit: set<nat>, g: nat, b: Basis)
    requires Loopable(x, b)
    ensures Marks(Closed(x, hit + {g}, b), (hit + {g}) * x.twins) ==
            Marks(Closed(x, hit, b), hit * x.twins) + if g in x.twins then {OwnMark(Closed(x, hit + {g}, b), g)} else {}
  {
    hide Closed;
    var c, c' := Closed(x, hit, b), Closed(x, hit + {g}, b);
    NotedMarks(x, hit, g, b);
    assert (hit + {g}) * x.twins == hit * x.twins + if g in x.twins then {g} else {};
    forall m ensures m in Marks(c', (hit + {g}) * x.twins) <==>
                     m in Marks(c, hit * x.twins) || (g in x.twins && m == OwnMark(c', g)) {
    }
  }

  /** One more valid page. */
  lemma NotedOneMore(x: Node, hit: set<nat>, g: nat, b: Basis)
    requires Loopable(x, b) && g !in hit && g < |x.state|
    ensures var y := Noted(x, hit, b);
            SettleBy(y.(state := y.state[g := Invalid]), g, b) == Noted(x, hit + {g}, b)
  {
    hide Create;
    hide Covered;
    hide Noticed;
    hide Closed;
    hide Marks;
    var y := Noted(x, hit, b);
    var z := y.(state := y.state[g := Invalid]);
    ClosedOneMore(x, hit, g, b);
    MarksOneMore(x, hit, g, b);
    assert Noted(x, hit + {g}, b).state == z.state;
    assert x.twins - (hit + {g}) == (x.twins - hit) - {g};
    if hit * x.dirty != {} {
      ClosedIs(x, hit, b);
      CreateEffect(x, Base(x, b));
    } else if g in x.dirty {
      DirtyTwins(x);
      CreateFrame(x, z.state, z.twins, z.diffs, Base(x, b));
    } else {
      ClosedIs(x, hit, b);
    }
  }

  lemma ClosedIs(x: Node, hit: set<nat>, b: Basis)
    requires Sized(x) && |Base(x, b)| == |x.clock|
    ensures Closed(x, hit, b) == if hit * x.dirty != {} then Create(x, Base(x, b)) else x
  {
  }

  lemma CreateFrame(x: Node, state: seq<PageState>, twins: set<nat>, diffs: set<Mark>, v: seq<nat>)
    requires Sized(x) && |v| == |x.clock|
    ensures Create(x.(state := state, twins := twins, diffs := diffs), v) ==
            Create(x, v).(state := state, twins := twins, diffs := diffs)
  {
  }

  /** Closing the interval later in the loop does not change the marks made before. */
  lemma NotedMarks(x: Node, hit: set<nat>, g: nat, b: Basis)
    requires Loopable(x, b)
    ensures forall h :: h in hit * x.twins ==> OwnMark(Closed(x, hit + {g}, b), h) == OwnMark(Closed(x, hit, b), h)
  {
    hide Create;
    ClosedOneMore(x, hit, g, b);
    forall h | h in hit * x.twins ensures OwnMark(Closed(x, hit + {g}, b), h) == OwnMark(Closed(x, hit, b), h) {
      if hit * x.dirty == {} {
        assert h !in hit * x.dirty;
        CreateUndiffed(x, Base(x, b), h);
      }
    }
  }

  function ValidAmong(x: Node, pages: seq<nat>): set<nat> {
    set g | g in pages && g < |x.state| && x.state[g] == Valid
  }

  lemma NotedNone(x: Node, b: Basis)
    requires Sized(x) && |Base(x, b)| == |x.clock|
    ensures Noted(x, {}, b) == x && ValidAmong(x, []) == {}
  {
    assert Noted(x, {}, b).state == x.state;
    assert {} * x.dirty == {};
  }

  lemma OneMoreValid(x: Node, pages: seq<nat>, k: nat, b: Basis)
    requires k < |pages| && pages[k] < |x.state| && Sized(x) && |Base(x, b)| == |x.clock|
    ensures var done, g := ValidAmong(x, pages[..k]), pages[k];
            && ValidAmong(x, pages[..k + 1]) == (if x.state[g] == Valid then done + {g} else done)
            && (Noted(x, done, b).state[g] == Valid <==> x.state[g] == Valid && g !in done)
            && (g in done ==> done + {g} == done)
  {
    hide Closed;
    assert pages[..k + 1] == pages[..k] + [pages[k]];
  }

  lemma StateOnly(x: Node, state: seq<PageState>, b: Basis)
    requires Loopable(x, b)
    ensures Loopable(x.(state := state), b)
  {
    var y := x.(state := state);
    assert forall h: nat, i: nat, t: nat :: Noticed(y, h, i, t) <==> Noticed(x, h, i, t);
    assert forall h: nat :: Undiffed(y, h) <==> Undiffed(x, h);
  }

  /** Once no page is dirty the basis no longer matters. */
  lemma SettleEither(x: Node, g: nat, b: Basis, b': Basis)
    requires Loopable(x, b) && (b' == b || (x.dirty == {} && b'.Saved? && |b'.vt| == |x.clock|))
    ensures Loopable(x, b') && SettleBy(x, g, b') == SettleBy(x, g, b)
  {
  }

  // ---------------------------------------------------------------- a whole message

  /** An interval as it is read from a message. */
  datatype Entry = Entry(id: nat, vt: seq<nat>, pages: seq<nat>)

  function ToInterval(e: Entry): Interval {
    Interval(e.id, e.vt, set g | g in e.pages)
  }

  function ToIntervals(es: seq<Entry>): seq<Interval> {
    seq(|es|, k requires 0 <= k < |es| => ToInterval(es[k]))
  }

  function Enqueued(x: Node, iv: Interval): Node
    requires iv.id < |x.clock| && iv.id < |x.lists| && iv.id < |iv.vt|
  {
    x.(clock := x.clock[iv.id := iv.vt[iv.id]], lists := x.lists[iv.id := x.lists[iv.id] + [iv]])
  }

  lemma EnqueuedLoopable(n: nat, np: nat, x: Node, iv: Interval, b: Basis)
    requires Nodes.Inv(n, np, x) && Next(n, np, x, iv) && Ready(x, b) && (b.Saved? ==> |b.vt| == n)
    ensures Loopable(Enqueued(x, iv), b)
  {
    hide CanServe;
    hide OldestDiffed;
    hide TwinSees;
    hide InvalidNoticed;
    hide Ascending;
    var y := Enqueued(x, iv);
    assert y.lists[x.id] == x.lists[x.id];
    assert forall g: nat, t: nat :: Noticed(y, g, x.id, t) <==> Noticed(x, g, x.id, t);
    forall m | m in y.diffs ensures Noticed(y, m.page, m.id, m.time) {
      assert Noticed(x, m.page, m.id, m.time);
    }
    assert forall g: nat :: Undiffed(y, g) <==> Undiffed(x, g);
  }

  /** Enqueueing first and closing the current interval on the way comes to the same as closing it first. */
  lemma NotedIsLearn(n: nat, np: nat, x: Node, e: Entry, b: Basis)
    requires Nodes.Inv(n, np, x) && Next(n, np, x, ToInterval(e)) && Ready(x, b) && (b.Saved? ==> |b.vt| == n)
    ensures var iv := ToInterval(e);
            var y := Enqueued(x, iv);
            var z := Noted(y, ValidAmong(y, e.pages), b);
            z.(inverse := if iv.vt[x.id] > z.inverse[iv.id] then z.inverse[iv.id := iv.vt[x.id]] else z.inverse)
              == Learn(x, iv, b)
  {
    hide Covered;
    hide PagesRight;
    hide CanServe;
    hide OldestDiffed;
    hide TwinSees;
    hide InvalidNoticed;
    hide Ascending;
    hide Marks;
    var iv := ToInterval(e);
    var y := Enqueued(x, iv);
    var hit := ValidAmong(y, e.pages);
    assert hit == Hit(x, iv);
    var c := if hit * x.dirty != {} then Create(x, Base(x, b)) else x;
    var d := Closed(y, hit, b);
    assert d.clock == Enqueued(c, iv).clock && d.lists == Enqueued(c, iv).lists;
    assert Hit(c, iv) == hit;
    assert Marks(d, hit * x.twins) == set g | g in hit * x.twins :: OwnMark(c, g) by { SameMarks(c, d, hit * x.twins); }
  }

  lemma SameMarks(c: Node, d: Node, pages: set<nat>)
    requires c.id == d.id && c.id < |c.lists| && c.id < |d.lists| && c.lists[c.id] == d.lists[c.id]
    ensures Marks(d, pages) == set g | g in pages :: OwnMark(c, g)
  {
    forall g ensures OwnMark(d, g) == OwnMark(c, g) {
    }
  }

  /** Each interval of the message is already known or is the next one of its process. */
  ghost predicate Acceptable(n: nat, np: nat, x: Node, ivs: seq<Interval>, b: Basis)
    requires Sized(x) && |x.clock| == n && Fit(n, ivs) && (b.Saved? ==> |b.vt| == n)
    decreases |ivs|
  {
    ivs == [] ||
    (&& (IsNew(x, ivs[0]) ==> Next(n, np, x, ivs[0]))
     && var y := Learn(x, ivs[0], b); Sized(y) && |y.clock| == n && Acceptable(n, np, y, ivs[1..], b))
  }

  lemma {:induction false} AcceptInTwo(n: nat, np: nat, x: Node, a: seq<Interval>, c: seq<Interval>, b: Basis)
    requires Sized(x) && |x.clock| == n && Fit(n, a) && Fit(n, c) && (b.Saved? ==> |b.vt| == n)
    requires Acceptable(n, np, x, a, b) && Acceptable(n, np, Incorporate(x, a, b), c, b)
    ensures Fit(n, a + c) && Acceptable(n, np, x, a + c, b)
    decreases |a|
  {
    hide Learn;
    hide Next;
    if a == [] {
      assert a + c == c;
    } else {
      assert (a + c)[0] == a[0] && (a + c)[1..] == a[1..] + c;
      AcceptInTwo(n, np, Learn(x, a[0], b), a[1..], c, b);
    }
  }

  lemma {:induction false} AcceptList(n: nat, np: nat, x: Node, list: seq<Interval>, i: nat, k: nat, b: Basis)
    requires Nodes.Inv(n, np, x) && Ready(x, b) && (b.Saved? ==> |b.vt| == n) && Sendable(n, np, x, list, i)
    requires k <= |x.lists[i]| && k <= |list| && Fit(n, list[k..]) && Sized(x) && |x.clock| == n
    ensures Acceptable(n, np, x, list[k..], b)
    decreases |list| - k
  {
    hide Nodes.Inv;
    hide Ready;
    hide Learn;
    ShapeOf(n, np, x);
    if k < |list| {
      var iv := list[k];
      assert WellStamped(n, np, iv, i, k);
      assert list[k..][0] == iv && list[k..][1..] == list[k + 1..];
      if k < |x.lists[i]| {
        LearnOld(x, iv, b);
        AcceptList(n, np, x, list, i, k + 1, b);
      } else {
        LearnCases(n, np, x, iv, b);
        var y := Learn(x, iv, b);
        ShapeOf(n, np, y);
        OwnId(x, y, b);
        assert y.lists[i] == list[..k + 1];
        SendableStays(n, np, x, y, list, i);
        AcceptList(n, np, y, list, i, k + 1, b);
      }
    }
  }

  /** Every message that a system in a consistent state sends is acceptable to its receiver. */
  lemma {:induction false} AcceptMessage(n: nat, np: nat, x: Node, lists: seq<seq<Interval>>, v: seq<nat>, i: nat, b: Basis)
    requires Nodes.Inv(n, np, x) && Ready(x, b) && (b.Saved? ==> |b.vt| == n) && Sized(x) && |x.clock| == n
    requires i <= n && SendableAll(n, np, x, lists, v, i) && Fit(n, MissingFrom(lists, v, i))
    ensures Acceptable(n, np, x, MissingFrom(lists, v, i), b)
    decreases n - i
  {
    hide Nodes.Inv;
    hide Ready;
    hide Incorporate;
    hide Acceptable;
    hide Sendable;
    hide TookList;
    if i == n {
      AcceptNone(n, np, x, b);
    } else {
      var part, rest := Nodes.After(lists[i], v[i]), MissingFrom(lists, v, i + 1);
      PartTaken(n, np, x, lists, v, i, b);
      AcceptPart(n, np, x, lists[i], i, v[i], b);
      AcceptMessage(n, np, Incorporate(x, part, b), lists, v, i + 1, b);
      AcceptInTwo(n, np, x, part, rest, b);
    }
  }

  lemma AcceptPart(n: nat, np: nat, x: Node, list: seq<Interval>, i: nat, t: nat, b: Basis)
    requires Nodes.Inv(n, np, x) && Ready(x, b) && (b.Saved? ==> |b.vt| == n) && Sendable(n, np, x, list, i)
    requires t <= |x.lists[i]| && Fit(n, Nodes.After(list, t)) && Sized(x) && |x.clock| == n
    ensures Acceptable(n, np, x, Nodes.After(list, t), b)
  {
    hide Nodes.Inv;
    hide Ready;
    hide Acceptable;
    if t <= |list| {
      AcceptList(n, np, x, list, i, t, b);
    } else {
      AcceptNone(n, np, x, b);
    }
  }

  lemma AcceptNone(n: nat, np: nat, x: Node, b: Basis)
    requires Sized(x) && |x.clock| == n && (b.Saved? ==> |b.vt| == n)
    ensures Acceptable(n, np, x, [], b)
  {
  }

  /** Once no page is dirty the basis no longer matters. */
  lemma LearnEither(x: Node, iv: Interval, b: Basis, b': Basis)
    requires Sized(x) && |iv.vt| == |x.clock| && iv.id < |x.clock| && (b.Saved? ==> |b.vt| == |x.clock|) && Ready(x, b)
    requires b' == b || (x.dirty == {} && b'.Saved? && |b'.vt| == |x.clock|)
    ensures Ready(x, b') && Learn(x, iv, b') == Learn(x, iv, b)
    ensures x.dirty == {} ==> Learn(x, iv, b).dirty == {}
  {
    hide Create;
    assert x.dirty == {} ==> Hit(x, iv) * x.dirty == {};
  }

  lemma PagesInRange(n: nat, np: nat, x: Node, e: Entry)
    requires Next(n, np, x, ToInterval(e))
    ensures forall k :: 0 <= k < |e.pages| ==> e.pages[k] < |x.state|
  {
    forall k | 0 <= k < |e.pages| ensures e.pages[k] < |x.state| {
      assert e.pages[k] in ToInterval(e).pages;
    }
  }

  /** What taking one more interval of an acceptable message amounts to. */
  lemma TakeOne(n: nat, np: nat, y: Node, es: seq<Entry>, k: nat, b: Basis)
    requires Nodes.Inv(n, np, y) && Ready(y, b) && (b.Saved? ==> |b.vt| == n) && Sized(y) && |y.clock| == n
    requires k < |es| && Fit(n, ToIntervals(es[k..])) && Acceptable(n, np, y, ToIntervals(es[k..]), b)
    ensures es[k].id < n && |es[k].vt| == n && Fit(n, ToIntervals(es[k + 1..]))
    ensures var iv := ToInterval(es[k]);
            var z := Learn(y, iv, b);
            && (IsNew(y, iv) ==> Next(n, np, y, iv))
            && Nodes.Inv(n, np, z) && Ready(z, b) && Sized(z) && |z.clock| == n
            && Acceptable(n, np, z, ToIntervals(es[k + 1..]), b)
            && Incorporate(y, ToIntervals(es[k..]), b) == Incorporate(z, ToIntervals(es[k + 1..]), b)
  {
    hide Nodes.Inv;
    hide Ready;
    hide Learn;
    hide Next;
    ToIntervalsStep(es, k);
    var iv, rest := ToInterval(es[k]), ToIntervals(es[k + 1..]);
    var all := ToIntervals(es[k..]);
    assert all[0] == iv && all[1..] == rest;
    if IsNew(y, iv) {
      LearnCases(n, np, y, iv, b);
    } else {
      LearnNothing(y, iv, b);
    }
  }

  lemma LearnNothing(x: Node, iv: Interval, b: Basis)
    requires Sized(x) && |iv.vt| == |x.clock| && iv.id < |x.clock| && |Base(x, b)| == |x.clock| && !IsNew(x, iv)
    ensures Learn(x, iv, b) == x
  {
  }

  lemma ToIntervalsStep(es: seq<Entry>, k: nat)
    requires k < |es|
    ensures ToIntervals(es[k..]) == [ToInterval(es[k])] + ToIntervals(es[k + 1..])
  {
  }

  lemma NotedSame(x: Node, hit: set<nat>, b: Basis)
    requires Sized(x) && |Base(x, b)| == |x.clock|
    ensures var y := Noted(x, hit, b); y.inverse == x.inverse && y.id == x.id
  {
  }

  lemma NothingLeft(es: seq<Entry>)
    ensures ToIntervals(es[|es|..]) == []
  {
  }

  /** The node after a write to each page of a range in turn, as `Systems` has it for one page. */
  function WriteAll(x: Node, lo: nat, hi: nat): (y: Node)
    requires lo <= hi <= |x.state|
    ensures |y.state| == |x.state|
    decreases hi - lo
  {
    if lo == hi then x else Access(WriteAll(x, lo, hi - 1), hi - 1, true)
  }

  /** What becomes of each page: those of the range that are not private are valid with a twin, and dirty if they were
      or had none; the others are as they were. */
  ghost predicate Written(x: Node, y: Node, lo: nat, hi: nat) {
    && SameNews(x, y) && |y.state| == |x.state|
    && forall g: nat :: g < |x.state| ==> WrittenPage(x, y, lo, hi, g)
  }

  ghost predicate WrittenPage(x: Node, y: Node, lo: nat, hi: nat, g: nat)
    requires g < |x.state| == |y.state|
  {
    var written := lo <= g < hi && x.state[g] != Private;
    && y.state[g] == (if written then Valid else x.state[g])
    && (g in y.twins <==> g in x.twins || written)
    && (g in y.dirty <==> g in x.dirty || (written && g !in x.twins))
  }

  lemma {:induction false} WriteAllEffect(n: nat, np: nat, x: Node, lo: nat, hi: nat)
    requires Nodes.Inv(n, np, x) && lo <= hi <= np == |x.state|
    ensures Nodes.Inv(n, np, WriteAll(x, lo, hi)) && Written(x, WriteAll(x, lo, hi), lo, hi)
    decreases hi - lo
  {
    hide Nodes.Inv;
    hide Access;
    if lo < hi {
      var y := WriteAll(x, lo, hi - 1);
      WriteAllEffect(n, np, x, lo, hi - 1);
      AccessKeeps(n, np, y, hi - 1, true);
      var z := WriteAll(x, lo, hi);
      assert z == Access(y, hi - 1, true);
      assert WrittenPage(x, y, lo, hi - 1, hi - 1);
      forall g: nat | g < np ensures WrittenPage(x, z, lo, hi, g) {
        assert WrittenPage(x, y, lo, hi - 1, g);
      }
    }
  }

  class Process {
    const id: nat
    var clock: seq<nat>
    var lists: seq<seq<Interval>>
    var inverse: seq<nat>
    var dirty: set<nat>
    var twins: set<nat>
    var state: seq<PageState>
    var diffs: set<Mark>

    function Value(): Node
      reads this
    {
      Node(id, clock, lists, inverse, dirty, twins, state, diffs)
    }

    constructor (n: nat, p: nat, home: seq<nat>)
      requires p < n
      ensures id == p && clock == seq(n, i => 0) && lists == seq(n, i => []) && inverse == seq(n, i => 0)
      ensures dirty == {} && twins == {} && diffs == {} && |state| == |home|
      ensures forall g :: 0 <= g < |home| ==> state[g] == if home[g] == p then Private else Empty
      ensures Nodes.Inv(n, |home|, Value()) && Value() == Fresh(n, home, p)
    {
      id := p;
      clock, lists, inverse := seq(n, i => 0), seq(n, i => []), seq(n, i => 0);
      dirty, twins, diffs := {}, {}, {};
      state := seq(|home|, g requires 0 <= g < |home| => if home[g] == p then Private else Empty);
      new;
      assert forall g: nat, i: nat, t: nat :: !Noticed(Value(), g, i, t);
    }

    /** Closes the current interval. The vector it is stamped with is advanced in place: the clock itself, or
        the saved copy, which the caller then copies the own component from. */
    method CreateInterval(b: Basis) returns (b': Basis)
      requires Sized(Value()) && (b.Saved? ==> |b.vt| == |clock|) && (dirty != {} ==> !b.Null?)
      modifies this
      ensures b.Live? ==> b' == b && Value() == Create(old(Value()), old(clock))
      ensures !b.Live? && old(dirty) == {} ==> b' == b && Value() == old(Value())
      ensures b.Saved? && old(dirty) != {} ==> b' == Saved(Advanced(b.vt, id))
      ensures b.Saved? ==> Value() == Create(old(Value()), b.vt).(clock := old(clock))
    {
      b' := b;
      if dirty != {} {
        var vt := if b.Saved? then Advanced(b.vt, id) else Advanced(clock, id);
        if b.Saved? {
          b' := Saved(vt);
        } else {
          clock := vt;
        }
        lists := lists[id := lists[id] + [Interval(id, vt, dirty)]];
        dirty := {};
      }
    }

    /** The loop that runs while a page that has just become invalid has a twin: it goes round at most twice,
        and never stamps an interval without a clock. */
    method Settle(g: nat, b: Basis) returns (b': Basis, rounds: nat)
      requires Loopable(Value(), b)
      modifies this
      ensures Value() == SettleBy(old(Value()), g, b) && g !in twins
      ensures rounds <= 2 && (rounds == 2 <==> g in old(dirty)) && (rounds == 0 <==> g !in old(twins))
      ensures b' == b || (dirty == {} && b'.Saved? && |b'.vt| == |clock|)
    {
      b', rounds := b, 0;
      ghost var x := Value();
      while g in twins
        invariant rounds <= 2
        invariant b' == b || (dirty == {} && b'.Saved? && |b'.vt| == |clock|)
        invariant rounds == 0 ==> Value() == x && b' == b
        invariant rounds == 1 ==> Value() == if g in x.dirty then Create(x, b.vt) else SettleBy(x, g, b)
        invariant rounds == 1 ==> g in x.twins
        invariant rounds == 2 ==> Value() == SettleBy(x, g, b) && g in x.dirty
        decreases 2 - rounds
      {
        if g in x.dirty {
          CreateUndiffed(x, b.vt, g);
        }
        var newest := Newest(lists[id], g);
        if newest > 0 && Mark(g, id, newest) !in diffs {
          diffs := diffs + {Mark(g, id, newest)};
          twins := twins - {g};
        } else {
          b' := CreateInterval(b');
          clock := clock[id := b'.vt[id]];
        }
        rounds := rounds + 1;
      }
    }

    /** Goes through the pages of an interval that has just been enqueued. */
    method NotePages(pages: seq<nat>, b: Basis) returns (b': Basis)
      requires Loopable(Value(), b) && forall k :: 0 <= k < |pages| ==> pages[k] < |state|
      modifies this
      ensures var x := old(Value()); Value() == Noted(x, ValidAmong(x, pages), b)
      ensures b' == b || (dirty == {} && b'.Saved? && |b'.vt| == |clock|)
    {
      b' := b;
      ghost var x, done := Value(), {};
      NotedNone(x, b);
      for k := 0 to |pages|
        invariant done == ValidAmong(x, pages[..k]) && Value() == Noted(x, done, b) && |state| == |x.state|
        invariant Loopable(Value(), b)
        invariant b' == b || (dirty == {} && b'.Saved? && |b'.vt| == |clock|)
      {
        var g := pages[k];
        OneMoreValid(x, pages, k, b);
        if state[g] == Valid {
          NotedOneMore(x, done, g, b);
          state := state[g := Invalid];
          ghost var z := Value();
          StateOnly(Noted(x, done, b), z.state, b);
          SettleKeeps(z, g, b);
          SettleEither(z, g, b, b');
          var rounds;
          b', rounds := Settle(g, b');
          done := done + {g};
        }
      }
      assert pages[..|pages|] == pages;
    }

    /** One interval of a message: noted if it is new, skipped if it is old. */
    method LearnInterval(e: Entry, b: Basis, ghost n: nat, ghost np: nat) returns (b': Basis)
      requires Nodes.Inv(n, np, Value()) && Ready(Value(), b) && (b.Saved? ==> |b.vt| == n)
      requires Sized(Value()) && |clock| == n
      requires e.id < n && |e.vt| == n && (IsNew(Value(), ToInterval(e)) ==> Next(n, np, Value(), ToInterval(e)))
      modifies this
      ensures Value() == Learn(old(Value()), ToInterval(e), b)
      ensures b' == b || (dirty == {} && b'.Saved? && |b'.vt| == n)
    {
      hide Nodes.Inv;
      hide Ready;
      hide Next;
      hide Loopable;
      hide Noted;
      hide Learn;
      b' := b;
      ghost var x, iv := Value(), ToInterval(e);
      if e.vt[e.id] > clock[e.id] {
        EnqueuedLoopable(n, np, x, iv, b);
        NotedIsLearn(n, np, x, e, b);
        PagesInRange(n, np, x, e);
        LearnSized(x, iv, b);
        clock := clock[e.id := e.vt[e.id]];
        lists := lists[e.id := lists[e.id] + [ToInterval(e)]];
        b' := NotePages(e.pages, b');
        NotedSame(Enqueued(x, iv), ValidAmong(Enqueued(x, iv), e.pages), b);
        if e.vt[id] > inverse[e.id] {
          inverse := inverse[e.id := e.vt[id]];
        }
      } else {
        LearnNothing(x, iv, b);
      }
    }

    /** A whole message. */
    method IncorporateAll(es: seq<Entry>, b: Basis, ghost n: nat, ghost np: nat) returns (b': Basis)
      requires Nodes.Inv(n, np, Value()) && Ready(Value(), b) && (b.Saved? ==> |b.vt| == n)
      requires Fit(n, ToIntervals(es)) && Sized(Value()) && |clock| == n && Acceptable(n, np, Value(), ToIntervals(es), b)
      modifies this
      ensures Value() == Incorporate(old(Value()), ToIntervals(es), b) && Nodes.Inv(n, np, Value())
    {
      hide Nodes.Inv;
      hide Ready;
      hide Next;
      hide Learn;
      hide Acceptable;
      hide ToIntervals;
      hide IsNew;
      b' := b;
      ghost var x := Value();
      assert es[0..] == es;
      for k := 0 to |es|
        invariant Nodes.Inv(n, np, Value()) && Ready(Value(), b) && Sized(Value()) && |clock| == n
        invariant b' == b || (dirty == {} && b'.Saved? && |b'.vt| == n)
        invariant Fit(n, ToIntervals(es[k..])) && Acceptable(n, np, Value(), ToIntervals(es[k..]), b)
        invariant Incorporate(x, ToIntervals(es), b) == Incorporate(Value(), ToIntervals(es[k..]), b)
      {
        TakeOne(n, np, Value(), es, k, b);
        LearnEither(Value(), ToInterval(es[k]), b, b');
        b' := LearnInterval(es[k], b', n, np);
      }
      NothingLeft(es);
    }

    /** Makes one page writable. */
    method WriteOne(g: nat, ghost n: nat, ghost np: nat)
      requires Nodes.Inv(n, np, Value()) && g < np == |state|
      modifies this
      ensures Value() == Access(old(Value()), g, true)
    {
      if state[g] == Private {
      } else if g !in twins {
        if state[g] != Valid {
          ghost var y := Value();
          state := state[g := Valid];
          diffs := diffs + Known(Value(), g);
          assert Known(y, g) == Known(y.(state := state), g);
        }
        twins := twins + {g};
        dirty := dirty + {g};
      } else {
        assert state[g] == Valid;
      }
    }

    /** Makes a range of pages writable: each page that is not private ends up valid with a twin, pages
        without one before become dirty, and nothing outside the range is touched. */
    method WriteRange(lo: nat, hi: nat, ghost n: nat, ghost np: nat)
      requires Nodes.Inv(n, np, Value()) && lo <= hi <= np
      modifies this
      ensures Nodes.Inv(n, np, Value())
      ensures Value() == WriteAll(old(Value()), lo, hi) && Written(old(Value()), Value(), lo, hi)
    {
      hide Nodes.Inv;
      hide Access;
      ghost var x := Value();
      ShapeOf(n, np, x);
      for g := lo to hi
        invariant |x.state| == np && Value() == WriteAll(x, lo, g)
      {
        WriteAllEffect(n, np, x, lo, g);
        WriteOne(g, n, np);
      }
      WriteAllEffect(n, np, x, lo, hi);
    }
  }
}
