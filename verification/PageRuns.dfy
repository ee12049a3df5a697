/** Coalescing pages into maximal runs.

    Every page carries a toggle, a partner and two list links.  The toggle of page `k` is set when
    exactly one of pages `k - 1` and `k` is in the set; the partner links the two ends of a run; the
    list threads the first pages of the runs. */
module PageRuns {

  // ---------------------------------------------------------------- the set and its runs

  /** `a .. b` is a maximal run of `d`. */
  ghost predicate IsRun(d: set<int>, a: int, b: int) {
    a <= b && a - 1 !in d && b + 1 !in d && forall k :: a <= k <= b ==> k in d
  }

  ghost predicate IsStart(d: set<int>, a: int) {
    a in d && a - 1 !in d
  }

  lemma {:induction false} RunUpTo(d: set<int>, b: int, low: int) returns (a: int)
    requires b in d && b + 1 !in d && (forall k :: k in d ==> low <= k)
    ensures a <= b && a - 1 !in d && forall k :: a <= k <= b ==> k in d
    ensures IsRun(d, a, b)
  {
    a := b;
    while a - 1 in d
      invariant low <= a <= b && forall k :: a <= k <= b ==> k in d
      decreases a - low
    {
      a := a - 1;
    }
  }

  lemma {:induction false} RunDownFrom(d: set<int>, a: int, high: int) returns (b: int)
    requires a in d && a - 1 !in d && (forall k :: k in d ==> k <= high)
    ensures IsRun(d, a, b)
  {
    b := a;
    while b + 1 in d
      invariant a <= b <= high && forall k :: a <= k <= b ==> k in d
      decreases high - b
    {
      b := b + 1;
    }
  }

  lemma RunUnique(d: set<int>, a: int, b: int, a': int, b': int)
    requires IsRun(d, a, b) && IsRun(d, a', b')
    ensures a == a' <==> b == b'
    ensures a <= b' && a' <= b ==> a == a' && b == b'
  {
    assert a < a' <= b ==> a' - 1 in d;
    assert a' < a <= b' ==> a - 1 in d;
    assert b < b' && a' <= b ==> b + 1 in d;
    assert b' < b && a <= b' ==> b' + 1 in d;
  }

  /** The runs after adding `p`: the one through `p`, and every old run that did not touch it. */
  lemma RunsAfter(d: set<int>, p: int, s: int, e: int, a: int, b: int)
    requires p !in d
    requires if p - 1 in d then IsRun(d, s, p - 1) else s == p
    requires if p + 1 in d then IsRun(d, p + 1, e) else e == p
    ensures IsRun(d + {p}, s, e)
    ensures IsRun(d + {p}, a, b) && !(a == s && b == e) ==> IsRun(d, a, b) && (b < s - 1 || a > e + 1)
  {
    var d' := d + {p};
    assert IsRun(d', s, e);
    if IsRun(d', a, b) && !(a == s && b == e) {
      RunUnique(d', a, b, s, e);
      assert b < s || e < a;
      assert b != s - 1 && a != e + 1;
    }
  }

  // ---------------------------------------------------------------- the list

  ghost predicate RingAt(c: seq<nat>, prev: seq<nat>, next: seq<nat>, i: int) {
    && 0 <= i && i + 1 < |c| && c[i] < |next| && c[i + 1] < |prev|
    && next[c[i]] == c[i + 1] && prev[c[i + 1]] == c[i]
  }

  /** The links thread `l`, in order, through the head `h`. */
  ghost predicate Ring(h: nat, l: seq<nat>, prev: seq<nat>, next: seq<nat>) {
    && |prev| == |next| && h < |prev|
    && (forall i :: 0 <= i < |l| ==> l[i] < |prev| && l[i] != h)
    && (forall i, j :: 0 <= i < j < |l| ==> l[i] != l[j])
    && (forall i {:trigger RingAt([h] + l + [h], prev, next, i)} :: 0 <= i <= |l| ==> RingAt([h] + l + [h], prev, next, i))
  }

  lemma AppendToRing(h: nat, l: seq<nat>, prev: seq<nat>, next: seq<nat>, p: nat)
    requires Ring(h, l, prev, next) && p < |prev| && p != h && p !in l
    ensures prev[h] < |next| && prev[h] != p
    ensures Ring(h, l + [p], prev[p := prev[h]][h := p], next[p := h][prev[h] := p])
  {
    var c, c' := [h] + l + [h], [h] + (l + [p]) + [h];
    assert RingAt(c, prev, next, |l|);
    var q := prev[h];
    assert q == c[|l|];
    var prev', next' := prev[p := q][h := p], next[p := h][q := p];
    forall i | 0 <= i <= |l + [p]| ensures RingAt(c', prev', next', i) {
      if i < |l| {
        assert RingAt(c, prev, next, i);
        assert c'[i] == c[i] && c'[i + 1] == c[i + 1] == l[i];
        assert i > 0 ==> c[i] == l[i - 1];
        assert q == l[|l| - 1];
      }
    }
  }

  lemma RemoveFromRing(h: nat, l: seq<nat>, prev: seq<nat>, next: seq<nat>, j: nat)
    requires Ring(h, l, prev, next) && j < |l|
    ensures prev[l[j]] < |next| && next[l[j]] < |prev|
    ensures Ring(h, l[..j] + l[j + 1..], prev[next[l[j]] := prev[l[j]]], next[prev[l[j]] := next[l[j]]])
  {
    var x, l' := l[j], l[..j] + l[j + 1..];
    var c, c' := [h] + l + [h], [h] + l' + [h];
    assert RingAt(c, prev, next, j) && RingAt(c, prev, next, j + 1);
    var a, b := prev[x], next[x];
    assert a == c[j] && b == c[j + 2];
    var prev', next' := prev[b := a], next[a := b];
    forall i | 0 <= i <= |l'| ensures RingAt(c', prev', next', i) {
      assert c'[i] == if i <= j then c[i] else c[i + 1];
      assert c'[i + 1] == if i + 1 <= j then c[i + 1] else c[i + 2];
      assert RingAt(c, prev, next, if i <= j then i else i + 1);
    }
  }

  // ---------------------------------------------------------------- the whole structure

  ghost predicate Within(n: nat, d: set<int>) {
    forall k :: k in d ==> 0 <= k < n
  }

  ghost predicate Toggled(n: nat, toggle: seq<bool>, d: set<int>) {
    |toggle| > n && forall k :: 0 <= k <= n ==> toggle[k] == ((k in d) != (k - 1 in d))
  }

  ghost predicate Partnered(n: nat, partner: seq<nat>, d: set<int>) {
    |partner| > n && forall a, b {:trigger IsRun(d, a, b)} :: IsRun(d, a, b) && 0 <= a && b < n ==> partner[a] == b && partner[b] == a
  }

  ghost predicate Threaded(n: nat, h: nat, l: seq<nat>, prev: seq<nat>, next: seq<nat>, d: set<int>) {
    && n <= h && |prev| > n
    && Ring(h, l, prev, next)
    && forall k: nat :: k in l <==> IsStart(d, k)
  }

  /** Pages `0 .. n - 1`, of which `d` are in; `l` are the first pages of its runs in list order. */
  ghost predicate Coalesced(n: nat, h: nat, toggle: seq<bool>, partner: seq<nat>, prev: seq<nat>, next: seq<nat>, d: set<int>, l: seq<nat>) {
    Within(n, d) && Toggled(n, toggle, d) && Partnered(n, partner, d) && Threaded(n, h, l, prev, next, d)
  }

  lemma ToggleTwo(n: nat, toggle: seq<bool>, d: set<int>, p: nat)
    requires Toggled(n, toggle, d) && p < n && p !in d
    ensures Toggled(n, toggle[p := !toggle[p]][p + 1 := !toggle[p + 1]], d + {p})
    ensures toggle[p] <==> p - 1 in d
    ensures toggle[p + 1] <==> p + 1 in d
  {
  }

  /** The ends of the run through the new page, read off the neighbours' partners. */
  lemma NewEnds(n: nat, partner: seq<nat>, d: set<int>, p: nat) returns (s: nat, e: nat)
    requires Within(n, d) && Partnered(n, partner, d) && p < n && p !in d
    ensures s <= p <= e < n
    ensures if p - 1 in d then IsRun(d, s, p - 1) && s == partner[p - 1] else s == p
    ensures if p + 1 in d then IsRun(d, p + 1, e) && e == partner[p + 1] else e == p
  {
    s, e := p, p;
    if p - 1 in d {
      var a := RunUpTo(d, p - 1, 0);
      assert a in d;
      s := a;
    }
    if p + 1 in d {
      var b := RunDownFrom(d, p + 1, n);
      assert b in d;
      e := b;
    }
  }

  lemma PartnerEnds(n: nat, partner: seq<nat>, d: set<int>, p: nat, s: nat, e: nat)
    requires Within(n, d) && Partnered(n, partner, d) && p < n && p !in d
    requires s <= p <= e < n
    requires if p - 1 in d then IsRun(d, s, p - 1) else s == p
    requires if p + 1 in d then IsRun(d, p + 1, e) else e == p
    ensures Partnered(n, partner[s := e][e := s], d + {p})
  {
    var d', partner' := d + {p}, partner[s := e][e := s];
    forall a, b | IsRun(d', a, b) && 0 <= a && b < n ensures partner'[a] == b && partner'[b] == a {
      RunsAfter(d, p, s, e, a, b);
    }
  }

  lemma StartsAfter(d: set<int>, p: int, k: int)
    requires p !in d
    ensures IsStart(d + {p}, k) <==> (IsStart(d, k) && k != p + 1) || (k == p && p - 1 !in d)
  {
  }

  lemma Sizes(n: nat, h: nat, toggle: seq<bool>, partner: seq<nat>, prev: seq<nat>, next: seq<nat>, d: set<int>, l: seq<nat>)
    requires Coalesced(n, h, toggle, partner, prev, next, d, l)
    ensures |toggle| > n && |partner| > n && |prev| == |next| > n && h < |prev|
  {
  }

  /** Add page `p` to the set. */
  method Merge(n: nat, h: nat, toggle: array<bool>, partner: array<nat>, prev: array<nat>, next: array<nat>, p: nat,
               ghost d: set<int>, ghost l: seq<nat>) returns (ghost l': seq<nat>)
    requires partner != prev && prev != next && partner != next
    requires Coalesced(n, h, toggle[..], partner[..], prev[..], next[..], d, l)
    requires p < n && p !in d
    modifies toggle, partner, prev, next
    ensures Coalesced(n, h, toggle[..], partner[..], prev[..], next[..], d + {p}, l')
    ensures forall k :: 0 <= k < partner.Length && k !in d + {p} ==> partner[k] == old(partner[k])
    ensures forall k :: 0 <= k < prev.Length && k !in d + {p} && k != h ==> prev[k] == old(prev[k])
    ensures forall k :: 0 <= k < next.Length && k !in d + {p} && k != h ==> next[k] == old(next[k])
  {
    hide IsRun;
    hide RingAt;
    hide Toggled;
    Sizes(n, h, toggle[..], partner[..], prev[..], next[..], d, l);
    ghost var toggle0, partner0: seq<nat> := toggle[..], partner[..];
    ToggleTwo(n, toggle0, d, p);
    ghost var s, e := NewEnds(n, partner0, d, p);
    var page1, page2 := p, p + 1;
    l' := l;
    toggle[page1] := !toggle[page1];
    if toggle[page1] {
      l' := LinkLast(h, prev, next, page1, l);
    } else {
      page1 := partner[page1 - 1];
    }
    toggle[page2] := !toggle[page2];
    if !toggle[page2] {
      l' := Unlink(h, prev, next, page2, l');
      page2 := partner[page2];
    } else {
      page2 := page2 - 1;
    }
    partner[page1] := page2;
    partner[page2] := page1;
    PartnerEnds(n, partner0, d, p, s, e);
    assert toggle[..] == toggle0[p := !toggle0[p]][p + 1 := !toggle0[p + 1]];
    assert partner[..] == partner0[s := e][e := s];
    forall k: nat ensures k in l' <==> IsStart(d + {p}, k) {
      StartsAfter(d, p, k);
    }
  }

  method LinkLast(h: nat, prev: array<nat>, next: array<nat>, p: nat, ghost l: seq<nat>) returns (ghost l': seq<nat>)
    requires prev != next && Ring(h, l, prev[..], next[..]) && p < prev.Length && p != h && p !in l
    modifies prev, next
    ensures l' == l + [p] && Ring(h, l', prev[..], next[..])
    ensures forall k :: 0 <= k < prev.Length && k != p && k != h ==> prev[k] == old(prev[k])
    ensures forall k :: 0 <= k < next.Length && k != p && k != h && k !in l ==> next[k] == old(next[k])
  {
    AppendToRing(h, l, prev[..], next[..], p);
    LastOf(h, l, prev[..], next[..]);
    ghost var prev0: seq<nat>, next0: seq<nat> := prev[..], next[..];
    var q := prev[h];
    prev[p] := q;
    next[p] := h;
    prev[h] := p;
    next[q] := p;
    l' := l + [p];
    assert prev[..] == prev0[p := q][h := p] && next[..] == next0[p := h][q := p];
  }

  lemma LastOf(h: nat, l: seq<nat>, prev: seq<nat>, next: seq<nat>)
    requires Ring(h, l, prev, next)
    ensures prev[h] == h || prev[h] in l
  {
    assert RingAt([h] + l + [h], prev, next, |l|);
  }

  method Unlink(h: nat, prev: array<nat>, next: array<nat>, x: nat, ghost l: seq<nat>) returns (ghost l': seq<nat>)
    requires prev != next && Ring(h, l, prev[..], next[..]) && x in l
    modifies prev, next
    ensures Ring(h, l', prev[..], next[..])
    ensures forall k :: k in l' <==> k in l && k != x
    ensures forall k :: 0 <= k < prev.Length && k != h && k !in l ==> prev[k] == old(prev[k])
    ensures forall k :: 0 <= k < next.Length && k != h && k !in l ==> next[k] == old(next[k])
  {
    ghost var j :| 0 <= j < |l| && l[j] == x;
    RemoveFromRing(h, l, prev[..], next[..], j);
    Neighbours(h, l, prev[..], next[..], j);
    ghost var prev0: seq<nat>, next0: seq<nat> := prev[..], next[..];
    var a, b := prev[x], next[x];
    prev[b] := a;
    next[a] := b;
    l' := l[..j] + l[j + 1..];
    assert prev[..] == prev0[b := a] && next[..] == next0[a := b];
  }

  lemma Neighbours(h: nat, l: seq<nat>, prev: seq<nat>, next: seq<nat>, j: nat)
    requires Ring(h, l, prev, next) && j < |l|
    ensures prev[l[j]] == h || prev[l[j]] in l
    ensures next[l[j]] == h || next[l[j]] in l
  {
    var c := [h] + l + [h];
    assert RingAt(c, prev, next, j) && RingAt(c, prev, next, j + 1);
  }

  // ---------------------------------------------------------------- taking the runs

  /** Page `g` lies in a run whose first page is `l[j]` for some `j` in `from .. to - 1`. */
  ghost predicate InRunOf(l: seq<nat>, partner: seq<nat>, from: int, to: int, g: int) {
    exists j :: from <= j < to && 0 <= j < |l| && l[j] < |partner| && l[j] <= g <= partner[l[j]]
  }

  ghost predicate AtRunOf(l: seq<nat>, partner: seq<nat>, to: int, k: int) {
    exists j :: 0 <= j < to && j < |l| && l[j] < |partner| && (k == l[j] || k == partner[l[j]] + 1)
  }

  lemma RunOfListed(n: nat, h: nat, toggle: seq<bool>, partner: seq<nat>, prev: seq<nat>, next: seq<nat>, d: set<int>, l: seq<nat>, j: nat)
    requires Coalesced(n, h, toggle, partner, prev, next, d, l) && j < |l|
    ensures l[j] < n && l[j] < |partner| && partner[l[j]] < n && IsRun(d, l[j], partner[l[j]])
  {
    assert l[j] in l && IsStart(d, l[j]);
    var b := RunDownFrom(d, l[j], n);
    assert b in d;
  }

  lemma RunsApart(n: nat, h: nat, toggle: seq<bool>, partner: seq<nat>, prev: seq<nat>, next: seq<nat>, d: set<int>, l: seq<nat>, i: nat, j: nat, g: int)
    requires Coalesced(n, h, toggle, partner, prev, next, d, l) && i < j < |l|
    requires l[i] < |partner| && l[j] < |partner| && l[i] <= g <= partner[l[i]]
    ensures !(l[j] <= g <= partner[l[j]])
  {
    RunOfListed(n, h, toggle, partner, prev, next, d, l, i);
    RunOfListed(n, h, toggle, partner, prev, next, d, l, j);
    RunUnique(d, l[i], partner[l[i]], l[j], partner[l[j]]);
  }

  lemma RunsDisjoint(n: nat, h: nat, toggle: seq<bool>, partner: seq<nat>, prev: seq<nat>, next: seq<nat>, d: set<int>, l: seq<nat>, i: nat, g: int)
    requires Coalesced(n, h, toggle, partner, prev, next, d, l) && i < |l|
    requires |partner| > n && l[i] < |partner| && l[i] <= g <= partner[l[i]]
    ensures !InRunOf(l, partner, i + 1, |l|, g)
  {
    forall j | i + 1 <= j < |l| && l[j] < |partner| ensures !(l[j] <= g <= partner[l[j]]) {
      RunsApart(n, h, toggle, partner, prev, next, d, l, i, j, g);
    }
  }

  lemma TogglesAtRuns(n: nat, h: nat, toggle: seq<bool>, partner: seq<nat>, prev: seq<nat>, next: seq<nat>, d: set<int>, l: seq<nat>, k: nat)
    requires Coalesced(n, h, toggle, partner, prev, next, d, l) && k <= n && toggle[k]
    ensures AtRunOf(l, partner, |l|, k)
  {
    if k in d {
      assert IsStart(d, k) && k in l;
    } else {
      var a := RunUpTo(d, k - 1, 0);
      assert a in d && IsStart(d, a) && (a as nat) in l;
      var j :| 0 <= j < |l| && l[j] == a;
      assert partner[a] == k - 1;
    }
  }

  lemma PageInSomeRun(n: nat, h: nat, toggle: seq<bool>, partner: seq<nat>, prev: seq<nat>, next: seq<nat>, d: set<int>, l: seq<nat>, g: nat)
    requires Coalesced(n, h, toggle, partner, prev, next, d, l) && g < n
    ensures InRunOf(l, partner, 0, |l|, g) <==> g in d
  {
    if g in d {
      var a := g as int;
      while a - 1 in d
        invariant 0 <= a <= g && forall k :: a <= k <= g ==> k in d
        decreases a
      {
        a := a - 1;
      }
      assert IsStart(d, a) && (a as nat) in l;
      var j :| 0 <= j < |l| && l[j] == a;
      RunOfListed(n, h, toggle, partner, prev, next, d, l, j);
      var e := partner[a];
      assert !(a <= e + 1 <= g);
    }
    if InRunOf(l, partner, 0, |l|, g) {
      var j :| 0 <= j < |l| && l[j] < |partner| && l[j] <= g <= partner[l[j]];
      RunOfListed(n, h, toggle, partner, prev, next, d, l, j);
    }
  }

  /** One run less to take. */
  lemma OneRunTaken(n: nat, h: nat, toggle: seq<bool>, partner: seq<nat>, prev: seq<nat>, next: seq<nat>, d: set<int>, l: seq<nat>, i: nat)
    requires Coalesced(n, h, toggle, partner, prev, next, d, l) && 0 < i <= |l| && |partner| > n && l[i - 1] < n
    ensures forall g :: InRunOf(l, partner, i - 1, |l|, g) <==> InRunOf(l, partner, i, |l|, g) || l[i - 1] <= g <= partner[l[i - 1]]
    ensures forall g :: l[i - 1] <= g <= partner[l[i - 1]] ==> !InRunOf(l, partner, i, |l|, g)
    ensures forall k :: AtRunOf(l, partner, i, k) && k != l[i - 1] && k != partner[l[i - 1]] + 1 ==> AtRunOf(l, partner, i - 1, k)
  {
    forall g | l[i - 1] <= g <= partner[l[i - 1]] ensures !InRunOf(l, partner, i, |l|, g) {
      RunsDisjoint(n, h, toggle, partner, prev, next, d, l, i - 1, g);
    }
    forall g ensures InRunOf(l, partner, i - 1, |l|, g) <==> InRunOf(l, partner, i, |l|, g) || l[i - 1] <= g <= partner[l[i - 1]] {
      InRunStep(l, partner, i, g);
    }
    forall k | AtRunOf(l, partner, i, k) && k != l[i - 1] && k != partner[l[i - 1]] + 1 ensures AtRunOf(l, partner, i - 1, k) {
      var j :| 0 <= j < i && j < |l| && l[j] < |partner| && (k == l[j] || k == partner[l[j]] + 1);
      assert j != i - 1;
    }
  }

  lemma InRunStep(l: seq<nat>, partner: seq<nat>, i: nat, g: int)
    requires 0 < i <= |l| && l[i - 1] < |partner|
    ensures InRunOf(l, partner, i - 1, |l|, g) <==> InRunOf(l, partner, i, |l|, g) || l[i - 1] <= g <= partner[l[i - 1]]
  {
    if InRunOf(l, partner, i - 1, |l|, g) {
      var j :| i - 1 <= j < |l| && l[j] < |partner| && l[j] <= g <= partner[l[j]];
      assert j > i - 1 ==> InRunOf(l, partner, i, |l|, g);
    }
    if InRunOf(l, partner, i, |l|, g) {
      var j :| i <= j < |l| && l[j] < |partner| && l[j] <= g <= partner[l[j]];
      assert i - 1 <= j;
    }
  }

  method Push(notices: array<seq<nat>>, first: nat, last: nat, time: nat)
    requires first <= last < notices.Length
    modifies notices
    ensures forall g :: 0 <= g < notices.Length ==>
              notices[g] == if first <= g <= last then old(notices[g]) + [time] else old(notices[g])
  {
    var k: int := last;
    notices[k] := notices[k] + [time];
    k := k - 1;
    while k >= first
      invariant first - 1 <= k < last
      invariant forall g :: 0 <= g < notices.Length ==>
                  notices[g] == if k < g <= last then old(notices[g]) + [time] else old(notices[g])
    {
      notices[k] := notices[k] + [time];
      k := k - 1;
    }
  }

  /** Empty the list, giving every page of every run one more notice and clearing the toggles; the
      runs are taken from the newest to the oldest. */
  method TakeRuns(n: nat, h: nat, toggle: array<bool>, partner: array<nat>, prev: array<nat>, next: array<nat>,
                  notices: array<seq<nat>>, time: nat, ghost d: set<int>, ghost l: seq<nat>)
    returns (ranges: seq<(nat, nat)>)
    requires partner != prev && prev != next && partner != next && notices.Length == n
    requires Coalesced(n, h, toggle[..], partner[..], prev[..], next[..], d, l)
    modifies toggle, prev, next, notices
    ensures Coalesced(n, h, toggle[..], partner[..], prev[..], next[..], {}, [])
    ensures forall g :: 0 <= g < n ==> notices[g] == if g in d then old(notices[g]) + [time] else old(notices[g])
    ensures |ranges| == |l| && forall i :: 0 <= i < |l| ==> ranges[i].0 == l[|l| - 1 - i] && IsRun(d, ranges[i].0, ranges[i].1)
    ensures forall k :: 0 <= k < prev.Length && k != h ==> prev[k] == old(prev[k])
    ensures forall k :: 0 <= k < next.Length && k != h ==> next[k] == old(next[k])
  {
    ghost var was: seq<nat>, toggle0, prev0: seq<nat>, next0: seq<nat> := partner[..], toggle[..], prev[..], next[..];
    Sizes(n, h, toggle0, was, prev0, next0, d, l);
    ranges := TakeEach(n, h, toggle, partner, prev, notices, time, d, l, next0);
    prev[h] := h;
    next[h] := h;
    forall g: nat | g < n ensures InRunOf(l, was, 0, |l|, g) <==> g in d {
      PageInSomeRun(n, h, toggle0, was, prev0, next0, d, l, g);
    }
    EmptyRing(n, h, toggle[..], partner[..], prev[..], next[..]);
  }

  lemma EmptyRing(n: nat, h: nat, toggle: seq<bool>, partner: seq<nat>, prev: seq<nat>, next: seq<nat>)
    requires n <= h < |prev| == |next| && |toggle| > n && |partner| > n
    requires prev[h] == h && next[h] == h
    requires forall k :: 0 <= k <= n ==> !toggle[k]
    ensures Coalesced(n, h, toggle, partner, prev, next, {}, [])
  {
    assert RingAt([h] + [] + [h], prev, next, 0);
    forall a, b ensures !IsRun({}, a, b) {
      NoRun(a, b);
    }
  }

  lemma NoRun(a: int, b: int)
    ensures !IsRun({}, a, b)
  {
    var none: set<int> := {};
    assert a !in none;
  }

  /** The state of the walk when the runs from `l[i]` on have been taken. */
  ghost predicate Taken(n: nat, toggle: array<bool>, was: seq<nat>, notices: array<seq<nat>>, notices0: seq<seq<nat>>, time: nat, l: seq<nat>, i: nat)
    reads toggle, notices
    requires toggle.Length > n && notices.Length == n == |notices0|
  {
    && (forall k :: 0 <= k <= n && toggle[k] ==> AtRunOf(l, was, i, k))
    && (forall g :: 0 <= g < n ==> notices[g] == if InRunOf(l, was, i, |l|, g) then notices0[g] + [time] else notices0[g])
  }

  method TakeOne(n: nat, h: nat, toggle: array<bool>, partner: array<nat>, page: nat,
                 notices: array<seq<nat>>, time: nat, ghost notices0: seq<seq<nat>>,
                 ghost toggle0: seq<bool>, ghost prev: seq<nat>, ghost next: seq<nat>, ghost d: set<int>, ghost l: seq<nat>, ghost i: nat)
    returns (last: nat)
    requires toggle.Length > n && notices.Length == n == |notices0|
    requires Coalesced(n, h, toggle0, partner[..], prev, next, d, l)
    requires 0 < i <= |l| && page == l[i - 1] && Taken(n, toggle, partner[..], notices, notices0, time, l, i)
    modifies toggle, notices
    ensures IsRun(d, page, last)
    ensures Taken(n, toggle, partner[..], notices, notices0, time, l, i - 1)
  {
    hide IsRun;
    hide Ring;
    hide Toggled;
    hide InRunOf;
    hide AtRunOf;
    ghost var was: seq<nat> := partner[..];
    Sizes(n, h, toggle0, was, prev, next, d, l);
    RunOfListed(n, h, toggle0, was, prev, next, d, l, i - 1);
    OneRunTaken(n, h, toggle0, was, prev, next, d, l, i);
    RunBounds(d, page, was[page]);
    last := partner[page];
    toggle[last + 1] := false;
    toggle[page] := false;
    Push(notices, page, last, time);
  }

  method TakeEach(n: nat, h: nat, toggle: array<bool>, partner: array<nat>, prev: array<nat>,
                  notices: array<seq<nat>>, time: nat, ghost d: set<int>, ghost l: seq<nat>, ghost next: seq<nat>)
    returns (ranges: seq<(nat, nat)>)
    requires notices.Length == n
    requires Coalesced(n, h, toggle[..], partner[..], prev[..], next, d, l)
    modifies toggle, notices
    ensures forall k :: 0 <= k <= n && k < toggle.Length ==> !toggle[k]
    ensures forall g :: 0 <= g < n ==> notices[g] == if InRunOf(l, partner[..], 0, |l|, g) then old(notices[g]) + [time] else old(notices[g])
    ensures |ranges| == |l| && forall i :: 0 <= i < |l| ==> ranges[i].0 == l[|l| - 1 - i] && IsRun(d, ranges[i].0, ranges[i].1)
  {
    hide IsRun;
    hide RingAt;
    hide Toggled;
    ghost var was: seq<nat>, toggle0, prev0: seq<nat>, notices0 := partner[..], toggle[..], prev[..], notices[..];
    Sizes(n, h, toggle0, was, prev0, next, d, l);
    Backward(h, l, prev0, next);
    forall k: nat | k <= n && toggle[k] ensures AtRunOf(l, was, |l|, k) {
      TogglesAtRuns(n, h, toggle0, was, prev0, next, d, l, k);
    }
    var page := prev[h];
    ranges := [];
    ghost var i := |l|;
    while page != h
      invariant 0 <= i <= |l| && page == (if i == 0 then h else l[i - 1])
      invariant |ranges| == |l| - i
      invariant forall k :: 0 <= k < |ranges| ==> ranges[k].0 == l[|l| - 1 - k] && IsRun(d, ranges[k].0, ranges[k].1)
      invariant Taken(n, toggle, was, notices, notices0, time, l, i)
      decreases i
    {
      var last := TakeOne(n, h, toggle, partner, page, notices, time, notices0, toggle0, prev0, next, d, l, i);
      ranges := ranges + [(page, last)];
      assert prev[page] == prev0[l[i - 1]];
      page := prev[page];
      i := i - 1;
    }
  }

  lemma RunBounds(d: set<int>, a: int, b: int)
    requires IsRun(d, a, b)
    ensures a <= b
  {
  }

  lemma Backward(h: nat, l: seq<nat>, prev: seq<nat>, next: seq<nat>)
    requires Ring(h, l, prev, next)
    ensures prev[h] == if l == [] then h else l[|l| - 1]
    ensures forall i :: 0 <= i < |l| ==> prev[l[i]] == if i == 0 then h else l[i - 1]
  {
    var c := [h] + l + [h];
    assert RingAt(c, prev, next, |l|);
    forall i | 0 <= i < |l| ensures prev[l[i]] == if i == 0 then h else l[i - 1] {
      assert RingAt(c, prev, next, i);
    }
  }

  // ---------------------------------------------------------------- both lists over one page table

  /** A list depends only on the links of its own pages and of its head. */
  lemma Unaffected(n: nat, h: nat, toggle: seq<bool>, partner: seq<nat>, prev: seq<nat>, next: seq<nat>,
                   partner': seq<nat>, prev': seq<nat>, next': seq<nat>, d: set<int>, l: seq<nat>)
    requires Coalesced(n, h, toggle, partner, prev, next, d, l)
    requires |partner'| == |partner| && |prev'| == |prev| && |next'| == |next|
    requires forall k :: 0 <= k < |partner| && k in d ==> partner'[k] == partner[k]
    requires forall k :: 0 <= k < |prev| && (k in d || k == h) ==> prev'[k] == prev[k] && next'[k] == next[k]
    ensures Coalesced(n, h, toggle, partner', prev', next', d, l)
  {
    var c := [h] + l + [h];
    forall i | 0 <= i <= |l| ensures RingAt(c, prev', next', i) {
      assert RingAt(c, prev, next, i);
      assert c[i] != h ==> c[i] in l && IsStart(d, c[i]);
      assert c[i + 1] != h ==> c[i + 1] in l && IsStart(d, c[i + 1]);
    }
    forall a, b | IsRun(d, a, b) && 0 <= a && b < n ensures partner'[a] == b && partner'[b] == a {
      assert a in d && b in d;
    }
  }

  /** The page table: the dirty list and the list of pages to invalidate share the partner and list
      links of the pages; each has its own toggles and its own head. */
  class PageTable {
    const n: nat
    const dirtyToggle: array<bool>
    const invalToggle: array<bool>
    const partner: array<nat>
    const prev: array<nat>
    const next: array<nat>
    ghost var dirty: set<int>
    ghost var dirtyList: seq<nat>
    ghost var inval: set<int>
    ghost var invalList: seq<nat>

    /** The head of the dirty list is a page record of its own; that of the other is the extra page. */
    const dirtyHead: nat := n + 1
    const invalHead: nat := n

    ghost predicate Valid()
      reads this, dirtyToggle, invalToggle, partner, prev, next
    {
      && dirtyToggle != invalToggle && partner != prev && prev != next && partner != next
      && partner.Length == prev.Length == next.Length == n + 2
      && dirty !! inval
      && Coalesced(n, dirtyHead, dirtyToggle[..], partner[..], prev[..], next[..], dirty, dirtyList)
      && Coalesced(n, invalHead, invalToggle[..], partner[..], prev[..], next[..], inval, invalList)
    }

    constructor (n: nat)
      ensures this.n == n && Valid() && dirty == {} && inval == {}
      ensures fresh(dirtyToggle) && fresh(invalToggle) && fresh(partner) && fresh(prev) && fresh(next)
    {
      this.n := n;
      dirtyToggle := new bool[n + 2](_ => false);
      invalToggle := new bool[n + 2](_ => false);
      partner := new nat[n + 2](_ => 0);
      prev := new nat[n + 2](i => i);
      next := new nat[n + 2](i => i);
      dirty, dirtyList, inval, invalList := {}, [], {}, [];
      new;
      EmptyRing(n, n + 1, dirtyToggle[..], partner[..], prev[..], next[..]);
      EmptyRing(n, n, invalToggle[..], partner[..], prev[..], next[..]);
    }

    /** Put a page on the dirty list. */
    method DirtyMerge(p: nat)
      requires Valid() && p < n && p !in dirty && p !in inval
      modifies this`dirty, this`dirtyList, dirtyToggle, partner, prev, next
      ensures Valid() && dirty == old(dirty) + {p as int}
    {
      hide Coalesced;
      ghost var partner0: seq<nat>, prev0: seq<nat>, next0: seq<nat> := partner[..], prev[..], next[..];
      WithinOf(n, invalHead, invalToggle[..], partner0, prev0, next0, inval, invalList);
      WithinOf(n, dirtyHead, dirtyToggle[..], partner0, prev0, next0, dirty, dirtyList);
      dirtyList := Merge(n, dirtyHead, dirtyToggle, partner, prev, next, p, dirty, dirtyList);
      dirty := dirty + {p};
      Unaffected(n, invalHead, invalToggle[..], partner0, prev0, next0, partner[..], prev[..], next[..], inval, invalList);
    }

    /** Put a page on the list of pages to invalidate. */
    method InvalMerge(p: nat)
      requires Valid() && p < n && p !in dirty && p !in inval
      modifies this`inval, this`invalList, invalToggle, partner, prev, next
      ensures Valid() && inval == old(inval) + {p as int}
    {
      hide Coalesced;
      ghost var partner0: seq<nat>, prev0: seq<nat>, next0: seq<nat> := partner[..], prev[..], next[..];
      WithinOf(n, invalHead, invalToggle[..], partner0, prev0, next0, inval, invalList);
      WithinOf(n, dirtyHead, dirtyToggle[..], partner0, prev0, next0, dirty, dirtyList);
      invalList := Merge(n, invalHead, invalToggle, partner, prev, next, p, inval, invalList);
      inval := inval + {p};
      Unaffected(n, dirtyHead, dirtyToggle[..], partner0, prev0, next0, partner[..], prev[..], next[..], dirty, dirtyList);
    }

    /** Make the dirty pages an interval: each gets one write notice, as part of one maximal range. */
    method CreateNotices(notices: array<seq<nat>>, time: nat) returns (ranges: seq<(nat, nat)>)
      requires Valid() && notices.Length == n
      modifies this`dirty, this`dirtyList, dirtyToggle, prev, next, notices
      ensures Valid() && dirty == {}
      ensures forall g :: 0 <= g < n ==> notices[g] == if g in old(dirty) then old(notices[g]) + [time] else old(notices[g])
      ensures |ranges| == |old(dirtyList)|
      ensures forall i :: 0 <= i < |ranges| ==> IsRun(old(dirty), ranges[i].0, ranges[i].1)
    {
      hide Coalesced;
      ghost var partner0: seq<nat>, prev0: seq<nat>, next0: seq<nat> := partner[..], prev[..], next[..];
      WithinOf(n, invalHead, invalToggle[..], partner0, prev0, next0, inval, invalList);
      ranges := TakeRuns(n, dirtyHead, dirtyToggle, partner, prev, next, notices, time, dirty, dirtyList);
      dirty, dirtyList := {}, [];
      Unaffected(n, invalHead, invalToggle[..], partner0, prev0, next0, partner[..], prev[..], next[..], inval, invalList);
    }

    /** Take away access to the invalidated pages, one call for each maximal range; `calls` counts
        them page by page. */
    method PerformInval(calls: array<seq<nat>>) returns (ranges: seq<(nat, nat)>)
      requires Valid() && calls.Length == n
      modifies this`inval, this`invalList, invalToggle, prev, next, calls
      ensures Valid() && inval == {}
      ensures forall g :: 0 <= g < n ==> calls[g] == if g in old(inval) then old(calls[g]) + [0] else old(calls[g])
      ensures |ranges| == |old(invalList)|
      ensures forall i :: 0 <= i < |ranges| ==> IsRun(old(inval), ranges[i].0, ranges[i].1)
    {
      hide Coalesced;
      ghost var partner0: seq<nat>, prev0: seq<nat>, next0: seq<nat> := partner[..], prev[..], next[..];
      WithinOf(n, dirtyHead, dirtyToggle[..], partner0, prev0, next0, dirty, dirtyList);
      ranges := TakeRuns(n, invalHead, invalToggle, partner, prev, next, calls, 0, inval, invalList);
      inval, invalList := {}, [];
      Unaffected(n, dirtyHead, dirtyToggle[..], partner0, prev0, next0, partner[..], prev[..], next[..], dirty, dirtyList);
    }
  }

  lemma WithinOf(n: nat, h: nat, toggle: seq<bool>, partner: seq<nat>, prev: seq<nat>, next: seq<nat>, d: set<int>, l: seq<nat>)
    requires Coalesced(n, h, toggle, partner, prev, next, d, l)
    ensures Within(n, d)
  {
  }
}
