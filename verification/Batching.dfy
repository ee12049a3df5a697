/** Packing the sorted notices of a page into diff requests. */
module Batching {
  import opened Clocks

  /** One request: it asks for the notices at indices `lo + 1 .. hi` of the sorted array, the
      highest index first, and goes to process `to`. */
  datatype Batch = Batch(to: nat, lo: int, hi: int, asked: seq<(nat, nat)>)

  /** The process that made `w[d]` had seen everything at indices `lo + 1 .. hi`. */
  ghost predicate Dominates(w: seq<Stamp>, d: int, lo: int, hi: int)
    requires 0 <= d < |w| && -1 <= lo <= hi < |w|
  {
    forall k :: lo < k <= hi ==> Sees(w, d, k)
  }

  /** No notice at `lo + 1 .. hi` was made by a process that had seen all from there up to `top`. */
  ghost predicate NoneDominates(w: seq<Stamp>, lo: int, hi: int, top: int)
    requires -1 <= lo <= hi <= top < |w|
  {
    forall d :: lo < d <= hi ==> !Dominates(w, d, d, top)
  }

  function Asked(w: seq<Stamp>, lo: int, hi: int): seq<(nat, nat)>
    requires -1 <= lo <= hi < |w|
    decreases hi - lo
  {
    if lo == hi then [] else Asked(w, lo + 1, hi) + [(w[lo + 1].id, Time(w[lo + 1]))]
  }

  /** A request for the notices at `lo + 1 .. hi`, which goes to the maker of the last one asked for. */
  ghost predicate Cut(w: seq<Stamp>, b: Batch) {
    -1 <= b.lo < b.hi < |w| && b.to == w[b.lo + 1].id && b.asked == Asked(w, b.lo, b.hi)
  }

  ghost predicate GoodBatch(w: seq<Stamp>, b: Batch) {
    Cut(w, b) && Dominates(w, b.lo + 1, b.lo, b.hi)
  }

  /** The batches cut `w` from the high end down without gap or overlap, stopping at `lo`. */
  ghost predicate Cuts(w: seq<Stamp>, batches: seq<Batch>, lo: int) {
    && (forall b :: b in batches ==> Cut(w, b))
    && (forall i :: 0 < i < |batches| ==> batches[i].hi == batches[i - 1].lo)
    && (batches == [] ==> lo == |w| - 1)
    && (batches != [] ==> batches[0].hi == |w| - 1 && batches[|batches| - 1].lo == lo)
  }

  /** And every one goes to a process that had seen all it asks for. */
  ghost predicate Covers(w: seq<Stamp>, batches: seq<Batch>, lo: int) {
    Cuts(w, batches, lo) && forall b :: b in batches ==> GoodBatch(w, b)
  }

  predicate Sees(w: seq<Stamp>, j: int, i: int)
    requires 0 <= i < |w| && 0 <= j < |w|
  {
    Precedes(w[i], w[j])
  }

  /** All that packing needs of the stamps: having seen is reflexive and transitive. */
  ghost predicate Sighted(w: seq<Stamp>) {
    && (forall i {:trigger w[i]} :: 0 <= i < |w| ==> Sees(w, i, i))
    && (forall i, j, k {:trigger Sees(w, i, j), Sees(w, j, k)} ::
         0 <= i < |w| && 0 <= j < |w| && 0 <= k < |w| && Sees(w, i, j) && Sees(w, j, k) ==> Sees(w, i, k))
  }

  lemma CausalIsSighted(n: nat, stamps: set<Stamp>, w: seq<Stamp>)
    requires Causal(n, stamps) && forall k :: 0 <= k < |w| ==> w[k] in stamps
    ensures Sighted(w)
  {
    forall i, j, k | 0 <= i < |w| && 0 <= j < |w| && 0 <= k < |w| && Sees(w, i, j) && Sees(w, j, k)
      ensures Sees(w, i, k)
    {
      PrecedesTransitive(n, stamps, w[k], w[j], w[i]);
    }
  }

  // ---------------------------------------------------------------- the greedy packing

  /** The first notice from `dom` down whose maker had seen all between it and `at + 1`; -1 if there is none. */
  function Dominator(w: seq<Stamp>, at: int, dom: int): (d: int)
    requires -1 <= dom <= at && 0 <= at + 1 < |w|
    ensures -1 <= d <= dom
    decreases dom + 1
  {
    if dom < 0 || forall i :: dom < i <= at + 1 ==> Sees(w, dom, i) then dom else Dominator(w, at, dom - 1)
  }

  /** It is the highest from `dom` down that does. */
  lemma {:induction false} DominatorIsFirst(w: seq<Stamp>, at: int, dom: int)
    requires -1 <= dom <= at && 0 <= at + 1 < |w|
    ensures var d := Dominator(w, at, dom);
            && (d >= 0 ==> Dominates(w, d, d, at + 1))
            && NoneDominates(w, d, dom, at + 1)
    decreases dom + 1
  {
    if dom >= 0 && !(forall i :: dom < i <= at + 1 ==> Sees(w, dom, i)) {
      DominatorIsFirst(w, at, dom - 1);
    }
  }

  /** Where a request ends that asks for `at` next and goes on down to `dom`. */
  function EndOf(w: seq<Stamp>, at: int, dom: int): (lo: int)
    requires -1 <= dom < at < |w|
    ensures -1 <= lo < at
    decreases at
  {
    if dom < 0 then
      dom
    else
      var d := Dominator(w, dom, dom);
      if d < 0 then dom else EndOf(w, dom, if d < dom - 1 then d else dom - 1)
  }

  function BatchAt(w: seq<Stamp>, hi: nat): (b: Batch)
    requires hi < |w|
    ensures -1 <= b.lo < hi == b.hi
  {
    var lo := EndOf(w, hi, hi - 1);
    Batch(w[lo + 1].id, lo, hi, Asked(w, lo, hi))
  }

  /** The requests for the notices from `hi` down. */
  function PackFrom(w: seq<Stamp>, hi: int): seq<Batch>
    requires -1 <= hi < |w|
    decreases hi + 1
  {
    if hi < 0 then [] else [BatchAt(w, hi)] + PackFrom(w, BatchAt(w, hi).lo)
  }

  function PackAll(w: seq<Stamp>): seq<Batch> {
    PackFrom(w, |w| - 1)
  }

  /** Whatever the stamps, the requests cut the array without gap or overlap. */
  lemma {:induction false} PackCuts(w: seq<Stamp>, hi: int)
    requires -1 <= hi < |w|
    ensures var bs := PackFrom(w, hi);
            && (forall b :: b in bs ==> Cut(w, b))
            && (forall i :: 0 < i < |bs| ==> bs[i].hi == bs[i - 1].lo)
            && (bs == [] <==> hi == -1)
            && (bs != [] ==> bs[0].hi == hi && bs[|bs| - 1].lo == -1)
    decreases hi + 1
  {
    if hi >= 0 {
      PackCuts(w, BatchAt(w, hi).lo);
    }
  }

  lemma SelfIncluded(w: seq<Stamp>, d: int, hi: int)
    requires Sighted(w) && 0 <= d <= hi < |w| && Dominates(w, d, d, hi)
    ensures Dominates(w, d, d - 1, hi)
  {
    assert Sees(w, d, d);
  }

  lemma {:induction false} DominatorDominates(w: seq<Stamp>, at: int, dom: int, hi: int)
    requires Sighted(w) && 0 <= at < hi < |w| && -1 <= dom <= at
    requires Dominates(w, at + 1, at, hi) || (dom == at && Dominates(w, at, at, hi))
    ensures var d := Dominator(w, at, dom);
            if d >= 0 then Dominates(w, d, d, hi) else Dominates(w, at + 1, at, hi)
    decreases dom + 1
  {
    if dom >= 0 {
      if forall i :: dom < i <= at + 1 ==> Sees(w, dom, i) {
        forall k | dom < k <= hi ensures Sees(w, dom, k) {
          if k > at + 1 && Dominates(w, at + 1, at, hi) {
            assert Sees(w, dom, at + 1) && Sees(w, at + 1, k);
          }
        }
      } else {
        assert dom == at && Dominates(w, at, at, hi) ==> Sees(w, at, at + 1);
        DominatorDominates(w, at, dom - 1, hi);
      }
    }
  }

  /** Where having seen is transitive, the process asked last has seen all that its request asks for. */
  lemma {:induction false} EndDominates(w: seq<Stamp>, at: int, d: int, hi: int)
    requires Sighted(w) && 0 <= d <= at <= hi < |w| && Dominates(w, d, d, hi)
    ensures var lo := EndOf(w, at, if d == at then at - 1 else d); Dominates(w, lo + 1, lo, hi)
    decreases at
  {
    hide Sighted;
    var dom := if d == at then at - 1 else d;
    SelfIncluded(w, d, hi);
    if dom >= 0 {
      DominatorDominates(w, dom, dom, hi);
      var e := Dominator(w, dom, dom);
      if e >= 0 {
        EndDominates(w, dom, e, hi);
      }
    }
  }

  lemma {:induction false} BatchDominates(w: seq<Stamp>, hi: nat)
    requires Sighted(w) && hi < |w|
    ensures GoodBatch(w, BatchAt(w, hi))
  {
    hide Sighted;
    hide EndOf;
    hide Asked;
    EndDominates(w, hi, hi, hi);
  }

  /** For stamps in which having seen is transitive, every request goes to a process that had seen all of it. */
  lemma {:induction false} PackCovers(w: seq<Stamp>)
    ensures Cuts(w, PackAll(w), -1)
    ensures Sighted(w) ==> Covers(w, PackAll(w), -1)
  {
    hide Sighted;
    hide GoodBatch;
    hide Cut;
    hide BatchAt;
    PackCuts(w, |w| - 1);
    if Sighted(w) {
      forall b | b in PackAll(w) ensures GoodBatch(w, b) {
        PackedAt(w, |w| - 1, b);
        BatchDominates(w, b.hi);
      }
    }
  }

  /** Where a request ends, no notice further down was made by a process that had seen all from there up to the last
      one asked for. */
  lemma {:induction false} EndIsGreedy(w: seq<Stamp>, at: int, dom: int)
    requires -1 <= dom < at < |w|
    ensures var lo := EndOf(w, at, dom); NoneDominates(w, -1, lo, lo + 1)
    decreases at
  {
    if dom >= 0 {
      DominatorIsFirst(w, dom, dom);
      var d := Dominator(w, dom, dom);
      if d >= 0 {
        EndIsGreedy(w, dom, if d < dom - 1 then d else dom - 1);
      }
    }
  }

  /** A request ends only where nobody who made a notice further down could be asked for all of it. */
  lemma {:induction false} PackIsGreedy(w: seq<Stamp>, b: Batch)
    requires b in PackAll(w)
    ensures -1 <= b.lo && b.lo + 1 < |w| && NoneDominates(w, -1, b.lo, b.lo + 1)
    ensures b.lo < b.hi < |w| && NoneDominates(w, -1, b.lo, b.hi)
  {
    PackedAt(w, |w| - 1, b);
    EndIsGreedy(w, b.hi, b.hi - 1);
    NoneFurther(w, b.lo, b.hi);
  }

  lemma NoneFurther(w: seq<Stamp>, lo: int, hi: int)
    requires -1 <= lo < hi < |w| && NoneDominates(w, -1, lo, lo + 1)
    ensures NoneDominates(w, -1, lo, hi)
  {
    forall d | -1 < d <= lo ensures !Dominates(w, d, d, hi) {
      assert !Dominates(w, d, d, lo + 1);
    }
  }

  lemma {:induction false} PackedAt(w: seq<Stamp>, hi: int, b: Batch)
    requires -1 <= hi < |w| && b in PackFrom(w, hi)
    ensures 0 <= b.hi < |w| && b == BatchAt(w, b.hi)
    decreases hi + 1
  {
    if b != BatchAt(w, hi) {
      PackedAt(w, BatchAt(w, hi).lo, b);
    }
  }

  // ---------------------------------------------------------------- the loops

  /** The nested loops with their jumps.  `dom` is the candidate for the process to ask. */
  method Pack(w: seq<Stamp>) returns (batches: seq<Batch>)
    ensures batches == PackAll(w) && Cuts(w, batches, -1)
    ensures Sighted(w) ==> Covers(w, batches, -1)
  {
    hide Sighted;
    hide Cuts;
    hide Covers;
    hide BatchAt;
    PackCovers(w);
    batches := [];
    var at := |w| - 1;
    while at >= 0
      invariant -1 <= at < |w|
      invariant PackAll(w) == batches + PackFrom(w, at)
    {
      var b := PackOne(w, at);
      assert PackFrom(w, at) == [b] + PackFrom(w, b.lo);
      batches := batches + [b];
      at := b.lo;
    }
  }

  method PackOne(w: seq<Stamp>, hi: nat) returns (b: Batch)
    requires hi < |w|
    ensures b == BatchAt(w, hi)
  {
    var at, dom, asked := hi as int, hi - 1, [];
    while true
      invariant -1 <= dom < at <= hi
      invariant EndOf(w, at, dom) == EndOf(w, hi, hi - 1)
      invariant asked == Asked(w, at, hi)
      decreases at
    {
      at, asked := Emit(w, at, hi, dom, asked);
      if at < 0 {
        break;
      }
      dom := FindDominator(w, at);
      if dom < 0 {
        break;
      }
      dom := if dom < at - 1 then dom else at - 1;
    }
    b := Batch(w[at + 1].id, at, hi, asked);
  }

  method Emit(w: seq<Stamp>, from: int, hi: int, dom: int, before: seq<(nat, nat)>)
    returns (at: int, asked: seq<(nat, nat)>)
    requires -1 <= dom < from <= hi < |w| && before == Asked(w, from, hi)
    ensures at == dom && asked == Asked(w, at, hi)
  {
    at, asked := from, before;
    asked := asked + [(w[at].id, Time(w[at]))];
    at := at - 1;
    while at > dom
      invariant dom <= at < hi && asked == Asked(w, at, hi)
    {
      asked := asked + [(w[at].id, Time(w[at]))];
      at := at - 1;
    }
  }

  /** The search starts over with the next candidate as soon as one notice has not been seen by it. */
  method FindDominator(w: seq<Stamp>, at: int) returns (dom: int)
    requires 0 <= at && at + 1 < |w|
    ensures dom == Dominator(w, at, at) && -1 <= dom <= at
    ensures dom >= 0 ==> Dominates(w, dom, dom, at + 1)
    ensures NoneDominates(w, dom, at, at + 1)
  {
    DominatorIsFirst(w, at, at);
    dom := at;
    var i := at + 1;
    while i > dom
      invariant 0 <= dom <= at && dom <= i <= at + 1
      invariant forall k :: i < k <= at + 1 ==> Sees(w, dom, k)
      invariant Dominator(w, at, at) == Dominator(w, at, dom)
      decreases dom, i
    {
      if !Sees(w, dom, i) {
        dom := dom - 1;
        if dom < 0 {
          return;
        }
        i := at + 1;
      } else {
        i := i - 1;
      }
    }
  }

  /** Every notice is asked for in exactly one request; and where having seen is transitive, the process that
      request goes to made an interval that had seen it. */
  lemma {:induction false} AskedOnce(w: seq<Stamp>, batches: seq<Batch>, k: nat) returns (i: nat)
    requires Cuts(w, batches, -1) && k < |w|
    ensures i < |batches| && batches[i].lo < k <= batches[i].hi
    ensures forall j :: 0 <= j < |batches| && batches[j].lo < k <= batches[j].hi ==> j == i
    ensures 0 <= batches[i].lo + 1 < |w| && batches[i].to == w[batches[i].lo + 1].id
    ensures Covers(w, batches, -1) ==> Precedes(w[k], w[batches[i].lo + 1])
    ensures (w[k].id, Time(w[k])) in batches[i].asked
  {
    Decreasing(w, batches);
    i := 0;
    while batches[i].lo >= k
      invariant i < |batches| && k <= batches[i].hi
      decreases |batches| - i
    {
      i := i + 1;
    }
    assert Cut(w, batches[i]);
    assert Covers(w, batches, -1) ==> GoodBatch(w, batches[i]) && Sees(w, batches[i].lo + 1, k);
    AskedHas(w, batches[i].lo, batches[i].hi, k);
  }

  lemma {:induction false} Decreasing(w: seq<Stamp>, batches: seq<Batch>)
    requires forall b :: b in batches ==> Cut(w, b)
    requires forall i :: 0 < i < |batches| ==> batches[i].hi == batches[i - 1].lo
    ensures forall i, j :: 0 <= i < j < |batches| ==> batches[j].hi <= batches[i].lo
  {
    if batches != [] {
      var last := |batches| - 1;
      Decreasing(w, batches[..last]);
      forall i | 0 <= i < last ensures batches[last].hi <= batches[i].lo {
        assert Cut(w, batches[last - 1]);
        assert i < last - 1 ==> batches[..last][last - 1].hi <= batches[..last][i].lo;
      }
      forall i, j | 0 <= i < j < |batches| ensures batches[j].hi <= batches[i].lo {
        assert j < last ==> batches[..last][j].hi <= batches[..last][i].lo;
      }
    }
  }

  lemma {:induction false} AskedHas(w: seq<Stamp>, lo: int, hi: int, k: int)
    requires -1 <= lo < k <= hi < |w|
    ensures (w[k].id, Time(w[k])) in Asked(w, lo, hi)
    decreases hi - lo
  {
    if k > lo + 1 {
      AskedHas(w, lo + 1, hi, k);
    }
  }
}
