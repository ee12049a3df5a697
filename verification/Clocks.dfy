/** Vector times and the stamps of intervals. */
module Clocks {

  /** The identity of an interval: the process that made it and its vector time. */
  datatype Stamp = Stamp(id: nat, vt: seq<nat>)

  predicate Fits(n: nat, a: Stamp) {
    |a.vt| == n && a.id < n
  }

  predicate AtMost(u: seq<nat>, v: seq<nat>) {
    |u| == |v| && forall k :: 0 <= k < |u| ==> u[k] <= v[k]
  }

  function Time(a: Stamp): nat {
    if a.id < |a.vt| then a.vt[a.id] else 0
  }

  /** `a` happened before or is `b`: the maker of `b` had seen `a`. */
  predicate Precedes(a: Stamp, b: Stamp) {
    a.id < |b.vt| && Time(a) <= b.vt[a.id]
  }

  /** Stamps that come from a run: seeing an interval means having seen all its maker had seen, and
      an interval's own component was new when it was made. */
  ghost predicate Causal(n: nat, stamps: set<Stamp>) {
    && (forall a :: a in stamps ==> Fits(n, a))
    && (forall a, b :: a in stamps && b in stamps && Precedes(a, b) ==> AtMost(a.vt, b.vt))
    && (forall a, b :: a in stamps && b in stamps && a != b && Precedes(a, b) ==> a.vt[b.id] < b.vt[b.id])
  }

  lemma PrecedesTransitive(n: nat, stamps: set<Stamp>, a: Stamp, b: Stamp, c: Stamp)
    requires Causal(n, stamps) && a in stamps && b in stamps && c in stamps
    requires Precedes(a, b) && Precedes(b, c)
    ensures Precedes(a, c)
  {
    assert AtMost(b.vt, c.vt);
    assert b.vt[a.id] <= c.vt[a.id];
  }
}
