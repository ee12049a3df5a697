/** Applying the diffs of concurrent and ordered intervals to one page. */
module Confluence {
  import opened Clocks
  import opened DiffCodec
  import NoticeOrder

  /** What one interval did to the page: the page against the twin at the time of the diff. */
  datatype Update = Update(stamp: Stamp, page: seq<Word>, twin: seq<Word>)
  {
    predicate Fits(n: nat) {
      |page| == |twin| == n <= MAX_PAGE_WORDS
    }

    predicate Writes(k: nat) {
      k < |page| && k < |twin| && page[k] != twin[k]
    }

    function Diff(): seq<Word>
      requires |page| == |twin|
    {
      Encode(page, twin, 0)
    }
  }

  predicate AllFit(n: nat, us: seq<Update>) {
    forall i :: 0 <= i < |us| ==> us[i].Fits(n)
  }

  /** The page after applying `us[0]`, then `us[1]`, and so on. */
  function ApplyAll(target: seq<Word>, us: seq<Update>): (r: seq<Word>)
    requires AllFit(|target|, us)
    ensures |r| == |target|
  {
    if us == [] then
      target
    else
      var u := us[|us| - 1];
      Overlay(ApplyAll(target, us[..|us| - 1]), u.page, u.twin, 0)
  }

  /** Any two diffs that write a common word are ordered by happened-before. */
  ghost predicate RaceFree(us: seq<Update>) {
    forall i, j, k: nat {:trigger us[i].Writes(k), us[j].Writes(k)} ::
      0 <= i < |us| && 0 <= j < |us| && us[i].Writes(k) && us[j].Writes(k) ==>
        Precedes(us[i].stamp, us[j].stamp) || Precedes(us[j].stamp, us[i].stamp)
  }

  /** Nothing is applied before something it had seen. */
  predicate OldestFirst(us: seq<Update>) {
    forall i, j :: 0 <= i < j < |us| ==> !Precedes(us[j].stamp, us[i].stamp)
  }

  /** `i` is the last in `us` to write word `k`. */
  predicate LastWrites(us: seq<Update>, i: nat, k: nat) {
    i < |us| && us[i].Writes(k) && forall j :: i < j < |us| ==> !us[j].Writes(k)
  }

  lemma {:induction false} Untouched(target: seq<Word>, us: seq<Update>, k: nat)
    requires AllFit(|target|, us) && k < |target|
    requires forall i :: 0 <= i < |us| ==> !us[i].Writes(k)
    ensures ApplyAll(target, us)[k] == target[k]
  {
    if us != [] {
      assert !us[|us| - 1].Writes(k);
      Untouched(target, us[..|us| - 1], k);
    }
  }

  lemma {:induction false} LastWriterWins(target: seq<Word>, us: seq<Update>, i: nat, k: nat)
    requires AllFit(|target|, us) && k < |target| && LastWrites(us, i, k)
    ensures ApplyAll(target, us)[k] == us[i].page[k]
  {
    if i < |us| - 1 {
      assert !us[|us| - 1].Writes(k);
      LastWriterWins(target, us[..|us| - 1], i, k);
    }
  }

  lemma {:induction false} SomeLastWriter(us: seq<Update>, k: nat, w: nat) returns (i: nat)
    requires w < |us| && us[w].Writes(k)
    ensures LastWrites(us, i, k)
    decreases |us| - w
  {
    if j :| w < j < |us| && us[j].Writes(k) {
      i := SomeLastWriter(us, k, j);
    } else {
      i := w;
    }
  }

  /** The last writer of a word had seen every other writer of it. */
  lemma {:induction false} LastWriterIsNewest(us: seq<Update>, i: nat, k: nat, j: nat)
    requires RaceFree(us) && OldestFirst(us) && LastWrites(us, i, k) && j < |us| && j != i && us[j].Writes(k)
    ensures Precedes(us[j].stamp, us[i].stamp) && !Precedes(us[i].stamp, us[j].stamp)
  {
    assert j < i;
  }

  /** Each word ends up with the value its newest writer gave it. */
  lemma {:induction false} NewestWriterWins(target: seq<Word>, us: seq<Update>, k: nat, i: nat)
    requires AllFit(|target|, us) && k < |target| && RaceFree(us) && OldestFirst(us)
    requires i < |us| && us[i].Writes(k)
    requires forall j :: 0 <= j < |us| && j != i && us[j].Writes(k) ==> Precedes(us[j].stamp, us[i].stamp)
    ensures ApplyAll(target, us)[k] == us[i].page[k]
  {
    var w := SomeLastWriter(us, k, i);
    if w != i {
      LastWriterIsNewest(us, w, k, i);
    }
    LastWriterWins(target, us, w, k);
  }

  /** Every order that respects happened-before leaves the same page. */
  lemma {:induction false} Confluent(target: seq<Word>, us: seq<Update>, vs: seq<Update>)
    requires AllFit(|target|, us) && AllFit(|target|, vs) && multiset(us) == multiset(vs)
    requires RaceFree(us) && OldestFirst(us) && OldestFirst(vs)
    ensures ApplyAll(target, us) == ApplyAll(target, vs)
  {
    forall k: nat | k < |target| ensures ApplyAll(target, us)[k] == ApplyAll(target, vs)[k] {
      SameWord(target, us, vs, k);
    }
  }

  lemma Located(us: seq<Update>, vs: seq<Update>, i: nat) returns (j: nat)
    requires multiset(us) == multiset(vs) && i < |us|
    ensures j < |vs| && vs[j] == us[i]
  {
    assert us[i] in multiset(vs);
    j :| 0 <= j < |vs| && vs[j] == us[i];
  }

  lemma SameWord(target: seq<Word>, us: seq<Update>, vs: seq<Update>, k: nat)
    requires AllFit(|target|, us) && AllFit(|target|, vs) && multiset(us) == multiset(vs)
    requires RaceFree(us) && OldestFirst(us) && OldestFirst(vs) && k < |target|
    ensures ApplyAll(target, us)[k] == ApplyAll(target, vs)[k]
  {
    if w :| 0 <= w < |us| && us[w].Writes(k) {
      var i := SomeLastWriter(us, k, w);
      var j0 := Located(us, vs, i);
      var j := SomeLastWriter(vs, k, j0);
      if j != j0 {
        var i0 := Located(vs, us, j);
        if i0 != i {
          LastWriterIsNewest(us, i, k, i0);
        }
      }
      LastWriterWins(target, us, i, k);
      LastWriterWins(target, vs, j, k);
    } else {
      forall j | 0 <= j < |vs| ensures !vs[j].Writes(k) {
        var i := Located(vs, us, j);
      }
      Untouched(target, us, k);
      Untouched(target, vs, k);
    }
  }

  function Reverse<T>(s: seq<T>): (r: seq<T>)
    ensures |r| == |s| && forall i :: 0 <= i < |s| ==> r[i] == s[|s| - 1 - i]
  {
    seq(|s|, i requires 0 <= i < |s| => s[|s| - 1 - i])
  }

  function Stamps(us: seq<Update>): seq<Stamp> {
    seq(|us|, i requires 0 <= i < |us| => us[i].stamp)
  }

  /** Reading the sorted array from its high end down is such an order. */
  lemma SortedDownIsOldestFirst(us: seq<Update>)
    requires NoticeOrder.NewestFirst(Stamps(us))
    ensures OldestFirst(Reverse(us))
  {
    var r := Reverse(us);
    forall i, j | 0 <= i < j < |r| ensures !Precedes(r[j].stamp, r[i].stamp) {
      assert !Precedes(Stamps(us)[|us| - 1 - j], Stamps(us)[|us| - 1 - i]);
    }
  }
}
