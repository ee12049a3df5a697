/** Bringing a page up to date: the pending notices are sorted, packed into requests, and the diffs
    that come back are applied as they are read from the messages of the replies. */
module DiffRequest {
  import opened Clocks
  import opened DiffCodec
  import opened Confluence
  import opened Packets
  import NoticeOrder
  import Batching

  lemma {:induction false} ApplyInTwo(target: seq<Word>, a: seq<Update>, b: seq<Update>)
    requires AllFit(|target|, a) && AllFit(|target|, b)
    ensures AllFit(|target|, a + b)
    ensures ApplyAll(ApplyAll(target, a), b) == ApplyAll(target, a + b)
  {
    if b == [] {
      assert a + b == a;
    } else {
      var front := b[..|b| - 1];
      ApplyInTwo(target, a, front);
      assert (a + b)[..|a + b| - 1] == a + front;
    }
  }

  /** The diffs one request brings, in the order asked: from the high index of the sorted array down. */
  function Brought(us: seq<Update>, b: Batching.Batch): seq<Update>
    requires -1 <= b.lo <= b.hi < |us|
  {
    Reverse(us[b.lo + 1..b.hi + 1])
  }

  /** A reply as its server sends it: the diffs in its memory, the messages, and their first number. */
  datatype Reply = Reply(mem: seq<Word>, diffs: seq<Iov>, ms: seq<Message>, seqno: nat)

  /** The reply carries the diffs that the request asks for, in the order asked. */
  ghost predicate Answers(n: nat, us: seq<Update>, b: Batching.Batch, r: Reply, incr: nat, maxIov: nat) {
    && -1 <= b.lo < b.hi < |us|
    && Stored(r.mem, r.diffs, Brought(us, b), n) && Carries(r.mem, r.ms, r.diffs, r.seqno, incr, maxIov)
  }

  ghost predicate AllAnswer(n: nat, us: seq<Update>, batches: seq<Batching.Batch>, replies: seq<Reply>, incr: nat, maxIov: nat) {
    |replies| == |batches| && forall k :: 0 <= k < |batches| ==> Answers(n, us, batches[k], replies[k], incr, maxIov)
  }

  /** The page after the messages of the first `k` replies have been read; `None` if the reader got stuck in one. */
  function Received(target: seq<Word>, batches: seq<Batching.Batch>, replies: seq<Reply>, incr: nat, k: nat): Option<seq<Word>>
    requires k <= |batches| == |replies| && forall b :: b in batches ==> b.lo < b.hi
  {
    if k == 0 then
      Some(target)
    else
      match Received(target, batches, replies, incr, k - 1)
      case None => None
      case Some(page) =>
        var b, r := batches[k - 1], replies[k - 1];
        match Collect(page, Wire(r.mem, r.ms), 0, b.hi - b.lo, r.seqno, incr)
        case Stuck => None
        case Finished(page', unread, stop) => if unread == [] then Some(page') else None
  }

  lemma {:induction false} ReceivedSoFar(target: seq<Word>, us: seq<Update>, batches: seq<Batching.Batch>, replies: seq<Reply>,
                                         incr: nat, maxIov: nat, k: nat)
    requires AllFit(|target|, us) && k <= |batches| && batches != []
    requires Batching.Cuts(Stamps(us), batches, -1) && AllAnswer(|target|, us, batches, replies, incr, maxIov)
    ensures forall b :: b in batches ==> b.lo < b.hi
    ensures var rest := if k == 0 then |us| - 1 else batches[k - 1].lo;
            -1 <= rest < |us| && Received(target, batches, replies, incr, k) == Some(ApplyAll(target, Reverse(us[rest + 1..])))
  {
    hide ApplyAll;
    hide Collect;
    hide Received;
    hide Reverse;
    hide Answers;
    hide Wire;
    assert forall b :: b in batches ==> Batching.Cut(Stamps(us), b);
    if k == 0 {
      assert us[|us|..] == [];
      Nothing(target);
      ReceivedNone(target, batches, replies, incr);
    } else {
      var b, r := batches[k - 1], replies[k - 1];
      assert Batching.Cut(Stamps(us), b) && Answers(|target|, us, b, r, incr, maxIov);
      ReceivedSoFar(target, us, batches, replies, incr, maxIov, k - 1);
      assert k > 1 ==> b.hi == batches[k - 2].lo;
      OneReply(target, us, b, r, incr, maxIov);
      ReceivedOneMore(target, batches, replies, incr, k);
    }
  }

  lemma ReceivedNone(target: seq<Word>, batches: seq<Batching.Batch>, replies: seq<Reply>, incr: nat)
    requires |batches| == |replies| && forall b :: b in batches ==> b.lo < b.hi
    ensures Received(target, batches, replies, incr, 0) == Some(target)
  {
  }

  lemma ReceivedOneMore(target: seq<Word>, batches: seq<Batching.Batch>, replies: seq<Reply>, incr: nat, k: nat)
    requires 0 < k <= |batches| == |replies| && forall b :: b in batches ==> b.lo < b.hi
    requires Received(target, batches, replies, incr, k - 1).Some?
    ensures var b, r := batches[k - 1], replies[k - 1];
            var got := Collect(Received(target, batches, replies, incr, k - 1).value, Wire(r.mem, r.ms), 0, b.hi - b.lo, r.seqno, incr);
            got.Finished? && got.unread == [] ==> Received(target, batches, replies, incr, k) == Some(got.page)
  {
    hide Collect;
    hide Wire;
  }

  lemma ReversedParts(us: seq<Update>, lo: int, hi: int)
    requires -1 <= lo < hi < |us|
    ensures Reverse(us[lo + 1..]) == Reverse(us[hi + 1..]) + Reverse(us[lo + 1..hi + 1])
  {
    var all, done, more := Reverse(us[lo + 1..]), Reverse(us[hi + 1..]), Reverse(us[lo + 1..hi + 1]);
    forall i | 0 <= i < |all| ensures all[i] == (done + more)[i] {
    }
  }

  /** One more reply is read. */
  lemma {:induction false} OneReply(target: seq<Word>, us: seq<Update>, b: Batching.Batch, r: Reply, incr: nat, maxIov: nat)
    requires AllFit(|target|, us) && Answers(|target|, us, b, r, incr, maxIov)
    ensures var page := ApplyAll(target, Reverse(us[b.hi + 1..]));
            var got := Collect(page, Wire(r.mem, r.ms), 0, b.hi - b.lo, r.seqno, incr);
            got.Finished? && got.unread == [] && got.page == ApplyAll(target, Reverse(us[b.lo + 1..]))
  {
    hide ApplyAll;
    hide Collect;
    hide Carries;
    hide Wire;
    hide Payload;
    hide Reverse;
    var done := Reverse(us[b.hi + 1..]);
    ReplyArrives(ApplyAll(target, done), Brought(us, b), r.mem, r.ms, r.diffs, r.seqno, incr, maxIov);
    ApplyInTwo(target, done, Brought(us, b));
    ReversedParts(us, b.lo, b.hi);
  }

  lemma Nothing(target: seq<Word>)
    ensures ApplyAll(target, Reverse([])) == target
  {
  }

  /** The requests that the sorted notices are packed into bring every pending diff once, in an order that respects
      happened-before; so, in a program without races, the page read from the words of the replies is the one that
      any other such order would leave. */
  lemma {:induction false} FetchedPage(n: nat, stamps: set<Stamp>, lists: seq<seq<NoticeOrder.Notice>>, target: seq<Word>,
                                       us: seq<Update>, replies: seq<Reply>, incr: nat, maxIov: nat, other: seq<Update>)
    requires NoticeOrder.WellFormed(n, lists)
    requires Causal(n, stamps) && forall x :: x in NoticeOrder.AllPending(lists) ==> x in stamps
    requires Stamps(us) == NoticeOrder.SortAll(lists)
    requires AllAnswer(|target|, us, Batching.PackAll(Stamps(us)), replies, incr, maxIov)
    requires AllFit(|target|, us) && AllFit(|target|, other) && RaceFree(us)
    requires multiset(other) == multiset(us) && OldestFirst(other)
    ensures var batches := Batching.PackAll(Stamps(us));
            && (forall b :: b in batches ==> b.lo < b.hi)
            && Received(target, batches, replies, incr, |batches|) == Some(ApplyAll(target, other))
  {
    hide ApplyAll;
    hide Received;
    hide AllAnswer;
    hide Batching.PackAll;
    hide NoticeOrder.SortAll;
    var batches := Batching.PackAll(Stamps(us));
    Batching.PackCovers(Stamps(us));
    if us == [] {
      NothingToAsk(Stamps(us), batches);
      EmptyAnswers(|target|, us, batches, replies, incr, maxIov);
      assert |multiset(other)| == |other|;
      assert other == [];
      ReceivedNothing(target, replies, incr);
    } else {
      NoticeOrder.SortIsLinearExtension(n, stamps, lists);
      SortedDownIsOldestFirst(us);
      assert batches != [];
      ReceivedSoFar(target, us, batches, replies, incr, maxIov, |batches|);
      assert us[0..] == us;
      ReversePermutes(us);
      RaceFreeAnyOrder(us, other);
      Confluent(target, other, Reverse(us));
    }
  }

  lemma EmptyAnswers(n: nat, us: seq<Update>, batches: seq<Batching.Batch>, replies: seq<Reply>, incr: nat, maxIov: nat)
    requires AllAnswer(n, us, batches, replies, incr, maxIov)
    ensures |replies| == |batches|
  {
  }

  lemma NothingToAsk(w: seq<Stamp>, batches: seq<Batching.Batch>)
    requires Batching.Cuts(w, batches, -1)
    ensures w == [] ==> batches == []
  {
    if batches != [] {
      assert Batching.Cut(w, batches[0]);
    }
  }

  lemma ReceivedNothing(target: seq<Word>, replies: seq<Reply>, incr: nat)
    ensures |replies| == 0 ==> Received(target, [], replies, incr, 0) == Some(ApplyAll(target, []))
  {
  }

  lemma {:induction false} ReversePermutes(us: seq<Update>)
    ensures multiset(Reverse(us)) == multiset(us)
  {
    if us != [] {
      ReversePermutes(us[1..]);
      assert us == [us[0]] + us[1..];
      assert Reverse(us) == Reverse(us[1..]) + [us[0]];
    }
  }

  lemma RaceFreeAnyOrder(us: seq<Update>, vs: seq<Update>)
    requires RaceFree(us) && multiset(us) == multiset(vs)
    ensures RaceFree(vs)
  {
    forall i, j, k: nat | 0 <= i < |vs| && 0 <= j < |vs| && vs[i].Writes(k) && vs[j].Writes(k)
      ensures Precedes(vs[i].stamp, vs[j].stamp) || Precedes(vs[j].stamp, vs[i].stamp)
    {
      var a := Located(vs, us, i);
      var b := Located(vs, us, j);
      assert us[a].Writes(k) && us[b].Writes(k);
    }
  }
}
