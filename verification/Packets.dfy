/** Sending the diffs of a request as messages of bounded size, and putting them back together. */
module Packets {
  import opened DiffCodec
  import opened Confluence

  /** A stretch of the sender's memory. */
  datatype Iov = Iov(base: nat, len: nat)
  {
    predicate In(mem: seq<Word>) {
      base + len <= |mem|
    }
  }

  datatype Message = Message(seqno: nat, iovs: seq<Iov>)

  function Slice(mem: seq<Word>, v: Iov): seq<Word> {
    if v.In(mem) then mem[v.base..v.base + v.len] else []
  }

  /** The words of entries `lo` up to `hi`, end to end. */
  function Flat(mem: seq<Word>, vs: seq<Iov>, lo: nat, hi: nat): seq<Word>
    requires lo <= hi <= |vs|
  {
    if lo == hi then [] else Flat(mem, vs, lo, hi - 1) + Slice(mem, vs[hi - 1])
  }

  function Payload(mem: seq<Word>, vs: seq<Iov>): seq<Word> {
    Flat(mem, vs, 0, |vs|)
  }

  lemma {:induction false} FlatPrefix(mem: seq<Word>, a: seq<Iov>, b: seq<Iov>, hi: nat)
    requires hi <= |a| && hi <= |b| && forall k :: 0 <= k < hi ==> a[k] == b[k]
    ensures Flat(mem, a, 0, hi) == Flat(mem, b, 0, hi)
  {
    if hi > 0 {
      FlatPrefix(mem, a, b, hi - 1);
    }
  }

  lemma PayloadSnoc(mem: seq<Word>, vs: seq<Iov>, v: Iov)
    ensures Payload(mem, vs + [v]) == Payload(mem, vs) + Slice(mem, v)
  {
    FlatPrefix(mem, vs + [v], vs, |vs|);
  }

  // ---------------------------------------------------------------- sending

  /** A message holds whole diffs, at least one, and fits: one word of sequence number and the
      payload make at most an MTU, and the sequence number takes one of the `maxIov` entries. It is closed only when
      there is no more to send, the entries are used up, or the next diff does not fit. */
  ghost predicate Holds(mem: seq<Word>, m: Message, diffs: seq<Iov>, lo: nat, hi: nat, maxIov: nat) {
    && lo < hi <= |diffs|
    && Payload(mem, m.iovs) == Flat(mem, diffs, lo, hi)
    && 1 + |Payload(mem, m.iovs)| <= MTU_WORDS
    && |m.iovs| + 1 <= maxIov
    && (hi == |diffs| || |m.iovs| + 1 == maxIov || 1 + |Payload(mem, m.iovs)| + diffs[hi].len > MTU_WORDS)
  }

  function NextSeqno(ms: seq<Message>, seqno: nat, incr: nat): nat {
    if ms == [] then seqno else ms[|ms| - 1].seqno + incr
  }

  /** Message `j` holds the diffs from `cuts[j]` up to `cuts[j + 1]`. */
  ghost predicate HoldsAt(mem: seq<Word>, ms: seq<Message>, diffs: seq<Iov>, cuts: seq<nat>, j: nat, maxIov: nat) {
    && j < |ms| && j + 1 < |cuts|
    && Holds(mem, ms[j], diffs, cuts[j], cuts[j + 1], maxIov)
  }

  /** The messages carry the diffs up to the last cut, in order, under consecutive sequence numbers. */
  ghost predicate Carried(mem: seq<Word>, ms: seq<Message>, diffs: seq<Iov>, cuts: seq<nat>, seqno: nat, incr: nat, maxIov: nat) {
    && |cuts| == |ms| + 1 && cuts[0] == 0
    && (forall j: nat {:trigger HoldsAt(mem, ms, diffs, cuts, j, maxIov)} ::
         j < |ms| ==> HoldsAt(mem, ms, diffs, cuts, j, maxIov))
    && (ms != [] ==> ms[0].seqno == seqno)
    && (forall j :: 0 < j < |ms| ==> ms[j].seqno == ms[j - 1].seqno + incr)
  }

  ghost predicate Carries(mem: seq<Word>, ms: seq<Message>, diffs: seq<Iov>, seqno: nat, incr: nat, maxIov: nat) {
    exists cuts :: Carried(mem, ms, diffs, cuts, seqno, incr, maxIov) && cuts[|ms|] == |diffs|
  }

  predicate Sendable(mem: seq<Word>, d: Iov) {
    d.In(mem) && 0 < d.len && 1 + d.len <= MTU_WORDS
  }

  /** The reply under construction: messages sent, entries and size of the next one, its number. */
  datatype Sender = Sender(ms: seq<Message>, iovs: seq<Iov>, size: nat, number: nat)

  /** The diffs up to the last cut have been sent, and the next message holds those up to `i`. */
  ghost predicate Sent(mem: seq<Word>, s: Sender, diffs: seq<Iov>, c: nat, i: nat, seqno: nat, incr: nat) {
    && c <= i <= |diffs|
    && s.number == NextSeqno(s.ms, seqno, incr)
    && Payload(mem, s.iovs) == Flat(mem, diffs, c, i)
    && s.size == 1 + |Payload(mem, s.iovs)| <= MTU_WORDS
    && (s.iovs == [] <==> c == i)
    && forall v :: v in s.iovs ==> v.In(mem)
  }

  method Flush(mem: seq<Word>, s: Sender, ghost diffs: seq<Iov>, ghost cuts: seq<nat>, ghost i: nat, ghost seqno: nat, incr: nat, ghost maxIov: nat)
    returns (r: Sender, ghost cuts': seq<nat>)
    requires Carried(mem, s.ms, diffs, cuts, seqno, incr, maxIov)
    requires Sent(mem, s, diffs, cuts[|s.ms|], i, seqno, incr)
    requires cuts[|s.ms|] < i && |s.iovs| + 1 <= maxIov
    requires i == |diffs| || |s.iovs| + 1 == maxIov || s.size + diffs[i].len > MTU_WORDS
    ensures r.iovs == [] && cuts' == cuts + [i]
    ensures Carried(mem, r.ms, diffs, cuts', seqno, incr, maxIov)
    ensures Sent(mem, r, diffs, i, i, seqno, incr)
  {
    var m := Message(s.number, s.iovs);
    r := Sender(s.ms + [m], [], 1, s.number + incr);
    cuts' := cuts + [i];
    forall j: nat | j < |r.ms| ensures HoldsAt(mem, r.ms, diffs, cuts', j, maxIov) {
      assert j < |s.ms| ==> HoldsAt(mem, s.ms, diffs, cuts, j, maxIov);
    }
  }

  lemma FlatLonger(mem: seq<Word>, diffs: seq<Iov>, i: nat)
    requires i < |diffs| && diffs[i].In(mem)
    ensures forall c: nat {:trigger Flat(mem, diffs, c, i + 1)} :: c <= i ==>
              Flat(mem, diffs, c, i + 1) == Flat(mem, diffs, c, i) + Slice(mem, diffs[i])
    ensures |Slice(mem, diffs[i])| == diffs[i].len
  {
  }

  method Add(mem: seq<Word>, s0: Sender, diffs: seq<Iov>, ghost cuts0: seq<nat>, i: nat, ghost seqno: nat, incr: nat, maxIov: nat)
    returns (s: Sender, ghost cuts: seq<nat>)
    requires i < |diffs| && Sendable(mem, diffs[i]) && |s0.iovs| + 1 < maxIov
    requires Carried(mem, s0.ms, diffs, cuts0, seqno, incr, maxIov)
    requires Sent(mem, s0, diffs, cuts0[|s0.ms|], i, seqno, incr)
    ensures |s.iovs| + 1 < maxIov
    ensures Carried(mem, s.ms, diffs, cuts, seqno, incr, maxIov)
    ensures Sent(mem, s, diffs, cuts[|s.ms|], i + 1, seqno, incr)
  {
    hide Slice;
    hide HoldsAt;
    s, cuts := s0, cuts0;
    FlatLonger(mem, diffs, i);
    if s.size + diffs[i].len > MTU_WORDS {
      s, cuts := Flush(mem, s, diffs, cuts, i, seqno, incr, maxIov);
    }
    var iovs := Enter(mem, s.iovs, diffs[i]);
    s := s.(iovs := iovs, size := s.size + diffs[i].len);
    if |s.iovs| + 1 == maxIov {
      s, cuts := Flush(mem, s, diffs, cuts, i + 1, seqno, incr, maxIov);
    }
  }

  /** Answer a request: the diffs in order, in as many messages as it takes. */
  method Reply(mem: seq<Word>, diffs: seq<Iov>, seqno: nat, incr: nat, maxIov: nat) returns (ms: seq<Message>)
    requires 2 <= maxIov
    requires forall d :: d in diffs ==> Sendable(mem, d)
    ensures Carries(mem, ms, diffs, seqno, incr, maxIov)
  {
    hide Slice;
    var s := Sender([], [], 1, seqno);
    ghost var cuts: seq<nat> := [0];
    for i := 0 to |diffs|
      invariant |s.iovs| + 1 < maxIov
      invariant Carried(mem, s.ms, diffs, cuts, seqno, incr, maxIov)
      invariant Sent(mem, s, diffs, cuts[|s.ms|], i, seqno, incr)
    {
      s, cuts := Add(mem, s, diffs, cuts, i, seqno, incr, maxIov);
    }
    ms := Finish(mem, s, diffs, cuts, seqno, incr, maxIov);
  }

  method Finish(mem: seq<Word>, s: Sender, ghost diffs: seq<Iov>, ghost cuts: seq<nat>, ghost seqno: nat, incr: nat, ghost maxIov: nat)
    returns (ms: seq<Message>)
    requires |s.iovs| + 1 < maxIov
    requires Carried(mem, s.ms, diffs, cuts, seqno, incr, maxIov)
    requires Sent(mem, s, diffs, cuts[|s.ms|], |diffs|, seqno, incr)
    ensures Carries(mem, ms, diffs, seqno, incr, maxIov)
  {
    ms := s.ms;
    if s.iovs != [] {
      var r, cuts' := Flush(mem, s, diffs, cuts, |diffs|, seqno, incr, maxIov);
      ms := r.ms;
    }
  }

  /** Add a diff to the entries: it lengthens the last entry if it follows it in memory (never the
      first one after the sequence number), and takes a new one otherwise. */
  method Enter(mem: seq<Word>, iovs: seq<Iov>, d: Iov) returns (r: seq<Iov>)
    requires d.In(mem) && forall v :: v in iovs ==> v.In(mem)
    ensures r != [] && |r| == |iovs| + (if |iovs| >= 2 && d.base == iovs[|iovs| - 1].base + iovs[|iovs| - 1].len then 0 else 1)
    ensures forall v :: v in r ==> v.In(mem)
    ensures Payload(mem, r) == Payload(mem, iovs) + Slice(mem, d)
  {
    if |iovs| + 1 > 2 && d.base == iovs[|iovs| - 1].base + iovs[|iovs| - 1].len {
      var last := iovs[|iovs| - 1];
      r := iovs[|iovs| - 1 := Iov(last.base, last.len + d.len)];
      Join(mem, iovs[..|iovs| - 1], last, d);
      assert iovs == iovs[..|iovs| - 1] + [last];
      assert r == iovs[..|iovs| - 1] + [Iov(last.base, last.len + d.len)];
    } else {
      r := iovs + [d];
      PayloadSnoc(mem, iovs, d);
    }
  }

  lemma Join(mem: seq<Word>, front: seq<Iov>, last: Iov, d: Iov)
    requires last.In(mem) && d.In(mem) && d.base == last.base + last.len
    ensures Payload(mem, front + [Iov(last.base, last.len + d.len)]) == Payload(mem, front + [last]) + Slice(mem, d)
  {
    PayloadSnoc(mem, front, Iov(last.base, last.len + d.len));
    PayloadSnoc(mem, front, last);
    SliceJoin(mem, last, d);
    Regroup(Payload(mem, front), Slice(mem, last), Slice(mem, d));
  }

  lemma SliceJoin(mem: seq<Word>, last: Iov, d: Iov)
    requires last.In(mem) && d.In(mem) && d.base == last.base + last.len
    ensures Slice(mem, Iov(last.base, last.len + d.len)) == Slice(mem, last) + Slice(mem, d)
  {
  }

  // ---------------------------------------------------------------- receiving

  datatype Packet = Packet(seqno: nat, payload: seq<Word>)

  function Wire(mem: seq<Word>, ms: seq<Message>): seq<Packet> {
    seq(|ms|, j requires 0 <= j < |ms| => Packet(ms[j].seqno, Payload(mem, ms[j].iovs)))
  }

  datatype Collected = Stuck | Finished(page: seq<Word>, unread: seq<Packet>, stop: nat)

  /** The receiver's loop: apply `count` diffs, moving on to the next sequence number whenever a
      message is used up.  `Stuck` means that it would wait for a message that is not there, or that
      a diff is malformed; otherwise the page, the unread messages and the place it stopped at. */
  function Collect(page: seq<Word>, ps: seq<Packet>, pos: nat, count: nat, seqno: nat, incr: nat): Collected
    requires count > 0
    decreases count
  {
    if ps == [] || ps[0].seqno != seqno then
      Stuck
    else
      match ApplyAt(page, ps[0].payload, pos)
      case None => Stuck
      case Some((page', pos')) =>
        if count == 1 then
          Finished(page', ps[1..], pos')
        else if pos' == |ps[0].payload| then
          Collect(page', ps[1..], 0, count - 1, seqno + incr, incr)
        else
          Collect(page', ps, pos', count - 1, seqno, incr)
  }

  /** The diffs in memory are those of the updates. */
  ghost predicate Stored(mem: seq<Word>, diffs: seq<Iov>, us: seq<Update>, n: nat) {
    && |diffs| == |us| && AllFit(n, us)
    && forall i :: 0 <= i < |us| ==> Slice(mem, diffs[i]) == us[i].Diff()
  }

  lemma {:induction false} FlatSplit(mem: seq<Word>, vs: seq<Iov>, lo: nat, mid: nat, hi: nat)
    requires lo <= mid <= hi <= |vs|
    ensures Flat(mem, vs, lo, hi) == Flat(mem, vs, lo, mid) + Flat(mem, vs, mid, hi)
    decreases hi
  {
    if mid < hi {
      FlatSplit(mem, vs, lo, mid, hi - 1);
      Regroup(Flat(mem, vs, lo, mid), Flat(mem, vs, mid, hi - 1), Slice(mem, vs[hi - 1]));
    }
  }

  lemma FlatAround(mem: seq<Word>, vs: seq<Iov>, lo: nat, i: nat, hi: nat)
    requires lo <= i < hi <= |vs|
    ensures Flat(mem, vs, lo, hi) == Flat(mem, vs, lo, i) + Slice(mem, vs[i]) + Flat(mem, vs, i + 1, hi)
    ensures |Flat(mem, vs, lo, i + 1)| == |Flat(mem, vs, lo, i)| + |Slice(mem, vs[i])|
  {
    FlatSplit(mem, vs, lo, i + 1, hi);
  }

  lemma DiffNotEmpty(mem: seq<Word>, diffs: seq<Iov>, us: seq<Update>, n: nat, i: nat)
    requires Stored(mem, diffs, us, n) && i < |us|
    ensures 0 < |Slice(mem, diffs[i])|
  {
    EncodeSize(us[i].page, us[i].twin, 0);
  }

  /** One diff inside a message. */
  lemma ApplyNext(page: seq<Word>, mem: seq<Word>, diffs: seq<Iov>, us: seq<Update>, lo: nat, i: nat, hi: nat)
    requires Stored(mem, diffs, us, |page|) && lo <= i < hi <= |diffs|
    ensures ApplyAt(page, Flat(mem, diffs, lo, hi), |Flat(mem, diffs, lo, i)|)
         == Some((Overlay(page, us[i].page, us[i].twin, 0), |Flat(mem, diffs, lo, i + 1)|))
  {
    hide ApplyAt;
    hide Encode;
    hide Flat;
    hide Slice;
    hide Overlay;
    FlatAround(mem, diffs, lo, i, hi);
    RoundTripIn(page, us[i].page, us[i].twin, Flat(mem, diffs, lo, hi), Flat(mem, diffs, lo, i), Slice(mem, diffs[i]),
                Flat(mem, diffs, i + 1, hi));
  }

  lemma MessageUsedUp(mem: seq<Word>, diffs: seq<Iov>, us: seq<Update>, n: nat, lo: nat, i: nat, hi: nat)
    requires Stored(mem, diffs, us, n) && lo <= i < hi <= |diffs|
    ensures |Flat(mem, diffs, lo, i + 1)| == |Flat(mem, diffs, lo, hi)| <==> i + 1 == hi
  {
    if i + 1 < hi {
      FlatAround(mem, diffs, lo, i + 1, hi);
      DiffNotEmpty(mem, diffs, us, n, i + 1);
    }
  }

  lemma ApplyOneMore(target: seq<Word>, us: seq<Update>, i: nat)
    requires AllFit(|target|, us) && i < |us|
    ensures ApplyAll(target, us[..i + 1]) == Overlay(ApplyAll(target, us[..i]), us[i].page, us[i].twin, 0)
  {
    assert us[..i + 1][..i] == us[..i];
  }

  lemma ApplyNone(target: seq<Word>)
    ensures ApplyAll(target, []) == target
  {
  }

  lemma {:induction false} CollectFrom(target: seq<Word>, us: seq<Update>, mem: seq<Word>, ms: seq<Message>, diffs: seq<Iov>,
                                       cuts: seq<nat>, seqno: nat, incr: nat, maxIov: nat, j: nat, i: nat)
    requires Stored(mem, diffs, us, |target|)
    requires Carried(mem, ms, diffs, cuts, seqno, incr, maxIov) && cuts[|ms|] == |diffs|
    requires j < |ms| && cuts[j] <= i < cuts[j + 1] <= |diffs|
    ensures Collect(ApplyAll(target, us[..i]), Wire(mem, ms)[j..], |Flat(mem, diffs, cuts[j], i)|, |us| - i, ms[j].seqno, incr)
         == Finished(ApplyAll(target, us), [], |Payload(mem, ms[|ms| - 1].iovs)|)
    decreases |us| - i
  {
    hide ApplyAt;
    hide Encode;
    hide ApplyAll;
    hide Flat;
    var page, ps := ApplyAll(target, us[..i]), Wire(mem, ms)[j..];
    assert HoldsAt(mem, ms, diffs, cuts, j, maxIov);
    assert ps[0] == Packet(ms[j].seqno, Payload(mem, ms[j].iovs));
    ApplyNext(page, mem, diffs, us, cuts[j], i, cuts[j + 1]);
    MessageUsedUp(mem, diffs, us, |target|, cuts[j], i, cuts[j + 1]);
    ApplyOneMore(target, us, i);
    if i + 1 == |us| {
      LastMessage(mem, ms, diffs, cuts, seqno, incr, maxIov, j);
      assert us[..i + 1] == us;
      assert ps[1..] == [];
    } else if i + 1 == cuts[j + 1] {
      assert j + 1 < |ms|;
      assert HoldsAt(mem, ms, diffs, cuts, j + 1, maxIov);
      assert ps[1..] == Wire(mem, ms)[j + 1..];
      NothingYet(mem, diffs, cuts[j + 1]);
      CollectFrom(target, us, mem, ms, diffs, cuts, seqno, incr, maxIov, j + 1, i + 1);
    } else {
      CollectFrom(target, us, mem, ms, diffs, cuts, seqno, incr, maxIov, j, i + 1);
    }
  }

  lemma NothingYet(mem: seq<Word>, vs: seq<Iov>, k: nat)
    requires k <= |vs|
    ensures Flat(mem, vs, k, k) == []
  {
  }

  lemma LastMessage(mem: seq<Word>, ms: seq<Message>, diffs: seq<Iov>, cuts: seq<nat>, seqno: nat, incr: nat, maxIov: nat, j: nat)
    requires Carried(mem, ms, diffs, cuts, seqno, incr, maxIov) && cuts[|ms|] == |diffs|
    requires j < |ms| && cuts[j + 1] == |diffs|
    ensures j == |ms| - 1
  {
    assert j + 1 < |ms| ==> HoldsAt(mem, ms, diffs, cuts, j + 1, maxIov);
  }

  /** What is sent arrives: from any messages that carry the diffs of a request, the receiver applies
      exactly those diffs in request order, uses up every message, and never waits for another. */
  lemma ReplyArrives(target: seq<Word>, us: seq<Update>, mem: seq<Word>, ms: seq<Message>, diffs: seq<Iov>,
                     seqno: nat, incr: nat, maxIov: nat)
    requires Stored(mem, diffs, us, |target|) && us != []
    requires Carries(mem, ms, diffs, seqno, incr, maxIov)
    ensures ms != []
    ensures Collect(target, Wire(mem, ms), 0, |us|, seqno, incr)
         == Finished(ApplyAll(target, us), [], |Payload(mem, ms[|ms| - 1].iovs)|)
  {
    hide ApplyAt;
    hide Encode;
    hide Collect;
    hide ApplyAll;
    hide Flat;
    var cuts :| Carried(mem, ms, diffs, cuts, seqno, incr, maxIov) && cuts[|ms|] == |diffs|;
    assert HoldsAt(mem, ms, diffs, cuts, 0, maxIov);
    CollectFrom(target, us, mem, ms, diffs, cuts, seqno, incr, maxIov, 0, 0);
    NothingYet(mem, diffs, 0);
    ApplyNone(target);
    assert us[..0] == [] && Wire(mem, ms)[0..] == Wire(mem, ms);
  }

  /** The receiver's loop itself.  It is given the messages that arrive; asking for one more than
      that would block. */
  method Receive(page: array<Word>, ps: seq<Packet>, count: nat, seqno: nat, incr: nat) returns (unread: seq<Packet>)
    requires count > 0 && Collect(page[..], ps, 0, count, seqno, incr).Finished?
    modifies page
    ensures var r := Collect(old(page[..]), ps, 0, count, seqno, incr);
            page[..] == r.page && unread == r.unread
  {
    hide ApplyAt;
    var left: nat, number: nat, pos: nat := count, seqno, 0;
    unread := ps;
    ghost var result := Collect(page[..], ps, 0, count, seqno, incr);
    while true
      invariant left > 0
      invariant Collect(page[..], unread, pos, left, number, incr) == result
      decreases left
    {
      var payload := unread[0].payload;
      var buffer := new Word[|payload|](i requires 0 <= i < |payload| => payload[i]);
      assert buffer[..] == payload;
      pos := Apply(page, buffer, pos);
      left := left - 1;
      if left == 0 {
        unread := unread[1..];
        return;
      }
      if pos == |payload| {
        unread, pos, number := unread[1..], 0, number + incr;
      }
    }
  }
}
