/** Intervals as a stream of 16-bit words, and back.

    An interval is the complement of its process id, its vector time, and its page ranges: a page on
    its own is one word, a range of more than two pages is an escape word and its two ends. */
module IntervalCodec {

  const NPROCS: nat := 32
  /** `(unsigned short) ~NPROCS`, which announces a range. */
  const ESCAPE: nat := 65535 - NPROCS
  /** `(unsigned short) -NPROCS`: words from here on are complemented process ids. */
  const FIRST_ID: nat := 65536 - NPROCS

  datatype Option<T> = None | Some(value: T)

  datatype Range = Range(first: nat, last: nat)

  datatype Interval = Interval(id: nat, vt: seq<nat>, ranges: seq<Range>)
  {
    /** Page ids stay below the escape word. */
    predicate Valid() {
      && id < NPROCS && |vt| == NPROCS && ranges != []
      && forall k :: 0 <= k < |ranges| ==> ranges[k].first <= ranges[k].last < ESCAPE
    }
  }

  // ---------------------------------------------------------------- encoding

  function EncodeRange(r: Range): seq<nat> {
    if r.last <= r.first then
      [r.last]
    else if r.last - r.first == 1 then
      [r.first, r.last]
    else
      [ESCAPE, r.first, r.last]
  }

  function EncodeRanges(rs: seq<Range>): seq<nat> {
    if rs == [] then [] else EncodeRange(rs[0]) + EncodeRanges(rs[1..])
  }

  function EncodeInterval(iv: Interval): seq<nat>
    requires iv.id < NPROCS
  {
    [65535 - iv.id] + iv.vt + EncodeRanges(iv.ranges)
  }

  function EncodeAll(ivs: seq<Interval>): seq<nat>
    requires forall k :: 0 <= k < |ivs| ==> ivs[k].id < NPROCS
  {
    if ivs == [] then [] else EncodeInterval(ivs[0]) + EncodeAll(ivs[1..])
  }

  // ---------------------------------------------------------------- decoding

  /** The ranges from `pos` on, and where they end: at the end of the message or at a process id. */
  function DecodeRanges(msg: seq<nat>, pos: nat): Option<(seq<Range>, nat)>
    decreases |msg| - pos
  {
    if pos >= |msg| || (msg[pos] == ESCAPE && pos + 2 >= |msg|) then
      None
    else
      var r := if msg[pos] == ESCAPE then Range(msg[pos + 1], msg[pos + 2]) else Range(msg[pos], msg[pos]);
      var next := if msg[pos] == ESCAPE then pos + 3 else pos + 1;
      if next < |msg| && msg[next] < FIRST_ID then
        match DecodeRanges(msg, next)
        case None => None
        case Some((rs, end)) => Some(([r] + rs, end))
      else
        Some(([r], next))
  }

  /** The path taken for an interval that is already known. */
  function SkipRanges(msg: seq<nat>, pos: nat): nat
    decreases |msg| - pos
  {
    if pos < |msg| && msg[pos] < FIRST_ID then SkipRanges(msg, pos + 1) else pos
  }

  /** What comes back: a range of two pages returns as two pages. */
  function Split(rs: seq<Range>): seq<Range> {
    if rs == [] then
      []
    else if rs[0].last - rs[0].first == 1 then
      [Range(rs[0].first, rs[0].first), Range(rs[0].last, rs[0].last)] + Split(rs[1..])
    else
      [rs[0]] + Split(rs[1..])
  }

  /** The pages of ranges, in order. */
  function Pages(rs: seq<Range>): seq<nat> {
    if rs == [] then [] else PagesOf(rs[0]) + Pages(rs[1..])
  }

  function PagesOf(r: Range): seq<nat> {
    seq(Count(r), k requires 0 <= k => r.first + k)
  }

  function Count(r: Range): nat {
    if r.first <= r.last then r.last - r.first + 1 else 0
  }

  lemma PagesCons(r: Range, rest: seq<Range>)
    ensures Pages([r] + rest) == PagesOf(r) + Pages(rest)
  {
    assert ([r] + rest)[1..] == rest;
  }

  lemma SplitCons(r: Range, rest: seq<Range>)
    ensures Split([r] + rest) ==
            if r.last - r.first == 1 then [Range(r.first, r.first)] + ([Range(r.last, r.last)] + Split(rest))
            else [r] + Split(rest)
  {
    assert ([r] + rest)[1..] == rest;
  }

  lemma PairPages(r: Range)
    requires r.last - r.first == 1
    ensures PagesOf(r) == PagesOf(Range(r.first, r.first)) + PagesOf(Range(r.last, r.last))
  {
  }

  lemma Assoc(a: seq<nat>, b: seq<nat>, c: seq<nat>)
    ensures a + (b + c) == (a + b) + c
  {
  }

  /** Two pages for a range of two. */
  lemma PagesTwo(a: Range, b: Range, rest: seq<Range>)
    ensures Pages([a] + ([b] + rest)) == (PagesOf(a) + PagesOf(b)) + Pages(rest)
  {
    hide Pages;
    hide PagesOf;
    PagesCons(a, [b] + rest);
    PagesCons(b, rest);
    Assoc(PagesOf(a), PagesOf(b), Pages(rest));
  }

  lemma SplitStep(r: Range, rest: seq<Range>)
    requires Pages(Split(rest)) == Pages(rest)
    ensures Pages(Split([r] + rest)) == Pages([r] + rest)
  {
    hide Pages;
    hide PagesOf;
    hide Split;
    SplitCons(r, rest);
    PagesCons(r, rest);
    if r.last - r.first == 1 {
      PagesTwo(Range(r.first, r.first), Range(r.last, r.last), Split(rest));
      PairPages(r);
    } else {
      PagesCons(r, Split(rest));
    }
  }

  lemma {:induction false} SplitSamePages(rs: seq<Range>)
    ensures Pages(Split(rs)) == Pages(rs)
  {
    if rs != [] {
      SplitSamePages(rs[1..]);
      SplitStep(rs[0], rs[1..]);
      assert rs == [rs[0]] + rs[1..];
    }
  }

  ghost predicate ValidRanges(rs: seq<Range>) {
    rs != [] && forall k :: 0 <= k < |rs| ==> rs[k].first <= rs[k].last < ESCAPE
  }

  /** A stop: nothing follows, or the next interval does. */
  predicate Stops(post: seq<nat>) {
    post == [] || post[0] >= FIRST_ID
  }

  lemma DecodeStep(msg: seq<nat>, pos: nat)
    requires pos < |msg| && (msg[pos] == ESCAPE ==> pos + 2 < |msg|)
    ensures var r := if msg[pos] == ESCAPE then Range(msg[pos + 1], msg[pos + 2]) else Range(msg[pos], msg[pos]);
            var next := if msg[pos] == ESCAPE then pos + 3 else pos + 1;
            DecodeRanges(msg, pos) ==
              if next < |msg| && msg[next] < FIRST_ID then
                match DecodeRanges(msg, next)
                case None => None
                case Some((rs, end)) => Some(([r] + rs, end))
              else Some(([r], next))
  {
  }

  lemma EncodeCons(r: Range, rest: seq<Range>)
    ensures EncodeRanges([r] + rest) == EncodeRange(r) + EncodeRanges(rest)
  {
    assert ([r] + rest)[1..] == rest;
  }

  lemma {:induction false} SplitSameWords(rs: seq<Range>)
    ensures EncodeRanges(Split(rs)) == EncodeRanges(rs)
  {
    if rs != [] {
      hide EncodeRanges;
      hide Split;
      var r, rest := rs[0], rs[1..];
      assert rs == [r] + rest;
      SplitSameWords(rest);
      SplitCons(r, rest);
      EncodeCons(r, rest);
      if r.last - r.first == 1 {
        var a, b := Range(r.first, r.first), Range(r.last, r.last);
        EncodeCons(a, [b] + Split(rest));
        EncodeCons(b, Split(rest));
        assert [r.first] + ([r.last] + EncodeRanges(rest)) == [r.first, r.last] + EncodeRanges(rest);
      } else {
        EncodeCons(r, Split(rest));
      }
    }
  }

  ghost predicate NoPairs(rs: seq<Range>) {
    forall k :: 0 <= k < |rs| ==> rs[k].last - rs[k].first != 1
  }

  lemma {:induction false} SplitShape(rs: seq<Range>)
    requires ValidRanges(rs)
    ensures ValidRanges(Split(rs)) && NoPairs(Split(rs))
  {
    if |rs| > 1 {
      assert forall k :: 0 <= k < |rs[1..]| ==> rs[1..][k] == rs[k + 1];
      SplitShape(rs[1..]);
    } else {
      assert Split(rs[1..]) == [];
    }
  }

  /** The page id would stand where an escape is looked for. */
  predicate LooksEscaped(r: Range) {
    r.last == ESCAPE && r.last - r.first <= 1
  }

  predicate Told(r: Range) {
    r.first <= r.last < FIRST_ID && !LooksEscaped(r)
  }

  ghost predicate ToldRanges(rs: seq<Range>) {
    rs != [] && forall k :: 0 <= k < |rs| ==> Told(rs[k])
  }

  /** Decoding ranges none of which spans just two pages. */
  lemma {:induction false} RangesBack(pre: seq<nat>, rs: seq<Range>, post: seq<nat>)
    requires ToldRanges(rs) && Stops(post) && NoPairs(rs)
    ensures var msg, end := pre + EncodeRanges(rs) + post, |pre| + |EncodeRanges(rs)|;
            DecodeRanges(msg, |pre|) == Some((rs, end)) && SkipRanges(msg, |pre|) == end
    decreases |rs|
  {
    hide DecodeRanges;
    hide SkipRanges;
    hide EncodeRanges;
    hide EncodeRange;
    hide Told;
    var r, rest := rs[0], rs[1..];
    var w, tail := EncodeRange(r), EncodeRanges(rest);
    assert rs == [r] + rest;
    EncodeCons(r, rest);
    Layout(pre, w, tail, post);
    var msg := pre + (w + tail) + post;
    HeadRange(msg, |pre|, r);
    if rest == [] {
      EncodeNone();
      assert rs == [r];
      SkipStop(msg, |pre + w|);
    } else {
      assert forall k :: 0 <= k < |rest| ==> rest[k] == rs[k + 1];
      ToldBounds(rest[0]);
      FirstWord(rest);
      RangesBack(pre + w, rest, post);
    }
  }

  /** Where the words of a range stand in a message, and what comes next. */
  lemma Layout(pre: seq<nat>, w: seq<nat>, tail: seq<nat>, post: seq<nat>)
    ensures var msg := pre + (w + tail) + post;
            && msg == (pre + w) + tail + post && |msg| == |pre| + |w| + |tail| + |post|
            && msg[|pre|..|pre| + |w|] == w
            && (tail != [] ==> msg[|pre + w|] == tail[0])
            && (tail == [] && post != [] ==> msg[|pre + w|] == post[0])
  {
    Regroup(pre, w, tail, post);
  }

  lemma ToldBounds(r: Range)
    requires Told(r)
    ensures r.first <= r.last < FIRST_ID
  {
  }

  lemma Regroup(a: seq<nat>, b: seq<nat>, c: seq<nat>, d: seq<nat>)
    ensures a + (b + c) + d == (a + b) + (c + d)
    ensures (a + b) + (c + d) == (a + b) + c + d
  {
  }

  lemma EncodeNone()
    ensures EncodeRanges([]) == []
  {
  }

  /** One range, wherever it stands. */
  lemma HeadRange(msg: seq<nat>, pos: nat, r: Range)
    requires Told(r) && r.last - r.first != 1
    requires pos + |EncodeRange(r)| <= |msg| && msg[pos..pos + |EncodeRange(r)|] == EncodeRange(r)
    ensures var next := pos + |EncodeRange(r)|;
            && SkipRanges(msg, pos) == SkipRanges(msg, next)
            && DecodeRanges(msg, pos) ==
                 if next < |msg| && msg[next] < FIRST_ID then
                   match DecodeRanges(msg, next)
                   case None => None
                   case Some((rs, end)) => Some(([r] + rs, end))
                 else Some(([r], next))
  {
    hide DecodeRanges;
    hide SkipRanges;
    var w := EncodeRange(r);
    assert msg[pos] == w[0];
    if |w| == 3 {
      assert msg[pos + 1] == w[1] && msg[pos + 2] == w[2];
    }
    DecodeStep(msg, pos);
    SkipWords(msg, pos, |w|);
  }

  lemma FirstWord(rs: seq<Range>)
    requires rs != [] && rs[0].first <= rs[0].last < FIRST_ID
    ensures EncodeRanges(rs) != [] && EncodeRanges(rs)[0] < FIRST_ID
  {
  }

  lemma {:induction false} SkipWords(msg: seq<nat>, pos: nat, n: nat)
    requires pos + n <= |msg| && forall k :: pos <= k < pos + n ==> msg[k] < FIRST_ID
    ensures SkipRanges(msg, pos) == SkipRanges(msg, pos + n)
    decreases n
  {
    if n > 0 {
      SkipWords(msg, pos + 1, n - 1);
    }
  }

  lemma SkipStop(msg: seq<nat>, pos: nat)
    requires pos >= |msg| || msg[pos] >= FIRST_ID
    ensures SkipRanges(msg, pos) == pos
  {
  }

  /** An interval comes back with its id, its vector time and its pages, and whether it is taken in or
      passed over, the reader stops at the same word. */
  lemma IntervalBack(pre: seq<nat>, iv: Interval, post: seq<nat>)
    requires iv.Valid() && Stops(post)
    ensures var msg, at := pre + EncodeInterval(iv) + post, |pre| + 1 + NPROCS;
            var end := |pre| + |EncodeInterval(iv)|;
            && at <= |msg|
            && 65535 - msg[|pre|] == iv.id
            && msg[|pre| + 1..at] == iv.vt
            && DecodeRanges(msg, at) == Some((Split(iv.ranges), end))
            && SkipRanges(msg, at) == end
  {
    hide DecodeRanges;
    hide SkipRanges;
    hide EncodeRanges;
    var head := [65535 - iv.id] + iv.vt;
    var msg := pre + EncodeInterval(iv) + post;
    SplitSameWords(iv.ranges);
    SplitShape(iv.ranges);
    assert msg == (pre + head) + EncodeRanges(iv.ranges) + post;
    RangesBack(pre + head, Split(iv.ranges), post);
  }

  // ---------------------------------------------------------------- whole messages

  predicate IsNew(clock: seq<nat>, id: nat, vt: seq<nat>) {
    id < |clock| && id < |vt| && vt[id] > clock[id]
  }

  /** Taking in intervals one by one: those newer than the clock are kept and advance it. */
  function Absorb(clock: seq<nat>, ivs: seq<Interval>): (seq<nat>, seq<Interval>)
    decreases |ivs|
  {
    if ivs == [] then
      (clock, [])
    else if IsNew(clock, ivs[0].id, ivs[0].vt) then
      var (c, kept) := Absorb(clock[ivs[0].id := ivs[0].vt[ivs[0].id]], ivs[1..]);
      (c, [ivs[0]] + kept)
    else
      Absorb(clock, ivs[1..])
  }

  lemma {:induction false} DecodeAdvances(msg: seq<nat>, pos: nat)
    ensures DecodeRanges(msg, pos).Some? ==> pos < DecodeRanges(msg, pos).value.1 <= |msg|
    decreases |msg| - pos
  {
    if pos < |msg| && !(msg[pos] == ESCAPE && pos + 2 >= |msg|) {
      DecodeAdvances(msg, if msg[pos] == ESCAPE then pos + 3 else pos + 1);
    }
  }

  lemma {:induction false} SkipAdvances(msg: seq<nat>, pos: nat)
    requires pos <= |msg|
    ensures pos <= SkipRanges(msg, pos) <= |msg|
    decreases |msg| - pos
  {
    if pos < |msg| && msg[pos] < FIRST_ID {
      SkipAdvances(msg, pos + 1);
    }
  }

  /** Reading a message against a clock: the clock it leaves and the intervals it adds.  `None` if the
      message is malformed. */
  function Read(msg: seq<nat>, pos: nat, clock: seq<nat>): Option<(seq<nat>, seq<Interval>)>
    decreases |msg| - pos
  {
    if pos >= |msg| then
      Some((clock, []))
    else if msg[pos] > 65535 || msg[pos] < FIRST_ID || pos + 1 + NPROCS > |msg| then
      None
    else
      var id, vt, at := 65535 - msg[pos], msg[pos + 1..pos + 1 + NPROCS], pos + 1 + NPROCS;
      if IsNew(clock, id, vt) then
        match DecodeRanges(msg, at)
        case None => None
        case Some((rs, end)) =>
          (DecodeAdvances(msg, at);
           match Read(msg, end, clock[id := vt[id]])
           case None => None
           case Some((c, kept)) => Some((c, [Interval(id, vt, rs)] + kept)))
      else
        (SkipAdvances(msg, at);
         Read(msg, SkipRanges(msg, at), clock))
  }

  function SplitAll(ivs: seq<Interval>): seq<Interval> {
    seq(|ivs|, k requires 0 <= k < |ivs| => ivs[k].(ranges := Split(ivs[k].ranges)))
  }

  predicate AllValid(ivs: seq<Interval>) {
    forall k :: 0 <= k < |ivs| ==> ivs[k].Valid()
  }

  lemma ReadOne(msg: seq<nat>, pos: nat, clock: seq<nat>, iv: Interval, end: nat)
    requires pos + 1 + NPROCS <= |msg| && iv.Valid()
    requires msg[pos] == 65535 - iv.id && msg[pos + 1..pos + 1 + NPROCS] == iv.vt
    requires DecodeRanges(msg, pos + 1 + NPROCS) == Some((Split(iv.ranges), end))
    requires SkipRanges(msg, pos + 1 + NPROCS) == end
    ensures Read(msg, pos, clock) ==
            if IsNew(clock, iv.id, iv.vt) then
              match Read(msg, end, clock[iv.id := iv.vt[iv.id]])
              case None => None
              case Some((c, kept)) => Some((c, [Interval(iv.id, iv.vt, Split(iv.ranges))] + kept))
            else Read(msg, end, clock)
  {
    hide Split;
  }

  lemma EncodeAllCons(iv: Interval, rest: seq<Interval>)
    requires iv.id < NPROCS && forall k :: 0 <= k < |rest| ==> rest[k].id < NPROCS
    ensures EncodeAll([iv] + rest) == EncodeInterval(iv) + EncodeAll(rest)
  {
    assert ([iv] + rest)[1..] == rest;
  }

  lemma EncodeAllStops(ivs: seq<Interval>)
    requires AllValid(ivs)
    ensures Stops(EncodeAll(ivs))
  {
    if ivs != [] {
      assert EncodeAll(ivs)[0] == EncodeInterval(ivs[0])[0];
    }
  }

  lemma AbsorbCons(clock: seq<nat>, iv: Interval, rest: seq<Interval>)
    ensures Absorb(clock, [iv] + rest) ==
            if IsNew(clock, iv.id, iv.vt) then
              (Absorb(clock[iv.id := iv.vt[iv.id]], rest).0, [iv] + Absorb(clock[iv.id := iv.vt[iv.id]], rest).1)
            else Absorb(clock, rest)
  {
    assert ([iv] + rest)[1..] == rest;
  }

  /** Round trip of a message: reading what was written takes in exactly the intervals that are newer
      than the reader's clock, in order, with their stamps and pages. */
  lemma {:induction false} MessageBack(pre: seq<nat>, ivs: seq<Interval>, clock: seq<nat>)
    requires AllValid(ivs)
    ensures Read(pre + EncodeAll(ivs), |pre|, clock) == Some(Absorb(clock, SplitAll(ivs)))
    decreases |ivs|
  {
    hide DecodeRanges;
    hide SkipRanges;
    hide EncodeRanges;
    hide Split;
    hide Absorb;
    hide EncodeInterval;
    hide Read;
    hide EncodeAll;
    var msg := pre + EncodeAll(ivs);
    if ivs == [] {
      AbsorbNone(clock);
      ReadNone(msg, clock);
      EncodeAllNone();
      assert SplitAll(ivs) == [];
    } else {
      var iv, rest := ivs[0], ivs[1..];
      assert ivs == [iv] + rest;
      assert forall k :: 0 <= k < |rest| ==> rest[k] == ivs[k + 1];
      EncodeAllCons(iv, rest);
      EncodeAllStops(rest);
      var pre' := pre + EncodeInterval(iv);
      assert msg == pre' + EncodeAll(rest);
      IntervalBack(pre, iv, EncodeAll(rest));
      var iv' := iv.(ranges := Split(iv.ranges));
      assert SplitAll(ivs) == [iv'] + SplitAll(rest);
      AbsorbCons(clock, iv', SplitAll(rest));
      ReadOne(msg, |pre|, clock, iv, |pre'|);
      if IsNew(clock, iv.id, iv.vt) {
        MessageBack(pre', rest, clock[iv.id := iv.vt[iv.id]]);
      } else {
        MessageBack(pre', rest, clock);
      }
    }
  }

  lemma EncodeAllNone()
    ensures EncodeAll([]) == []
  {
  }

  lemma AbsorbNone(clock: seq<nat>)
    ensures Absorb(clock, []) == (clock, [])
  {
  }

  lemma ReadNone(msg: seq<nat>, clock: seq<nat>)
    ensures Read(msg, |msg|, clock) == Some((clock, []))
  {
  }

  // ---------------------------------------------------------------- the loops

  /** The intervals of process `i`'s list, oldest first, made after `time`. */
  function Newer(list: seq<Interval>, i: nat, time: nat): seq<Interval>
    requires forall k :: 0 <= k < |list| ==> i < |list[k].vt|
  {
    if list == [] || list[|list| - 1].vt[i] <= time then
      []
    else
      Newer(list[..|list| - 1], i, time) + [list[|list| - 1]]
  }

  /** What a reader at clock `vt` lacks, process by process. */
  function Missing(lists: seq<seq<Interval>>, vt: seq<nat>): seq<Interval>
    requires |vt| >= |lists|
    requires forall i, k :: 0 <= i < |lists| && 0 <= k < |lists[i]| ==> i < |lists[i][k].vt|
  {
    if lists == [] then
      []
    else
      var i := |lists| - 1;
      Missing(lists[..i], vt) + Newer(lists[i], i, vt[i])
  }

  lemma {:induction false} EncodeAllConcat(a: seq<Interval>, b: seq<Interval>)
    requires AllValid(a) && AllValid(b)
    ensures AllValid(a + b) && EncodeAll(a + b) == EncodeAll(a) + EncodeAll(b)
    decreases |a|
  {
    hide EncodeAll;
    hide EncodeInterval;
    if a == [] {
      EncodeAllNone();
      assert a + b == b;
    } else {
      var iv, rest := a[0], a[1..];
      assert a == [iv] + rest;
      assert a + b == [iv] + (rest + b);
      assert forall k :: 0 <= k < |rest| ==> rest[k] == a[k + 1];
      EncodeAllConcat(rest, b);
      EncodeAllCons(iv, rest);
      EncodeAllCons(iv, rest + b);
    }
  }

  lemma EncodeAllOne(iv: Interval)
    requires iv.Valid()
    ensures EncodeAll([iv]) == EncodeInterval(iv)
  {
    EncodeAllCons(iv, []);
    EncodeAllNone();
    assert [iv] + [] == [iv];
  }

  lemma NewerStep(list: seq<Interval>, i: nat, time: nat, k: nat)
    requires i < NPROCS && AllValid(list) && 0 < k <= |list| && time < list[k - 1].vt[i]
    ensures Newer(list[..k], i, time) + list[k..] == Newer(list[..k - 1], i, time) + list[k - 1..]
  {
    assert list[..k][..k - 1] == list[..k - 1];
    assert list[k - 1..] == [list[k - 1]] + list[k..];
  }

  lemma NewerEnd(list: seq<Interval>, i: nat, time: nat)
    requires i < NPROCS && AllValid(list) && (list != [] ==> list[|list| - 1].vt[i] <= time)
    ensures Newer(list, i, time) == []
  {
  }

  method RequestProc(list: seq<Interval>, i: nat, time: nat) returns (msg: seq<nat>)
    requires i < NPROCS && AllValid(list)
    ensures AllValid(Newer(list, i, time))
    ensures msg == EncodeAll(Newer(list, i, time))
  {
    hide EncodeAll;
    hide Newer;
    var k := |list|;
    assert list[..k] == list;
    while k > 0 && time < list[k - 1].vt[i]
      invariant 0 <= k <= |list|
      invariant Newer(list, i, time) == Newer(list[..k], i, time) + list[k..]
    {
      NewerStep(list, i, time, k);
      k := k - 1;
    }
    NewerEnd(list[..k], i, time);
    assert Newer(list, i, time) == list[k..];
    msg := WriteFrom(list, k);
  }

  method WriteFrom(list: seq<Interval>, k: nat) returns (msg: seq<nat>)
    requires AllValid(list) && k <= |list|
    ensures AllValid(list[k..]) && msg == EncodeAll(list[k..])
  {
    hide EncodeAll;
    hide EncodeInterval;
    hide EncodeRanges;
    msg := [];
    EncodeAllNone();
    var j := k;
    assert list[k..j] == [];
    while j < |list|
      invariant k <= j <= |list|
      invariant AllValid(list[k..j]) && msg == EncodeAll(list[k..j])
    {
      var ranges := WriteRanges(list[j].ranges);
      EncodeAllOne(list[j]);
      EncodeAllConcat(list[k..j], [list[j]]);
      assert list[k..j] + [list[j]] == list[k..j + 1];
      EncodedParts(list[j]);
      msg := msg + (WriteHead(list[j]) + ranges);
      j := j + 1;
    }
    assert list[k..j] == list[k..];
  }

  function WriteHead(iv: Interval): seq<nat>
    requires iv.id < NPROCS
  {
    [65535 - iv.id] + iv.vt
  }

  lemma EncodedParts(iv: Interval)
    requires iv.id < NPROCS
    ensures EncodeInterval(iv) == WriteHead(iv) + EncodeRanges(iv.ranges)
  {
  }

  method WriteRanges(rs: seq<Range>) returns (w: seq<nat>)
    ensures w == EncodeRanges(rs)
  {
    hide EncodeRanges;
    w := [];
    for k := 0 to |rs|
      invariant w + EncodeRanges(rs[k..]) == EncodeRanges(rs)
    {
      assert rs[k..] == [rs[k]] + rs[k + 1..];
      EncodeCons(rs[k], rs[k + 1..]);
      ghost var before := w;
      var j := rs[k].last - rs[k].first;
      if j > 0 {
        if j > 1 {
          w := w + [ESCAPE];
        }
        w := w + [rs[k].first];
      }
      w := w + [rs[k].last];
      assert w == before + EncodeRange(rs[k]);
    }
    EncodeNone();
  }

  method ReadRanges(msg: seq<nat>, start: nat) returns (rs: seq<Range>, pos: nat)
    requires DecodeRanges(msg, start).Some?
    ensures DecodeRanges(msg, start) == Some((rs, pos))
  {
    ghost var result := DecodeRanges(msg, start).value;
    rs, pos := [], start;
    while true
      invariant DecodeRanges(msg, pos).Some?
      invariant result.0 == rs + DecodeRanges(msg, pos).value.0 && result.1 == DecodeRanges(msg, pos).value.1
      decreases |msg| - pos
    {
      var u, v := msg[pos], msg[pos];
      if u == ESCAPE {
        u, v := msg[pos + 1], msg[pos + 2];
        pos := pos + 2;
      }
      rs := rs + [Range(u, v)];
      pos := pos + 1;
      if pos >= |msg| || msg[pos] >= FIRST_ID {
        return;
      }
    }
  }

  method ReadMessage(msg: seq<nat>, clock0: seq<nat>) returns (clock: seq<nat>, kept: seq<Interval>)
    requires Read(msg, 0, clock0).Some?
    ensures Read(msg, 0, clock0) == Some((clock, kept))
  {
    hide DecodeRanges;
    ghost var result := Read(msg, 0, clock0).value;
    clock, kept := clock0, [];
    var pos := 0;
    while pos < |msg|
      invariant Read(msg, pos, clock).Some?
      invariant result.0 == Read(msg, pos, clock).value.0 && result.1 == kept + Read(msg, pos, clock).value.1
      decreases |msg| - pos
    {
      var id := 65535 - msg[pos];
      var vt := msg[pos + 1..pos + 1 + NPROCS];
      pos := pos + 1 + NPROCS;
      if IsNew(clock, id, vt) {
        DecodeAdvances(msg, pos);
        clock := clock[id := vt[id]];
        var ranges, end := ReadRanges(msg, pos);
        kept := kept + [Interval(id, vt, ranges)];
        pos := end;
      } else {
        SkipAdvances(msg, pos);
        pos := SkipOld(msg, pos);
      }
    }
    assert kept + [] == kept;
  }

  method SkipOld(msg: seq<nat>, start: nat) returns (pos: nat)
    requires start <= |msg|
    ensures pos == SkipRanges(msg, start)
  {
    pos := start;
    while pos < |msg| && msg[pos] < FIRST_ID
      invariant pos <= |msg| && SkipRanges(msg, pos) == SkipRanges(msg, start)
    {
      pos := pos + 1;
    }
  }

  // ---------------------------------------------------------------- the highest page id

  /** The ranges, read from between `pre` and `post`, give their pages, and the reader stops right behind them. */
  ghost predicate ReadBack(pre: seq<nat>, rs: seq<Range>, post: seq<nat>) {
    exists out :: Gives(pre, rs, post, out)
  }

  ghost predicate Gives(pre: seq<nat>, rs: seq<Range>, post: seq<nat>, out: seq<Range>) {
    var end: nat := |pre| + |EncodeRanges(rs)|;
    DecodeRanges(pre + EncodeRanges(rs) + post, |pre|) == Some((out, end)) && Pages(out) == Pages(rs)
  }

  lemma SplitNone()
    ensures Split([]) == []
  {
  }

  lemma {:induction false} SplitConcat(a: seq<Range>, b: seq<Range>)
    ensures Split(a + b) == Split(a) + Split(b)
  {
    hide Split;
    if a == [] {
      SplitNone();
      assert a + b == b && [] + Split(b) == Split(b);
    } else {
      var r, rest := a[0], a[1..];
      assert a == [r] + rest && a + b == [r] + (rest + b);
      SplitConcat(rest, b);
      SplitCons(r, rest);
      SplitCons(r, rest + b);
    }
  }

  /** No list of ranges, or one whose pages are all below the escape word and none of which is a pair. */
  ghost predicate Low(rs: seq<Range>) {
    rs == [] || (ValidRanges(rs) && NoPairs(rs))
  }

  /** Among the words of such ranges an escape is followed by a page below it. */
  ghost predicate EscapesLow(w: seq<nat>) {
    forall k :: 0 <= k < |w| ==> EscapeLow(w, k)
  }

  predicate EscapeLow(w: seq<nat>, k: nat) {
    k < |w| && w[k] <= ESCAPE && (w[k] == ESCAPE ==> k + 1 < |w| && w[k + 1] < ESCAPE)
  }

  lemma {:induction false} LowWords(rs: seq<Range>)
    requires Low(rs)
    ensures EscapesLow(EncodeRanges(rs))
  {
    if rs != [] {
      assert forall k :: 0 <= k < |rs[1..]| ==> rs[1..][k] == rs[k + 1];
      LowWords(rs[1..]);
      var w, tail := EncodeRange(rs[0]), EncodeRanges(rs[1..]);
      forall k: nat | k < |w + tail| ensures EscapeLow(w + tail, k) {
        if k >= |w| {
          assert EscapeLow(tail, k - |w|);
        }
      }
    }
  }

  ghost predicate StartsBelow(rs: seq<Range>) {
    Pages(rs) == [] || Pages(rs)[0] < ESCAPE
  }

  /** Wherever among such words the reader starts, if it stops at their end the first page it gets is not the one
      whose id is the escape word. */
  lemma {:induction false} NeverHighestFirst(msg: seq<nat>, pos: nat, end: nat)
    requires pos <= end <= |msg| && EscapesLow(msg[pos..end])
    ensures var got := DecodeRanges(msg, pos); got.Some? && got.value.1 == end ==> StartsBelow(got.value.0)
    decreases |msg| - pos
  {
    hide Pages;
    DecodeAdvances(msg, pos);
    var got := DecodeRanges(msg, pos);
    if got.Some? && got.value.1 == end {
      assert EscapeLow(msg[pos..end], 0);
      var r := if msg[pos] == ESCAPE then Range(msg[pos + 1], msg[pos + 2]) else Range(msg[pos], msg[pos]);
      var next := if msg[pos] == ESCAPE then pos + 3 else pos + 1;
      if next < |msg| && msg[next] < FIRST_ID {
        DecodeAdvances(msg, next);
        var more := DecodeRanges(msg, next);
        assert msg[next..end] == msg[pos..end][next - pos..];
        LaterLow(msg[pos..end], next - pos);
        NeverHighestFirst(msg, next, end);
        assert got.value.0 == [r] + more.value.0;
        PagesCons(r, more.value.0);
      } else {
        assert got.value.0 == [r] + [];
        PagesCons(r, []);
        NoPages();
      }
    }
  }

  lemma NoPages()
    ensures Pages([]) == []
  {
  }

  lemma LaterLow(w: seq<nat>, k: nat)
    requires EscapesLow(w) && k <= |w|
    ensures EscapesLow(w[k..])
  {
    forall i: nat | i < |w[k..]| ensures EscapeLow(w[k..], i) {
      assert EscapeLow(w, k + i);
    }
  }

  /** A single page whose id is the escape word, and low ranges behind it. */
  lemma {:induction false} HighestFirst(pre: seq<nat>, rs: seq<Range>, post: seq<nat>)
    requires Low(rs)
    ensures !ReadBack(pre, [Range(ESCAPE, ESCAPE)] + rs, post)
  {
    hide EncodeRanges;
    hide Pages;
    hide DecodeRanges;
    var r := Range(ESCAPE, ESCAPE);
    EncodeCons(r, rs);
    LowWords(rs);
    PagesCons(r, rs);
    assert Pages([r] + rs)[0] == ESCAPE;
    var tail := EncodeRanges(rs);
    var msg, end := pre + EncodeRanges([r] + rs) + post, |pre| + 1 + |tail|;
    forall out | Gives(pre, [r] + rs, post, out) ensures false {
      assert msg[|pre|] == ESCAPE;
      assert msg[|pre| + 1..end] == tail;
      EscapeThenLow(msg, |pre|, end);
    }
  }

  lemma EscapeThenLow(msg: seq<nat>, pos: nat, end: nat)
    requires pos < end <= |msg| && msg[pos] == ESCAPE && EscapesLow(msg[pos + 1..end])
    ensures var got := DecodeRanges(msg, pos); got.Some? && got.value.1 == end ==> StartsBelow(got.value.0)
  {
    hide Pages;
    DecodeAdvances(msg, pos);
    var got := DecodeRanges(msg, pos);
    if got.Some? && got.value.1 == end {
      var next := pos + 3;
      if next < |msg| && msg[next] < FIRST_ID {
        DecodeAdvances(msg, next);
      }
      assert EscapeLow(msg[pos + 1..end], 0) && EscapeLow(msg[pos + 1..end], 1);
      var r := Range(msg[pos + 1], msg[pos + 2]);
      if next < |msg| && msg[next] < FIRST_ID {
        assert msg[next..end] == msg[pos + 1..end][2..];
        LaterLow(msg[pos + 1..end], 2);
        NeverHighestFirst(msg, next, end);
        assert got.value.0 == [r] + DecodeRanges(msg, next).value.0;
        PagesCons(r, DecodeRanges(msg, next).value.0);
      } else {
        assert got.value.0 == [r] + [];
        PagesCons(r, []);
        NoPages();
      }
    }
  }

  /** Ranges that can be told stand before it. */
  lemma {:induction false} HighestLater(pre: seq<nat>, before: seq<Range>, rs: seq<Range>, post: seq<nat>)
    requires Low(before) && Low(rs)
    ensures !ReadBack(pre, before + ([Range(ESCAPE, ESCAPE)] + rs), post)
    decreases |before|
  {
    hide EncodeRanges;
    hide DecodeRanges;
    hide Pages;
    var high := [Range(ESCAPE, ESCAPE)] + rs;
    if before == [] {
      assert before + high == high;
      HighestFirst(pre, rs, post);
    } else {
      var head, rest := before[0], before[1..];
      assert before + high == [head] + (rest + high);
      assert forall k :: 0 <= k < |rest| ==> rest[k] == before[k + 1];
      HighestLater(pre + EncodeRange(head), rest, rs, post);
      forall out | Gives(pre, [head] + (rest + high), post, out) ensures false {
        HeadGiven(pre, head, rest + high, post, out);
      }
    }
  }

  /** If the ranges are given back, so are all but the first. */
  lemma HeadGiven(pre: seq<nat>, head: Range, rest: seq<Range>, post: seq<nat>, out: seq<Range>)
    requires Told(head) && head.last - head.first != 1 && rest != [] && rest[0].first <= rest[0].last < FIRST_ID
    requires Gives(pre, [head] + rest, post, out)
    ensures ReadBack(pre + EncodeRange(head), rest, post)
  {
    hide EncodeRanges;
    hide DecodeRanges;
    hide Pages;
    EncodeCons(head, rest);
    var w, tail := EncodeRange(head), EncodeRanges(rest);
    var msg := pre + (w + tail) + post;
    Regroup(pre, w, tail, post);
    assert msg == (pre + w) + (tail + post);
    assert msg[|pre|..|pre| + |w|] == w;
    HeadRange(msg, |pre|, head);
    FirstWord(rest);
    assert msg[|pre + w|] == tail[0];
    var more := DecodeRanges(msg, |pre + w|);
    var out' := more.value.0;
    assert out == [head] + out';
    PagesCons(head, out');
    PagesCons(head, rest);
    var n := Count(head);
    assert Pages(out)[n..] == Pages(out') && Pages([head] + rest)[n..] == Pages(rest);
    assert Gives(pre + w, rest, post, out');
  }

  /** The range that has the highest page, wherever it stands in its interval and the interval in its message: all
      pages are read back exactly if it is not just one or two pages ending at the page whose id is the escape word.
      Otherwise the reader takes the next two words for the ends of a range. */
  lemma {:induction false} HighestPageId(pre: seq<nat>, before: seq<Range>, r: Range, rest: seq<Range>, post: seq<nat>)
    requires (before == [] || ValidRanges(before)) && (rest == [] || ValidRanges(rest))
    requires r.first <= r.last < FIRST_ID && Stops(post)
    ensures ReadBack(pre, before + ([r] + rest), post) <==> !LooksEscaped(r)
  {
    hide DecodeRanges;
    hide EncodeRanges;
    hide Pages;
    hide Split;
    var all := before + ([r] + rest);
    var low, low' := Split(before), Split(rest);
    SplitConcat(before, [r] + rest);
    SplitCons(r, rest);
    SplitSameWords(all);
    SplitSamePages(all);
    SplitNone();
    if before != [] {
      SplitShape(before);
    }
    if rest != [] {
      SplitShape(rest);
    }
    if LooksEscaped(r) {
      if r.last - r.first == 1 {
        var a := Range(r.first, r.first);
        assert low + ([a] + ([Range(ESCAPE, ESCAPE)] + low')) == (low + [a]) + ([Range(ESCAPE, ESCAPE)] + low');
        HighestLater(pre, low + [a], low', post);
      } else {
        HighestLater(pre, low, low', post);
      }
      SameReading(pre, all, post);
    } else {
      AllTold(low, r, low');
      RangesBack(pre, Split(all), post);
      assert Gives(pre, all, post, Split(all));
    }
  }

  lemma AllTold(low: seq<Range>, r: Range, rest: seq<Range>)
    requires Low(low) && Low(rest) && Told(r)
    ensures var mid := if r.last - r.first == 1 then [Range(r.first, r.first)] + ([Range(r.last, r.last)] + rest) else [r] + rest;
            ToldRanges(low + mid) && NoPairs(low + mid)
  {
  }

  lemma SameReading(pre: seq<nat>, rs: seq<Range>, post: seq<nat>)
    requires EncodeRanges(Split(rs)) == EncodeRanges(rs) && Pages(Split(rs)) == Pages(rs)
    ensures ReadBack(pre, Split(rs), post) <==> ReadBack(pre, rs, post)
  {
    forall out ensures Gives(pre, Split(rs), post, out) <==> Gives(pre, rs, post, out) {
    }
  }
}
