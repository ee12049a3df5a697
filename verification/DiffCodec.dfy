/** Encoding what changed in a page as runs of words, and applying such an encoding.

    A page is an array of words, each made of two signed shorts.  A run is a header word holding its
    length and its offset in bytes, then the words; a zero word ends the diff. */
module DiffCodec {

  datatype Option<T> = None | Some(value: T)

  const MTU_WORDS: nat := 8192
  /** Pages are at most 16384 bytes, so lengths and offsets fit a signed short. */
  const MAX_PAGE_WORDS: nat := 4096

  datatype Word = Word(lo: int, hi: int)

  const ZERO: Word := Word(0, 0)

  predicate PagePair(p: seq<Word>, t: seq<Word>) {
    |p| == |t| <= MAX_PAGE_WORDS
  }

  /** A length or offset is stored as an unsigned short and read back as a signed one. */
  function Signed(x: nat): int {
    if x < 32768 then x else x - 65536
  }

  function Header(bytes: nat, offset: nat): Word {
    Word(Signed(bytes), Signed(offset))
  }

  // ---------------------------------------------------------------- the encoding

  function NextChange(p: seq<Word>, t: seq<Word>, i: nat): (j: nat)
    requires |p| == |t| && i <= |p|
    ensures i <= j <= |p|
    ensures forall k :: i <= k < j ==> p[k] == t[k]
    ensures j < |p| ==> p[j] != t[j]
    decreases |p| - i
  {
    if i == |p| || p[i] != t[i] then i else NextChange(p, t, i + 1)
  }

  function RunEnd(p: seq<Word>, t: seq<Word>, i: nat): (j: nat)
    requires |p| == |t| && i <= |p|
    ensures i <= j <= |p|
    ensures forall k :: i <= k < j ==> p[k] != t[k]
    ensures j < |p| ==> p[j] == t[j]
    ensures i < |p| && p[i] != t[i] ==> i < j
    decreases |p| - i
  {
    if i == |p| || p[i] == t[i] then i else RunEnd(p, t, i + 1)
  }

  /** The diff of the words from `i` on. */
  function Encode(p: seq<Word>, t: seq<Word>, i: nat): seq<Word>
    requires |p| == |t| && i <= |p|
    decreases |p| - i
  {
    var s := NextChange(p, t, i);
    if s == |p| then
      [ZERO]
    else
      var e := RunEnd(p, t, s);
      [Header(4 * (e - s), 4 * s)] + p[s..e] + Encode(p, t, e)
  }

  /** A word for each that changed, and one for each maximal run of them, counted at its last word. */
  function Cost(p: seq<Word>, t: seq<Word>, i: nat): nat
    requires |p| == |t| && i <= |p|
    decreases |p| - i
  {
    if i == |p| then 0
    else (if p[i] == t[i] then 0 else if i + 1 == |p| || p[i + 1] == t[i + 1] then 2 else 1) + Cost(p, t, i + 1)
  }

  /** A diff has exactly that many words, and the one that ends it: no run is split and nothing unchanged is sent. */
  lemma {:induction false} EncodeCost(p: seq<Word>, t: seq<Word>, i: nat)
    requires |p| == |t| && i <= |p|
    ensures |Encode(p, t, i)| == 1 + Cost(p, t, i)
    decreases |p| - i
  {
    hide Encode;
    if i == |p| {
      EncodeEnd(p, t);
    } else {
      EncodeCost(p, t, i + 1);
      if p[i] == t[i] {
        EncodeSkip(p, t, i);
      } else {
        EncodeRun(p, t, i, RunEnd(p, t, i));
        if i + 1 < |p| && p[i + 1] != t[i + 1] {
          EncodeRun(p, t, i + 1, RunEnd(p, t, i));
        }
      }
    }
  }

  lemma EncodeEnd(p: seq<Word>, t: seq<Word>)
    requires |p| == |t|
    ensures Encode(p, t, |p|) == [ZERO]
  {
  }

  lemma {:induction false} CostBound(p: seq<Word>, t: seq<Word>, i: nat)
    requires |p| == |t| && i <= |p|
    ensures Cost(p, t, i) <= |p| - i + 1
    ensures i == |p| || p[i] == t[i] ==> Cost(p, t, i) <= |p| - i
    decreases |p| - i
  {
    if i < |p| {
      CostBound(p, t, i + 1);
    }
  }

  /** A diff is at most two words longer than the page. */
  lemma {:induction false} EncodeSize(p: seq<Word>, t: seq<Word>, i: nat)
    requires |p| == |t| && i <= |p|
    ensures 1 <= |Encode(p, t, i)| <= |p| - i + 2
    ensures i == |p| ==> |Encode(p, t, i)| == 1
  {
    hide Encode;
    EncodeCost(p, t, i);
    CostBound(p, t, i);
  }

  lemma EncodeSkip(p: seq<Word>, t: seq<Word>, i: nat)
    requires |p| == |t| && i < |p| && p[i] == t[i]
    ensures Encode(p, t, i) == Encode(p, t, i + 1)
  {
  }

  lemma EncodeRun(p: seq<Word>, t: seq<Word>, s: nat, e: nat)
    requires |p| == |t| && s < e <= |p|
    requires forall k :: s <= k < e ==> p[k] != t[k]
    requires e < |p| ==> p[e] == t[e]
    ensures Encode(p, t, s) == [Header(4 * (e - s), 4 * s)] + p[s..e] + Encode(p, t, e)
  {
    var e' := RunEnd(p, t, s);
    assert e' == e;
  }

  // ---------------------------------------------------------------- applying

  /** Apply the diff that starts at `pos` of `d`; also where it ends.  `None` if it runs off `d` or
      the page. */
  function ApplyAt(page: seq<Word>, d: seq<Word>, pos: nat): Option<(seq<Word>, nat)>
    decreases |d| - pos
  {
    if pos >= |d| then
      None
    else if d[pos].lo <= 0 then
      Some((page, pos + 1))
    else
      var n, o := d[pos].lo, d[pos].hi;
      if n % 4 != 0 || o < 0 || o % 4 != 0 || pos + 1 + n / 4 > |d| || o / 4 + n / 4 > |page| then
        None
      else
        ApplyAt(Splice(page, o / 4, d[pos + 1..pos + 1 + n / 4]), d, pos + 1 + n / 4)
  }

  function Splice(page: seq<Word>, at: nat, run: seq<Word>): (r: seq<Word>)
    requires at + |run| <= |page|
    ensures |r| == |page|
  {
    page[..at] + run + page[at + |run|..]
  }

  /** The words from `i` on that changed, laid over `target`. */
  function Overlay(target: seq<Word>, p: seq<Word>, t: seq<Word>, i: nat): (r: seq<Word>)
    requires |target| == |p| == |t|
    ensures |r| == |target|
  {
    seq(|target|, k requires 0 <= k < |target| => if k >= i && p[k] != t[k] then p[k] else target[k])
  }

  lemma ApplyRun(page: seq<Word>, d: seq<Word>, pos: nat, o: nat, len: nat)
    requires 0 < len && o + len <= |page| <= MAX_PAGE_WORDS && pos + 1 + len <= |d|
    requires d[pos] == Header(4 * len, 4 * o)
    ensures ApplyAt(page, d, pos) == ApplyAt(Splice(page, o, d[pos + 1..pos + 1 + len]), d, pos + 1 + len)
  {
  }

  lemma OverlayRun(target: seq<Word>, p: seq<Word>, t: seq<Word>, i: nat, s: nat, e: nat)
    requires |target| == |p| == |t| && i <= s <= e <= |p|
    requires forall k :: i <= k < s ==> p[k] == t[k]
    requires forall k :: s <= k < e ==> p[k] != t[k]
    ensures Overlay(Splice(target, s, p[s..e]), p, t, e) == Overlay(target, p, t, i)
  {
  }

  lemma EncodeFrom(p: seq<Word>, t: seq<Word>, i: nat, s: nat, e: nat)
    requires |p| == |t| && i <= |p| && s == NextChange(p, t, i) < |p| && e == RunEnd(p, t, s)
    ensures s < e <= |p| && Encode(p, t, i) == [Header(4 * (e - s), 4 * s)] + p[s..e] + Encode(p, t, e)
  {
  }

  lemma EncodeNothing(p: seq<Word>, t: seq<Word>, i: nat)
    requires |p| == |t| && i <= |p| && NextChange(p, t, i) == |p|
    ensures Encode(p, t, i) == [ZERO]
  {
  }

  lemma ApplyEnd(target: seq<Word>, pre: seq<Word>, post: seq<Word>)
    ensures ApplyAt(target, pre + [ZERO] + post, |pre|) == Some((target, |pre| + 1))
  {
    assert (pre + [ZERO] + post)[|pre|] == ZERO;
  }

  lemma OverlayNothing(target: seq<Word>, p: seq<Word>, t: seq<Word>, i: nat)
    requires |target| == |p| == |t| && forall k :: i <= k < |p| ==> p[k] == t[k]
    ensures Overlay(target, p, t, i) == target
  {
  }

  /** Where a header and its run stand. */
  lemma Placed(pre: seq<Word>, h: Word, run: seq<Word>, rest: seq<Word>, post: seq<Word>)
    ensures var d := pre + ([h] + run + rest) + post;
            && d == (pre + [h] + run) + rest + post && |pre| + 1 + |run| <= |d|
            && d[|pre|] == h && d[|pre| + 1..|pre| + 1 + |run|] == run
  {
  }

  /** Round trip: applying the diff of `p` against `t` to any page replaces exactly the words in
      which they differ and stops right after the diff, whatever surrounds it. */
  lemma {:induction false} RoundTrip(target: seq<Word>, p: seq<Word>, t: seq<Word>, i: nat, pre: seq<Word>, post: seq<Word>)
    requires PagePair(p, t) && |target| == |p| && i <= |p|
    ensures ApplyAt(target, pre + Encode(p, t, i) + post, |pre|)
         == Some((Overlay(target, p, t, i), |pre| + |Encode(p, t, i)|))
    decreases |p| - i
  {
    hide Encode;
    hide ApplyAt;
    hide Overlay;
    hide Splice;
    hide Header;
    var s := NextChange(p, t, i);
    if s == |p| {
      EncodeNothing(p, t, i);
      ApplyEnd(target, pre, post);
      OverlayNothing(target, p, t, i);
    } else {
      var e := RunEnd(p, t, s);
      var h, run := Header(4 * (e - s), 4 * s), p[s..e];
      EncodeFrom(p, t, i, s, e);
      Placed(pre, h, run, Encode(p, t, e), post);
      ApplyRun(target, pre + Encode(p, t, i) + post, |pre|, s, |run|);
      RoundTrip(Splice(target, s, run), p, t, e, pre + [h] + run, post);
      OverlayRun(target, p, t, i, s, e);
    }
  }

  lemma RoundTripIn(target: seq<Word>, p: seq<Word>, t: seq<Word>, whole: seq<Word>, pre: seq<Word>, d: seq<Word>, post: seq<Word>)
    requires PagePair(p, t) && |target| == |p|
    requires d == Encode(p, t, 0) && whole == pre + d + post
    ensures ApplyAt(target, whole, |pre|) == Some((Overlay(target, p, t, 0), |pre| + |d|))
  {
    RoundTrip(target, p, t, 0, pre, post);
  }

  // ---------------------------------------------------------------- the loops over memory

  /** What the encoder has settled before word `v`: outside a run, the diff of all words before `v`;
      inside one that began at word `s`, the diff of all words before `s`. */
  ghost predicate Settled(p: seq<Word>, t: seq<Word>, v: nat, done: seq<Word>, inRun: bool, s: nat)
    requires |p| == |t| && v <= |p|
  {
    if !inRun then
      done + Encode(p, t, v) == Encode(p, t, 0)
    else
      s < v && done + Encode(p, t, s) == Encode(p, t, 0) && forall k :: s <= k < v ==> p[k] != t[k]
  }

  /** How that sits in the buffer: an open run, whose words begin at `start`, still lacks its length. */
  ghost predicate Buffered(p: seq<Word>, v: nat, buf: seq<Word>, start: int, done: seq<Word>, inRun: bool, s: nat)
    requires v <= |p|
  {
    if !inRun then
      buf == done
    else
      && s < v && start == |done| + 1
      && |buf| == start + (v - s)
      && buf[..start - 1] == done
      && buf[start - 1].hi == Signed(4 * s)
      && buf[start..] == p[s..v]
  }

  lemma CloseRun(p: seq<Word>, t: seq<Word>, v: nat, done: seq<Word>, s: nat)
    requires |p| == |t| && v <= |p| && Settled(p, t, v, done, true, s)
    requires v < |p| ==> p[v] == t[v]
    ensures Settled(p, t, v, done + ([Header(4 * (v - s), 4 * s)] + p[s..v]), false, s)
  {
    EncodeRun(p, t, s, v);
    Regroup(done, [Header(4 * (v - s), 4 * s)] + p[s..v], Encode(p, t, v));
  }

  lemma Regroup(a: seq<Word>, b: seq<Word>, c: seq<Word>)
    ensures (a + b) + c == a + (b + c)
  {
  }

  lemma Room(p: seq<Word>, t: seq<Word>, v: nat, buf: seq<Word>, start: int, done: seq<Word>, inRun: bool, s: nat)
    requires |p| == |t| && v <= |p|
    requires Settled(p, t, v, done, inRun, s) && Buffered(p, v, buf, start, done, inRun, s)
    ensures |buf| < |p| + 2
  {
    EncodeSize(p, t, 0);
    EncodeSize(p, t, v);
    if inRun {
      var e := RunEnd(p, t, s);
      assert e >= v;
      EncodeRun(p, t, s, e);
      EncodeSize(p, t, e);
    }
  }

  lemma FillLength(buf: seq<Word>, start: nat, done: seq<Word>, run: seq<Word>, n: nat, o: nat)
    requires 0 < start <= |buf| && buf[..start - 1] == done && buf[start..] == run
    requires buf[start - 1].hi == Signed(o)
    ensures buf[start - 1 := Word(Signed(n), buf[start - 1].hi)] == done + ([Header(n, o)] + run)
  {
    var b := buf[start - 1 := Word(Signed(n), buf[start - 1].hi)];
    assert b == b[..start - 1] + ([b[start - 1]] + b[start..]);
  }

  lemma Extend(p: seq<Word>, v: nat, buf: seq<Word>, start: int, done: seq<Word>, s: nat)
    requires v < |p| && Buffered(p, v, buf, start, done, true, s)
    ensures Buffered(p, v + 1, buf + [p[v]], start, done, true, s)
  {
    var b := buf + [p[v]];
    assert b[..start - 1] == buf[..start - 1];
    assert b[start..] == buf[start..] + [p[v]];
  }

  lemma Open(p: seq<Word>, v: nat, buf: seq<Word>, stale: int)
    requires v < |p|
    ensures Buffered(p, v + 1, buf + [Word(stale, Signed(4 * v)), p[v]], |buf| + 1, buf, true, v)
  {
  }

  /** The encoder's state: the words written so far and, inside a run, where its words begin.  The
      length of an open run is left at zero until the run is closed. */
  datatype Scan = Scan(out: seq<Word>, start: nat, inRun: bool)

  function Close(e: Scan): Scan {
    if e.inRun && 0 < e.start <= |e.out| then
      Scan(e.out[e.start - 1 := Word(Signed(4 * (|e.out| - e.start)), e.out[e.start - 1].hi)], e.start, false)
    else
      e
  }

  function Step(e: Scan, v: nat, word: Word, twinWord: Word): Scan {
    if word == twinWord then
      Close(e)
    else if e.inRun then
      e.(out := e.out + [word])
    else
      Scan(e.out + [Word(0, Signed(4 * v)), word], |e.out| + 1, true)
  }

  function ScanTo(p: seq<Word>, t: seq<Word>, v: nat): Scan
    requires |p| == |t| && v <= |p|
  {
    if v == 0 then Scan([], 0, false) else Step(ScanTo(p, t, v - 1), v - 1, p[v - 1], t[v - 1])
  }

  lemma CloseStep(p: seq<Word>, t: seq<Word>, v: nat, e: Scan, done: seq<Word>, s: nat)
    requires |p| == |t| && v <= |p| && (v < |p| ==> p[v] == t[v])
    requires Settled(p, t, v, done, e.inRun, s) && Buffered(p, v, e.out, e.start, done, e.inRun, s)
    ensures Settled(p, t, v, Close(e).out, false, s) && !Close(e).inRun
  {
    if e.inRun {
      CloseRun(p, t, v, done, s);
      FillLength(e.out, e.start, done, p[s..v], 4 * (v - s), 4 * s);
    }
  }

  lemma {:induction false} ScanSettles(p: seq<Word>, t: seq<Word>, v: nat) returns (done: seq<Word>, s: nat)
    requires |p| == |t| && v <= |p|
    ensures var e := ScanTo(p, t, v);
            Settled(p, t, v, done, e.inRun, s) && Buffered(p, v, e.out, e.start, done, e.inRun, s)
  {
    if v == 0 {
      done, s := [], 0;
    } else {
      var u := v - 1;
      done, s := ScanSettles(p, t, u);
      var e := ScanTo(p, t, u);
      if p[u] == t[u] {
        CloseStep(p, t, u, e, done, s);
        done := Close(e).out;
        EncodeSkip(p, t, u);
      } else if e.inRun {
        Extend(p, u, e.out, e.start, done, s);
      } else {
        Open(p, u, e.out, 0);
        s := u;
      }
    }
  }

  /** The scan with its final terminator is the encoding, and at every point it fits. */
  lemma ScanIsEncode(p: seq<Word>, t: seq<Word>)
    requires |p| == |t|
    ensures Close(ScanTo(p, t, |p|)).out + [ZERO] == Encode(p, t, 0)
  {
    var done, s := ScanSettles(p, t, |p|);
    CloseStep(p, t, |p|, ScanTo(p, t, |p|), done, s);
  }

  lemma ScanFits(p: seq<Word>, t: seq<Word>, v: nat)
    requires |p| == |t| && v <= |p|
    ensures var e := ScanTo(p, t, v);
            |e.out| < |p| + 2 && (e.inRun ==> 0 < e.start <= |e.out|)
  {
    var e := ScanTo(p, t, v);
    var done, s := ScanSettles(p, t, v);
    Room(p, t, v, e.out, e.start, done, e.inRun, s);
  }

  ghost predicate Holds(heap: array<Word>, brk: nat, cur: nat, start: nat, inRun: bool, e: Scan)
    reads heap
  {
    && brk <= cur <= heap.Length
    && heap[brk..cur] == e.out && inRun == e.inRun
    && (inRun ==> start == brk + e.start && 0 < e.start <= |e.out|)
  }

  method CloseInPlace(heap: array<Word>, brk: nat, cur: nat, start: nat, inRun: bool, ghost e: Scan)
    requires Holds(heap, brk, cur, start, inRun, e)
    modifies heap
    ensures Holds(heap, brk, cur, start, false, Close(e))
    ensures heap[..brk] == old(heap[..brk]) && heap[cur..] == old(heap[cur..])
  {
    if inRun {
      heap[start - 1] := Word(Signed(4 * (cur - start)), heap[start - 1].hi);
    }
  }

  method StepInPlace(heap: array<Word>, brk: nat, cur0: nat, start0: nat, inRun0: bool, v: nat, word: Word, twinWord: Word, ghost e: Scan)
    returns (cur: nat, start: nat, inRun: bool)
    requires Holds(heap, brk, cur0, start0, inRun0, e) && cur0 + 2 <= heap.Length
    modifies heap
    ensures cur0 <= cur
    ensures Holds(heap, brk, cur, start, inRun, Step(e, v, word, twinWord))
    ensures heap[..brk] == old(heap[..brk]) && heap[cur..] == old(heap[cur..])
  {
    cur, start, inRun := cur0, start0, inRun0;
    if word == twinWord {
      CloseInPlace(heap, brk, cur, start, inRun, e);
      inRun := false;
    } else {
      if !inRun {
        heap[cur] := Word(0, Signed(4 * v));
        cur := cur + 1;
        start, inRun := cur, true;
      }
      heap[cur] := word;
      cur := cur + 1;
    }
  }

  /** Nothing below `brk` or from `cur` on has changed. */
  ghost predicate Beyond(now: seq<Word>, was: seq<Word>, brk: nat, cur: nat) {
    |now| == |was| && forall i :: 0 <= i < |was| && (i < brk || cur <= i) ==> now[i] == was[i]
  }

  lemma BeyondSlices(now: seq<Word>, was: seq<Word>, brk: nat, cur: nat)
    requires Beyond(now, was, brk, cur) && brk <= cur <= |was|
    ensures now[..brk] == was[..brk] && now[cur..] == was[cur..]
  {
  }

  lemma StillBeyond(now: seq<Word>, mid: seq<Word>, was: seq<Word>, brk: nat, cur: nat, later: nat)
    requires Beyond(mid, was, brk, cur) && brk <= cur <= later <= |was| == |now|
    requires now[..brk] == mid[..brk] && now[later..] == mid[later..]
    ensures Beyond(now, was, brk, later)
  {
    forall i | 0 <= i < |was| && (i < brk || later <= i) ensures now[i] == was[i] {
      assert i < brk ==> now[i] == now[..brk][i] && mid[i] == mid[..brk][i];
      assert i >= later ==> now[i] == now[later..][i - later] && mid[i] == mid[later..][i - later];
    }
  }

  /** One word compared. */
  method ScanWord(page: array<Word>, twin: array<Word>, heap: array<Word>, brk: nat, v: nat, cur0: nat, start0: nat, inRun0: bool, ghost was: seq<Word>)
    returns (cur: nat, start: nat, inRun: bool)
    requires page != heap && twin != heap && page.Length == twin.Length && v < page.Length && brk + page.Length + 4 <= heap.Length
    requires Holds(heap, brk, cur0, start0, inRun0, ScanTo(page[..], twin[..], v)) && Beyond(heap[..], was, brk, cur0)
    modifies heap
    ensures Holds(heap, brk, cur, start, inRun, ScanTo(page[..], twin[..], v + 1)) && Beyond(heap[..], was, brk, cur)
  {
    hide Step;
    hide Beyond;
    ghost var mid := heap[..];
    ScanFits(page[..], twin[..], v);
    BeyondLength(mid, was, brk, cur0);
    cur, start, inRun := StepInPlace(heap, brk, cur0, start0, inRun0, v, page[v], twin[v], ScanTo(page[..], twin[..], v));
    StillBeyond(heap[..], mid, was, brk, cur0, cur);
  }

  lemma BeyondLength(now: seq<Word>, was: seq<Word>, brk: nat, cur: nat)
    requires Beyond(now, was, brk, cur)
    ensures |now| == |was|
  {
  }

  /** Compare the page with its twin, four words at a time. */
  method ScanPage(page: array<Word>, twin: array<Word>, heap: array<Word>, brk: nat)
    returns (cur: nat, start: nat, inRun: bool)
    requires page != heap && twin != heap
    requires page.Length == twin.Length && page.Length % 4 == 0
    requires brk + page.Length + 4 <= heap.Length
    modifies heap
    ensures Holds(heap, brk, cur, start, inRun, ScanTo(page[..], twin[..], page.Length))
    ensures heap[..brk] == old(heap[..brk]) && heap[cur..] == old(heap[cur..])
  {
    hide Step;
    hide Beyond;
    ghost var p, t, was := page[..], twin[..], heap[..];
    var v := 0;
    cur, start, inRun := brk, 0, false;
    NothingBeyond(was, brk);
    while v != page.Length
      invariant 0 <= v <= page.Length && v % 4 == 0
      invariant Holds(heap, brk, cur, start, inRun, ScanTo(p, t, v)) && Beyond(heap[..], was, brk, cur)
    {
      for k := 0 to 4
        invariant Holds(heap, brk, cur, start, inRun, ScanTo(p, t, v + k)) && Beyond(heap[..], was, brk, cur)
      {
        cur, start, inRun := ScanWord(page, twin, heap, brk, v + k, cur, start, inRun, was);
      }
      v := v + 4;
    }
    BeyondSlices(heap[..], was, brk, cur);
    assert heap[..brk] == heap[..][..brk] && heap[cur..] == heap[..][cur..];
  }

  lemma NothingBeyond(was: seq<Word>, brk: nat)
    ensures Beyond(was, was, brk, brk)
  {
  }

  /** The diff of a page against its twin, written at `brk` of the heap; `limit` is where the heap's
      overflow area begins. */
  method Create(page: array<Word>, twin: array<Word>, heap: array<Word>, brk: nat, limit: nat) returns (end: nat)
    requires page != heap && twin != heap
    requires PagePair(page[..], twin[..]) && page.Length % 4 == 0
    requires brk < limit && limit + MTU_WORDS <= heap.Length
    modifies heap
    ensures brk < end <= brk + page.Length + 2 <= limit + MTU_WORDS
    ensures heap[brk..end] == Encode(page[..], twin[..], 0)
    ensures heap[..brk] == old(heap[..brk]) && heap[end..] == old(heap[end..])
  {
    ghost var p, t := page[..], twin[..];
    var cur, start, inRun := ScanPage(page, twin, heap, brk);
    ghost var e := ScanTo(p, t, |p|);
    ScanFits(p, t, |p|);
    ScanIsEncode(p, t);
    EncodeSize(p, t, 0);
    CloseInPlace(heap, brk, cur, start, inRun, e);
    ghost var tail := heap[cur..];
    heap[cur] := ZERO;
    end := cur + 1;
    assert heap[brk..end] == Close(e).out + [ZERO];
    assert heap[end..] == tail[1..];
  }

  ghost predicate Copied(page: array<Word>, was: seq<Word>, at: nat, d: array<Word>, from: nat, k: int)
    requires |was| == page.Length && 0 <= k && at + k <= page.Length && from + k <= d.Length
    reads page, d
  {
    && (forall i :: 0 <= i < page.Length && !(at <= i < at + k) ==> page[i] == was[i])
    && (forall i :: at <= i < at + k ==> page[i] == d[from + (i - at)])
  }

  lemma CopiedIsSplice(page: array<Word>, was: seq<Word>, at: nat, d: array<Word>, from: nat, k: nat)
    requires |was| == page.Length && at + k <= page.Length && from + k <= d.Length
    requires Copied(page, was, at, d, from, k)
    ensures page[..] == Splice(was, at, d[from..from + k])
  {
  }

  method CopyFours(page: array<Word>, ghost was: seq<Word>, at: nat, d: array<Word>, from: nat, k0: nat, len: nat)
    requires page != d && at + len <= page.Length && from + len <= d.Length && |was| == page.Length
    requires k0 <= len && (len - k0) % 4 == 0 && Copied(page, was, at, d, from, k0)
    modifies page
    ensures Copied(page, was, at, d, from, len)
  {
    var k := k0;
    ghost var m := (len - k) / 4;
    while k != len
      invariant 0 <= k <= len && len - k == 4 * m
      invariant Copied(page, was, at, d, from, k)
    {
      page[at + k] := d[from + k];
      page[at + k + 1] := d[from + k + 1];
      page[at + k + 2] := d[from + k + 2];
      page[at + k + 3] := d[from + k + 3];
      k, m := k + 4, m - 1;
    }
  }

  /** Copy a run: one word if the length is odd, two more if half of it is, then four at a time. */
  method CopyRun(page: array<Word>, at: nat, d: array<Word>, from: nat, len: nat)
    requires page != d && 0 < len && at + len <= page.Length && from + len <= d.Length
    modifies page
    ensures page[..] == Splice(old(page[..]), at, d[from..from + len])
  {
    ghost var was := page[..];
    var k := 0;
    if len % 2 == 1 {
      page[at] := d[from];
      k := 1;
    }
    if k < len && len / 2 % 2 == 1 {
      page[at + k] := d[from + k];
      page[at + k + 1] := d[from + k + 1];
      k := k + 2;
    }
    CopyFours(page, was, at, d, from, k, len);
    CopiedIsSplice(page, was, at, d, from, len);
  }

  /** Apply the diff at `start`, in place; the result is the position right after it. */
  method Apply(page: array<Word>, d: array<Word>, start: nat) returns (cur: nat)
    requires page != d && ApplyAt(page[..], d[..], start).Some?
    modifies page
    ensures Some((page[..], cur)) == ApplyAt(old(page[..]), d[..], start)
  {
    ghost var result := ApplyAt(page[..], d[..], start);
    cur := start;
    while true
      invariant ApplyAt(page[..], d[..], cur) == result
      decreases d.Length - cur
    {
      var n, o := d[cur].lo, d[cur].hi;
      cur := cur + 1;
      if n <= 0 {
        return;
      }
      CopyRun(page, o / 4, d, cur, n / 4);
      cur := cur + n / 4;
    }
  }
}
