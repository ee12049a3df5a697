/** A client stream that retries: operations that succeeded are kept in a buffer and replayed, in order, on
    every new attempt, until the stream commits to one attempt. */
module RetryStream {

  /** An operation on the stream: how much it adds to the buffer, and whether it has a cleanup. */
  datatype Op = Op(id: nat, size: nat, cleanup: bool)

  datatype Config = Config(maxAttempts: nat, maxBuffer: int, maxTokens: real, ratio: real)

  /** `attempt` is the current attempt, -1 before the first; `logs[a]` are the operations that attempt `a` has
      completed, and `cleaned` the cleanups that have run: both are history. */
  datatype Stream = Stream(
    attempt: int,
    logs: seq<seq<Op>>,
    committed: bool,
    finished: bool,
    buffer: seq<Op>,
    size: nat,
    retries: nat,
    first: bool,
    tokens: real,
    cleaned: multiset<Op>)

  // ---------------------------------------------------------------- the throttle

  function Throttle(tokens: real): real {
    if tokens - 1.0 < 0.0 then 0.0 else tokens - 1.0
  }

  function Success(c: Config, tokens: real): real {
    if tokens + c.ratio > c.maxTokens then c.maxTokens else tokens + c.ratio
  }

  // ---------------------------------------------------------------- sections under the lock

  function Cleanups(ops: seq<Op>): multiset<Op> {
    if ops == [] then multiset{} else (if ops[0].cleanup then multiset{ops[0]} else multiset{}) + Cleanups(ops[1..])
  }

  function Commit(s: Stream): Stream {
    s.(committed := true, cleaned := s.cleaned + Cleanups(s.buffer), buffer := [])
  }

  /** What happens to an operation that has succeeded: it is kept, unless the stream is committed, or the buffer
      would grow too large, which commits the stream. */
  function Buffer(c: Config, s: Stream, op: Op): Stream {
    if s.committed then
      s
    else if s.size + op.size > c.maxBuffer then
      var t := Commit(s.(size := s.size + op.size));
      t.(cleaned := t.cleaned + Cleanups([op]))
    else
      s.(size := s.size + op.size, buffer := s.buffer + [op])
  }

  /** How one round of the retry loop goes: it gives up, is allowed a new attempt but cannot make it, or makes one on
      which `upTo` of the buffered operations succeed. */
  datatype Round = Stop(counted: bool) | Abort(transparent: bool) | Go(transparent: bool, upTo: nat)

  datatype Outcome = Retried | GivenUp | Aborted

  /** Whether the retry rules allow the round. */
  predicate Allowed(c: Config, s: Stream, r: Round) {
    match r
    case Stop(counted) => counted ==> !s.committed && !s.finished
    case Abort(transparent) => MayRetry(c, s, transparent)
    case Go(transparent, upTo) => MayRetry(c, s, transparent) && upTo <= |s.buffer|
  }

  predicate MayRetry(c: Config, s: Stream, transparent: bool) {
    && !s.committed && !s.finished
    && (!transparent ==> Throttle(s.tokens) > c.maxTokens / 2.0 && s.retries + 1 < c.maxAttempts)
  }

  function Decided(s: Stream, r: Round): Stream {
    match r
    case Stop(counted) => if counted then s.(tokens := Throttle(s.tokens)) else s
    case Abort(transparent) => Counted(s, transparent)
    case Go(transparent, upTo) => Counted(s, transparent)
  }

  /** What a round that is allowed a new attempt costs. */
  function Counted(s: Stream, transparent: bool): Stream {
    (if transparent then s else s.(tokens := Throttle(s.tokens), retries := s.retries + 1)).(first := false)
  }

  /** Replays the buffer on a new attempt; its first operation makes the new attempt the current one. */
  function Replay(s: Stream, upTo: nat): Stream
    requires upTo <= |s.buffer|
  {
    s.(logs := s.logs + [s.buffer[..upTo]], attempt := if upTo > 0 then |s.logs| else s.attempt)
  }

  /** The rounds lead to an end: every round but the last is a replay that fails. */
  predicate Rounds(c: Config, s: Stream, rounds: seq<Round>)
    decreases |rounds|
  {
    && rounds != [] && Allowed(c, s, rounds[0])
    && match rounds[0]
       case Stop(_) => |rounds| == 1
       case Abort(_) => |rounds| == 1
       case Go(_, upTo) =>
         if upTo == |s.buffer| then |rounds| == 1
         else Rounds(c, Replay(Decided(s, rounds[0]), upTo), rounds[1..])
  }

  function Retry(c: Config, s: Stream, rounds: seq<Round>): (Stream, Outcome)
    requires Rounds(c, s, rounds)
    decreases |rounds|
  {
    var t := Decided(s, rounds[0]);
    match rounds[0]
    case Stop(_) => (Commit(t), GivenUp)
    case Abort(_) => (t, Aborted)
    case Go(_, upTo) =>
      if upTo == |s.buffer| then (Replay(t, upTo), Retried) else Retry(c, Replay(t, upTo), rounds[1..])
  }

  // ---------------------------------------------------------------- what retrying keeps

  ghost predicate Limits(c: Config, s: Stream) {
    && -1 <= s.attempt < |s.logs|
    && 0.0 <= s.tokens <= c.maxTokens && 0.0 <= c.ratio
    && (s.retries == 0 || s.retries < c.maxAttempts)
    && (s.committed ==> s.buffer == [])
    && (s.finished ==> s.committed)
    && (!s.committed ==> s.size == SizeOf(s.buffer) && (s.buffer != [] ==> s.size <= c.maxBuffer && s.attempt >= 0))
  }

  function SizeOf(ops: seq<Op>): nat {
    if ops == [] then 0 else SizeOf(ops[..|ops| - 1]) + ops[|ops| - 1].size
  }

  /** The current attempt has done what is in the buffer. */
  ghost predicate InStep(s: Stream) {
    s.attempt >= 0 && s.attempt < |s.logs| && s.logs[s.attempt] == s.buffer
  }

  /** What a round of the loop leaves alone. */
  ghost predicate SameBuffer(s: Stream, t: Stream) {
    && t.committed == s.committed && t.finished == s.finished && t.buffer == s.buffer && t.size == s.size
    && t.cleaned == s.cleaned && s.logs <= t.logs
  }

  lemma RoundKeeps(c: Config, s: Stream, r: Round)
    requires Limits(c, s) && Allowed(c, s, r)
    ensures Limits(c, Decided(s, r)) && SameBuffer(s, Decided(s, r)) && Decided(s, r).attempt == s.attempt
    ensures r.Go? ==>
              var t := Replay(Decided(s, r), r.upTo);
              && Limits(c, t) && SameBuffer(s, t)
              && (if r.upTo > 0 then t.attempt == |s.logs| && t.logs[t.attempt] == s.buffer[..r.upTo] else t.attempt == s.attempt)
  {
    hide SizeOf;
    hide Cleanups;
  }

  /** What a whole retry amounts to. */
  ghost predicate RetryResult(c: Config, s: Stream, t: Stream, how: Outcome) {
    && Limits(c, t) && s.logs <= t.logs && t.finished == s.finished
    && (how == GivenUp ==> t.committed && t.cleaned == s.cleaned + Cleanups(s.buffer))
    && (how != GivenUp ==> SameBuffer(s, t) && !t.committed)
    && (how == Retried && s.buffer != [] ==> InStep(t) && t.attempt >= |s.logs|)
    && (how == Retried && s.buffer == [] ==> t.attempt == s.attempt)
    && (s.committed ==> t.attempt == s.attempt && how == GivenUp)
    && (how != Retried && t.attempt != s.attempt ==> s.buffer != [] && |s.logs| <= t.attempt && |t.logs[t.attempt]| < |s.buffer|)
  }

  lemma {:induction false} RetryKeeps(c: Config, s: Stream, rounds: seq<Round>)
    requires Limits(c, s) && Rounds(c, s, rounds)
    ensures RetryResult(c, s, Retry(c, s, rounds).0, Retry(c, s, rounds).1)
    decreases |rounds|
  {
    hide Limits;
    hide Decided;
    hide Cleanups;
    hide Replay;
    var r := rounds[0];
    RoundKeeps(c, s, r);
    if r.Go? && r.upTo < |s.buffer| {
      var u := Replay(Decided(s, r), r.upTo);
      RetryKeeps(c, u, rounds[1..]);
      LimitsAttempt(c, u);
      var t := Retry(c, u, rounds[1..]).0;
      assert t.attempt == u.attempt && t.attempt != s.attempt ==> t.logs[t.attempt] == u.logs[t.attempt];
    } else if r.Go? {
      LimitsAttempt(c, Replay(Decided(s, r), r.upTo));
      assert s.buffer[..r.upTo] == s.buffer;
    } else if r.Stop? {
      CommitKeeps(c, Decided(s, r));
    }
  }

  lemma LimitsAttempt(c: Config, s: Stream)
    requires Limits(c, s)
    ensures -1 <= s.attempt < |s.logs|
  {
  }

  lemma CommitKeeps(c: Config, s: Stream)
    requires Limits(c, s)
    ensures Limits(c, Commit(s)) && Commit(s).committed && Commit(s).buffer == [] && Commit(s).attempt == s.attempt
    ensures Commit(s).logs == s.logs && Commit(s).cleaned == s.cleaned + Cleanups(s.buffer) && Commit(s).finished == s.finished
  {
  }

  /** After retrying was cut short by the connection or the context, the current attempt has done what is in the
      buffer exactly if no new attempt got past the first operation. */
  lemma {:induction false} AbortedInStep(c: Config, s: Stream, rounds: seq<Round>)
    requires Limits(c, s) && Rounds(c, s, rounds) && InStep(s)
    requires Retry(c, s, rounds).1 == Aborted
    ensures InStep(Retry(c, s, rounds).0) <==> forall k :: 0 <= k < |rounds| && rounds[k].Go? ==> rounds[k].upTo == 0
  {
    AbortedAttempt(c, s, rounds);
  }

  /** The attempt that is left: the last one that got past the first operation, if any did. */
  lemma {:induction false} AbortedAttempt(c: Config, s: Stream, rounds: seq<Round>)
    requires Limits(c, s) && Rounds(c, s, rounds) && Retry(c, s, rounds).1 == Aborted
    ensures var t := Retry(c, s, rounds).0;
            && t.buffer == s.buffer && s.logs <= t.logs
            && ((forall k :: 0 <= k < |rounds| && rounds[k].Go? ==> rounds[k].upTo == 0) ==> t.attempt == s.attempt)
            && (!(forall k :: 0 <= k < |rounds| && rounds[k].Go? ==> rounds[k].upTo == 0) ==>
                  |s.logs| <= t.attempt < |t.logs| && |t.logs[t.attempt]| < |s.buffer|)
    decreases |rounds|
  {
    if rounds[0].Go? {
      var u := Replay(Decided(s, rounds[0]), rounds[0].upTo);
      assert forall k :: 0 <= k < |rounds[1..]| ==> rounds[1..][k] == rounds[k + 1];
      AbortedAttempt(c, u, rounds[1..]);
      assert forall k :: 0 < k < |rounds| ==> rounds[k] == rounds[1..][k - 1];
    }
  }

  // ---------------------------------------------------------------- callers

  /** Where the sending call is in its loop: about to take the lock, running its operation on an attempt
      without the lock, or back with the outcome. */
  datatype Call = Idle | Start(op: Op) | Running(op: Op, a: int) | Ran(op: Op, a: int, ok: bool)

  datatype Recv = NotReceiving | Receive | Receiving(a: int) | Received(a: int, ok: bool)

  /** One sender and any number of receivers. History: `issued` are the cleanups the sender owes, `missed` those that
      a success brought back after the stream had been committed meanwhile, `returned` the sender's calls that have
      come back, in order, and `astray` says that the last retry to change the attempt did not succeed. */
  datatype State = State(s: Stream, sender: Call, receivers: seq<Recv>,
                         issued: multiset<Op>, missed: multiset<Op>, returned: seq<Result>, astray: bool)

  datatype Result = Result(op: Op, ok: bool)

  datatype Step =
    | Send(op: Op)
    | Top(created: bool, ok: bool)
    | Run(ok: bool)
    | End(rounds: seq<Round>)
    | RecvCall(r: nat)
    | RecvTop(r: nat)
    | RecvRun(r: nat, ok: bool)
    | RecvEnd(r: nat, rounds: seq<Round>)
    | Finish
    | Credit

  predicate Enabled(c: Config, st: State, step: Step) {
    match step
    case Send(op) => st.sender.Idle?
    case Top(created, ok) => st.sender.Start?
    case Run(ok) => st.sender.Running?
    case End(rounds) =>
      st.sender.Ran? && (st.sender.a == st.s.attempt && !st.sender.ok ==> Rounds(c, st.s, rounds))
    case RecvCall(r) => r < |st.receivers| && st.receivers[r].NotReceiving? && (st.s.committed || st.s.buffer != [])
    case RecvTop(r) => r < |st.receivers| && st.receivers[r].Receive?
    case RecvRun(r, ok) => r < |st.receivers| && st.receivers[r].Receiving?
    case RecvEnd(r, rounds) =>
      && r < |st.receivers| && st.receivers[r].Received?
      && (st.receivers[r].a == st.s.attempt && !st.receivers[r].ok ==> Rounds(c, st.s, rounds))
    case Finish => true
    case Credit => true
  }

  function Append(s: Stream, a: int, op: Op): Stream {
    if 0 <= a < |s.logs| then s.(logs := s.logs[a := s.logs[a] + [op]]) else s
  }

  function Close(s: Stream): Stream {
    if s.finished then s else Commit(s).(finished := true)
  }

  function Free(s: Stream, op: Op): Stream {
    s.(cleaned := s.cleaned + Cleanups([op]))
  }

  /** The sender's call comes back. */
  function Back(st: State, op: Op, ok: bool): State {
    st.(sender := Idle, returned := st.returned + [Result(op, ok)])
  }

  /** Whether the attempt a retry leaves was given up half-way through the buffer. */
  function LeftAstray(s: Stream, t: Stream, how: Outcome, before: bool): bool {
    if t.attempt == s.attempt then before else how != Retried
  }

  /** The top of the loop, with the lock: on a committed stream the operation goes to the attempt at once; the
      first operation of a stream gets a new attempt, which may not be had. */
  function AtTop(st: State, op: Op, created: bool, ok: bool): State {
    if st.s.committed then
      Back(st.(s := Free(if ok then Append(st.s, st.s.attempt, op) else st.s, op)), op, ok)
    else if st.s.buffer == [] then
      if created then
        st.(s := st.s.(logs := st.s.logs + [[]], attempt := |st.s.logs|), sender := Running(op, |st.s.logs|))
      else
        Back(st.(s := Close(Free(st.s, op))), op, false)
    else
      st.(sender := Running(op, st.s.attempt))
  }

  /** Back with the lock after the operation ran on attempt `a`. */
  function AtEnd(c: Config, st: State, op: Op, a: int, ok: bool, rounds: seq<Round>): State
    requires a == st.s.attempt && !ok ==> Rounds(c, st.s, rounds)
  {
    if a != st.s.attempt then
      st.(sender := Start(op))
    else if ok then
      Back(st.(s := Buffer(c, st.s, op), missed := if st.s.committed then st.missed + Cleanups([op]) else st.missed), op, true)
    else
      var (t, how) := Retry(c, st.s, rounds);
      var astray := LeftAstray(st.s, t, how, st.astray);
      if how == Retried then
        st.(s := t, sender := Start(op), astray := astray)
      else
        Back(st.(s := Free(t, op), astray := astray), op, false)
  }

  function AtRecvEnd(c: Config, st: State, r: nat, rounds: seq<Round>): State
    requires Enabled(c, st, RecvEnd(r, rounds))
  {
    var call := st.receivers[r];
    if call.a != st.s.attempt then
      st.(receivers := st.receivers[r := Receive])
    else if call.ok then
      st.(s := Commit(st.s), receivers := st.receivers[r := NotReceiving])
    else
      var (t, how) := Retry(c, st.s, rounds);
      st.(s := t, receivers := st.receivers[r := if how == Retried then Receive else NotReceiving],
          astray := LeftAstray(st.s, t, how, st.astray))
  }

  function Apply(c: Config, st: State, step: Step): State
    requires Enabled(c, st, step)
  {
    match step
    case Send(op) => st.(sender := Start(op), issued := st.issued + Cleanups([op]))
    case Top(created, ok) => AtTop(st, st.sender.op, created, ok)
    case Run(ok) =>
      st.(s := if ok then Append(st.s, st.sender.a, st.sender.op) else st.s,
          sender := Ran(st.sender.op, st.sender.a, ok))
    case End(rounds) => AtEnd(c, st, st.sender.op, st.sender.a, st.sender.ok, rounds)
    case RecvCall(r) => st.(receivers := st.receivers[r := Receive])
    case RecvTop(r) =>
      st.(receivers := st.receivers[r := if st.s.committed then NotReceiving else Receiving(st.s.attempt)])
    case RecvRun(r, ok) => st.(receivers := st.receivers[r := Received(st.receivers[r].a, ok)])
    case RecvEnd(r, rounds) => AtRecvEnd(c, st, r, rounds)
    case Finish => st.(s := Close(st.s))
    case Credit => st.(s := st.s.(tokens := Success(c, st.s.tokens)))
  }

  // ---------------------------------------------------------------- the invariant

  function Held(call: Call): seq<Op> {
    if call.Idle? then [] else [call.op]
  }

  /** The operation that the current attempt has completed but whose sender is not back yet. */
  function Pending(st: State): seq<Op> {
    if st.sender.Ran? && st.sender.ok && st.sender.a == st.s.attempt then [st.sender.op] else []
  }

  /** The operations whose call has come back with success. */
  function Oks(rs: seq<Result>): seq<Op> {
    if rs == [] then [] else Oks(rs[..|rs| - 1]) + (if rs[|rs| - 1].ok then [rs[|rs| - 1].op] else [])
  }

  lemma OksSnoc(rs: seq<Result>, r: Result)
    ensures Oks(rs + [r]) == if r.ok then Oks(rs) + [r.op] else Oks(rs)
  {
    assert (rs + [r])[..|rs|] == rs;
  }

  /** The current attempt has completed exactly the operations whose calls have come back with success, in order, and
      then the one in flight; unless it is astray, when it has completed fewer. Until the stream commits those
      operations are in the buffer. */
  ghost predicate Replayed(st: State) {
    && (!st.s.committed ==> st.s.buffer == Oks(st.returned))
    && (st.astray ==> st.s.attempt >= 0 && Oks(st.returned) != [])
    && (st.s.attempt >= 0 ==>
          && st.s.attempt < |st.s.logs|
          && (!st.astray ==> st.s.logs[st.s.attempt] == Oks(st.returned) + Pending(st))
          && (st.astray ==> |st.s.logs[st.s.attempt]| < |Oks(st.returned) + Pending(st)|))
  }

  /** Every cleanup has run, or waits in the buffer, or is with the sender, or was missed: each exactly once. */
  ghost predicate Accounted(st: State) {
    st.s.cleaned + Cleanups(st.s.buffer) + Cleanups(Held(st.sender)) + st.missed == st.issued
  }

  ghost predicate Inv(c: Config, st: State) {
    && Limits(c, st.s) && Replayed(st) && Accounted(st)
    && ((st.sender.Running? || st.sender.Ran?) ==> 0 <= st.sender.a < |st.s.logs|)
  }

  lemma {:induction false} CleanupsSnoc(ops: seq<Op>, op: Op)
    ensures Cleanups(ops + [op]) == Cleanups(ops) + Cleanups([op])
  {
    if ops == [] {
      assert ops + [op] == [op];
    } else {
      CleanupsSnoc(ops[1..], op);
      assert (ops + [op])[1..] == ops[1..] + [op];
    }
  }

  lemma SizeSnoc(ops: seq<Op>, op: Op)
    ensures SizeOf(ops + [op]) == SizeOf(ops) + op.size
  {
    assert (ops + [op])[..|ops|] == ops;
  }

  /** An operation is kept: the buffer and its size grow by it. */
  lemma KeepKeeps(c: Config, s: Stream, op: Op)
    requires Limits(c, s) && !s.committed && s.attempt >= 0 && s.size + op.size <= c.maxBuffer
    ensures var t := Buffer(c, s, op);
            && Limits(c, t) && t.buffer == s.buffer + [op] && t.cleaned == s.cleaned
            && t.attempt == s.attempt && t.logs == s.logs && !t.committed
  {
    hide Cleanups;
    SizeSnoc(s.buffer, op);
  }

  /** An operation does not fit: the stream commits. */
  lemma OverflowKeeps(c: Config, s: Stream, op: Op)
    requires Limits(c, s) && !s.committed && s.size + op.size > c.maxBuffer
    ensures var t := Buffer(c, s, op);
            && Limits(c, t) && t.buffer == [] && t.cleaned == s.cleaned + Cleanups(s.buffer) + Cleanups([op])
            && t.attempt == s.attempt && t.logs == s.logs && t.committed
  {
    hide Cleanups;
    hide SizeOf;
  }

  lemma BufferKeeps(c: Config, s: Stream, op: Op)
    requires Limits(c, s) && (s.attempt >= 0 || s.committed)
    ensures var t := Buffer(c, s, op);
            && Limits(c, t) && t.attempt == s.attempt && t.logs == s.logs
            && (!t.committed ==> !s.committed && t.buffer == s.buffer + [op])
            && (s.committed ==> t == s)
            && (!s.committed ==> t.cleaned + Cleanups(t.buffer) == s.cleaned + Cleanups(s.buffer) + Cleanups([op]))
  {
    hide Cleanups;
    hide Limits;
    if !s.committed {
      hide Buffer;
      NoCleanups();
      if s.size + op.size > c.maxBuffer {
        OverflowKeeps(c, s, op);
      } else {
        KeepKeeps(c, s, op);
        CleanupsSnoc(s.buffer, op);
      }
    }
  }

  lemma NoCleanups()
    ensures Cleanups([]) == multiset{}
  {
  }

  lemma TopKeeps(c: Config, st: State, created: bool, ok: bool)
    requires Inv(c, st) && st.sender.Start?
    ensures Inv(c, AtTop(st, st.sender.op, created, ok))
  {
    hide Inv;
    if st.s.committed {
      TopCommitted(c, st, created, ok);
    } else if st.s.buffer == [] && !created {
      TopFails(c, st, ok);
    } else {
      TopStarts(c, st, created, ok);
    }
  }

  lemma TopCommitted(c: Config, st: State, created: bool, ok: bool)
    requires Inv(c, st) && st.sender.Start? && st.s.committed
    ensures Inv(c, AtTop(st, st.sender.op, created, ok))
  {
    hide Cleanups;
    hide SizeOf;
    hide Oks;
    NoCleanups();
    OksSnoc(st.returned, Result(st.sender.op, ok));
    var done := Oks(st.returned);
    assert done + [] == done && done + [st.sender.op] + [] == done + [st.sender.op];
  }

  lemma TopFails(c: Config, st: State, ok: bool)
    requires Inv(c, st) && st.sender.Start? && !st.s.committed && st.s.buffer == []
    ensures Inv(c, AtTop(st, st.sender.op, false, ok))
  {
    hide Cleanups;
    hide SizeOf;
    hide Oks;
    NoCleanups();
    OksSnoc(st.returned, Result(st.sender.op, false));
  }

  lemma TopStarts(c: Config, st: State, created: bool, ok: bool)
    requires Inv(c, st) && st.sender.Start? && !st.s.committed && (st.s.buffer == [] ==> created)
    ensures Inv(c, AtTop(st, st.sender.op, created, ok))
  {
    hide Cleanups;
    hide SizeOf;
    hide Oks;
    NoCleanups();
  }

  lemma RunKeeps(c: Config, st: State, ok: bool)
    requires Inv(c, st) && st.sender.Running?
    ensures Inv(c, Apply(c, st, Run(ok)))
  {
    hide Cleanups;
    hide SizeOf;
    var t := Apply(c, st, Run(ok));
    assert st.s.buffer + [] == st.s.buffer;
  }

  lemma {:induction false} EndKeeps(c: Config, st: State, rounds: seq<Round>)
    requires Inv(c, st) && Enabled(c, st, End(rounds))
    ensures Inv(c, Apply(c, st, End(rounds)))
  {
    hide Cleanups;
    hide SizeOf;
    hide Limits;
    hide Retry;
    hide Rounds;
    hide Buffer;
    NoCleanups();
    LimitsAttempt(c, st.s);
    var op := st.sender.op;
    if st.sender.a != st.s.attempt {
    } else if st.sender.ok {
      BufferKeeps(c, st.s, op);
    } else {
      EndRetry(c, st, rounds);
    }
  }

  lemma EndRetry(c: Config, st: State, rounds: seq<Round>)
    requires Inv(c, st) && Enabled(c, st, End(rounds)) && st.sender.a == st.s.attempt && !st.sender.ok
    ensures Inv(c, Apply(c, st, End(rounds)))
  {
    hide Cleanups;
    hide SizeOf;
    hide Limits;
    hide Retry;
    hide Rounds;
    hide Oks;
    NoCleanups();
    RetryKeeps(c, st.s, rounds);
    var (t, how) := Retry(c, st.s, rounds);
    GivenUpBuffer(c, t);
    FreeKeeps(c, t, st.sender.op);
    LimitsAttempt(c, t);
    RetriedReplayed(c, st, rounds);
    OksSnoc(st.returned, Result(st.sender.op, false));
  }

  lemma GivenUpBuffer(c: Config, s: Stream)
    requires Limits(c, s)
    ensures s.committed ==> s.buffer == []
  {
  }

  lemma FreeKeeps(c: Config, s: Stream, op: Op)
    requires Limits(c, s)
    ensures Limits(c, Free(s, op))
  {
  }

  lemma {:induction false} RecvEndKeeps(c: Config, st: State, r: nat, rounds: seq<Round>)
    requires Inv(c, st) && Enabled(c, st, RecvEnd(r, rounds))
    ensures Inv(c, Apply(c, st, RecvEnd(r, rounds)))
  {
    hide Cleanups;
    hide SizeOf;
    hide Limits;
    hide Retry;
    hide Rounds;
    NoCleanups();
    LimitsAttempt(c, st.s);
    var call := st.receivers[r];
    if call.a == st.s.attempt && call.ok {
      CommitKeeps(c, st.s);
    } else if call.a == st.s.attempt {
      RetryKeeps(c, st.s, rounds);
      var (t, how) := Retry(c, st.s, rounds);
      GivenUpBuffer(c, t);
      LimitsAttempt(c, t);
      RetriedReplayed(c, st, rounds);
    }
  }

  /** A retry that a receiver makes, perhaps while the sender's operation is on its way back. */
  lemma RetriedReplayed(c: Config, st: State, rounds: seq<Round>)
    requires Inv(c, st) && Rounds(c, st.s, rounds) && RetryResult(c, st.s, Retry(c, st.s, rounds).0, Retry(c, st.s, rounds).1)
    ensures var t, how := Retry(c, st.s, rounds).0, Retry(c, st.s, rounds).1;
            Replayed(st.(s := t, astray := LeftAstray(st.s, t, how, st.astray)))
  {
    hide Cleanups;
    hide SizeOf;
    hide Retry;
    hide Rounds;
    var t := Retry(c, st.s, rounds).0;
    assert t.buffer + [] == t.buffer;
    if t.attempt == st.s.attempt && t.attempt >= 0 {
      assert t.logs[t.attempt] == st.s.logs[t.attempt];
    }
  }

  lemma {:induction false} StepKeeps(c: Config, st: State, step: Step)
    requires Inv(c, st) && Enabled(c, st, step)
    ensures Inv(c, Apply(c, st, step))
  {
    hide Cleanups;
    hide SizeOf;
    hide Retry;
    hide Rounds;
    NoCleanups();
    match step
    case Top(created, ok) => TopKeeps(c, st, created, ok);
    case Run(ok) => RunKeeps(c, st, ok);
    case End(rounds) => EndKeeps(c, st, rounds);
    case RecvEnd(r, rounds) => RecvEndKeeps(c, st, r, rounds);
    case Send(op) =>
    case RecvCall(r) =>
    case RecvTop(r) =>
    case RecvRun(r, ok) =>
    case Finish => CommitKeeps(c, st.s);
    case Credit =>
  }

  // ---------------------------------------------------------------- runs

  function Init(c: Config, receivers: nat): State {
    State(Stream(-1, [], false, false, [], 0, 0, true, c.maxTokens, multiset{}),
          Idle, seq(receivers, r => NotReceiving), multiset{}, multiset{}, [], false)
  }

  predicate IsRun(c: Config, st: State, steps: seq<Step>)
    decreases |steps|
  {
    steps == [] || (Enabled(c, st, steps[0]) && IsRun(c, Apply(c, st, steps[0]), steps[1..]))
  }

  function After(c: Config, st: State, steps: seq<Step>): State
    requires IsRun(c, st, steps)
    decreases |steps|
  {
    if steps == [] then st else After(c, Apply(c, st, steps[0]), steps[1..])
  }

  lemma {:induction false} RunKeepsInv(c: Config, st: State, steps: seq<Step>)
    requires Inv(c, st) && IsRun(c, st, steps)
    ensures Inv(c, After(c, st, steps))
    decreases |steps|
  {
    hide Inv;
    hide Enabled;
    hide Apply;
    if steps != [] {
      StepKeeps(c, st, steps[0]);
      RunKeepsInv(c, Apply(c, st, steps[0]), steps[1..]);
    }
  }

  /** In every state of every run: the current attempt has completed exactly the operations whose calls have come back
      with success, each once and in order, and at most one more whose sender is not back yet, if and only if the
      last retry that changed the attempt succeeded. Until the stream commits, those operations are the replay buffer;
      retries stay below the configured number of attempts and tokens between none and the maximum. */
  lemma {:induction false} ReplayIsExact(c: Config, receivers: nat, steps: seq<Step>)
    requires 0.0 <= c.maxTokens && 0.0 <= c.ratio && IsRun(c, Init(c, receivers), steps)
    ensures var st := After(c, Init(c, receivers), steps);
            && st.s.attempt < |st.s.logs|
            && (st.s.attempt >= 0 ==> (st.s.logs[st.s.attempt] == Oks(st.returned) + Pending(st) <==> !st.astray))
            && st.s.buffer == (if st.s.committed then [] else Oks(st.returned))
            && (st.s.retries == 0 || st.s.retries <= c.maxAttempts - 1)
            && 0.0 <= st.s.tokens <= c.maxTokens
  {
    hide Enabled;
    hide Apply;
    RunKeepsInv(c, Init(c, receivers), steps);
  }

  lemma {:induction false} StepCommitted(c: Config, st: State, step: Step)
    requires Inv(c, st) && Enabled(c, st, step) && st.s.committed
    ensures var t := Apply(c, st, step); t.s.committed && t.s.attempt == st.s.attempt && t.s.buffer == []
  {
    hide Cleanups;
    hide SizeOf;
    if step.End? && st.sender.a == st.s.attempt && !st.sender.ok {
      RetryKeeps(c, st.s, step.rounds);
    }
    if step.RecvEnd? && st.receivers[step.r].a == st.s.attempt && !st.receivers[step.r].ok {
      RetryKeeps(c, st.s, step.rounds);
    }
  }

  /** Once committed, a stream keeps its attempt and its buffer stays empty, whatever follows. */
  lemma {:induction false} CommitIsFinal(c: Config, st: State, steps: seq<Step>)
    requires Inv(c, st) && IsRun(c, st, steps) && st.s.committed
    ensures var t := After(c, st, steps); t.s.committed && t.s.attempt == st.s.attempt && t.s.buffer == []
    decreases |steps|
  {
    hide Enabled;
    hide Apply;
    if steps != [] {
      StepKeeps(c, st, steps[0]);
      StepCommitted(c, st, steps[0]);
      CommitIsFinal(c, Apply(c, st, steps[0]), steps[1..]);
    }
  }

  /** When the stream is committed and no send is under way, every cleanup has run exactly once, except the missed
      ones, which never run. */
  lemma {:induction false} CleanupsOnce(c: Config, receivers: nat, steps: seq<Step>)
    requires 0.0 <= c.maxTokens && 0.0 <= c.ratio && IsRun(c, Init(c, receivers), steps)
    ensures var st := After(c, Init(c, receivers), steps);
            st.s.committed && st.sender.Idle? ==> st.s.cleaned + st.missed == st.issued
  {
    hide Enabled;
    hide Apply;
    RunKeepsInv(c, Init(c, receivers), steps);
  }

  /** An operation with a cleanup succeeds on the current attempt, and the stream has been committed since it was
      started. */
  predicate LateSuccess(st: State, step: Step) {
    step.End? && st.sender.Ran? && st.sender.ok && st.sender.a == st.s.attempt && st.s.committed && st.sender.op.cleanup
  }

  predicate NoLateSuccess(c: Config, st: State, steps: seq<Step>)
    requires IsRun(c, st, steps)
    decreases |steps|
  {
    steps == [] || (!LateSuccess(st, steps[0]) && NoLateSuccess(c, Apply(c, st, steps[0]), steps[1..]))
  }

  lemma {:induction false} StepMisses(c: Config, st: State, step: Step)
    requires Enabled(c, st, step)
    ensures st.missed <= Apply(c, st, step).missed
    ensures Apply(c, st, step).missed == st.missed <==> !LateSuccess(st, step)
  {
    hide Retry;
    hide Rounds;
    hide Cleanups;
    if step.End? {
      OneCleanup(st.sender.op);
    }
  }

  lemma {:induction false} RunMisses(c: Config, st: State, steps: seq<Step>)
    requires IsRun(c, st, steps)
    ensures st.missed <= After(c, st, steps).missed
    ensures After(c, st, steps).missed == st.missed <==> NoLateSuccess(c, st, steps)
    decreases |steps|
  {
    hide Enabled;
    hide Apply;
    hide LateSuccess;
    if steps != [] {
      StepMisses(c, st, steps[0]);
      RunMisses(c, Apply(c, st, steps[0]), steps[1..]);
    }
  }

  /** When the stream is committed and no send is under way, every cleanup has run, each exactly once, if and only if
      no operation with one has ever succeeded on the current attempt after the stream was committed. */
  lemma {:induction false} AllCleanedIff(c: Config, receivers: nat, steps: seq<Step>)
    requires 0.0 <= c.maxTokens && 0.0 <= c.ratio && IsRun(c, Init(c, receivers), steps)
    ensures var st := After(c, Init(c, receivers), steps);
            st.s.committed && st.sender.Idle? ==> (st.s.cleaned == st.issued <==> NoLateSuccess(c, Init(c, receivers), steps))
  {
    hide Enabled;
    hide Apply;
    CleanupsOnce(c, receivers, steps);
    RunMisses(c, Init(c, receivers), steps);
    var st := After(c, Init(c, receivers), steps);
    assert st.s.cleaned + st.missed == st.issued ==> (st.missed == multiset{} <==> st.s.cleaned == st.issued) by {
      assert st.s.cleaned + multiset{} == st.s.cleaned;
      assert |st.s.cleaned + st.missed| == |st.s.cleaned| + |st.missed|;
    }
  }

  // ---------------------------------------------------------------- operations without a cleanup

  /** Opening the stream and closing its sending side have no cleanup and add nothing to the buffer. */
  predicate WellMade(op: Op) {
    op.cleanup || op.size == 0
  }

  predicate AllWellMade(steps: seq<Step>) {
    forall k :: 0 <= k < |steps| && steps[k].Send? ==> WellMade(steps[k].op)
  }

  /** The step overflows the buffer with an operation that has no cleanup to call. */
  predicate CallsNil(c: Config, st: State, step: Step) {
    && step.End? && st.sender.Ran? && st.sender.ok && st.sender.a == st.s.attempt && !st.s.committed
    && st.s.size + st.sender.op.size > c.maxBuffer && !st.sender.op.cleanup
  }

  lemma StillWellMade(c: Config, st: State, step: Step)
    requires Enabled(c, st, step) && (step.Send? ==> WellMade(step.op)) && (!st.sender.Idle? ==> WellMade(st.sender.op))
    ensures var t := Apply(c, st, step); !t.sender.Idle? ==> WellMade(t.sender.op)
  {
    hide Retry;
    hide Rounds;
    hide Cleanups;
  }

  lemma {:induction false} HeldWellMade(c: Config, st: State, steps: seq<Step>)
    requires IsRun(c, st, steps) && AllWellMade(steps) && (!st.sender.Idle? ==> WellMade(st.sender.op))
    ensures var t := After(c, st, steps); !t.sender.Idle? ==> WellMade(t.sender.op)
    decreases |steps|
  {
    hide Enabled;
    hide Apply;
    if steps != [] {
      StillWellMade(c, st, steps[0]);
      assert forall k :: 0 <= k < |steps[1..]| ==> steps[1..][k] == steps[k + 1];
      HeldWellMade(c, Apply(c, st, steps[0]), steps[1..]);
    }
  }

  /** No run calls a cleanup that is not there, unless the limit of the buffer is negative. */
  lemma {:induction false} NilNotCalled(c: Config, receivers: nat, steps: seq<Step>, step: Step)
    requires 0.0 <= c.maxTokens && 0.0 <= c.ratio && IsRun(c, Init(c, receivers), steps) && AllWellMade(steps)
    requires 0 <= c.maxBuffer
    ensures !CallsNil(c, After(c, Init(c, receivers), steps), step)
  {
    hide Enabled;
    hide Apply;
    RunKeepsInv(c, Init(c, receivers), steps);
    HeldWellMade(c, Init(c, receivers), steps);
  }

  /** With a negative limit opening the stream already does. */
  lemma {:induction false} NilCalled(c: Config)
    requires c.maxBuffer < 0
    ensures var steps := [Send(OPENING), Top(true, true), Run(true)];
            IsRun(c, Init(c, 0), steps) && AllWellMade(steps) && CallsNil(c, After(c, Init(c, 0), steps), End([]))
  {
    var a := Init(c, 0);
    var b := Apply(c, a, Send(OPENING));
    var d := Apply(c, b, Top(true, true));
    var e := Apply(c, d, Run(true));
    Link(c, d, Run(true), e, []);
    Link(c, b, Top(true, true), d, [Run(true)]);
    Link(c, a, Send(OPENING), b, [Top(true, true), Run(true)]);
    assert [Run(true)] + [] == [Run(true)];
    assert [Top(true, true)] + [Run(true)] == [Top(true, true), Run(true)];
    assert [Send(OPENING)] + [Top(true, true), Run(true)] == [Send(OPENING), Top(true, true), Run(true)];
  }

  // ---------------------------------------------------------------- runs that go wrong

  lemma OneCleanup(op: Op)
    ensures Cleanups([op]) == if op.cleanup then multiset{op} else multiset{}
  {
  }

  ghost predicate MissedOne(st: State) {
    st.s.committed && st.sender.Idle? && st.missed != multiset{} && st.s.cleaned != st.issued
  }

  lemma Link(c: Config, st: State, step: Step, t: State, rest: seq<Step>)
    requires Enabled(c, st, step) && Apply(c, st, step) == t && IsRun(c, t, rest)
    ensures IsRun(c, st, [step] + rest) && After(c, st, [step] + rest) == After(c, t, rest)
  {
    assert ([step] + rest)[1..] == rest;
  }

  const OPENING := Op(0, 0, false)
  const MESSAGE := Op(1, 1, true)

  /** The stream once it has been opened. */
  function Opened(c: Config): State {
    Init(c, 1).(s := Init(c, 1).s.(attempt := 0, logs := [[OPENING]], buffer := [OPENING]), returned := [Result(OPENING, true)])
  }

  lemma Opening(c: Config, rest: seq<Step>)
    requires 0 <= c.maxBuffer && IsRun(c, Opened(c), rest)
    ensures var steps := [Send(OPENING)] + ([Top(true, true)] + ([Run(true)] + ([End([])] + rest)));
            IsRun(c, Init(c, 1), steps) && After(c, Init(c, 1), steps) == After(c, Opened(c), rest)
  {
    var a := Init(c, 1);
    OneCleanup(OPENING);
    var b := Apply(c, a, Send(OPENING));
    var d := Apply(c, b, Top(true, true));
    var e := Apply(c, d, Run(true));
    assert [] + [OPENING] == [OPENING];
    assert e.s.logs == [[OPENING]];
    assert Apply(c, e, End([])) == Opened(c);
    Link(c, e, End([]), Opened(c), rest);
    Link(c, d, Run(true), e, [End([])] + rest);
    Link(c, b, Top(true, true), d, [Run(true)] + ([End([])] + rest));
    Link(c, a, Send(OPENING), b, [Top(true, true)] + ([Run(true)] + ([End([])] + rest)));
  }

  /** The message's sender comes back to a committed stream. */
  lemma LateBack(c: Config, h: State) returns (steps: seq<Step>)
    requires h.s.committed && h.s.attempt == 0 && |h.s.logs| == 1 && h.sender == Call.Running(MESSAGE, 0)
    requires h.issued == multiset{MESSAGE} && h.missed == multiset{} && h.s.cleaned == multiset{}
    ensures IsRun(c, h, steps) && MissedOne(After(c, h, steps))
  {
    OneCleanup(MESSAGE);
    var i := Apply(c, h, Run(true));
    var j := Apply(c, i, End([]));
    assert j.missed == multiset{MESSAGE};
    Link(c, i, End([]), j, []);
    steps := [End([])] + [];
    Link(c, h, Run(true), i, steps);
    steps := [Run(true)] + steps;
  }

  /** A message goes out; before its sender is back, a receiver commits the stream. */
  lemma LateSend(c: Config) returns (steps: seq<Step>)
    requires 0 <= c.maxBuffer
    ensures IsRun(c, Opened(c), steps) && MissedOne(After(c, Opened(c), steps))
  {
    OneCleanup(OPENING);
    OneCleanup(MESSAGE);
    var a := Opened(c);
    var b := Apply(c, a, Send(MESSAGE));
    var d := Apply(c, b, Top(true, true));
    var e := Apply(c, d, RecvCall(0));
    var f := Apply(c, e, RecvTop(0));
    var g := Apply(c, f, RecvRun(0, true));
    var h := Apply(c, g, RecvEnd(0, []));
    steps := LateBack(c, h);
    Link(c, g, RecvEnd(0, []), h, steps);
    steps := [RecvEnd(0, [])] + steps;
    Link(c, f, RecvRun(0, true), g, steps);
    steps := [RecvRun(0, true)] + steps;
    Link(c, e, RecvTop(0), f, steps);
    steps := [RecvTop(0)] + steps;
    Link(c, d, RecvCall(0), e, steps);
    steps := [RecvCall(0)] + steps;
    Link(c, b, Top(true, true), d, steps);
    steps := [Top(true, true)] + steps;
    Link(c, a, Send(MESSAGE), b, steps);
    steps := [Send(MESSAGE)] + steps;
  }

  /** A run in which a message's cleanup never happens. */
  lemma {:induction false} CleanupCanBeMissed(c: Config)
    requires 0 <= c.maxBuffer
    ensures exists steps: seq<Step> :: IsRun(c, Init(c, 1), steps) && MissedOne(After(c, Init(c, 1), steps))
  {
    hide Enabled;
    hide Apply;
    var rest := LateSend(c);
    Opening(c, rest);
    var steps := [Send(OPENING)] + ([Top(true, true)] + ([Run(true)] + ([End([])] + rest)));
    assert IsRun(c, Init(c, 1), steps) && MissedOne(After(c, Init(c, 1), steps));
  }

  /** A message is sent and kept. */
  function Sent(c: Config): State {
    Opened(c).(s := Opened(c).s.(logs := [[OPENING, MESSAGE]], buffer := [OPENING, MESSAGE], size := 1),
               issued := multiset{MESSAGE}, returned := [Result(OPENING, true), Result(MESSAGE, true)])
  }

  lemma Sending(c: Config, rest: seq<Step>)
    requires 1 <= c.maxBuffer && IsRun(c, Sent(c), rest)
    ensures var steps := [Send(MESSAGE)] + ([Top(true, true)] + ([Run(true)] + ([End([])] + rest)));
            IsRun(c, Opened(c), steps) && After(c, Opened(c), steps) == After(c, Sent(c), rest)
  {
    OneCleanup(MESSAGE);
    var a := Opened(c);
    var b := Apply(c, a, Send(MESSAGE));
    var d := Apply(c, b, Top(true, true));
    var e := Apply(c, d, Run(true));
    assert [OPENING] + [MESSAGE] == [OPENING, MESSAGE];
    assert e.s.logs == [[OPENING, MESSAGE]];
    assert Apply(c, e, End([])) == Sent(c);
    Link(c, e, End([]), Sent(c), rest);
    Link(c, d, Run(true), e, [End([])] + rest);
    Link(c, b, Top(true, true), d, [Run(true)] + ([End([])] + rest));
    Link(c, a, Send(MESSAGE), b, [Top(true, true)] + ([Run(true)] + ([End([])] + rest)));
  }

  /** The current attempt lacks an operation that is in the buffer, and the stream goes on. */
  ghost predicate Behind(st: State) {
    && !st.s.committed && st.sender.Idle? && st.s.attempt == 1 && st.s.logs == [[OPENING, MESSAGE], [OPENING]]
    && st.s.buffer == [OPENING, MESSAGE] && st.astray
  }

  const HALFWAY: seq<Round> := [Go(true, 1), Abort(true)]

  lemma CutShort(c: Config, s: Stream)
    requires s == Sent(c).s
    ensures Rounds(c, s, HALFWAY)
    ensures Retry(c, s, HALFWAY) == (s.(logs := [[OPENING, MESSAGE], [OPENING]], attempt := 1, first := false), Aborted)
  {
    var t := Replay(Decided(s, Go(true, 1)), 1);
    assert s.buffer[..1] == [OPENING];
    assert t == s.(logs := [[OPENING, MESSAGE], [OPENING]], attempt := 1, first := false);
    assert HALFWAY[1..] == [Abort(true)];
    assert Rounds(c, t, [Abort(true)]);
  }

  lemma FailedReceive(c: Config) returns (steps: seq<Step>)
    ensures IsRun(c, Sent(c), steps) && Behind(After(c, Sent(c), steps))
  {
    hide Retry;
    hide Rounds;
    var a := Sent(c);
    var b := Apply(c, a, RecvCall(0));
    var d := Apply(c, b, RecvTop(0));
    var e := Apply(c, d, RecvRun(0, false));
    CutShort(c, e.s);
    var f := Apply(c, e, RecvEnd(0, HALFWAY));
    steps := [];
    Link(c, e, RecvEnd(0, HALFWAY), f, steps);
    steps := [RecvEnd(0, HALFWAY)] + steps;
    Link(c, d, RecvRun(0, false), e, steps);
    steps := [RecvRun(0, false)] + steps;
    Link(c, b, RecvTop(0), d, steps);
    steps := [RecvTop(0)] + steps;
    Link(c, a, RecvCall(0), b, steps);
    steps := [RecvCall(0)] + steps;
  }

  /** A run in which a retry is cut short half-way through the buffer, and leaves the stream uncommitted on an attempt
      that has not done what the buffer holds. */
  lemma {:induction false} AttemptCanFallBehind(c: Config)
    requires 1 <= c.maxBuffer
    ensures exists steps: seq<Step> :: IsRun(c, Init(c, 1), steps) && Behind(After(c, Init(c, 1), steps))
  {
    hide Enabled;
    hide Apply;
    var last := FailedReceive(c);
    Sending(c, last);
    var rest := [Send(MESSAGE)] + ([Top(true, true)] + ([Run(true)] + ([End([])] + last)));
    Opening(c, rest);
    var steps := [Send(OPENING)] + ([Top(true, true)] + ([Run(true)] + ([End([])] + rest)));
    assert IsRun(c, Init(c, 1), steps) && Behind(After(c, Init(c, 1), steps));
  }
}
