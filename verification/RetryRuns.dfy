/** What whole runs of a retrying stream do, counted from their steps: which operations reach which attempt, when
    calls come back and the stream commits, and what retries cost. */
module RetryRuns {
  import opened RetryStream

  /** The run leads from `st` to `t`. */
  predicate Goes(c: Config, st: State, steps: seq<Step>, t: State) {
    IsRun(c, st, steps) && After(c, st, steps) == t
  }

  /** The rounds of the retry loop that a step goes through: none unless its operation failed on the current attempt. */
  function RoundsOf(st: State, step: Step): seq<Round> {
    match step
    case End(rounds) => if st.sender.Ran? && st.sender.a == st.s.attempt && !st.sender.ok then rounds else []
    case RecvEnd(r, rounds) =>
      if r < |st.receivers| && st.receivers[r].Received? && st.receivers[r].a == st.s.attempt && !st.receivers[r].ok then rounds
      else []
    case _ => []
  }

  /** A stream but for its cleanups. */
  function Bare(s: Stream): Stream {
    s.(cleaned := multiset{})
  }

  /** What a step does to the stream: a failure on the current attempt goes through the retry loop, and no other step
      touches what the retry loop counts. */
  lemma {:induction false} StepShape(c: Config, st: State, step: Step)
    requires Enabled(c, st, step)
    ensures var t, rounds := Apply(c, st, step), RoundsOf(st, step);
            && (rounds != [] ==> Rounds(c, st.s, rounds) && Bare(t.s) == Bare(Retry(c, st.s, rounds).0))
            && (rounds == [] ==> t.s.retries == st.s.retries && t.s.first == st.s.first && (step.Credit? || t.s.tokens == st.s.tokens))
  {
    match step
    case End(rs) => EndShape(c, st, rs);
    case RecvEnd(r, rs) => RecvEndShape(c, st, r, rs);
    case _ => PlainShape(c, st, step);
  }

  lemma EndShape(c: Config, st: State, rs: seq<Round>)
    requires Enabled(c, st, End(rs))
    ensures var t, rounds := Apply(c, st, End(rs)), RoundsOf(st, End(rs));
            && (rounds != [] ==> Rounds(c, st.s, rounds) && Bare(t.s) == Bare(Retry(c, st.s, rounds).0))
            && (rounds == [] ==> t.s.retries == st.s.retries && t.s.first == st.s.first && t.s.tokens == st.s.tokens && t.s.logs == st.s.logs)
  {
    hide Retry;
    hide Cleanups;
    if st.sender.a == st.s.attempt && !st.sender.ok {
      assert rs != [];
    }
  }

  lemma RecvEndShape(c: Config, st: State, r: nat, rs: seq<Round>)
    requires Enabled(c, st, RecvEnd(r, rs))
    ensures var t, rounds := Apply(c, st, RecvEnd(r, rs)), RoundsOf(st, RecvEnd(r, rs));
            && (rounds != [] ==> Rounds(c, st.s, rounds) && Bare(t.s) == Bare(Retry(c, st.s, rounds).0))
            && (rounds == [] ==> t.s.retries == st.s.retries && t.s.first == st.s.first && t.s.tokens == st.s.tokens && t.s.logs == st.s.logs)
  {
    hide Retry;
    hide Cleanups;
    if st.receivers[r].a == st.s.attempt && !st.receivers[r].ok {
      assert rs != [];
    }
  }

  lemma PlainShape(c: Config, st: State, step: Step)
    requires Enabled(c, st, step) && !step.End? && !step.RecvEnd?
    ensures var t := Apply(c, st, step);
            && RoundsOf(st, step) == []
            && t.s.retries == st.s.retries && t.s.first == st.s.first && (step.Credit? || t.s.tokens == st.s.tokens)
  {
    hide Cleanups;
  }

  // ---------------------------------------------------------------- how a retry ends

  function EndOf(rounds: seq<Round>): Outcome
    requires rounds != []
  {
    match rounds[|rounds| - 1]
    case Stop(_) => GivenUp
    case Abort(_) => Aborted
    case Go(_, _) => Retried
  }

  /** Its last round says how a retry ends, and each of the others made an attempt that failed in the buffer. */
  lemma {:induction false} LastRoundEnds(c: Config, s: Stream, rounds: seq<Round>)
    requires Rounds(c, s, rounds)
    ensures rounds != [] && Retry(c, s, rounds).1 == EndOf(rounds)
    ensures forall k :: 0 <= k < |rounds| - 1 ==> rounds[k].Go? && rounds[k].upTo < |s.buffer|
    ensures Retry(c, s, rounds).0.committed == (s.committed || EndOf(rounds) == GivenUp)
    decreases |rounds|
  {
    if rounds[0].Go? && rounds[0].upTo < |s.buffer| {
      LastRoundEnds(c, Replay(Decided(s, rounds[0]), rounds[0].upTo), rounds[1..]);
      assert forall k :: 0 < k < |rounds| ==> rounds[k] == rounds[1..][k - 1];
    }
  }

  // ---------------------------------------------------------------- what reaches an attempt

  /** The operation that a step completes on attempt `a`. */
  function Completes(st: State, step: Step, a: int): seq<Op> {
    match step
    case Run(ok) => if st.sender.Running? && ok && st.sender.a == a then [st.sender.op] else []
    case Top(_, ok) => if st.sender.Start? && st.s.committed && ok && st.s.attempt == a then [st.sender.op] else []
    case _ => []
  }

  function CompletedOn(c: Config, st: State, steps: seq<Step>, a: int): seq<Op>
    requires IsRun(c, st, steps)
    decreases |steps|
  {
    if steps == [] then [] else Completes(st, steps[0], a) + CompletedOn(c, Apply(c, st, steps[0]), steps[1..], a)
  }

  lemma {:induction false} RetryKeepsLogs(c: Config, s: Stream, rounds: seq<Round>)
    requires Rounds(c, s, rounds)
    ensures s.logs <= Retry(c, s, rounds).0.logs
    decreases |rounds|
  {
    if rounds[0].Go? && rounds[0].upTo < |s.buffer| {
      RetryKeepsLogs(c, Replay(Decided(s, rounds[0]), rounds[0].upTo), rounds[1..]);
    }
  }

  lemma {:induction false} StepLogs(c: Config, st: State, step: Step, a: int)
    requires Enabled(c, st, step) && 0 <= a < |st.s.logs|
    ensures var t := Apply(c, st, step);
            a < |t.s.logs| && t.s.logs[a] == st.s.logs[a] + Completes(st, step, a)
  {
    match step
    case End(rs) =>
      EndShape(c, st, rs);
      KeptLog(c, st, step, a);
    case RecvEnd(r, rs) =>
      RecvEndShape(c, st, r, rs);
      KeptLog(c, st, step, a);
    case _ => PlainLogs(c, st, step, a);
  }

  lemma KeptLog(c: Config, st: State, step: Step, a: int)
    requires Enabled(c, st, step) && 0 <= a < |st.s.logs| && (step.End? || step.RecvEnd?)
    requires var t, rounds := Apply(c, st, step), RoundsOf(st, step);
             && (rounds != [] ==> Rounds(c, st.s, rounds) && Bare(t.s) == Bare(Retry(c, st.s, rounds).0))
             && (rounds == [] ==> t.s.logs == st.s.logs)
    ensures a < |Apply(c, st, step).s.logs| && Apply(c, st, step).s.logs[a] == st.s.logs[a] + Completes(st, step, a)
  {
    hide Retry;
    hide Rounds;
    hide Apply;
    hide Enabled;
    var t, rounds := Apply(c, st, step), RoundsOf(st, step);
    if rounds != [] {
      RetryKeepsLogs(c, st.s, rounds);
      assert t.s.logs == Bare(t.s).logs;
    }
    assert st.s.logs[a] + [] == st.s.logs[a];
  }

  lemma TopLogs(c: Config, st: State, created: bool, ok: bool, a: int)
    requires st.sender.Start? && 0 <= a < |st.s.logs|
    ensures var t := AtTop(st, st.sender.op, created, ok);
            a < |t.s.logs| && t.s.logs[a] == st.s.logs[a] + Completes(st, Top(created, ok), a)
  {
    hide Cleanups;
    assert st.s.logs[a] + [] == st.s.logs[a];
  }

  lemma RunLogs(c: Config, st: State, ok: bool, a: int)
    requires st.sender.Running? && 0 <= a < |st.s.logs|
    ensures var t := Apply(c, st, Run(ok));
            a < |t.s.logs| && t.s.logs[a] == st.s.logs[a] + Completes(st, Run(ok), a)
  {
    assert st.s.logs[a] + [] == st.s.logs[a];
  }

  lemma PlainLogs(c: Config, st: State, step: Step, a: int)
    requires Enabled(c, st, step) && 0 <= a < |st.s.logs| && !step.End? && !step.RecvEnd?
    ensures a < |Apply(c, st, step).s.logs| && Apply(c, st, step).s.logs[a] == st.s.logs[a] + Completes(st, step, a)
  {
    hide Cleanups;
    assert st.s.logs[a] + [] == st.s.logs[a];
    if step.Top? {
      TopLogs(c, st, step.created, step.ok, a);
    } else if step.Run? {
      RunLogs(c, st, step.ok, a);
    } else {
      assert Apply(c, st, step).s.logs == st.s.logs;
    }
  }

  /** The log of an attempt grows by exactly the operations that the steps of the run complete on it, in order; so
      after a commit it is the log at the commit and then what has succeeded since, one under way included. */
  lemma {:induction false} LogIsCompleted(c: Config, st: State, steps: seq<Step>, a: int)
    requires IsRun(c, st, steps) && 0 <= a < |st.s.logs|
    ensures var t := After(c, st, steps);
            a < |t.s.logs| && t.s.logs[a] == st.s.logs[a] + CompletedOn(c, st, steps, a)
    decreases |steps|
  {
    hide Enabled;
    hide Apply;
    hide Completes;
    if steps != [] {
      StepLogs(c, st, steps[0], a);
      LogIsCompleted(c, Apply(c, st, steps[0]), steps[1..], a);
    }
  }

  // ---------------------------------------------------------------- calls

  function SentOps(steps: seq<Step>): seq<Op> {
    if steps == [] then [] else (if steps[0].Send? then [steps[0].op] else []) + SentOps(steps[1..])
  }

  function OpsOf(rs: seq<Result>): seq<Op> {
    seq(|rs|, k requires 0 <= k < |rs| => rs[k].op)
  }

  /** Whether the step brings the sender's call back, and how: with success if its operation succeeded on the current
      attempt; with an error if there was no attempt to be had, if it failed on a committed stream, or if it failed on
      the current attempt and no retry succeeded. Otherwise the call goes on. */
  function Returns(st: State, step: Step): seq<Result> {
    match step
    case Top(created, ok) =>
      if !st.sender.Start? then []
      else if st.s.committed then [Result(st.sender.op, ok)]
      else if st.s.buffer == [] && !created then [Result(st.sender.op, false)]
      else []
    case End(rounds) =>
      if !st.sender.Ran? || st.sender.a != st.s.attempt then []
      else if st.sender.ok then [Result(st.sender.op, true)]
      else if rounds != [] && EndOf(rounds) != Retried then [Result(st.sender.op, false)]
      else []
    case _ => []
  }

  lemma {:induction false} StepReturns(c: Config, st: State, step: Step)
    requires Enabled(c, st, step)
    ensures var t := Apply(c, st, step);
            && t.returned == st.returned + Returns(st, step)
            && OpsOf(t.returned) + Held(t.sender) == OpsOf(st.returned) + Held(st.sender) + SentOps([step])
  {
    hide Retry;
    hide Rounds;
    hide Cleanups;
    if step.End? && st.sender.a == st.s.attempt && !st.sender.ok {
      LastRoundEnds(c, st.s, step.rounds);
    }
    assert st.returned + [] == st.returned;
    assert SentOps([step]) == if step.Send? then [step.op] else [] by {
      assert [step][1..] == [];
    }
    var t := Apply(c, st, step);
    assert OpsOf(t.returned) == OpsOf(st.returned) + OpsOf(Returns(st, step));
  }

  function ReturnsAll(c: Config, st: State, steps: seq<Step>): seq<Result>
    requires IsRun(c, st, steps)
    decreases |steps|
  {
    if steps == [] then [] else Returns(st, steps[0]) + ReturnsAll(c, Apply(c, st, steps[0]), steps[1..])
  }

  lemma {:induction false} RunReturns(c: Config, st: State, steps: seq<Step>)
    requires IsRun(c, st, steps)
    ensures After(c, st, steps).returned == st.returned + ReturnsAll(c, st, steps)
    decreases |steps|
  {
    hide Enabled;
    hide Apply;
    hide Returns;
    if steps != [] {
      StepReturns(c, st, steps[0]);
      RunReturns(c, Apply(c, st, steps[0]), steps[1..]);
    }
  }

  /** The calls made so far: those that have come back, and the one under way. */
  function Called(st: State): seq<Op> {
    OpsOf(st.returned) + Held(st.sender)
  }

  lemma {:induction false} RunCalls(c: Config, st: State, steps: seq<Step>)
    requires IsRun(c, st, steps)
    ensures Called(After(c, st, steps)) == Called(st) + SentOps(steps)
    decreases |steps|
  {
    hide Enabled;
    hide Apply;
    hide Returns;
    hide Called;
    if steps != [] {
      StepCalls(c, st, steps[0]);
      RunCalls(c, Apply(c, st, steps[0]), steps[1..]);
    }
  }

  lemma StepCalls(c: Config, st: State, step: Step)
    requires Enabled(c, st, step)
    ensures Called(Apply(c, st, step)) == Called(st) + if step.Send? then [step.op] else []
  {
    hide Apply;
    hide Enabled;
    hide Returns;
    hide OpsOf;
    hide Held;
    StepReturns(c, st, step);
    assert [step][1..] == [];
    assert SentOps([step]) == (if step.Send? then [step.op] else []) + [];
  }

  /** In every run the calls come back in the order in which they were made, each once, the last one perhaps still
      under way, with the results that their steps gave; and the current attempt has completed exactly the operations
      of those that came back with success, and the one on its way back, unless it is astray. */
  lemma {:induction false} CallsComeBack(c: Config, receivers: nat, steps: seq<Step>)
    requires 0.0 <= c.maxTokens && 0.0 <= c.ratio && IsRun(c, Init(c, receivers), steps)
    ensures var st := After(c, Init(c, receivers), steps);
            && st.returned == ReturnsAll(c, Init(c, receivers), steps)
            && OpsOf(st.returned) + Held(st.sender) == SentOps(steps)
            && st.s.attempt < |st.s.logs|
            && (st.s.attempt >= 0 && !st.astray ==>
                  st.s.logs[st.s.attempt] == Oks(ReturnsAll(c, Init(c, receivers), steps)) + Pending(st))
  {
    hide Enabled;
    hide Apply;
    RunReturns(c, Init(c, receivers), steps);
    RunCalls(c, Init(c, receivers), steps);
    ReplayIsExact(c, receivers, steps);
    assert [] + ReturnsAll(c, Init(c, receivers), steps) == ReturnsAll(c, Init(c, receivers), steps);
    assert OpsOf([]) + Held(Idle) + SentOps(steps) == SentOps(steps);
  }

  // ---------------------------------------------------------------- committing

  /** What commits a stream: a receive that succeeds on the current attempt, an operation that does not fit in the
      buffer, a retry that gives up, having no attempt for the first operation, and finishing. */
  predicate Commits(c: Config, st: State, step: Step) {
    match step
    case Top(created, _) => st.sender.Start? && st.s.buffer == [] && !created
    case End(rounds) =>
      && st.sender.Ran? && st.sender.a == st.s.attempt
      && (if st.sender.ok then st.s.size + st.sender.op.size > c.maxBuffer else rounds != [] && EndOf(rounds) == GivenUp)
    case RecvEnd(r, rounds) =>
      && r < |st.receivers| && st.receivers[r].Received? && st.receivers[r].a == st.s.attempt
      && (st.receivers[r].ok || (rounds != [] && EndOf(rounds) == GivenUp))
    case Finish => true
    case _ => false
  }

  lemma {:induction false} StepCommits(c: Config, st: State, step: Step)
    requires Inv(c, st) && Enabled(c, st, step)
    ensures Apply(c, st, step).s.committed <==> st.s.committed || Commits(c, st, step)
  {
    hide Retry;
    hide Rounds;
    hide Cleanups;
    hide SizeOf;
    StepShape(c, st, step);
    var rounds := RoundsOf(st, step);
    if rounds != [] {
      LastRoundEnds(c, st.s, rounds);
      assert Apply(c, st, step).s.committed == Bare(Apply(c, st, step).s).committed;
    } else {
      PlainCommits(c, st, step);
    }
  }

  lemma PlainCommits(c: Config, st: State, step: Step)
    requires Inv(c, st) && Enabled(c, st, step) && RoundsOf(st, step) == []
    ensures Apply(c, st, step).s.committed <==> st.s.committed || Commits(c, st, step)
  {
    hide Retry;
    hide Cleanups;
    hide SizeOf;
  }

  predicate SomeCommits(c: Config, st: State, steps: seq<Step>)
    requires IsRun(c, st, steps)
    decreases |steps|
  {
    steps != [] && (Commits(c, st, steps[0]) || SomeCommits(c, Apply(c, st, steps[0]), steps[1..]))
  }

  /** A stream is committed exactly if one of the steps so far has committed it. */
  lemma {:induction false} CommittedIff(c: Config, st: State, steps: seq<Step>)
    requires Inv(c, st) && IsRun(c, st, steps)
    ensures After(c, st, steps).s.committed <==> st.s.committed || SomeCommits(c, st, steps)
    decreases |steps|
  {
    hide Enabled;
    hide Apply;
    hide Inv;
    hide Commits;
    if steps != [] {
      StepKeeps(c, st, steps[0]);
      StepCommits(c, st, steps[0]);
      CommittedIff(c, Apply(c, st, steps[0]), steps[1..]);
    }
  }

  /** What finishes a stream. */
  predicate Finishes(st: State, step: Step) {
    step.Finish? || (step.Top? && st.sender.Start? && !st.s.committed && st.s.buffer == [] && !step.created)
  }

  predicate SomeFinishes(c: Config, st: State, steps: seq<Step>)
    requires IsRun(c, st, steps)
    decreases |steps|
  {
    steps != [] && (Finishes(st, steps[0]) || SomeFinishes(c, Apply(c, st, steps[0]), steps[1..]))
  }

  lemma {:induction false} StepFinishes(c: Config, st: State, step: Step)
    requires Enabled(c, st, step)
    ensures Apply(c, st, step).s.finished <==> st.s.finished || Finishes(st, step)
  {
    hide Retry;
    hide Rounds;
    hide Cleanups;
    StepShape(c, st, step);
    var rounds := RoundsOf(st, step);
    if rounds != [] {
      RetryFinished(c, st.s, rounds);
      assert Apply(c, st, step).s.finished == Bare(Apply(c, st, step).s).finished;
    } else {
      PlainFinishes(c, st, step);
    }
  }

  lemma PlainFinishes(c: Config, st: State, step: Step)
    requires Enabled(c, st, step) && RoundsOf(st, step) == []
    ensures Apply(c, st, step).s.finished <==> st.s.finished || Finishes(st, step)
  {
    hide Retry;
    hide Cleanups;
  }

  lemma {:induction false} RetryFinished(c: Config, s: Stream, rounds: seq<Round>)
    requires Rounds(c, s, rounds)
    ensures Retry(c, s, rounds).0.finished == s.finished
    decreases |rounds|
  {
    if rounds[0].Go? && rounds[0].upTo < |s.buffer| {
      RetryFinished(c, Replay(Decided(s, rounds[0]), rounds[0].upTo), rounds[1..]);
    }
  }

  /** A stream is finished exactly if one of the steps so far has finished it. */
  lemma {:induction false} FinishedIff(c: Config, st: State, steps: seq<Step>)
    requires IsRun(c, st, steps)
    ensures After(c, st, steps).s.finished <==> st.s.finished || SomeFinishes(c, st, steps)
    decreases |steps|
  {
    hide Enabled;
    hide Apply;
    hide Finishes;
    if steps != [] {
      StepFinishes(c, st, steps[0]);
      FinishedIff(c, Apply(c, st, steps[0]), steps[1..]);
    }
  }

  predicate ByReceiver(step: Step, r: nat) {
    match step
    case RecvCall(q) => q == r
    case RecvTop(q) => q == r
    case RecvRun(q, _) => q == r
    case RecvEnd(q, _) => q == r
    case _ => false
  }

  predicate NoneBy(steps: seq<Step>, r: nat) {
    forall k :: 0 <= k < |steps| ==> !ByReceiver(steps[k], r)
  }

  lemma {:induction false} ReceiverStays(c: Config, st: State, steps: seq<Step>, r: nat)
    requires IsRun(c, st, steps) && NoneBy(steps, r) && r < |st.receivers|
    ensures r < |After(c, st, steps).receivers| && After(c, st, steps).receivers[r] == st.receivers[r]
    decreases |steps|
  {
    if steps != [] {
      StepReceiver(c, st, steps[0], r);
      assert !ByReceiver(steps[0], r);
      assert forall k :: 0 <= k < |steps[1..]| ==> steps[1..][k] == steps[k + 1];
      ReceiverStays(c, Apply(c, st, steps[0]), steps[1..], r);
    }
  }

  lemma StepReceiver(c: Config, st: State, step: Step, r: nat)
    requires Enabled(c, st, step) && !ByReceiver(step, r) && r < |st.receivers|
    ensures r < |Apply(c, st, step).receivers| && Apply(c, st, step).receivers[r] == st.receivers[r]
  {
    hide Retry;
    hide Rounds;
    hide Cleanups;
  }

  /** A receive begins on an attempt, succeeds, and comes back while that attempt is still the current one, whatever
      else happens between. Then the stream is committed to that attempt for ever: nothing is replayed elsewhere once
      a message has been delivered. */
  lemma {:induction false} DeliveryCommits(c: Config, receivers: nat, before: seq<Step>, a: State, r: nat, mid: seq<Step>, b: State,
                                           late: seq<Step>, d: State, rounds: seq<Round>, rest: seq<Step>, e: State)
    requires 0.0 <= c.maxTokens && 0.0 <= c.ratio && Goes(c, Init(c, receivers), before, a)
    requires Enabled(c, a, RecvTop(r)) && !a.s.committed && Goes(c, Apply(c, a, RecvTop(r)), mid, b) && NoneBy(mid, r)
    requires Enabled(c, b, RecvRun(r, true)) && Goes(c, Apply(c, b, RecvRun(r, true)), late, d) && NoneBy(late, r)
    requires Enabled(c, d, RecvEnd(r, rounds)) && d.s.attempt == a.s.attempt && Goes(c, Apply(c, d, RecvEnd(r, rounds)), rest, e)
    ensures e.s.committed && e.s.attempt == a.s.attempt && e.s.buffer == []
  {
    hide Inv;
    hide After;
    hide IsRun;
    RunKeepsInv(c, Init(c, receivers), before) by { InitInv(c, receivers); }
    StepKeeps(c, a, RecvTop(r));
    ReceiverStays(c, Apply(c, a, RecvTop(r)), mid, r);
    RunKeepsInv(c, Apply(c, a, RecvTop(r)), mid);
    StepKeeps(c, b, RecvRun(r, true));
    ReceiverStays(c, Apply(c, b, RecvRun(r, true)), late, r);
    RunKeepsInv(c, Apply(c, b, RecvRun(r, true)), late);
    var f := Apply(c, d, RecvEnd(r, rounds));
    StepKeeps(c, d, RecvEnd(r, rounds));
    StepCommits(c, d, RecvEnd(r, rounds));
    CommitIsFinal(c, f, rest);
  }

  lemma InitInv(c: Config, receivers: nat)
    requires 0.0 <= c.maxTokens && 0.0 <= c.ratio
    ensures Inv(c, Init(c, receivers))
  {
  }

  /** Where a receive goes: a call begins it; it runs on the current attempt, or at once on a committed stream, where it
      is over; and when it is back it is over exactly if it ran on the attempt that is still current and succeeded, or
      failed and no retry succeeded. Otherwise it starts again. */
  function NextRecv(st: State, step: Step, r: nat): Recv
    requires r < |st.receivers| && ByReceiver(step, r)
  {
    match step
    case RecvCall(_) => Receive
    case RecvTop(_) => if st.s.committed then NotReceiving else Receiving(st.s.attempt)
    case RecvRun(_, ok) => if st.receivers[r].Receiving? then Received(st.receivers[r].a, ok) else st.receivers[r]
    case RecvEnd(_, rounds) =>
      if !st.receivers[r].Received? then st.receivers[r]
      else if st.receivers[r].a == st.s.attempt && (st.receivers[r].ok || (rounds != [] && EndOf(rounds) != Retried)) then NotReceiving
      else Receive
  }

  lemma {:induction false} ReceiveComesBack(c: Config, st: State, step: Step, r: nat)
    requires Enabled(c, st, step) && r < |st.receivers| && ByReceiver(step, r)
    ensures var t := Apply(c, st, step);
            |t.receivers| == |st.receivers| && t.receivers[r] == NextRecv(st, step, r) && t.sender == st.sender && t.returned == st.returned
  {
    hide Retry;
    hide Rounds;
    hide Cleanups;
    if step.RecvEnd? && st.receivers[r].a == st.s.attempt && !st.receivers[r].ok {
      LastRoundEnds(c, st.s, step.rounds);
    }
  }

  // ---------------------------------------------------------------- what retries cost

  /** How many of the rounds were granted a new attempt by the retry policy, that is not transparently. */
  function Configured(rounds: seq<Round>): nat {
    if rounds == [] then 0
    else (if !rounds[0].Stop? && !rounds[0].transparent then 1 else 0) + Configured(rounds[1..])
  }

  /** How many made a new attempt. */
  function Made(rounds: seq<Round>): nat {
    if rounds == [] then 0 else (if rounds[0].Go? then 1 else 0) + Made(rounds[1..])
  }

  predicate AllStop(rounds: seq<Round>) {
    forall k :: 0 <= k < |rounds| ==> rounds[k].Stop?
  }

  lemma {:induction false} RetryCosts(c: Config, s: Stream, rounds: seq<Round>)
    requires Rounds(c, s, rounds)
    ensures var t := Retry(c, s, rounds).0;
            && t.retries == s.retries + Configured(rounds)
            && |t.logs| == |s.logs| + Made(rounds)
            && (t.first <==> s.first && AllStop(rounds))
    decreases |rounds|
  {
    if rounds[0].Go? && rounds[0].upTo < |s.buffer| {
      RetryCosts(c, Replay(Decided(s, rounds[0]), rounds[0].upTo), rounds[1..]);
    } else {
      assert rounds[1..] == [];
    }
  }

  /** A step makes a new attempt for the first operation, outside the retry loop. */
  function Opens(st: State, step: Step): nat {
    if step.Top? && step.created && st.sender.Start? && !st.s.committed && st.s.buffer == [] then 1 else 0
  }

  function ConfiguredIn(c: Config, st: State, steps: seq<Step>): nat
    requires IsRun(c, st, steps)
    decreases |steps|
  {
    if steps == [] then 0
    else Configured(RoundsOf(st, steps[0])) + ConfiguredIn(c, Apply(c, st, steps[0]), steps[1..])
  }

  function MadeIn(c: Config, st: State, steps: seq<Step>): nat
    requires IsRun(c, st, steps)
    decreases |steps|
  {
    if steps == [] then 0
    else Made(RoundsOf(st, steps[0])) + Opens(st, steps[0]) + MadeIn(c, Apply(c, st, steps[0]), steps[1..])
  }

  predicate NoneAllowed(c: Config, st: State, steps: seq<Step>)
    requires IsRun(c, st, steps)
    decreases |steps|
  {
    steps == [] || (AllStop(RoundsOf(st, steps[0])) && NoneAllowed(c, Apply(c, st, steps[0]), steps[1..]))
  }

  lemma {:induction false} StepCosts(c: Config, st: State, step: Step)
    requires Enabled(c, st, step)
    ensures var t, rounds := Apply(c, st, step), RoundsOf(st, step);
            && t.s.retries == st.s.retries + Configured(rounds)
            && |t.s.logs| == |st.s.logs| + Made(rounds) + Opens(st, step)
            && (t.s.first <==> st.s.first && AllStop(rounds))
  {
    hide Retry;
    hide Rounds;
    hide Apply;
    hide Enabled;
    StepShape(c, st, step);
    NoRounds();
    var t, rounds := Apply(c, st, step), RoundsOf(st, step);
    if rounds != [] {
      RetryCosts(c, st.s, rounds);
      assert t.s.retries == Bare(t.s).retries && t.s.logs == Bare(t.s).logs && t.s.first == Bare(t.s).first;
    } else {
      PlainAttempts(c, st, step);
    }
  }

  lemma PlainAttempts(c: Config, st: State, step: Step)
    requires Enabled(c, st, step) && RoundsOf(st, step) == []
    ensures |Apply(c, st, step).s.logs| == |st.s.logs| + Opens(st, step)
  {
    match step
    case End(rs) => EndShape(c, st, rs);
    case RecvEnd(r, rs) => RecvEndShape(c, st, r, rs);
    case _ =>
  }

  lemma NoRounds()
    ensures Configured([]) == 0 == Made([]) && AllStop([])
  {
  }

  lemma {:induction false} RunCosts(c: Config, st: State, steps: seq<Step>)
    requires IsRun(c, st, steps)
    ensures var t := After(c, st, steps);
            && t.s.retries == st.s.retries + ConfiguredIn(c, st, steps)
            && |t.s.logs| == |st.s.logs| + MadeIn(c, st, steps)
            && (t.s.first <==> st.s.first && NoneAllowed(c, st, steps))
    decreases |steps|
  {
    hide Enabled;
    hide Apply;
    hide RoundsOf;
    hide Opens;
    hide AllStop;
    if steps != [] {
      StepCosts(c, st, steps[0]);
      RunCosts(c, Apply(c, st, steps[0]), steps[1..]);
    }
  }

  /** In every run the retry policy grants at most one attempt less than configured, over all calls together. The
      stream's counter is that number, its attempts are those that the steps made, and it is on its first attempt
      exactly until a retry is allowed. */
  lemma {:induction false} RetriesAreCounted(c: Config, receivers: nat, steps: seq<Step>)
    requires 0.0 <= c.maxTokens && 0.0 <= c.ratio && IsRun(c, Init(c, receivers), steps)
    ensures var st, granted := After(c, Init(c, receivers), steps), ConfiguredIn(c, Init(c, receivers), steps);
            && st.s.retries == granted && (granted == 0 || granted <= c.maxAttempts - 1)
            && |st.s.logs| == MadeIn(c, Init(c, receivers), steps)
            && (st.s.first <==> NoneAllowed(c, Init(c, receivers), steps))
  {
    hide Enabled;
    hide Apply;
    RunCosts(c, Init(c, receivers), steps);
    ReplayIsExact(c, receivers, steps);
  }

  // ---------------------------------------------------------------- tokens

  /** What moves the tokens: a failure that counts takes one, a success gives the ratio. */
  datatype Event = Failure | Good

  function Clamp(x: real, hi: real): real {
    if x < 0.0 then 0.0 else if x > hi then hi else x
  }

  /** The tokens after the events, kept between none and the maximum. */
  function Level(c: Config, tokens: real, events: seq<Event>): real
    decreases |events|
  {
    if events == [] then tokens
    else Level(c, Clamp(if events[0].Failure? then tokens - 1.0 else tokens + c.ratio, c.maxTokens), events[1..])
  }

  function FailureOf(r: Round): seq<Event> {
    if (if r.Stop? then r.counted else !r.transparent) then [Failure] else []
  }

  function Failures(rounds: seq<Round>): seq<Event> {
    if rounds == [] then [] else FailureOf(rounds[0]) + Failures(rounds[1..])
  }

  function Events(st: State, step: Step): seq<Event> {
    if step.Credit? then [Good] else Failures(RoundsOf(st, step))
  }

  function EventsIn(c: Config, st: State, steps: seq<Step>): seq<Event>
    requires IsRun(c, st, steps)
    decreases |steps|
  {
    if steps == [] then [] else Events(st, steps[0]) + EventsIn(c, Apply(c, st, steps[0]), steps[1..])
  }

  lemma {:induction false} LevelConcat(c: Config, tokens: real, a: seq<Event>, b: seq<Event>)
    ensures Level(c, tokens, a + b) == Level(c, Level(c, tokens, a), b)
    decreases |a|
  {
    if a == [] {
      assert a + b == b;
    } else {
      assert (a + b)[1..] == a[1..] + b;
      LevelConcat(c, Clamp(if a[0].Failure? then tokens - 1.0 else tokens + c.ratio, c.maxTokens), a[1..], b);
    }
  }

  lemma OneEvent(c: Config, tokens: real, e: Event)
    ensures Level(c, tokens, [e]) == Clamp(if e.Failure? then tokens - 1.0 else tokens + c.ratio, c.maxTokens)
    ensures Level(c, tokens, []) == tokens
  {
    assert [e][1..] == [];
  }

  lemma {:induction false} RetryTokens(c: Config, s: Stream, rounds: seq<Round>)
    requires Limits(c, s) && Rounds(c, s, rounds)
    ensures Retry(c, s, rounds).0.tokens == Level(c, s.tokens, Failures(rounds))
    decreases |rounds|
  {
    hide Level;
    hide SizeOf;
    hide Cleanups;
    RoundKeeps(c, s, rounds[0]);
    OneEvent(c, s.tokens, Failure);
    var head := FailureOf(rounds[0]);
    assert Level(c, s.tokens, head) == Decided(s, rounds[0]).tokens;
    LevelConcat(c, s.tokens, head, Failures(rounds[1..]));
    if rounds[0].Go? && rounds[0].upTo < |s.buffer| {
      RetryTokens(c, Replay(Decided(s, rounds[0]), rounds[0].upTo), rounds[1..]);
    } else {
      assert rounds[1..] == [];
      OneEvent(c, Decided(s, rounds[0]).tokens, Failure);
    }
  }

  lemma {:induction false} StepTokens(c: Config, st: State, step: Step)
    requires Inv(c, st) && Enabled(c, st, step)
    ensures Apply(c, st, step).s.tokens == Level(c, st.s.tokens, Events(st, step))
  {
    hide Retry;
    hide Rounds;
    hide Level;
    hide Enabled;
    StepShape(c, st, step);
    OneEvent(c, st.s.tokens, Good);
    var rounds := RoundsOf(st, step);
    if rounds != [] {
      RetryTokens(c, st.s, rounds);
      assert Apply(c, st, step).s.tokens == Bare(Apply(c, st, step).s).tokens;
    }
  }

  lemma {:induction false} RunTokens(c: Config, st: State, steps: seq<Step>)
    requires Inv(c, st) && IsRun(c, st, steps)
    ensures After(c, st, steps).s.tokens == Level(c, st.s.tokens, EventsIn(c, st, steps))
    decreases |steps|
  {
    hide Enabled;
    hide Apply;
    hide Inv;
    hide Events;
    hide Level;
    if steps == [] {
      OneEvent(c, st.s.tokens, Good);
    } else {
      StepKeeps(c, st, steps[0]);
      StepTokens(c, st, steps[0]);
      RunTokens(c, Apply(c, st, steps[0]), steps[1..]);
      LevelConcat(c, st.s.tokens, Events(st, steps[0]), EventsIn(c, Apply(c, st, steps[0]), steps[1..]));
    }
  }

  /** In every run the tokens are the maximum less one for each failure that counted plus the ratio for each success,
      held between none and the maximum on the way. */
  lemma {:induction false} TokensAreCounted(c: Config, receivers: nat, steps: seq<Step>)
    requires 0.0 <= c.maxTokens && 0.0 <= c.ratio && IsRun(c, Init(c, receivers), steps)
    ensures After(c, Init(c, receivers), steps).s.tokens == Level(c, c.maxTokens, EventsIn(c, Init(c, receivers), steps))
  {
    hide Enabled;
    hide Apply;
    InitInv(c, receivers);
    RunTokens(c, Init(c, receivers), steps);
  }

  // ---------------------------------------------------------------- throttling

  predicate NoCredit(steps: seq<Step>) {
    forall k :: 0 <= k < |steps| ==> !steps[k].Credit?
  }

  /** `n` retries granted so far have left at most the rest of the tokens, and all were granted above half. */
  predicate Spent(c: Config, s: Stream, n: nat) {
    s.tokens <= c.maxTokens - n as real && (n == 0 || n as real < c.maxTokens / 2.0)
  }

  lemma {:induction false} RetrySpends(c: Config, s: Stream, rounds: seq<Round>, n: nat)
    requires Limits(c, s) && Rounds(c, s, rounds) && Spent(c, s, n)
    ensures Spent(c, Retry(c, s, rounds).0, n + Configured(rounds))
    decreases |rounds|
  {
    hide SizeOf;
    hide Cleanups;
    RoundKeeps(c, s, rounds[0]);
    var one := if !rounds[0].Stop? && !rounds[0].transparent then 1 else 0;
    assert Spent(c, Decided(s, rounds[0]), n + one);
    if rounds[0].Go? && rounds[0].upTo < |s.buffer| {
      RetrySpends(c, Replay(Decided(s, rounds[0]), rounds[0].upTo), rounds[1..], n + one);
    } else {
      assert rounds[1..] == [];
    }
  }

  lemma {:induction false} StepSpends(c: Config, st: State, step: Step, n: nat)
    requires Inv(c, st) && Enabled(c, st, step) && !step.Credit? && Spent(c, st.s, n)
    ensures Spent(c, Apply(c, st, step).s, n + Configured(RoundsOf(st, step)))
  {
    hide Retry;
    hide Rounds;
    hide Apply;
    hide Enabled;
    StepShape(c, st, step);
    NoRounds();
    var rounds := RoundsOf(st, step);
    if rounds != [] {
      RetrySpends(c, st.s, rounds, n);
      assert Apply(c, st, step).s.tokens == Bare(Apply(c, st, step).s).tokens;
    }
  }

  lemma {:induction false} RunSpends(c: Config, st: State, steps: seq<Step>, n: nat)
    requires Inv(c, st) && IsRun(c, st, steps) && NoCredit(steps) && Spent(c, st.s, n)
    ensures Spent(c, After(c, st, steps).s, n + ConfiguredIn(c, st, steps))
    decreases |steps|
  {
    hide Enabled;
    hide Apply;
    hide Inv;
    hide RoundsOf;
    hide Spent;
    if steps != [] {
      StepKeeps(c, st, steps[0]);
      StepSpends(c, st, steps[0], n);
      assert forall k :: 0 <= k < |steps[1..]| ==> steps[1..][k] == steps[k + 1];
      RunSpends(c, Apply(c, st, steps[0]), steps[1..], n + Configured(RoundsOf(st, steps[0])));
    }
  }

  /** While nothing succeeds, the throttle grants fewer retries than half the maximum of tokens, however many attempts
      are configured. */
  lemma {:induction false} RetriesAreThrottled(c: Config, receivers: nat, steps: seq<Step>)
    requires 0.0 <= c.maxTokens && 0.0 <= c.ratio && IsRun(c, Init(c, receivers), steps) && NoCredit(steps)
    ensures var granted := ConfiguredIn(c, Init(c, receivers), steps); granted == 0 || granted as real < c.maxTokens / 2.0
  {
    hide Enabled;
    hide Apply;
    InitInv(c, receivers);
    RunSpends(c, Init(c, receivers), steps, 0);
  }
}
