/** The sections of a client stream that run under its lock, updating it in place. What the operations and the
    connection do is given from outside, as the rounds a retry goes through. */
module RetryClient {
  import opened RetryStream

  /** One round of the retry loop. */
  lemma RoundsStep(c: Config, s: Stream, rounds: seq<Round>)
    requires Rounds(c, s, rounds)
    ensures rounds != [] && (rounds[0].Go? ==> rounds[0].upTo <= |s.buffer| == |Decided(s, rounds[0]).buffer|)
    ensures rounds[0].Stop? ==> Retry(c, s, rounds) == (Commit(Decided(s, rounds[0])), GivenUp)
    ensures rounds[0].Abort? ==> Retry(c, s, rounds) == (Decided(s, rounds[0]), Aborted)
    ensures rounds[0].Go? && rounds[0].upTo == |s.buffer| ==>
              Retry(c, s, rounds) == (Replay(Decided(s, rounds[0]), rounds[0].upTo), Retried)
    ensures rounds[0].Go? && rounds[0].upTo < |s.buffer| ==>
              var u := Replay(Decided(s, rounds[0]), rounds[0].upTo);
              |rounds| > 1 && Rounds(c, u, rounds[1..]) && Retry(c, s, rounds) == Retry(c, u, rounds[1..])
  {
    hide Commit;
    if rounds[0].Go? && rounds[0].upTo != |s.buffer| {
      assert Rounds(c, Replay(Decided(s, rounds[0]), rounds[0].upTo), rounds[1..]);
    }
  }

  class ClientStream {
    const c: Config
    var attempt: int
    var logs: seq<seq<Op>>
    var committed: bool
    var finished: bool
    var buffer: seq<Op>
    var size: nat
    var retries: nat
    var first: bool
    var tokens: real
    var cleaned: multiset<Op>

    function Value(): Stream
      reads this
    {
      Stream(attempt, logs, committed, finished, buffer, size, retries, first, tokens, cleaned)
    }

    constructor (config: Config)
      ensures c == config && Value() == Init(config, 0).s
    {
      c := config;
      attempt, logs, committed, finished, buffer := -1, [], false, false, [];
      size, retries, first, tokens, cleaned := 0, 0, true, config.maxTokens, multiset{};
    }

    /** Runs the cleanups of the buffered operations and drops the buffer. */
    method CommitAttempt()
      modifies this
      ensures Value() == Commit(old(Value()))
    {
      hide Cleanups;
      committed := true;
      var ops := buffer;
      NoCleanups();
      for k := 0 to |ops|
        invariant cleaned == old(cleaned) + Cleanups(ops[..k])
        invariant Value() == old(Value()).(committed := true, cleaned := cleaned)
      {
        assert ops[..k + 1] == ops[..k] + [ops[k]];
        CleanupsSnoc(ops[..k], ops[k]);
        OneCleanup(ops[k]);
        if ops[k].cleanup {
          cleaned := cleaned + multiset{ops[k]};
        }
      }
      assert ops[..|ops|] == ops;
      buffer := [];
    }

    /** Keeps an operation for replay; if that takes too much room, commits and runs its cleanup at once, which the
        operation must then have. */
    method BufferForRetry(op: Op)
      requires !committed && size + op.size > c.maxBuffer ==> op.cleanup
      modifies this
      ensures Value() == Buffer(c, old(Value()), op)
    {
      if committed {
        return;
      }
      size := size + op.size;
      if size > c.maxBuffer {
        CommitAttempt();
        OneCleanup(op);
        cleaned := cleaned + multiset{op};
        return;
      }
      buffer := buffer + [op];
    }

    /** Takes a token away; says whether retrying is to be held back. */
    method TakeToken() returns (held: bool)
      modifies this`tokens
      ensures tokens == Throttle(old(tokens)) && 0.0 <= tokens
      ensures 0.0 <= old(tokens) <= c.maxTokens ==> tokens <= c.maxTokens
      ensures held <==> tokens <= c.maxTokens / 2.0
    {
      tokens := tokens - 1.0;
      if tokens < 0.0 {
        tokens := 0.0;
      }
      held := tokens <= c.maxTokens / 2.0;
    }

    method SuccessfulRPC()
      requires 0.0 <= tokens <= c.maxTokens && 0.0 <= c.ratio
      modifies this`tokens
      ensures tokens == Success(c, old(tokens)) && old(tokens) <= tokens <= c.maxTokens
    {
      tokens := tokens + c.ratio;
      if tokens > c.maxTokens {
        tokens := c.maxTokens;
      }
    }

    /** Replays the buffer on a new attempt until an operation fails. */
    method ReplayBuffer(upTo: nat) returns (ok: bool)
      requires upTo <= |buffer|
      modifies this
      ensures Value() == Replay(old(Value()), upTo) && (ok <==> upTo == old(|buffer|))
    {
      var a, ops := |logs|, buffer;
      logs := logs + [[]];
      var k := 0;
      while k < |ops|
        invariant k <= upTo && logs == old(logs) + [ops[..k]]
        invariant attempt == if k > 0 then a else old(attempt)
        invariant Value() == old(Value()).(logs := logs, attempt := attempt)
      {
        if k == upTo {
          return false;
        }
        logs := logs[a := logs[a] + [ops[k]]];
        assert ops[..k] + [ops[k]] == ops[..k + 1];
        if k == 0 {
          attempt := a;
        }
        k := k + 1;
      }
      return true;
    }

    /** What a round does before it replays: the tokens and the retry it costs. */
    method Decide(r: Round)
      modifies this
      ensures Value() == Decided(old(Value()), r)
    {
      if (r.Stop? && r.counted) || (!r.Stop? && !r.transparent) {
        var held := TakeToken();
      }
      if !r.Stop? {
        if !r.transparent {
          retries := retries + 1;
        }
        first := false;
      }
    }

    /** The retry loop. */
    method RetryLocked(rounds: seq<Round>) returns (how: Outcome)
      requires Rounds(c, Value(), rounds)
      modifies this
      ensures (Value(), how) == Retry(c, old(Value()), rounds)
    {
      hide Retry;
      hide Rounds;
      hide Commit;
      hide Replay;
      hide Decided;
      ghost var s := Value();
      var k := 0;
      assert rounds[0..] == rounds;
      RoundsStep(c, s, rounds);
      while true
        invariant k < |rounds| && Rounds(c, Value(), rounds[k..])
        invariant Retry(c, Value(), rounds[k..]) == Retry(c, s, rounds)
        decreases |rounds| - k
      {
        assert rounds[k..][0] == rounds[k] && rounds[k..][1..] == rounds[k + 1..];
        RoundsStep(c, Value(), rounds[k..]);
        Decide(rounds[k]);
        if rounds[k].Stop? {
          CommitAttempt();
          return GivenUp;
        } else if rounds[k].Abort? {
          return Aborted;
        }
        var ok := ReplayBuffer(rounds[k].upTo);
        if ok {
          return Retried;
        }
        k := k + 1;
      }
    }
  }
}
