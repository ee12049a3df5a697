/** The quota on concurrent handlers: a counter and a channel with room for one wake-up. One loop acquires,
    synchronously; handlers release, and a release is two steps, adding to the counter and then, if somebody may
    be waiting, sending the wake-up. */
module HandlerQuota {

  /** `running` handlers hold the quota, `waking` releases are about to send, `slots` wake-ups are in the channel. */
  datatype State = State(count: int, slots: nat, blocked: bool, running: nat, waking: nat)

  datatype Step = Acquire | Wake | Release | Signal

  predicate Enabled(s: State, step: Step) {
    match step
    case Acquire => !s.blocked
    case Wake => s.blocked && s.slots > 0
    case Release => s.running > 0
    case Signal => s.waking > 0 && s.slots < 1
  }

  function Apply(s: State, step: Step): State
    requires Enabled(s, step)
  {
    match step
    case Acquire =>
      if s.count - 1 < 0 then s.(count := s.count - 1, blocked := true)
      else s.(count := s.count - 1, running := s.running + 1)
    case Wake => s.(slots := s.slots - 1, blocked := false, running := s.running + 1)
    case Release =>
      s.(count := s.count + 1, running := s.running - 1, waking := if s.count + 1 <= 0 then s.waking + 1 else s.waking)
    case Signal => s.(waking := s.waking - 1, slots := s.slots + 1)
  }

  /** A wake-up is on its way exactly when the acquirer is blocked and a handler has released since. */
  ghost predicate Inv(n: nat, s: State) {
    && s.count == n - s.running - (if s.blocked then 1 else 0)
    && s.running <= n
    && s.slots + s.waking == if s.blocked && s.running < n then 1 else 0
  }

  function Init(n: nat): State {
    State(n, 0, false, 0, 0)
  }

  predicate IsRun(s: State, steps: seq<Step>)
    decreases |steps|
  {
    steps == [] || (Enabled(s, steps[0]) && IsRun(Apply(s, steps[0]), steps[1..]))
  }

  function After(s: State, steps: seq<Step>): State
    requires IsRun(s, steps)
    decreases |steps|
  {
    if steps == [] then s else After(Apply(s, steps[0]), steps[1..])
  }

  lemma {:induction false} RunKeeps(n: nat, s: State, steps: seq<Step>)
    requires Inv(n, s) && IsRun(s, steps)
    ensures Inv(n, After(s, steps))
    decreases |steps|
  {
    if steps != [] {
      RunKeeps(n, Apply(s, steps[0]), steps[1..]);
    }
  }

  /** How many handlers have got the quota: those that were let in at once, and those that were woken. */
  function Entered(s: State, steps: seq<Step>): nat
    requires IsRun(s, steps)
    decreases |steps|
  {
    if steps == [] then 0
    else
      var t := Apply(s, steps[0]);
      (if (steps[0].Acquire? && !t.blocked) || steps[0].Wake? then 1 else 0) + Entered(t, steps[1..])
  }

  function Left(steps: seq<Step>): nat {
    if steps == [] then 0 else (if steps[0].Release? then 1 else 0) + Left(steps[1..])
  }

  lemma {:induction false} RunningCounts(s: State, steps: seq<Step>)
    requires IsRun(s, steps)
    ensures After(s, steps).running == s.running + Entered(s, steps) - Left(steps)
    decreases |steps|
  {
    if steps != [] {
      RunningCounts(Apply(s, steps[0]), steps[1..]);
    }
  }

  /** In every interleaving: no more than `n` handlers run, and an acquirer is let in at once exactly if fewer do; the
      counter never drops below -1; at most one wake-up is pending, so a release that has to send one never blocks;
      and a blocked acquirer has one coming as soon as any handler has released, while before that somebody is still
      running who will. */
  lemma {:induction false} QuotaHolds(n: nat, steps: seq<Step>)
    requires IsRun(Init(n), steps)
    ensures var s := After(Init(n), steps);
            && s.running <= n && -1 <= s.count <= n
            && s.slots + s.waking <= 1 && (s.waking > 0 ==> Enabled(s, Signal))
            && (s.blocked && s.running < n ==> Enabled(s, Signal) || Enabled(s, Wake))
            && (s.blocked && s.running == n && n > 0 ==> Enabled(s, Release))
            && (!s.blocked ==> s.slots == 0 && s.waking == 0 && (Apply(s, Acquire).blocked <==> s.running == n))
            && s.running == Entered(Init(n), steps) - Left(steps)
  {
    RunKeeps(n, Init(n), steps);
    RunningCounts(Init(n), steps);
  }

  /** The semaphore itself, in the pieces between which others may run. */
  class AtomicSemaphore {
    var count: int
    var slots: nat

    constructor (n: nat)
      ensures count == n && slots == 0
    {
      count, slots := n, 0;
    }

    /** The first half of an acquire: takes one; blocks if there was none. */
    method Down(ghost s: State) returns (blocks: bool)
      requires count == s.count && slots == s.slots && Enabled(s, Acquire)
      modifies this
      ensures var t := Apply(s, Acquire); count == t.count && slots == t.slots && blocks == t.blocked
    {
      count := count - 1;
      blocks := count < 0;
    }

    /** The second half of an acquire that blocked. */
    method AwaitWake(ghost s: State)
      requires count == s.count && slots == s.slots && Enabled(s, Wake)
      modifies this
      ensures var t := Apply(s, Wake); count == t.count && slots == t.slots
    {
      slots := slots - 1;
    }

    /** The first half of a release: gives one back; says whether a wake-up has to be sent. */
    method Up(ghost s: State) returns (wakes: bool)
      requires count == s.count && slots == s.slots && Enabled(s, Release)
      modifies this
      ensures var t := Apply(s, Release); count == t.count && slots == t.slots && (wakes <==> t.waking > s.waking)
    {
      count := count + 1;
      wakes := count <= 0;
    }

    /** The second half of a release; the channel has room, by the invariant. */
    method SendWake(ghost s: State, ghost n: nat)
      requires Inv(n, s) && s.waking > 0 && count == s.count && slots == s.slots
      modifies this
      ensures Enabled(s, Signal) && var t := Apply(s, Signal); count == t.count && slots == t.slots <= 1
    {
      slots := slots + 1;
    }
  }
}
