/** The two scans over the newest write notices of a page that a garbage collection makes: for the process that is
    to manage the page, and for whether a process keeps its own copy. */
module ManagerChoice {
  import opened Clocks
  import opened Systems

  // ---------------------------------------------------------------- choosing a manager

  /** The running best over the first `j` processes: replaced by a notice that is pointwise at least as great. */
  function Best(latest: seq<Option<Stamp>>, j: nat): Option<Stamp>
    requires j <= |latest|
  {
    if j == 0 then
      None
    else
      var best := Best(latest, j - 1);
      match latest[j - 1]
      case None => best
      case Some(b) => if best.None? || AtMost(best.value.vt, b.vt) then Some(b) else best
  }

  /** Two notices of different processes are never pointwise equal. */
  ghost predicate Distinct(latest: seq<Option<Stamp>>) {
    forall i, j :: 0 <= i < |latest| && 0 <= j < |latest| && i != j && latest[i].Some? && latest[j].Some? ==>
      !(AtMost(latest[i].value.vt, latest[j].value.vt) && AtMost(latest[j].value.vt, latest[i].value.vt))
  }

  /** The scan ends with a notice if there is one, whatever their stamps. */
  lemma {:induction false} BestIsOne(latest: seq<Option<Stamp>>, j: nat)
    requires j <= |latest|
    ensures Best(latest, j).None? <==> forall k :: 0 <= k < j ==> latest[k].None?
    ensures Best(latest, j).Some? ==> exists f :: 0 <= f < j && Best(latest, j) == latest[f]
  {
    if j > 0 {
      BestIsOne(latest, j - 1);
    }
  }

  /** If no two are equal, it is one that no other is above. */
  lemma {:induction false} BestIsMaximal(latest: seq<Option<Stamp>>, j: nat)
    requires j <= |latest| && Distinct(latest)
    ensures Best(latest, j).None? <==> forall k :: 0 <= k < j ==> latest[k].None?
    ensures Best(latest, j).Some? ==> exists f :: 0 <= f < j && IsMaximal(latest, j, f) && Best(latest, j) == latest[f]
  {
    if j > 0 {
      BestIsMaximal(latest, j - 1);
      var best := Best(latest, j - 1);
      if latest[j - 1].Some? {
        if best.None? || AtMost(best.value.vt, latest[j - 1].value.vt) {
          if best.Some? {
            var f :| 0 <= f < j - 1 && IsMaximal(latest, j - 1, f) && best == latest[f];
          }
          assert IsMaximal(latest, j, j - 1);
        } else {
          var f :| 0 <= f < j - 1 && IsMaximal(latest, j - 1, f) && best == latest[f];
          assert IsMaximal(latest, j, f);
        }
      } else if best.Some? {
        var f :| 0 <= f < j - 1 && IsMaximal(latest, j - 1, f) && best == latest[f];
        assert IsMaximal(latest, j, f);
      }
    }
  }

  ghost predicate IsMaximal(latest: seq<Option<Stamp>>, j: nat, f: int)
    requires j <= |latest|
  {
    && 0 <= f < j && latest[f].Some?
    && forall k :: 0 <= k < j && k != f && latest[k].Some? ==> !AtMost(latest[f].value.vt, latest[k].value.vt)
  }

  function IdOf(best: Option<Stamp>): Option<nat> {
    if best.Some? then Some(best.value.id) else None
  }

  /** The scan over the newest notices of a page. */
  method UpdateManager(latest: seq<Option<Stamp>>) returns (manager: Option<nat>)
    requires forall k :: 0 <= k < |latest| && latest[k].Some? ==> |latest[k].value.vt| == |latest|
    ensures manager == IdOf(Best(latest, |latest|))
  {
    var n, j := |latest|, 0;
    while j < n && latest[j].None?
      invariant j <= n && Best(latest, j) == None
    {
      j := j + 1;
    }
    if j == n {
      return None;
    }
    var interval := latest[j].value;
    j := j + 1;
    while j < n
      invariant 0 < j <= n && Best(latest, j) == Some(interval) && |interval.vt| == n
    {
      if latest[j].Some? {
        var other := latest[j].value;
        var k := 0;
        while k < n && interval.vt[k] <= other.vt[k]
          invariant k <= n && forall l :: 0 <= l < k ==> interval.vt[l] <= other.vt[l]
        {
          k := k + 1;
        }
        assert k == n <==> AtMost(interval.vt, other.vt);
        if k == n {
          interval := other;
        }
      }
      j := j + 1;
    }
    return Some(interval.id);
  }

  /** No other process's newest notice has seen the one of time `time` of process `id`. */
  predicate Unseen(latest: seq<Option<Stamp>>, id: nat, time: nat) {
    forall j :: 0 <= j < |latest| && j != id && latest[j].Some? ==>
      id < |latest[j].value.vt| && latest[j].value.vt[id] < time
  }

  method ScanOthers(latest: seq<Option<Stamp>>, id: nat, time: nat) returns (keep: bool)
    requires forall k :: 0 <= k < |latest| && latest[k].Some? ==> |latest[k].value.vt| == |latest|
    requires id < |latest|
    ensures keep <==> Unseen(latest, id, time)
  {
    for j := 0 to |latest|
      invariant forall k :: 0 <= k < j && k != id && latest[k].Some? ==> latest[k].value.vt[id] < time
    {
      if j != id && latest[j].Some? && latest[j].value.vt[id] >= time {
        return false;
      }
    }
    return true;
  }
}
