/**
  Classification of a stack from its container counts, as
  `determineStackStatus` does, and the count of running containers the
  caller feeds it.
 */
module StackStatus {
  import opened ContainerGroups

  /** The three classifications; `Code` is the key into the status, emoji and colour tables. */
  datatype Status = Offline | Running | PartiallyRunning {
    function Code(): string {
      match this
      case Offline => "OFFLINE"
      case Running => "RUNNING"
      case PartiallyRunning => "PARTIALLY_RUNNING"
    }
  }

  /** A value per status, as the configuration tables keyed by status code hold them. */
  datatype PerStatus<T> = PerStatus(offline: T, running: T, partiallyRunning: T) {
    function Get(s: Status): T {
      match s
      case Offline => offline
      case Running => running
      case PartiallyRunning => partiallyRunning
    }
  }

  /**
    Total over all pairs of counts; `running` is not checked against `total`,
    so any mismatch with a non-zero total reads as partially running.
   */
  function DetermineStackStatus(total: nat, running: nat): (s: Status)
    ensures s == Offline <==> total == 0
    ensures s == Running <==> total > 0 && running == total
    ensures s == PartiallyRunning <==> total > 0 && running != total
  {
    if total == 0 then Offline
    else if running == total then Running
    else PartiallyRunning
  }

  predicate IsRunning(c: ContainerInfo) {
    c.state == "running"
  }

  /** Number of entries whose state is exactly "running". */
  function CountRunning(cs: seq<ContainerInfo>): (n: nat)
    ensures n <= |cs|
    ensures n == |cs| <==> forall i :: 0 <= i < |cs| ==> IsRunning(cs[i])
    ensures n == 0 <==> forall i :: 0 <= i < |cs| ==> !IsRunning(cs[i])
  {
    if cs == [] then 0
    else CountRunning(cs[..|cs| - 1]) + (if IsRunning(cs[|cs| - 1]) then 1 else 0)
  }

  /** The positions of the entries whose state is exactly "running". */
  function RunningPositions(cs: seq<ContainerInfo>): set<nat> {
    set i: nat | i < |cs| && IsRunning(cs[i])
  }

  /** The running count is the number of entries whose state is exactly "running". */
  lemma {:induction false} CountRunningIsCount(cs: seq<ContainerInfo>)
    ensures CountRunning(cs) == |RunningPositions(cs)|
    decreases |cs|
  {
    if cs != [] {
      var n := |cs| - 1;
      var init := cs[..n];
      CountRunningIsCount(init);
      assert n !in RunningPositions(init);
      if IsRunning(cs[n]) {
        assert RunningPositions(cs) == RunningPositions(init) + {n};
      } else {
        assert RunningPositions(cs) == RunningPositions(init);
      }
    } else {
      assert RunningPositions(cs) == {};
    }
  }

  /** A bucket is classified running iff it is non-empty and all of it runs, offline iff empty. */
  lemma BucketStatus(cs: seq<ContainerInfo>)
    ensures DetermineStackStatus(|cs|, CountRunning(cs)) == Offline <==> cs == []
    ensures DetermineStackStatus(|cs|, CountRunning(cs)) == Running <==>
              cs != [] && forall i :: 0 <= i < |cs| ==> IsRunning(cs[i])
    ensures DetermineStackStatus(|cs|, CountRunning(cs)) == PartiallyRunning <==>
              exists i :: 0 <= i < |cs| && !IsRunning(cs[i])
  {
  }
}
