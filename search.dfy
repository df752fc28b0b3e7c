/** The first-crossing scans of computeCriticalValue and computeRejectionCentroid:
    the least index from a starting point whose value reaches a threshold. */
module Search {

  /** The least j with from <= j < |s| and s[j] >= target, or default when there is none. */
  function FirstAtLeast(s: seq<real>, target: real, from: nat, default: nat): (r: nat)
    requires from <= |s|
    ensures (exists j :: from <= j < |s| && s[j] >= target) ==>
              from <= r < |s| && s[r] >= target && forall j :: from <= j < r ==> s[j] < target
    ensures (forall j :: from <= j < |s| ==> s[j] < target) ==> r == default
    decreases |s| - from
  {
    if from == |s| then default
    else if s[from] >= target then from
    else FirstAtLeast(s, target, from + 1, default)
  }

  /** The scan loop: start at default, walk up from `from`, and break at the first
      index whose value reaches target. */
  method ScanFirstAtLeast(s: seq<real>, target: real, from: nat, default: nat) returns (r: nat)
    requires from <= |s|
    ensures r == FirstAtLeast(s, target, from, default)
  {
    r := default;
    var i := from;
    while i < |s|
      invariant from <= i <= |s|
      invariant FirstAtLeast(s, target, i, default) == FirstAtLeast(s, target, from, default)
    {
      if s[i] >= target {
        r := i;
        break;
      }
      i := i + 1;
    }
  }

  /** A lower threshold is reached no later: when the default is at or beyond every
      index, raising the target never moves the crossing to the left. */
  lemma {:induction false} FirstAtLeastMonotone(s: seq<real>, t1: real, t2: real, from: nat, default: nat)
    requires from <= |s| && |s| <= default + 1
    requires t1 <= t2
    ensures FirstAtLeast(s, t1, from, default) <= FirstAtLeast(s, t2, from, default)
    decreases |s| - from
  {
    if from < |s| && s[from] < t1 {
      FirstAtLeastMonotone(s, t1, t2, from + 1, default);
    }
  }
}
