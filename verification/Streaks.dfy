/** Unbroken streaks in a history, given what each of its entries counts as. */
module Streaks {

  /** Entry i began the streak the history ends in. */
  ghost predicate StreakBegins<L>(labels: seq<L>, i: nat) {
    && i < |labels|
    && (forall j :: i <= j < |labels| ==> labels[j] == labels[|labels| - 1])
    && (i > 0 ==> labels[i - 1] != labels[i])
  }

  lemma {:induction false} StreakExists<L>(labels: seq<L>) returns (i: nat)
    requires labels != []
    ensures StreakBegins(labels, i)
    decreases |labels|
  {
    var n := |labels| - 1;
    if n == 0 || labels[n - 1] != labels[n] {
      i := n;
    } else {
      i := StreakExists(labels[..n]);
    }
  }

  /** The streak before the last entry: the same one, if the last entry continues it. */
  lemma StreakBefore<L>(labels: seq<L>, i: nat) returns (j: nat)
    requires |labels| > 1 && StreakBegins(labels, i)
    ensures StreakBegins(labels[..|labels| - 1], j)
    ensures if labels[|labels| - 2] == labels[|labels| - 1] then j == i else i == |labels| - 1
  {
    j := StreakExists(labels[..|labels| - 1]);
    if i < |labels| - 1 { j := i; }
  }
}
