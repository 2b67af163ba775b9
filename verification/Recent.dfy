/** The most recent part of a log: what the bounded stores are compared with. */
module Recent {

  function Last<T>(log: seq<T>, n: nat): seq<T> {
    if |log| <= n then log else log[|log| - n..]
  }

  /** Appending to the kept part and trimming it is the same as trimming the whole log. */
  lemma LastAppend<T>(log: seq<T>, n: nat, x: T)
    ensures Last(log + [x], n) == Last(Last(log, n) + [x], n)
  {
    var kept := Last(log, n);
    if |log| > n {
      assert log + [x] == log[..|log| - n] + (kept + [x]);
    }
  }

  /** An element stays among the last n until n more have come. */
  lemma StaysUntilPushedOut<T>(log: seq<T>, n: nat, i: nat)
    requires i < |log|
    ensures |log| - i <= n ==> log[i] in Last(log, n)
    ensures (forall j :: 0 <= j < |log| && j != i ==> log[j] != log[i]) && |log| - i > n ==> log[i] !in Last(log, n)
  {
    var kept := Last(log, n);
    if |log| - i <= n {
      assert kept[i - (|log| - |kept|)] == log[i];
    }
  }
}
