/** Facts about sequences of records with an id that several modules share. */
module Collections {

  function Ids<T>(id: T -> string, items: seq<T>): set<string> {
    set i | 0 <= i < |items| :: id(items[i])
  }

  ghost predicate Distinct<T>(id: T -> string, items: seq<T>) {
    forall i, j :: 0 <= i < j < |items| ==> id(items[i]) != id(items[j])
  }

  lemma IdsCons<T>(id: T -> string, x: T, rest: seq<T>)
    ensures Ids(id, [x] + rest) == {id(x)} + Ids(id, rest)
  {
    var all := [x] + rest;
    assert all[0] == x;
    assert forall i :: 0 <= i < |rest| ==> all[i + 1] == rest[i];
    assert forall i :: 1 <= i < |all| ==> all[i] == rest[i - 1];
  }

  lemma IdsAppend<T>(id: T -> string, front: seq<T>, x: T)
    ensures Ids(id, front + [x]) == Ids(id, front) + {id(x)}
  {
    var all := front + [x];
    assert all[|front|] == x;
    assert forall i :: 0 <= i < |front| ==> all[i] == front[i];
  }

  /** Different ids are as many as the records. */
  lemma {:induction false} DistinctCount<T>(id: T -> string, items: seq<T>)
    requires Distinct(id, items)
    ensures |Ids(id, items)| == |items|
  {
    if items == [] {
      assert Ids(id, items) == {};
    } else {
      var n := |items| - 1;
      var front := items[..n];
      assert items == front + [items[n]];
      assert forall i :: 0 <= i < n ==> front[i] == items[i];
      DistinctCount(id, front);
      IdsAppend(id, front, items[n]);
      assert id(items[n]) !in Ids(id, front);
    }
  }

  lemma SubsetCount<T>(a: set<T>, b: set<T>)
    requires a <= b
    ensures |a| <= |b|
  {
    assert |b - a| == |b| - |b * a| && b * a == a;
  }

  lemma Pick<T>(items: seq<T>, x: T) returns (front: seq<T>, back: seq<T>)
    requires x in items
    ensures items == front + [x] + back && multiset(front + back) == multiset(items) - multiset{x}
  {
    var i :| 0 <= i < |items| && items[i] == x;
    front, back := items[..i], items[i + 1..];
    assert items == front + [x] + back;
  }

  lemma OthersDiffer<T>(id: T -> string, front: seq<T>, x: T, back: seq<T>)
    requires Distinct(id, front + [x] + back)
    ensures Distinct(id, front + back)
    ensures forall y :: y in front + back ==> id(y) != id(x)
  {
    var all, others := front + [x] + back, front + back;
    assert all[|front|] == x;
    assert forall i :: 0 <= i < |front| ==> others[i] == all[i];
    assert forall i :: |front| <= i < |others| ==> others[i] == all[i + 1];
  }

  lemma {:induction false} DistinctOfPermutation<T>(id: T -> string, a: seq<T>, b: seq<T>)
    requires multiset(a) == multiset(b) && Distinct(id, b)
    ensures Distinct(id, a)
  {
    if a != [] {
      assert a[0] in multiset(b);
      var front, back := Pick(b, a[0]);
      assert a == [a[0]] + a[1..];
      OthersDiffer(id, front, a[0], back);
      DistinctOfPermutation(id, a[1..], front + back);
      forall j | 1 <= j < |a|
        ensures id(a[j]) != id(a[0])
      {
        assert a[1..][j - 1] == a[j] && a[j] in multiset(a[1..]);
        assert a[j] in front + back;
      }
      assert forall i :: 1 <= i < |a| ==> a[i] == a[1..][i - 1];
    }
  }
}
