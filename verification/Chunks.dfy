/**
 The greedy chunk loop shared by conversation and message emission, and why it is
 worth its name: it cuts a list into the fewest order-preserving chunks that obey
 the size bound.
 */
module Chunks {

  /** Adding items never makes a chunk fit that did not fit before. */
  ghost predicate Monotone<T(!new)>(fits: seq<T> -> bool) {
    forall a, b :: fits(a + b) ==> fits(a) && fits(b)
  }

  function Concat<T>(chunks: seq<seq<T>>): seq<T> {
    if chunks == [] then [] else chunks[0] + Concat(chunks[1..])
  }

  lemma {:induction false} ConcatJoin<T>(a: seq<seq<T>>, b: seq<seq<T>>)
    ensures Concat(a + b) == Concat(a) + Concat(b)
  {
    if a == [] {
      assert a + b == b;
    } else {
      assert (a + b)[1..] == a[1..] + b;
      ConcatJoin(a[1..], b);
    }
  }

  lemma ConcatAppend<T>(chunks: seq<seq<T>>, last: seq<T>)
    ensures Concat(chunks + [last]) == Concat(chunks) + last
  {
    ConcatJoin(chunks, [last]);
    assert [last][1..] == [];
  }

  /** A chunk the emitter may send: one item, or several that fit. */
  predicate Sendable<T>(fits: seq<T> -> bool, chunk: seq<T>) {
    |chunk| == 1 || (|chunk| > 1 && fits(chunk))
  }

  /** An order-preserving split of the items into sendable chunks. */
  predicate Split<T(==)>(fits: seq<T> -> bool, items: seq<T>, chunks: seq<seq<T>>) {
    Concat(chunks) == items && forall c :: c in chunks ==> Sendable(fits, c)
  }

  /** The chunk loop with `cur` filled so far and `rest` still to place. */
  function Greedy<T>(fits: seq<T> -> bool, cur: seq<T>, rest: seq<T>): seq<seq<T>>
    decreases rest
  {
    if rest == [] then [cur]
    else if cur != [] && !fits(cur + [rest[0]]) then [cur] + Greedy(fits, [rest[0]], rest[1..])
    else Greedy(fits, cur + [rest[0]], rest[1..])
  }

  /** The chunk loop itself. */
  method Cut<T>(fits: seq<T> -> bool, items: seq<T>) returns (chunks: seq<seq<T>>)
    ensures chunks == Greedy(fits, [], items)
  {
    var cur: seq<T> := [];
    chunks := [];
    for i := 0 to |items|
      invariant chunks + Greedy(fits, cur, items[i..]) == Greedy(fits, [], items)
    {
      var trial := cur + [items[i]];
      assert items[i..][0] == items[i] && items[i..][1..] == items[i + 1..];
      if |cur| > 0 && !fits(trial) {
        assert chunks + ([cur] + Greedy(fits, [items[i]], items[i + 1..]))
            == chunks + [cur] + Greedy(fits, [items[i]], items[i + 1..]);
        chunks, cur := chunks + [cur], [];
      }
      assert [] + [items[i]] == [items[i]];
      cur := cur + [items[i]];
    }
    chunks := chunks + [cur];
  }

  lemma {:induction false} GreedySplits<T>(fits: seq<T> -> bool, cur: seq<T>, rest: seq<T>)
    requires cur + rest != [] && (cur == [] || Sendable(fits, cur))
    ensures Split(fits, cur + rest, Greedy(fits, cur, rest))
    ensures Greedy(fits, cur, rest) != []
    decreases rest
  {
    if rest == [] {
      assert Concat([cur]) == cur + Concat([]);
    } else if cur != [] && !fits(cur + [rest[0]]) {
      GreedySplits(fits, [rest[0]], rest[1..]);
      assert [rest[0]] + rest[1..] == rest;
      assert ([cur] + Greedy(fits, [rest[0]], rest[1..]))[1..] == Greedy(fits, [rest[0]], rest[1..]);
    } else {
      GreedySplits(fits, cur + [rest[0]], rest[1..]);
      assert cur + [rest[0]] + rest[1..] == cur + rest;
    }
  }

  /**
   Starting with less in hand (a suffix of it) never costs a chunk, and dropping all but a
   suffix saves at most one.
   */
  lemma {:induction false} GreedyStaysAhead<T(!new)>(fits: seq<T> -> bool, a: seq<T>, b: seq<T>, rest: seq<T>)
    requires Monotone(fits)
    ensures b != [] ==> |Greedy(fits, b, rest)| <= |Greedy(fits, a + b, rest)|
    ensures |Greedy(fits, a + b, rest)| <= 1 + |Greedy(fits, b, rest)|
    decreases rest
  {
    if rest != [] {
      var x, tail := [rest[0]], rest[1..];
      assert a + (b + x) == a + b + x;
      GreedyStaysAhead(fits, a, b + x, tail);
      GreedyStaysAhead(fits, b, x, tail);
      assert [] + x == x;
    }
  }

  /** The first chunk of any split is taken by the greedy loop without a cut. */
  lemma {:induction false} GreedyTakes<T(!new)>(fits: seq<T> -> bool, cur: seq<T>, more: seq<T>, rest: seq<T>)
    requires Monotone(fits)
    requires |cur + more| <= 1 || fits(cur + more)
    ensures Greedy(fits, cur, more + rest) == Greedy(fits, cur + more, rest)
    decreases more
  {
    if more == [] {
      assert more + rest == rest && cur + more == cur;
    } else {
      var x, tail := [more[0]], more[1..];
      assert cur + more == cur + x + tail;
      assert (more + rest)[1..] == tail + rest;
      assert cur != [] ==> fits(cur + x);
      GreedyTakes(fits, cur + x, tail, rest);
    }
  }

  /** No split of the items into sendable chunks is shorter than the greedy one. */
  lemma {:induction false} GreedyIsOptimal<T(!new)>(fits: seq<T> -> bool, items: seq<T>, chunks: seq<seq<T>>)
    requires Monotone(fits) && items != []
    requires Split(fits, items, chunks)
    ensures |Greedy(fits, [], items)| <= |chunks|
    decreases chunks
  {
    assert chunks != [];
    var first, others := chunks[0], chunks[1..];
    var rest := Concat(others);
    assert [] + first == first && items == first + rest;
    assert first in chunks && Sendable(fits, first);
    GreedyTakes(fits, [], first, rest);
    assert forall c :: c in others ==> c in chunks;
    if rest == [] {
    } else {
      GreedyIsOptimal(fits, rest, others);
      assert first + [] == first;
      GreedyStaysAhead(fits, first, [], rest);
    }
  }
}
