/**
 Groups that interleave.  Window refreshes run outside the sync lock, so that the chunks
 of two full windows of one conversation may alternate, and one group may close while
 another is open.  Here the receiver is replayed over arbitrary streams: which ids it
 knows in the end, and when the group that closes last is there in full.
 */
module Interleaving {
  import opened Reconciler

  ghost predicate Lists<K, V>(key: V -> K, u: Update<V>, k: K) {
    k in Overlay(key, u.items)
  }

  /** The ids the group of update q has listed, update q included. */
  ghost function GroupAt<K, V>(key: V -> K, s: State<K, V>, stream: seq<Update<V>>, q: nat): set<K>
    requires q < |stream|
  {
    Listed(Replay(key, s, stream[..q]), stream[q].generation) + Overlay(key, stream[q].items).Keys
  }

  /** Update q closes a group that does not list id k. */
  ghost predicate Prunes<K, V>(key: V -> K, s: State<K, V>, stream: seq<Update<V>>, q: nat, k: K)
    requires q < |stream|
  {
    stream[q].full && k !in GroupAt(key, s, stream, q)
  }

  ghost predicate Unpruned<K(!new), V(!new)>(key: V -> K, s: State<K, V>, stream: seq<Update<V>>, from: nat, k: K) {
    forall q: nat :: from <= q < |stream| ==> !Prunes(key, s, stream, q, k)
  }

  /** An id was known or listed, and no group closed without it since. */
  ghost predicate Survives<K(!new), V(!new)>(key: V -> K, s: State<K, V>, stream: seq<Update<V>>, k: K) {
    || (k in s.known && Unpruned(key, s, stream, 0, k))
    || (exists p: nat :: p < |stream| && Lists(key, stream[p], k) && Unpruned(key, s, stream, p + 1, k))
  }

  lemma UnprunedAppend<K(!new), V(!new)>(key: V -> K, s: State<K, V>, stream: seq<Update<V>>, u: Update<V>,
                                         from: nat, k: K)
    requires from <= |stream|
    ensures Unpruned(key, s, stream + [u], from, k) <==>
            && Unpruned(key, s, stream, from, k)
            && (u.full ==> k in Listed(Replay(key, s, stream), u.generation) || Lists(key, u, k))
  {
    var longer := stream + [u];
    assert longer[..|stream|] == stream && longer[|stream|] == u;
    forall q: nat | q < |stream|
      ensures Prunes(key, s, longer, q, k) <==> Prunes(key, s, stream, q, k)
    {
      assert longer[..q] == stream[..q] && longer[q] == stream[q];
    }
    assert Prunes(key, s, longer, |stream|, k) <==>
           u.full && !(k in Listed(Replay(key, s, stream), u.generation) || Lists(key, u, k));
  }

  lemma SurvivesAppend<K(!new), V(!new)>(key: V -> K, s: State<K, V>, stream: seq<Update<V>>, u: Update<V>, k: K)
    ensures Survives(key, s, stream + [u], k) <==>
            || Lists(key, u, k)
            || (Survives(key, s, stream, k) && (u.full ==> k in Listed(Replay(key, s, stream), u.generation)))
  {
    var longer := stream + [u];
    UnprunedAppend(key, s, stream, u, 0, k);
    forall p: nat | p < |stream|
      ensures longer[p] == stream[p]
      ensures Unpruned(key, s, longer, p + 1, k) <==>
              && Unpruned(key, s, stream, p + 1, k)
              && (u.full ==> k in Listed(Replay(key, s, stream), u.generation) || Lists(key, u, k))
    {
      UnprunedAppend(key, s, stream, u, p + 1, k);
    }
    if Lists(key, u, k) {
      assert longer[|stream|] == u && Unpruned(key, s, longer, |stream| + 1, k);
    }
  }

  /** After any stream the receiver knows exactly the ids that survive. */
  lemma {:induction false} KnownExactly<K(!new), V(!new)>(key: V -> K, s: State<K, V>, stream: seq<Update<V>>, k: K)
    ensures k in Replay(key, s, stream).known <==> Survives(key, s, stream, k)
    decreases |stream|
  {
    if stream == [] {
    } else {
      var front, u := stream[..|stream| - 1], stream[|stream| - 1];
      assert stream == front + [u];
      KnownExactly(key, s, front, k);
      ReplayAppend(key, s, front, u);
      SurvivesAppend(key, s, front, u, k);
    }
  }

  /** A group that was not closed has listed what it sent, whatever else happened. */
  lemma {:induction false} OpenGroupLists<K(!new), V(!new)>(key: V -> K, s: State<K, V>, stream: seq<Update<V>>,
                                                            generation: nat)
    requires generation != 0
    requires forall i :: 0 <= i < |stream| ==> !(stream[i].full && stream[i].generation == generation)
    ensures Listed(Replay(key, s, stream), generation)
            == Listed(s, generation) + Overlay(key, ItemsOf(stream, generation)).Keys
    decreases stream
  {
    if stream != [] {
      var u, rest := stream[0], stream[1..];
      var mine := if u.generation == generation then u.items else [];
      assert forall i :: 0 <= i < |rest| ==> rest[i] == stream[i + 1];
      OpenGroupLists(key, Apply(key, s, u), rest, generation);
      OverlayConcat(key, mine, ItemsOf(rest, generation));
      assert Listed(Apply(key, s, u), generation) == Listed(s, generation) + Overlay(key, mine).Keys;
    }
  }

  /**
   The group that closes last, whatever interleaved with it: the receiver ends with ids of
   that group only, and with all of them if and only if each is in the closing chunk or
   survived every close in between.
   */
  lemma LastCloseIsComplete<K(!new), V(!new)>(key: V -> K, s: State<K, V>, stream: seq<Update<V>>, last: Update<V>)
    requires last.full && last.generation != 0
    requires forall i :: 0 <= i < |stream| ==> !(stream[i].full && stream[i].generation == last.generation)
    ensures var ids := Listed(s, last.generation) + Overlay(key, ItemsOf(stream, last.generation) + last.items).Keys;
            var end := Replay(key, s, stream + [last]).known;
            && end.Keys <= ids
            && (end.Keys == ids <==> forall k :: k in ids ==> Lists(key, last, k) || Survives(key, s, stream, k))
  {
    var g := last.generation;
    var mine := Overlay(key, ItemsOf(stream, g)).Keys;
    ReplayAppend(key, s, stream, last);
    OpenGroupLists(key, s, stream, g);
    OverlayConcat(key, ItemsOf(stream, g), last.items);
    var ids := Listed(s, g) + Overlay(key, ItemsOf(stream, g) + last.items).Keys;
    var end := Replay(key, s, stream + [last]).known;
    assert ids == Listed(s, g) + mine + Overlay(key, last.items).Keys;
    forall k
      ensures k in end <==> k in ids && (Lists(key, last, k) || Survives(key, s, stream, k))
    {
      KnownExactly(key, s, stream, k);
    }
  }

  /**
   In particular it is complete when no other group closes between its first chunk and its
   own close: windows that do not alternate do not lose anything.
   */
  lemma UninterruptedIsComplete<K(!new), V(!new)>(key: V -> K, s: State<K, V>, before: seq<Update<V>>,
                                                  during: seq<Update<V>>, last: Update<V>)
    requires last.full && last.generation != 0 && Listed(s, last.generation) == {}
    requires forall i :: 0 <= i < |before| ==> before[i].generation != last.generation
    requires forall i :: 0 <= i < |during| ==> !during[i].full
    ensures Replay(key, s, before + during + [last]).known.Keys
            == Overlay(key, ItemsOf(during, last.generation) + last.items).Keys
  {
    var g, stream := last.generation, before + during;
    ItemsOfConcat(before, during, g);
    NoneOf(before, g);
    assert [] + ItemsOf(during, g) == ItemsOf(during, g);
    NotClosed(before, during, g);
    LastCloseIsComplete(key, s, stream, last);
    OverlayConcat(key, ItemsOf(during, g), last.items);
    forall k | k in Overlay(key, ItemsOf(during, g))
      ensures Survives(key, s, stream, k)
    {
      ListedLateSurvives(key, s, before, during, g, k);
    }
  }

  lemma NotClosed<V>(before: seq<Update<V>>, during: seq<Update<V>>, generation: nat)
    requires forall i :: 0 <= i < |before| ==> before[i].generation != generation
    requires forall i :: 0 <= i < |during| ==> !during[i].full
    ensures var stream := before + during;
            forall i :: 0 <= i < |stream| ==> !(stream[i].full && stream[i].generation == generation)
  {
  }

  /** What is listed after the last close survives. */
  lemma ListedLateSurvives<K(!new), V(!new)>(key: V -> K, s: State<K, V>, before: seq<Update<V>>,
                                             during: seq<Update<V>>, generation: nat, k: K)
    requires forall i :: 0 <= i < |during| ==> !during[i].full
    requires k in Overlay(key, ItemsOf(during, generation))
    ensures Survives(key, s, before + during, k)
  {
    var stream := before + during;
    var p := Listing(key, during, generation, k);
    var at := |before| + p;
    assert stream[at] == during[p];
    forall q: nat | at + 1 <= q < |stream|
      ensures !Prunes(key, s, stream, q, k)
    {
      assert stream[q] == during[q - |before|];
    }
    assert Unpruned(key, s, stream, at + 1, k);
  }

  lemma {:induction false} ItemsOfConcat<V>(a: seq<Update<V>>, b: seq<Update<V>>, generation: nat)
    ensures ItemsOf(a + b, generation) == ItemsOf(a, generation) + ItemsOf(b, generation)
  {
    if a == [] {
      assert a + b == b;
    } else {
      assert (a + b)[1..] == a[1..] + b;
      ItemsOfConcat(a[1..], b, generation);
    }
  }

  lemma {:induction false} NoneOf<V>(stream: seq<Update<V>>, generation: nat)
    requires forall i :: 0 <= i < |stream| ==> stream[i].generation != generation
    ensures ItemsOf(stream, generation) == []
  {
    if stream != [] {
      assert forall i :: 0 <= i < |stream[1..]| ==> stream[1..][i] == stream[i + 1];
      NoneOf(stream[1..], generation);
    }
  }

  lemma {:induction false} Listing<K(!new), V(!new)>(key: V -> K, stream: seq<Update<V>>, generation: nat, k: K)
    returns (p: nat)
    requires k in Overlay(key, ItemsOf(stream, generation))
    ensures p < |stream| && Lists(key, stream[p], k)
  {
    var u, rest := stream[0], stream[1..];
    OverlayConcat(key, if u.generation == generation then u.items else [], ItemsOf(rest, generation));
    if Lists(key, u, k) {
      p := 0;
    } else {
      var n := Listing(key, rest, generation, k);
      p := n + 1;
    }
  }

  function Pair(generation: nat, id: string, full: bool): Update<string> {
    Update([id], full, generation)
  }

  function Same(id: string): string {
    id
  }

  const OPEN: State<string, string> := State(map["x" := "x", "y" := "y"], map[2 := {"x"}, 1 := {"y"}])
  const HALF: State<string, string> := State(map["y" := "y", "v" := "v"], map[2 := {"x"}])

  lemma Singleton(id: string)
    ensures Overlay(Same, [id]) == map[id := id]
  {
    assert [id][1..] == [];
  }

  /** Both groups open. */
  lemma BothOpen()
    ensures Apply(Same, Apply(Same, State(map[], map[]), Pair(2, "x", false)), Pair(1, "y", false)) == OPEN
  {
    Singleton("x");
    Singleton("y");
    var none: State<string, string> := State(map[], map[]);
    var one := Apply(Same, none, Pair(2, "x", false));
    assert one.known == map["x" := "x"];
    assert one.open[2] == {"x"} && one.open == map[2 := {"x"}];
    var two := Apply(Same, one, Pair(1, "y", false));
    assert two.known == OPEN.known;
    assert two.open[1] == {"y"} && two.open == OPEN.open;
  }

  /** The first close prunes what only the other group listed. */
  lemma FirstCloses()
    ensures Apply(Same, OPEN, Pair(1, "v", true)) == HALF
  {
    Singleton("v");
    var merged := OPEN.known + map["v" := "v"];
    assert merged.Keys == {"x", "y", "v"};
    assert Restrict(merged, {"y"} + {"v"}) == HALF.known;
    assert OPEN.open - {1} == HALF.open;
  }

  lemma SecondCloses()
    ensures Apply(Same, HALF, Pair(2, "z", true)).known == map["z" := "z"]
  {
    Singleton("z");
  }

  lemma FirstThree()
    ensures Replay(Same, State(map[], map[]), [Pair(2, "x", false), Pair(1, "y", false), Pair(1, "v", true)]) == HALF
  {
    var a, b, c := Pair(2, "x", false), Pair(1, "y", false), Pair(1, "v", true);
    var start: State<string, string> := State(map[], map[]);
    BothOpen();
    FirstCloses();
    assert [a, b, c][1..] == [b, c] && [b, c][1..] == [c] && [c][1..] == [];
    assert Replay(Same, OPEN, [c]) == Apply(Same, OPEN, c);
    assert Replay(Same, Apply(Same, start, a), [b, c]) == Replay(Same, OPEN, [c]);
  }

  lemma SecondLists()
    ensures ItemsOf([Pair(2, "x", false), Pair(1, "y", false), Pair(1, "v", true)], 2) == ["x"]
  {
    var a, b, c := Pair(2, "x", false), Pair(1, "y", false), Pair(1, "v", true);
    assert [a, b, c][1..] == [b, c] && [b, c][1..] == [c] && [c][1..] == [];
    assert ItemsOf([c], 2) == [] && ItemsOf([b, c], 2) == [];
  }

  /** Two windows that alternate: the second group lists x, closes last, and x is not known. */
  lemma InterleavedWindowLosesX()
    ensures var stream := [Pair(2, "x", false), Pair(1, "y", false), Pair(1, "v", true)];
            var end := Replay(Same, State(map[], map[]), stream + [Pair(2, "z", true)]).known;
            ItemsOf(stream, 2) == ["x"] && "x" !in end && "z" in end
  {
    var stream := [Pair(2, "x", false), Pair(1, "y", false), Pair(1, "v", true)];
    FirstThree();
    SecondLists();
    SecondCloses();
    ReplayAppend(Same, State(map[], map[]), stream, Pair(2, "z", true));
  }
}
