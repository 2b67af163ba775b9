/**
 What an emitted stream means to the daemon.  The helper contract describes the
 receiver: every chunk merges; a chunk marked full closes its generation and
 prunes, once, everything the generation did not list; generation zero is a group
 of one.  Here that receiver is replayed over the emitted events.
 */
module Reconciler {
  import opened Chunks
  import opened Wire
  import Emission

  /** One reconciled collection: what the daemon knows, and the ids each open generation has listed so far. */
  datatype State<K, +V> = State(known: map<K, V>, open: map<nat, set<K>>)

  /** The part of an array event the receiver acts on. */
  datatype Update<+V> = Update(items: seq<V>, full: bool, generation: nat)

  /** Records by id, the later record of one id winning. */
  function Overlay<K, V>(key: V -> K, items: seq<V>): map<K, V> {
    if items == [] then map[] else map[key(items[0]) := items[0]] + Overlay(key, items[1..])
  }

  function Restrict<K, V>(m: map<K, V>, keys: set<K>): map<K, V> {
    map k | k in m && k in keys :: m[k]
  }

  function Listed<K, V>(s: State<K, V>, generation: nat): set<K> {
    if generation != 0 && generation in s.open then s.open[generation] else {}
  }

  function Apply<K, V>(key: V -> K, s: State<K, V>, u: Update<V>): State<K, V> {
    var newer := Overlay(key, u.items);
    var merged := s.known + newer;
    var group := Listed(s, u.generation) + newer.Keys;
    if u.full then State(Restrict(merged, group), s.open - {u.generation})
    else if u.generation == 0 then State(merged, s.open)
    else State(merged, s.open[u.generation := group])
  }

  function Replay<K, V>(key: V -> K, s: State<K, V>, stream: seq<Update<V>>): State<K, V>
    decreases stream
  {
    if stream == [] then s else Replay(key, Apply(key, s, stream[0]), stream[1..])
  }

  function Items<V>(stream: seq<Update<V>>): seq<V> {
    if stream == [] then [] else stream[0].items + Items(stream[1..])
  }

  /** The items sent under one generation. */
  function ItemsOf<V>(stream: seq<Update<V>>, generation: nat): seq<V> {
    if stream == [] then []
    else (if stream[0].generation == generation then stream[0].items else []) + ItemsOf(stream[1..], generation)
  }

  lemma {:induction false} OverlayConcat<K, V>(key: V -> K, a: seq<V>, b: seq<V>)
    ensures Overlay(key, a + b) == Overlay(key, a) + Overlay(key, b)
  {
    if a == [] {
      assert a + b == b;
    } else {
      assert (a + b)[1..] == a[1..] + b;
      OverlayConcat(key, a[1..], b);
    }
  }

  lemma {:induction false} ReplayAppend<K, V>(key: V -> K, s: State<K, V>, stream: seq<Update<V>>, u: Update<V>)
    ensures Replay(key, s, stream + [u]) == Apply(key, Replay(key, s, stream), u)
    decreases stream
  {
    if stream == [] {
      assert stream + [u] == [u] && [u][1..] == [];
    } else {
      assert (stream + [u])[1..] == stream[1..] + [u];
      ReplayAppend(key, Apply(key, s, stream[0]), stream[1..], u);
    }
  }

  /** Merges of one generation and live merges, in any order: nothing is pruned while the generation is open. */
  predicate OnlyMerges<V>(stream: seq<Update<V>>, generation: nat) {
    forall i :: 0 <= i < |stream| ==>
        !stream[i].full && (stream[i].generation == 0 || stream[i].generation == generation)
  }

  lemma OverAssociates<K, V>(a: map<K, V>, b: map<K, V>, c: map<K, V>)
    ensures a + b + c == a + (b + c)
  {
  }

  lemma MergeOverlays<K, V>(key: V -> K, s: State<K, V>, u: Update<V>, generation: nat)
    requires generation != 0 && !u.full && (u.generation == 0 || u.generation == generation)
    ensures Apply(key, s, u).known == s.known + Overlay(key, u.items)
    ensures Listed(Apply(key, s, u), generation) ==
            Listed(s, generation) + Overlay(key, if u.generation == generation then u.items else []).Keys
  {
  }

  lemma {:induction false} MergesOverlay<K, V>(key: V -> K, s: State<K, V>, stream: seq<Update<V>>, generation: nat)
    requires generation != 0 && OnlyMerges(stream, generation)
    ensures Replay(key, s, stream).known == s.known + Overlay(key, Items(stream))
    ensures Listed(Replay(key, s, stream), generation)
            == Listed(s, generation) + Overlay(key, ItemsOf(stream, generation)).Keys
    decreases stream
  {
    if stream == [] {
    } else {
      var u, rest := stream[0], stream[1..];
      var mine := if u.generation == generation then u.items else [];
      MergeOverlays(key, s, u, generation);
      MergesOverlay(key, Apply(key, s, u), rest, generation);
      OverlayConcat(key, u.items, Items(rest));
      OverAssociates(s.known, Overlay(key, u.items), Overlay(key, Items(rest)));
      OverlayConcat(key, mine, ItemsOf(rest, generation));
      assert Overlay(key, ItemsOf(stream, generation)).Keys
          == Overlay(key, mine).Keys + Overlay(key, ItemsOf(rest, generation)).Keys;
    }
  }

  /** A group is open only if it was, or if the stream sent under its generation. */
  lemma {:induction false} OpenIsFromStream<K, V>(key: V -> K, s: State<K, V>, stream: seq<Update<V>>, generation: nat)
    requires generation in Replay(key, s, stream).open
    ensures generation in s.open || exists i :: 0 <= i < |stream| && stream[i].generation == generation
    decreases stream
  {
    if stream != [] {
      OpenIsFromStream(key, Apply(key, s, stream[0]), stream[1..], generation);
      assert forall i :: 0 <= i < |stream[1..]| ==> stream[1..][i] == stream[i + 1];
    }
  }

  lemma RestrictKeys<K, V>(m: map<K, V>, keys: set<K>)
    requires keys <= m.Keys
    ensures Restrict(m, keys).Keys == keys
  {
  }

  /**
   The close, with any live merges in between: the daemon ends with exactly the ids
   the generation listed, including those a stale group of the same number had left open.
   */
  lemma CloseLeavesTheGroup<K, V>(key: V -> K, s: State<K, V>, stream: seq<Update<V>>, last: Update<V>)
    requires last.full && last.generation != 0 && OnlyMerges(stream, last.generation)
    ensures var t := Replay(key, s, stream + [last]);
            var ids := Overlay(key, ItemsOf(stream, last.generation) + last.items).Keys;
            && t.known == Restrict(s.known + Overlay(key, Items(stream) + last.items), Listed(s, last.generation) + ids)
            && (Listed(s, last.generation) == {} ==> t.known.Keys == ids)
  {
    var g := last.generation;
    var open := Replay(key, s, stream);
    var newer, mine := Overlay(key, last.items), Overlay(key, ItemsOf(stream, g));
    MergesOverlay(key, s, stream, g);
    ReplayAppend(key, s, stream, last);
    OverlayConcat(key, Items(stream), last.items);
    OverAssociates(s.known, Overlay(key, Items(stream)), newer);
    OverlayConcat(key, ItemsOf(stream, g), last.items);
    var ids := Overlay(key, ItemsOf(stream, g) + last.items).Keys;
    assert ids == mine.Keys + newer.Keys;
    assert Listed(open, g) + newer.Keys == Listed(s, g) + ids;
    GroupIsPartOfStream(key, stream, g);
    if Listed(s, g) == {} {
      RestrictKeys(s.known + Overlay(key, Items(stream) + last.items), ids);
    }
  }

  lemma {:induction false} GroupIsPartOfStream<K, V>(key: V -> K, stream: seq<Update<V>>, generation: nat)
    ensures Overlay(key, ItemsOf(stream, generation)).Keys <= Overlay(key, Items(stream)).Keys
  {
    if stream != [] {
      var u, rest := stream[0], stream[1..];
      GroupIsPartOfStream(key, rest, generation);
      OverlayConcat(key, u.items, Items(rest));
      OverlayConcat(key, if u.generation == generation then u.items else [], ItemsOf(rest, generation));
    }
  }

  // ---------- the emitted groups ----------

  /** What both emitters send for a list cut into chunks. */
  function Grouped<V>(chunks: seq<seq<V>>, full: bool, generation: nat): seq<Update<V>> {
    if chunks == [] then [Update([], full, 0)]
    else seq(|chunks|, i requires 0 <= i < |chunks| => Update(chunks[i], full && i == |chunks| - 1, generation))
  }

  function ThreadUpdates<C, M>(events: seq<Event<C, M>>): seq<Update<C>>
    requires forall i :: 0 <= i < |events| ==> events[i].Conversations?
  {
    seq(|events|, i requires 0 <= i < |events| => Update(events[i].threads, events[i].full, events[i].generation))
  }

  function WindowUpdates<C, M>(events: seq<Event<C, M>>): seq<Update<M>>
    requires forall i :: 0 <= i < |events| ==> events[i].Messages?
  {
    seq(|events|, i requires 0 <= i < |events| => Update(events[i].messages, events[i].full, events[i].generation))
  }

  lemma ThreadEventsAreGrouped<C, M>(chunks: seq<seq<C>>, generation: nat, authoritative: bool)
    ensures var events: seq<Event<C, M>> := Emission.ThreadEvents(chunks, generation, authoritative);
            && (forall i :: 0 <= i < |events| ==> events[i].Conversations?)
            && ThreadUpdates(events) ==
               Grouped(chunks, authoritative, if authoritative && |chunks| > 1 then generation else 0)
  {
  }

  lemma WindowEventsAreGrouped<C, M>(conversation: string, chunks: seq<seq<M>>, full: bool, generation: nat,
                                     cursor: string, fetchID: nat)
    ensures var events: seq<Event<C, M>> := Emission.WindowEvents(conversation, chunks, full, generation, cursor,
            fetchID);
            && (forall i :: 0 <= i < |events| ==> events[i].Messages?)
            && WindowUpdates(events) == Grouped(chunks, full, generation)
  {
  }

  lemma {:induction false} MergeGroupItems<V>(chunks: seq<seq<V>>, generation: nat)
    ensures var stream := seq(|chunks|, i requires 0 <= i < |chunks| => Update(chunks[i], false, generation));
            Items(stream) == Concat(chunks) && ItemsOf(stream, generation) == Concat(chunks)
  {
    var stream := seq(|chunks|, i requires 0 <= i < |chunks| => Update(chunks[i], false, generation));
    if chunks != [] {
      var n := |chunks| - 1;
      assert stream[1..] == seq(n, i requires 0 <= i < n => Update(chunks[1..][i], false, generation));
      MergeGroupItems(chunks[1..], generation);
    }
  }

  /**
   While the group is open, and for a group that is never closed, its records are laid over the
   prior state and no id is lost.
   */
  lemma OpenGroupOverlays<K, V>(key: V -> K, s: State<K, V>, chunks: seq<seq<V>>, full: bool, generation: nat, k: nat)
    requires k <= |Grouped(chunks, full, generation)| && (k < |Grouped(chunks, full, generation)| || !full)
    requires full && |chunks| > 1 ==> generation != 0
    ensures Replay(key, s, Grouped(chunks, full, generation)[..k]).known
            == s.known + Overlay(key, Concat(chunks[..if chunks == [] then 0 else k]))
  {
    if chunks != [] {
      var stream := seq(k, i requires 0 <= i < k => Update(chunks[..k][i], false, generation));
      assert Grouped(chunks, full, generation)[..k] == stream;
      MergeGroupItems(chunks[..k], generation);
      if generation == 0 {
        MergesOverlay(key, s, stream, 1);
      } else {
        MergesOverlay(key, s, stream, generation);
      }
    }
  }

  /**
   A closed group: the daemon keeps exactly what the group listed, and what a stale open group
   of its number still claims.
   */
  lemma ClosedGroupReplaces<K, V>(key: V -> K, s: State<K, V>, chunks: seq<seq<V>>, generation: nat)
    requires |chunks| > 1 ==> generation != 0
    ensures var listed := Overlay(key, Concat(chunks));
            var group := if chunks == [] then 0 else generation;
            Replay(key, s, Grouped(chunks, true, generation)).known
                == Restrict(s.known + listed, Listed(s, group) + listed.Keys)
  {
    if |chunks| > 0 {
      var n := |chunks| - 1;
      var stream := seq(n, i requires 0 <= i < n => Update(chunks[..n][i], false, generation));
      var last := Update(chunks[n], true, generation);
      assert Grouped(chunks, true, generation) == stream + [last];
      MergeGroupItems(chunks[..n], generation);
      assert chunks == chunks[..n] + [chunks[n]];
      ConcatAppend(chunks[..n], chunks[n]);
      if generation == 0 {
        assert stream + [last] == [last] && [last][1..] == [];
        assert Replay(key, s, [last]) == Apply(key, s, last);
        assert chunks[..n] + [chunks[n]] == [chunks[0]] && Concat(chunks) == chunks[0];
      } else {
        CloseLeavesTheGroup(key, s, stream, last);
      }
    }
  }

  /**
   The daemon ends with exactly the listed records if and only if no stale open group of that
   number still claims another known id.
   */
  lemma ClosedGroupIsExact<K, V>(key: V -> K, s: State<K, V>, chunks: seq<seq<V>>, generation: nat)
    requires |chunks| > 1 ==> generation != 0
    ensures var listed := Overlay(key, Concat(chunks));
            var group := if chunks == [] then 0 else generation;
            Replay(key, s, Grouped(chunks, true, generation)).known == listed
            <==> forall k :: k in Listed(s, group) && k in s.known ==> k in listed
  {
    ClosedGroupReplaces(key, s, chunks, generation);
    var listed := Overlay(key, Concat(chunks));
    var group := if chunks == [] then 0 else generation;
    var end := Replay(key, s, Grouped(chunks, true, generation)).known;
    if end == listed {
      forall k | k in Listed(s, group) && k in s.known
        ensures k in listed
      {
        assert k in end;
      }
    }
  }

  lemma {:induction false} ReplayConcat<K, V>(key: V -> K, s: State<K, V>, a: seq<Update<V>>, b: seq<Update<V>>)
    ensures Replay(key, s, a + b) == Replay(key, Replay(key, s, a), b)
    decreases a
  {
    if a == [] {
      assert a + b == b;
    } else {
      assert (a + b)[1..] == a[1..] + b;
      ReplayConcat(key, Apply(key, s, a[0]), a[1..], b);
    }
  }

  /** The ids a cut-short group leaves claimed. */
  lemma CutShortClaims<K, V>(key: V -> K, s: State<K, V>, chunks: seq<seq<V>>, generation: nat, k: nat)
    requires generation != 0 && k < |chunks| && Listed(s, generation) == {}
    ensures var t := Replay(key, s, Grouped(chunks, true, generation)[..k]);
            && Listed(t, generation) == Overlay(key, Concat(chunks[..k])).Keys
            && t.known == s.known + Overlay(key, Concat(chunks[..k]))
  {
    var stream := seq(k, i requires 0 <= i < k => Update(chunks[..k][i], false, generation));
    assert Grouped(chunks, true, generation)[..k] == stream;
    MergeGroupItems(chunks[..k], generation);
    MergesOverlay(key, s, stream, generation);
  }

  /**
   A sync cut short after k chunks, and then a whole sync that reuses its generation, as
   the first multi-chunk sync of a restarted adapter does: the ids the cut-short one had
   sent stay, listed or not.
   */
  lemma RestartKeepsCutShort<K, V>(key: V -> K, s: State<K, V>, cut: seq<seq<V>>, k: nat, chunks: seq<seq<V>>,
                                   generation: nat)
    requires generation != 0 && k < |cut| && |chunks| > 1 && Listed(s, generation) == {}
    ensures var stream := Grouped(cut, true, generation)[..k] + Grouped(chunks, true, generation);
            Replay(key, s, stream).known.Keys == Overlay(key, Concat(cut[..k])).Keys + Overlay(key, Concat(chunks)).Keys
  {
    var t := Replay(key, s, Grouped(cut, true, generation)[..k]);
    ReplayConcat(key, s, Grouped(cut, true, generation)[..k], Grouped(chunks, true, generation));
    CutShortClaims(key, s, cut, generation, k);
    ClosedGroupReplaces(key, t, chunks, generation);
  }

  /** So a thread that is gone survives a full sync that does not list it. */
  lemma GoneThreadSurvives() returns (cut: seq<seq<string>>, chunks: seq<seq<string>>)
    ensures var stream := Grouped(cut, true, 1)[..1] + Grouped(chunks, true, 1);
            "gone" in Replay((id: string) => id, State(map[], map[]), stream).known && "gone" !in Concat(chunks)
  {
    cut, chunks := [["gone"], ["a"]], [["a"], ["b"]];
    var key := (id: string) => id;
    RestartKeepsCutShort(key, State(map[], map[]), cut, 1, chunks, 1);
    assert cut[..1] == [["gone"]] && [["gone"]][1..] == [] && Concat(cut[..1]) == ["gone"];
    assert "gone" in Overlay(key, ["gone"]);
    assert Concat(chunks) == ["a", "b"] by {
      assert chunks[1..] == [["b"]] && [["b"]][1..] == [];
    }
  }

  /**
   A message window, whatever its number of chunks: a full one replaces the window
   (up to what a stale open group of its number claims), a history page is laid over it.
   */
  lemma WindowMeaning<C, M(!new), K>(key: M -> K, s: State<K, M>, r: Render<C, M>, account: string,
                           conversation: string,
                                     messages: seq<M>, full: bool, generation: nat, cursor: string, fetchID: nat)
    requires var chunks := Emission.WindowChunks(r, account, conversation, messages, full);
             if full && |chunks| > 1 then generation != 0 else generation == 0
    ensures var events: seq<Event<C, M>> := Emission.WindowEvents(conversation,
            Emission.WindowChunks(r, account, conversation, messages, full),
                                                                  full, generation, cursor, fetchID);
            var listed := Overlay(key, messages);
            && (forall i :: 0 <= i < |events| ==> events[i].Messages?)
            && var end := Replay(key, s, WindowUpdates(events)).known;
               if full then end == Restrict(s.known + listed, Listed(s, generation) + listed.Keys)
                   else end == s.known + listed
  {
    var chunks := Emission.WindowChunks(r, account, conversation, messages, full);
    if messages != [] {
      GreedySplits(Emission.MessageTrial(r, account, conversation, full), [], messages);
      assert [] + messages == messages;
    }
    assert Concat(chunks) == messages;
    WindowEventsAreGrouped<C, M>(conversation, chunks, full, generation, cursor, fetchID);
    if full {
      ClosedGroupReplaces(key, s, chunks, generation);
    } else {
      var stream := Grouped(chunks, false, 0);
      OpenGroupOverlays(key, s, chunks, false, 0, |stream|);
      assert stream[..|stream|] == stream && chunks[..|chunks|] == chunks;
    }
  }
}
