/**
 One sync from end to end: what the relay lists, what the workers make of it, what is
 emitted, and what the daemon knows afterwards.
 */
module FullSync {
  import Collections
  import opened Wire
  import Participants
  import Threads
  import Paging
  import Pool
  import Chunks
  import Emission
  import Reconciler
  import Counter

  type Thread = Participants.Conversation
  type Row = Participants.RelayConversation
  type Results = seq<Pool.Slot<Threads.Mapping>>

  function RowID(row: Row): string {
    row.id
  }

  function ThreadID(thread: Thread): string {
    thread.localID
  }

  /** What a worker makes of index i. */
  function Handler(rows: seq<Row>): (nat, Threads.Meeting) -> Pool.Slot<Threads.Mapping> {
    (i: nat, m: Threads.Meeting) => if i < |rows| then Threads.Outcome(rows[i], m) else Pool.Empty
  }

  function Mapped(found: seq<Threads.Mapping>): seq<Thread> {
    seq(|found|, i requires 0 <= i < |found| => found[i].thread)
  }

  function Unread(found: seq<Threads.Mapping>): map<string, bool> {
    if found == [] then map[]
    else Unread(found[..|found| - 1])[found[|found| - 1].thread.localID := found[|found| - 1].unread]
  }

  function Events<M>(r: Render<Thread, M>, account: string, found: seq<Threads.Mapping>, generation: nat,
                     complete: bool): seq<Event<Thread, M>> {
    Emission.ThreadEvents(Emission.ThreadChunks(r, account, Mapped(found)), generation, complete)
  }

  method CollectThreads(results: Results) returns (threads: seq<Thread>)
    ensures threads == Mapped(Pool.Collected(results))
  {
    threads := [];
    for i := 0 to |results|
      invariant threads == Mapped(Pool.Collected(results[..i]))
    {
      assert results[..i + 1][..i] == results[..i];
      if results[i].Filled? {
        threads := threads + [results[i].value.thread];
      }
    }
    assert results[..|results|] == results;
  }

  method CollectUnreads(results: Results) returns (unreads: map<string, bool>)
    ensures unreads == Unread(Pool.Collected(results))
  {
    unreads := map[];
    for i := 0 to |results|
      invariant unreads == Unread(Pool.Collected(results[..i]))
    {
      assert results[..i + 1][..i] == results[..i];
      if results[i].Filled? {
        ghost var found := Pool.Collected(results[..i]) + [results[i].value];
        assert found[..|found| - 1] == Pool.Collected(results[..i]);
        assert found == Pool.Collected(results[..i + 1]);
        unreads := unreads[results[i].value.thread.localID := results[i].value.unread];
      } else {
        assert Pool.Collected(results[..i + 1]) == Pool.Collected(results[..i]);
      }
    }
    assert results[..|results|] == results;
  }

  /** The half of fullSyncLocked after the workers joined. */
  method Publish<M(!new)>(out: Emission.Outbox<Thread, M>, results: Results, capped: bool, skipped: nat, retired: bool)
    returns (published: bool, threads: seq<Thread>, unreads: map<string, bool>, complete: bool)
    modifies out
    ensures published == !retired
    ensures retired ==> out.sent == old(out.sent) && out.syncGen == old(out.syncGen)
    ensures !retired ==>
      && threads == Mapped(Pool.Collected(results))
      && unreads == Unread(Pool.Collected(results))
      && complete == (!capped && skipped == 0)
      && out.syncGen == Counter.Bump(old(out.syncGen))
      && var events := Events(out.render, out.account, Pool.Collected(results), out.syncGen, complete);
         out.sent == old(out.sent) + events[..Emission.Min(old(out.untilClose), |events|)]
  {
    threads := CollectThreads(results);
    if retired {
      return false, [], map[], false;
    }
    complete := !capped && skipped == 0;
    var generation := out.NextGeneration();
    out.EmitConversations(threads, generation, complete);
    unreads := CollectUnreads(results);
    published := true;
  }

  /** The daemon's thread list after a stream of thread events. */
  function Daemon<M>(s: Reconciler.State<string, Thread>, events: seq<Event<Thread, M>>)
    : Reconciler.State<string, Thread>
    requires forall i :: 0 <= i < |events| ==> events[i].Conversations?
  {
    Reconciler.Replay(ThreadID, s, Reconciler.ThreadUpdates(events))
  }

  function Listing(found: seq<Threads.Mapping>): map<string, Thread> {
    Reconciler.Overlay(ThreadID, Mapped(found))
  }

  lemma {:induction false} CutKeepsThreads<M>(r: Render<Thread, M>, account: string, threads: seq<Thread>)
    ensures Chunks.Concat(Emission.ThreadChunks(r, account, threads)) == threads
  {
    if threads != [] {
      Chunks.GreedySplits(Emission.ThreadTrial(r, account), [], threads);
      assert [] + threads == threads;
    }
  }

  /**
   A sync whose lines all arrive: a complete one leaves exactly the mapped threads, as
   long as no stale open group of the same number claims another known thread; an
   incomplete one is laid over what was there.
   */
  lemma SyncMeaning<M>(r: Render<Thread, M>, account: string, found: seq<Threads.Mapping>, generation: nat,
                       complete: bool,
                       s: Reconciler.State<string, Thread>)
    requires generation != 0
    ensures var events := Events(r, account, found, generation, complete);
            && (forall i :: 0 <= i < |events| ==> events[i].Conversations?)
            && (!complete ==> Daemon(s, events).known == s.known + Listing(found))
            && (complete && (forall k :: k in Reconciler.Listed(s, generation) && k in s.known ==> k in Listing(found))
                ==> Daemon(s, events).known == Listing(found))
  {
    var chunks := Emission.ThreadChunks(r, account, Mapped(found));
    CutKeepsThreads(r, account, Mapped(found));
    Reconciler.ThreadEventsAreGrouped<Thread, M>(chunks, generation, complete);
    var group := if complete && |chunks| > 1 then generation else 0;
    if complete {
      Reconciler.ClosedGroupIsExact(ThreadID, s, chunks, group);
    } else {
      var stream := Reconciler.Grouped(chunks, false, 0);
      Reconciler.OpenGroupOverlays(ThreadID, s, chunks, false, 0, |stream|);
      assert stream[..|stream|] == stream && chunks[..|chunks|] == chunks;
    }
  }

  /** A sync cut short by a close, at any line before the last: nothing the daemon knew is lost. */
  lemma CutShortLosesNothing<M>(r: Render<Thread, M>, account: string, found: seq<Threads.Mapping>, generation: nat,
                                complete: bool,
                                s: Reconciler.State<string, Thread>, k: nat)
    requires generation != 0
    requires k < |Events(r, account, found, generation, complete)|
    ensures var events := Events(r, account, found, generation, complete)[..k];
            && (forall i :: 0 <= i < |events| ==> events[i].Conversations?)
            && s.known.Keys <= Daemon(s, events).known.Keys <= s.known.Keys + Listing(found).Keys
  {
    var events := Events(r, account, found, generation, complete);
    var chunks := Emission.ThreadChunks(r, account, Mapped(found));
    CutKeepsThreads(r, account, Mapped(found));
    Reconciler.ThreadEventsAreGrouped<Thread, M>(chunks, generation, complete);
    var group := if complete && |chunks| > 1 then generation else 0;
    var stream := Reconciler.Grouped(chunks, complete, group);
    assert Reconciler.ThreadUpdates(events[..k]) == stream[..k];
    Reconciler.OpenGroupOverlays(ThreadID, s, chunks, complete, group, k);
    if chunks != [] {
      assert chunks == chunks[..k] + chunks[k..];
      Chunks.ConcatJoin(chunks[..k], chunks[k..]);
      Reconciler.OverlayConcat(ThreadID, Chunks.Concat(chunks[..k]), Chunks.Concat(chunks[k..]));
    }
  }

  lemma {:induction false} OverlayKeys(threads: seq<Thread>, id: string)
    ensures id in Reconciler.Overlay(ThreadID, threads) <==> exists i :: 0 <= i < |threads| && threads[i].localID == id
  {
    if threads != [] {
      OverlayKeys(threads[1..], id);
      assert forall i :: 1 <= i < |threads| ==> threads[1..][i - 1] == threads[i];
      if exists i :: 0 <= i < |threads[1..]| && threads[1..][i].localID == id {
        var i :| 0 <= i < |threads[1..]| && threads[1..][i].localID == id;
        assert threads[i + 1].localID == id;
      }
    }
  }

  /** With ids pairwise different, an overlay holds each record under its id. */
  lemma {:induction false} OverlayAt(threads: seq<Thread>, i: nat)
    requires Collections.Distinct(ThreadID, threads) && i < |threads|
    ensures var known := Reconciler.Overlay(ThreadID, threads);
            threads[i].localID in known && known[threads[i].localID] == threads[i]
  {
    var rest := threads[1..];
    assert forall k :: 0 <= k < |rest| ==> rest[k] == threads[k + 1];
    if i > 0 {
      OverlayAt(rest, i - 1);
    } else {
      OverlayKeys(rest, threads[0].localID);
      assert forall k :: 0 <= k < |rest| ==> ThreadID(rest[k]) != ThreadID(threads[0]);
    }
  }

  /** The unread flag of an id is that of the last mapping with the id, and only mapped ids have one. */
  lemma {:induction false} UnreadOfLast(found: seq<Threads.Mapping>, id: string)
    ensures id in Unread(found) <==> exists i :: 0 <= i < |found| && found[i].thread.localID == id
    ensures forall i :: 0 <= i < |found| && found[i].thread.localID == id
                        && (forall k :: i < k < |found| ==> found[k].thread.localID != id)
                        ==> id in Unread(found) && Unread(found)[id] == found[i].unread
  {
    if found != [] {
      var n := |found| - 1;
      UnreadOfLast(found[..n], id);
      assert forall i :: 0 <= i < n ==> found[..n][i] == found[i];
      if id in Unread(found[..n]) {
        var i :| 0 <= i < |found[..n]| && found[..n][i].thread.localID == id;
        assert found[i].thread.localID == id;
      }
    }
  }

  /** The phone answers a GetConversation with the thread it was asked for. */
  ghost predicate AnswersInKind(rows: seq<Row>, met: map<nat, Threads.Meeting>) {
    forall i :: i in met && i < |rows| && met[i].fetched.Some? ==> met[i].fetched.value.id == rows[i].id
  }

  /** Row i was handled, and came to a thread. */
  predicate Handled(row: Row, met: map<nat, Threads.Meeting>, i: nat) {
    i in met && Threads.Outcome(row, met[i]).Filled?
  }

  /** Pairwise different ids, spelled out. */
  lemma MappedDistinct(found: seq<Threads.Mapping>, rows: seq<Row>)
    requires |found| == |rows| && Collections.Distinct(RowID, rows)
    requires forall k :: 0 <= k < |rows| ==> found[k].thread.localID == rows[k].id
    ensures forall i, j :: 0 <= i < j < |found| ==> found[i].thread.localID != found[j].thread.localID
  {
    assert forall k :: 0 <= k < |rows| ==> RowID(rows[k]) == found[k].thread.localID;
  }

  /** Among mappings with different ids, each is known, and flagged, under its own id. */
  lemma InItsPlace(found: seq<Threads.Mapping>, i: nat)
    requires i < |found|
    requires forall i, j :: 0 <= i < j < |found| ==> found[i].thread.localID != found[j].thread.localID
    ensures var id := found[i].thread.localID;
            && id in Listing(found) && Listing(found)[id] == found[i].thread
            && id in Unread(found) && Unread(found)[id] == found[i].unread
  {
    assert Collections.Distinct(ThreadID, Mapped(found));
    OverlayAt(Mapped(found), i);
    UnreadOfLast(found, found[i].thread.localID);
  }

  /** The daemon knows, and flags, the thread each row came to under the row's id. */
  predicate Reflects(known: map<string, Thread>, unread: map<string, bool>, rows: seq<Row>,
                     met: map<nat, Threads.Meeting>) {
    forall i :: 0 <= i < |rows| ==> Placed(known, unread, rows[i], met, i)
  }

  predicate Placed(known: map<string, Thread>, unread: map<string, bool>, row: Row, met: map<nat, Threads.Meeting>,
                   i: nat) {
    && Handled(row, met, i)
    && row.id in known && known[row.id] == Threads.Outcome(row, met[i]).value.thread
    && row.id in unread && unread[row.id] == row.unread
  }

  // ---------- generations ----------

  /** Zero, or among the first n mints of a session. */
  ghost predicate Minted(generation: nat, n: nat) {
    generation == 0 || exists m: nat :: 1 <= m <= n && generation == Counter.After(m)
  }

  /** The generations of a session's thread events so far. */
  ghost predicate MintedBy<M(!new)>(events: seq<Event<Thread, M>>, n: nat) {
    forall i :: 0 <= i < |events| ==> events[i].Conversations? && Minted(events[i].generation, n)
  }

  /** Every sync keeps it so: it mints one generation and sends some of its lines under it. */
  lemma SyncKeepsMinted<M(!new)>(sent: seq<Event<Thread, M>>, n: nat, r: Render<Thread, M>, account: string,
                                 found: seq<Threads.Mapping>, complete: bool, k: nat)
    requires MintedBy(sent, n) && k <= |Events(r, account, found, Counter.After(n + 1), complete)|
    ensures MintedBy(sent + Events(r, account, found, Counter.After(n + 1), complete)[..k], n + 1)
  {
    var events := Events(r, account, found, Counter.After(n + 1), complete);
    var all := sent + events[..k];
    forall i | 0 <= i < |all|
      ensures all[i].Conversations? && Minted(all[i].generation, n + 1)
    {
      if i < |sent| {
        assert all[i] == sent[i];
        if sent[i].generation != 0 {
          var m: nat :| 1 <= m <= n && sent[i].generation == Counter.After(m);
        }
      } else {
        assert all[i] == events[i - |sent|];
        assert Minted(Counter.After(n + 1), n + 1);
      }
    }
  }

  /** A daemon that has no open group when the session starts has none of the next mint, for the first 2^64-1 mints. */
  lemma NextMintIsNotOpen<M(!new)>(s: Reconciler.State<string, Thread>, sent: seq<Event<Thread, M>>, n: nat)
    requires s.open == map[] && MintedBy(sent, n) && n < Counter.CYCLE
    ensures Reconciler.Listed(Daemon(s, sent), Counter.After(n + 1)) == {}
  {
    var stream, g := Reconciler.ThreadUpdates(sent), Counter.After(n + 1);
    if g in Daemon(s, sent).open {
      Reconciler.OpenIsFromStream(ThreadID, s, stream, g);
      var i :| 0 <= i < |stream| && stream[i].generation == g;
      Counter.NeverZero(n);
      assert sent[i].generation == g;
      var m: nat :| 1 <= m <= n && g == Counter.After(m);
      Counter.YoungStamp(m, n + 1);
    }
  }

  // ---------- the whole path ----------

  /** A schedule that skips nothing hands every row's thread on, in the rows' order. */
  lemma WorkersHandAllOn(rows: seq<Row>, states: seq<Pool.World<Threads.Meeting, Threads.Mapping>>,
                         actions: seq<Pool.Action<Threads.Meeting>>)
    requires Pool.IsRun(Handler(rows), |rows|, states, actions) && Pool.Joined(|rows|, states[|actions|])
    requires states[|actions|].skipped == 0
    ensures HandedOn(rows, states[|actions|].met, Pool.Collected(states[|actions|].results))
    ensures AnswersInKind(rows, states[|actions|].met) ==>
              forall i :: 0 <= i < |rows| ==> Pool.Collected(states[|actions|].results)[i].thread.localID == rows[i].id
  {
    var w := states[|actions|];
    Pool.NothingLostInThePool(Handler(rows), |rows|, states, actions);
    forall i | 0 <= i < |rows|
      ensures Handled(rows[i], w.met, i)
      ensures AnswersInKind(rows, w.met) ==> Pool.Collected(w.results)[i].thread.localID == rows[i].id
    {
      if AnswersInKind(rows, w.met) {
        Threads.OutcomeKeepsID(rows[i], w.met[i]);
      }
    }
  }

  /**
   When a schedule skips nothing: exactly if the session stayed the sync's while each row was
   handled, and each row, or the phone's answer for a row that lists nobody, is acceptable.
   */
  lemma SkipsNothingExactly(rows: seq<Row>, states: seq<Pool.World<Threads.Meeting, Threads.Mapping>>,
                            actions: seq<Pool.Action<Threads.Meeting>>)
    requires Pool.IsRun(Handler(rows), |rows|, states, actions) && Pool.Joined(|rows|, states[|actions|])
    ensures var w := states[|actions|];
            w.skipped == 0 <==> forall i :: 0 <= i < |rows| ==> i in w.met && Threads.Usable(rows[i], w.met[i])
  {
    var w := states[|actions|];
    Pool.NothingLostInThePool(Handler(rows), |rows|, states, actions);
    forall i | 0 <= i < |rows|
      ensures i in w.met && (w.results[i].Filled? <==> Threads.Usable(rows[i], w.met[i]))
    {
      Threads.HandedOnExactly(rows[i], w.met[i]);
    }
    if forall i :: 0 <= i < |rows| ==> w.results[i].Filled? {
      Pool.AllFilled(w.results);
    }
  }

  /** Every row's own outcome, and its own unread flag. */
  predicate HandedOn(rows: seq<Row>, met: map<nat, Threads.Meeting>, found: seq<Threads.Mapping>) {
    && |found| == |rows|
    && forall i :: 0 <= i < |rows| ==>
         && Handled(rows[i], met, i) && found[i] == Threads.Outcome(rows[i], met[i]).value
         && found[i].unread == rows[i].unread
  }

  /**
   The whole path.  Against a faithful relay, any listing that was not capped, any
   schedule of the workers that skipped nothing, any number of chunks, and whatever this
   session sent before to a daemon that had no open group when it started: the daemon ends
   with exactly the threads the workers made of the inbox, and if the phone answers with
   the threads it is asked for, with exactly the inbox's, each under its row's id and with
   its row's unread flag.
   */
  lemma InboxReachesDaemon<M(!new)>(relay: Paging.Relay<Row>, inbox: seq<Row>, at: map<string, nat>,
                                    pages: seq<Paging.Page<Row>>, calls: nat, rows: seq<Row>,
                                    states: seq<Pool.World<Threads.Meeting, Threads.Mapping>>,
                                    actions: seq<Pool.Action<Threads.Meeting>>,
                                    r: Render<Thread, M>, account: string, start: Reconciler.State<string, Thread>,
                                    sent: seq<Event<Thread, M>>, mints: nat)
    requires Paging.Faithful(relay, inbox, at) && Paging.DistinctIds(RowID, inbox)
    requires Paging.Collected(relay, pages, calls) && !Paging.More(pages[|pages| - 1])
    requires rows == Threads.NewestFirst(Paging.Fresh(RowID, {}, Paging.Flatten(pages)))
    requires Pool.IsRun(Handler(rows), |rows|, states, actions) && Pool.Joined(|rows|, states[|actions|])
    requires states[|actions|].skipped == 0
    requires start.open == map[] && MintedBy(sent, mints) && mints < Counter.CYCLE
    ensures multiset(rows) == multiset(inbox)
    ensures var met, found := states[|actions|].met, Pool.Collected(states[|actions|].results);
            var events := Events(r, account, found, Counter.After(mints + 1), true);
            && HandedOn(rows, met, found)
            && (forall i :: 0 <= i < |events| ==> events[i].Conversations?)
            && var known := Daemon(Daemon(start, sent), events).known;
               && known == Listing(found)
               && (AnswersInKind(rows, met) ==>
                     known.Keys == Collections.Ids(RowID, inbox) && Reflects(known, Unread(found), rows, met))
  {
    var met, found := states[|actions|].met, Pool.Collected(states[|actions|].results);
    Paging.UncappedIsWhole(RowID, relay, inbox, at, pages, calls);
    Threads.NewestFirstIsStable(inbox, 0);
    WorkersHandAllOn(rows, states, actions);
    Counter.NeverZero(mints);
    NextMintIsNotOpen(start, sent, mints);
    SyncMeaning(r, account, found, Counter.After(mints + 1), true, Daemon(start, sent));
    if AnswersInKind(rows, met) {
      InboxListed(found, rows, inbox, met);
    }
  }

  lemma InboxListed(found: seq<Threads.Mapping>, rows: seq<Row>, inbox: seq<Row>, met: map<nat, Threads.Meeting>)
    requires HandedOn(rows, met, found) && forall i :: 0 <= i < |rows| ==> found[i].thread.localID == rows[i].id
    requires multiset(rows) == multiset(inbox) && Collections.Distinct(RowID, inbox)
    ensures Listing(found).Keys == Collections.Ids(RowID, inbox)
    ensures Reflects(Listing(found), Unread(found), rows, met)
  {
    SameIDs(found, rows, inbox);
    Collections.DistinctOfPermutation(RowID, rows, inbox);
    MappedDistinct(found, rows);
    forall i | 0 <= i < |rows|
      ensures Placed(Listing(found), Unread(found), rows[i], met, i)
    {
      InItsPlace(found, i);
    }
  }

  lemma SameIDs(found: seq<Threads.Mapping>, rows: seq<Row>, inbox: seq<Row>)
    requires |found| == |rows| && forall i :: 0 <= i < |rows| ==> found[i].thread.localID == rows[i].id
    requires multiset(rows) == multiset(inbox)
    ensures Listing(found).Keys == Collections.Ids(RowID, inbox)
  {
    forall id
      ensures id in Listing(found) <==> id in Collections.Ids(RowID, inbox)
    {
      OverlayKeys(Mapped(found), id);
      if id in Listing(found) {
        var i :| 0 <= i < |Mapped(found)| && Mapped(found)[i].localID == id;
        assert rows[i] in multiset(inbox);
        var j :| 0 <= j < |inbox| && inbox[j] == rows[i];
        assert RowID(inbox[j]) == id;
      }
      if id in Collections.Ids(RowID, inbox) {
        var j :| 0 <= j < |inbox| && RowID(inbox[j]) == id;
        assert inbox[j] in multiset(rows);
        var i :| 0 <= i < |rows| && rows[i] == inbox[j];
        assert Mapped(found)[i].localID == id;
      }
    }
  }
}
