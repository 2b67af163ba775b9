/**
 Size-bounded emission of thread lists and message windows: what is sent, in how many
 chunks, with which flags, and how long each line can get.
 */
module Emission {
  import opened Cursor
  import opened Chunks
  import opened Wire
  import Counter

  const MAX_EVENT_BYTES: nat := 48 * 1024
  const INBOUND_BOUND: nat := 64 * 1024

  // ---------- the trial size ----------

  function ThreadTrial<C, M>(r: Render<C, M>, account: string): seq<C> -> bool {
    threads => |Line(r, account, Conversations(threads, true, 0))| <= MAX_EVENT_BYTES
  }

  function MessageTrial<C, M>(r: Render<C, M>, account: string, conversation: string, full: bool): seq<M> -> bool {
    messages => |Line(r, account, Messages(conversation, messages, full, 0, "", false, 0))| <= MAX_EVENT_BYTES
  }

  lemma ThreadTrialMonotone<C(!new), M>(r: Render<C, M>, account: string)
    ensures Monotone(ThreadTrial(r, account))
  {
    var fits := ThreadTrial(r, account);
    forall a, b | fits(a + b)
      ensures fits(a) && fits(b)
    {
      JoinLength(r.conversation, a, b);
    }
  }

  lemma MessageTrialMonotone<C, M(!new)>(r: Render<C, M>, account: string, conversation: string, full: bool)
    ensures Monotone(MessageTrial(r, account, conversation, full))
  {
    var fits := MessageTrial(r, account, conversation, full);
    forall a, b | fits(a + b)
      ensures fits(a) && fits(b)
    {
      JoinLength(r.message, a, b);
    }
  }

  // ---------- what is sent ----------

  function ThreadChunks<C, M>(r: Render<C, M>, account: string, threads: seq<C>): seq<seq<C>> {
    if threads == [] then [] else Greedy(ThreadTrial(r, account), [], threads)
  }

  function WindowChunks<C, M>(r: Render<C, M>, account: string, conversation: string, messages: seq<M>,
                              full: bool): seq<seq<M>> {
    if messages == [] then [] else Greedy(MessageTrial(r, account, conversation, full), [], messages)
  }

  /** The closing chunk of an authoritative sync is full; all its chunks share the generation when there are several. */
  function ThreadEvents<C, M>(chunks: seq<seq<C>>, generation: nat, authoritative: bool): seq<Event<C, M>> {
    if chunks == [] then [Conversations([], authoritative, 0)]
    else
      var group := if authoritative && |chunks| > 1 then generation else 0;
      seq(|chunks|, i requires 0 <= i < |chunks| => Conversations(chunks[i], authoritative && i == |chunks| - 1, group))
  }

  /** The closing chunk also carries the cursor and completes the page. */
  function WindowEvents<C, M>(conversation: string, chunks: seq<seq<M>>, full: bool, generation: nat,
                              cursorNext: string, fetchID: nat): seq<Event<C, M>> {
    if chunks == [] then [Messages(conversation, [], full, 0, "", true, fetchID)]
    else
      var last := |chunks| - 1;
      seq(|chunks|, i requires 0 <= i < |chunks| =>
        Messages(conversation, chunks[i], full && i == last, generation,
                 if i == last then cursorNext else "", i == last, fetchID))
  }

  function Min(a: nat, b: nat): nat {
    if a <= b then a else b
  }

  /** The emitting side of a session. */
  class Outbox<C(!new), M(!new)> {
    const account: string
    const render: Render<C, M>

    /** Lines handed to the daemon so far. */
    var sent: seq<Event<C, M>>

    /** How many more fires still find the session open; a close may land between any two. */
    var untilClose: nat

    /** The chunk-group counter. */
    var syncGen: nat

    constructor (account: string, render: Render<C, M>, untilClose: nat)
      ensures this.account == account && this.render == render
      ensures sent == [] && this.untilClose == untilClose && syncGen == Counter.After(0)
    {
      this.account, this.render := account, render;
      sent, this.untilClose, syncGen := [], untilClose, 0;
    }

    /** Everything fired before the close, nothing after it. */
    twostate predicate Fired(events: seq<Event<C, M>>)
      reads this
    {
      && sent == old(sent) + events[..Min(old(untilClose), |events|)]
      && untilClose == old(untilClose) - Min(old(untilClose), |events|)
    }

    method Fire(e: Event<C, M>)
      modifies this`sent, this`untilClose
      ensures Fired([e])
    {
      if untilClose == 0 {
        assert [e][..0] == [];
        return;
      }
      sent, untilClose := sent + [e], untilClose - 1;
      assert [e][..1] == [e];
    }

    method NextGeneration() returns (generation: nat)
      modifies this`syncGen
      ensures generation == syncGen == Counter.Bump(old(syncGen))
    {
      syncGen := (syncGen + 1) % Counter.WIDTH;
      if syncGen == 0 {
        syncGen := 1;
      }
      generation := syncGen;
    }

    method EmitConversations(threads: seq<C>, generation: nat, authoritative: bool)
      modifies this`sent, this`untilClose
      ensures Fired(ThreadEvents(ThreadChunks(render, account, threads), generation, authoritative))
    {
      if |threads| == 0 {
        Fire(Conversations([], authoritative, 0));
        return;
      }
      var chunks := Cut(ThreadTrial(render, account), threads);
      GreedySplits(ThreadTrial(render, account), [], threads);
      FireThreads(chunks, generation, authoritative);
    }

    method FireThreads(chunks: seq<seq<C>>, generation: nat, authoritative: bool)
      requires chunks != []
      modifies this`sent, this`untilClose
      ensures Fired(ThreadEvents(chunks, generation, authoritative))
    {
      ghost var events: seq<Event<C, M>> := ThreadEvents(chunks, generation, authoritative);
      for i := 0 to |chunks|
        invariant Fired(events[..i])
      {
        var last := i == |chunks| - 1;
        var group := 0;
        if authoritative && |chunks| > 1 {
          group := generation;
        }
        Fire(Conversations(chunks[i], authoritative && last, group));
        assert events[..i + 1] == events[..i] + [events[i]];
      }
      assert events[..|chunks|] == events;
    }

    method EmitMessages(conversation: string, messages: seq<M>, full: bool, cursorNext: string, fetchID: nat)
      modifies this
      ensures var chunks := WindowChunks(render, account, conversation, messages, full);
              var grouped := full && |chunks| > 1;
              && syncGen == (if grouped then Counter.Bump(old(syncGen)) else old(syncGen))
              && Fired(WindowEvents(conversation, chunks, full, if grouped then syncGen else 0, cursorNext, fetchID))
    {
      if |messages| == 0 {
        Fire(Messages(conversation, [], full, 0, "", true, fetchID));
        return;
      }
      var chunks := Cut(MessageTrial(render, account, conversation, full), messages);
      GreedySplits(MessageTrial(render, account, conversation, full), [], messages);
      var generation := 0;
      if full && |chunks| > 1 {
        generation := NextGeneration();
      }
      FireWindow(conversation, chunks, full, generation, cursorNext, fetchID);
    }

    method FireWindow(conversation: string, chunks: seq<seq<M>>, full: bool, generation: nat, cursorNext: string,
                      fetchID: nat)
      requires chunks != []
      modifies this`sent, this`untilClose
      ensures Fired(WindowEvents(conversation, chunks, full, generation, cursorNext, fetchID))
    {
      ghost var events: seq<Event<C, M>> := WindowEvents(conversation, chunks, full, generation, cursorNext, fetchID);
      for i := 0 to |chunks|
        invariant Fired(events[..i])
      {
        var last := i == |chunks| - 1;
        var cursor, complete := "", false;
        if last {
          cursor, complete := cursorNext, true;
        }
        Fire(Messages(conversation, chunks[i], full && last, generation, cursor, complete, fetchID));
        assert events[..i + 1] == events[..i] + [events[i]];
      }
      assert events[..|chunks|] == events;
    }
  }

  // ---------- the cut is the best one ----------

  /**
   An order-preserving split of a thread list into chunks of one thread, or of several whose
   line, marked full and without a generation, has at most 48 KiB.
   */
  ghost predicate ThreadSplit<C, M>(r: Render<C, M>, account: string, threads: seq<C>, chunks: seq<seq<C>>) {
    && Concat(chunks) == threads
    && forall c :: c in chunks ==>
         c != [] && (|c| == 1 || |Line(r, account, Conversations(c, true, 0))| <= 49152)
  }

  /** The same for a message window, whose line is measured without generation, cursor, completion and fetch id. */
  ghost predicate WindowSplit<C, M>(r: Render<C, M>, account: string, conversation: string, full: bool,
                                    messages: seq<M>, chunks: seq<seq<M>>) {
    && Concat(chunks) == messages
    && forall c :: c in chunks ==>
         c != [] && (|c| == 1 || |Line(r, account, Messages(conversation, c, full, 0, "", false, 0))| <= 49152)
  }

  lemma ThreadSplitIsSplit<C(!new), M>(r: Render<C, M>, account: string, threads: seq<C>, chunks: seq<seq<C>>)
    ensures ThreadSplit(r, account, threads, chunks) <==> Split(ThreadTrial(r, account), threads, chunks)
  {
  }

  lemma WindowSplitIsSplit<C, M(!new)>(r: Render<C, M>, account: string, conversation: string, full: bool,
                                       messages: seq<M>, chunks: seq<seq<M>>)
    ensures WindowSplit(r, account, conversation, full, messages, chunks)
            <==> Split(MessageTrial(r, account, conversation, full), messages, chunks)
  {
  }

  /** For a size test that only tightens, the greedy cut is a split, and none has fewer chunks. */
  lemma GreedyIsBest<T(!new)>(fits: seq<T> -> bool, items: seq<T>, other: seq<seq<T>>)
    requires Monotone(fits) && items != [] && Split(fits, items, other)
    ensures Split(fits, items, Greedy(fits, [], items)) && 1 <= |Greedy(fits, [], items)| <= |other|
  {
    assert [] + items == items;
    GreedySplits(fits, [], items);
    GreedyIsOptimal(fits, items, other);
  }

  /** The thread list is cut into chunks that concatenate to it, in order, and no admissible cut has fewer chunks. */
  lemma ThreadCutIsOptimal<C(!new), M>(r: Render<C, M>, account: string, threads: seq<C>, other: seq<seq<C>>)
    requires threads != [] && ThreadSplit(r, account, threads, other)
    ensures ThreadSplit(r, account, threads, ThreadChunks(r, account, threads))
    ensures 1 <= |ThreadChunks(r, account, threads)| <= |other|
  {
    ThreadTrialMonotone(r, account);
    ThreadSplitIsSplit(r, account, threads, other);
    GreedyIsBest(ThreadTrial(r, account), threads, other);
    ThreadSplitIsSplit(r, account, threads, ThreadChunks(r, account, threads));
  }

  lemma WindowCutIsOptimal<C, M(!new)>(r: Render<C, M>, account: string, conversation: string, full: bool,
                                       messages: seq<M>, other: seq<seq<M>>)
    requires messages != [] && WindowSplit(r, account, conversation, full, messages, other)
    ensures WindowSplit(r, account, conversation, full, messages,
            WindowChunks(r, account, conversation, messages, full))
    ensures 1 <= |WindowChunks(r, account, conversation, messages, full)| <= |other|
  {
    MessageTrialMonotone(r, account, conversation, full);
    WindowSplitIsSplit(r, account, conversation, full, messages, other);
    GreedyIsBest(MessageTrial(r, account, conversation, full), messages, other);
    WindowSplitIsSplit(r, account, conversation, full, messages,
                       WindowChunks(r, account, conversation, messages, full));
  }

  function Sent<C, M>(events: seq<Event<C, M>>): seq<M>
    requires forall i :: 0 <= i < |events| ==> events[i].Messages?
  {
    if events == [] then [] else Sent(events[..|events| - 1]) + events[|events| - 1].messages
  }

  lemma {:induction false} SentConcat<C, M>(chunks: seq<seq<M>>, events: seq<Event<C, M>>)
    requires |events| == |chunks| && forall i :: 0 <= i < |events| ==>
            events[i].Messages? && events[i].messages == chunks[i]
    ensures Sent(events) == Concat(chunks)
  {
    if chunks != [] {
      var n := |chunks| - 1;
      SentConcat(chunks[..n], events[..n]);
      ConcatAppend(chunks[..n], chunks[n]);
      assert chunks == chunks[..n] + [chunks[n]];
    }
  }

  /** The flags of each line of a window, however it was cut. */
  lemma LineFlags<C, M(!new)>(conversation: string, chunks: seq<seq<M>>, full: bool, generation: nat,
                              cursorNext: string, fetchID: nat, i: nat)
    requires i < |WindowEvents<C, M>(conversation, chunks, full, generation, cursorNext, fetchID)|
    ensures var events := WindowEvents<C, M>(conversation, chunks, full, generation, cursorNext, fetchID);
            && (forall k :: 0 <= k < |events| ==> events[k].Messages? && events[k].fetchID == fetchID)
            && (events[i].pageComplete <==> i == |events| - 1)
            && events[i].cursorNext == (if events[i].pageComplete && chunks != [] then cursorNext else "")
            && (events[i].full ==> events[i].pageComplete)
  {
  }

  /** All lines together send the window. */
  lemma PageIsSent<C, M(!new)>(r: Render<C, M>, account: string, conversation: string, messages: seq<M>, full: bool,
                               generation: nat, cursorNext: string, fetchID: nat)
    ensures var chunks := WindowChunks(r, account, conversation, messages, full);
            var events := WindowEvents<C, M>(conversation, chunks, full, generation, cursorNext, fetchID);
            && (chunks == [] <==> messages == [])
            && (forall k :: 0 <= k < |events| ==> events[k].Messages?) && Sent(events) == messages
  {
    var chunks := WindowChunks(r, account, conversation, messages, full);
    var events := WindowEvents<C, M>(conversation, chunks, full, generation, cursorNext, fetchID);
    if messages != [] {
      assert [] + messages == messages;
      GreedySplits(MessageTrial(r, account, conversation, full), [], messages);
      SentConcat(chunks, events);
    } else {
      assert events[..0] == [];
    }
  }

  /**
   Every line of a page echoes its fetch id; the page is complete at exactly one line, the
   last, once all messages were sent; that line has the cursor, unless the window is empty;
   and no earlier line is full.
   */
  lemma PageCompletesOnce<C, M(!new)>(r: Render<C, M>, account: string, conversation: string, messages: seq<M>,
                                      full: bool, generation: nat, cursorNext: string, fetchID: nat, i: nat)
    requires var chunks := WindowChunks(r, account, conversation, messages, full);
             i < |WindowEvents<C, M>(conversation, chunks, full, generation, cursorNext, fetchID)|
    ensures var chunks := WindowChunks(r, account, conversation, messages, full);
            var events := WindowEvents<C, M>(conversation, chunks, full, generation, cursorNext, fetchID);
            && (forall k :: 0 <= k < |events| ==> events[k].Messages? && events[k].fetchID == fetchID)
            && (events[i].pageComplete <==> i == |events| - 1)
            && (events[i].pageComplete ==> Sent(events[..i + 1]) == messages)
            && events[i].cursorNext == (if events[i].pageComplete && messages != [] then cursorNext else "")
            && (events[i].full ==> events[i].pageComplete)
  {
    var chunks := WindowChunks(r, account, conversation, messages, full);
    var events := WindowEvents<C, M>(conversation, chunks, full, generation, cursorNext, fetchID);
    LineFlags<C, M>(conversation, chunks, full, generation, cursorNext, fetchID, i);
    PageIsSent(r, account, conversation, messages, full, generation, cursorNext, fetchID);
    assert events[..|events|] == events;
  }

  // ---------- the emitted lines stay under the daemon's bound ----------

  /** What the trial size leaves out of a thread line, to the byte. */
  lemma ThreadLineLength<C, M>(r: Render<C, M>, account: string, threads: seq<C>, full: bool, generation: nat)
    ensures |Line(r, account, Conversations(threads, full, generation))| ==
            |Line(r, account, Conversations(threads, true, 0))|
            + (if full then 0 else 1) + |OptionalNumber("generation", generation)|
  {
  }

  /** Every line of a thread list with more than one thread is at most 35 bytes over the trial bound. */
  lemma ThreadLineBound<C(!new), M>(r: Render<C, M>, account: string, threads: seq<C>, generation: nat,
                          authoritative: bool, i: nat)
    requires generation < UINT64
    requires i < |ThreadEvents<C, M>(ThreadChunks(r, account, threads), generation, authoritative)|
    ensures var e := ThreadEvents<C, M>(ThreadChunks(r, account, threads), generation, authoritative)[i];
            |e.threads| > 1 || ThreadTrial(r, account)(e.threads) ==> |Line(r, account, e)| <= 49152 + 35
  {
    var e := ThreadEvents<C, M>(ThreadChunks(r, account, threads), generation, authoritative)[i];
    if |e.threads| > 1 {
      assert [] + threads == threads;
      GreedySplits(ThreadTrial(r, account), [], threads);
      assert e.threads in ThreadChunks(r, account, threads);
    }
    NumberLength("generation", e.generation);
  }

  /** What the trial size leaves out of a window line, to the byte. */
  lemma WindowLineLength<C, M>(r: Render<C, M>, account: string, conversation: string, messages: seq<M>,
                               trialFull: bool, full: bool, generation: nat, cursorNext: string, pageComplete: bool,
                               fetchID: nat)
    ensures |Line(r, account, Messages(conversation, messages, full, generation, cursorNext, pageComplete, fetchID))| ==
            |Line(r, account, Messages(conversation, messages, trialFull, 0, "", false, 0))|
            + |Bool(full)| - |Bool(trialFull)| + |Bool(pageComplete)| - |Bool(false)|
            + |OptionalNumber("generation", generation)| + |OptionalNumber("fetch_id", fetchID)|
            + |OptionalString("cursor_next", r.quote, cursorNext)|
  {
  }

  /** A window line is its trial plus what the trial leaves out. */
  lemma WindowLineWithin<C, M>(r: Render<C, M>, account: string, trialFull: bool, e: Event<C, M>)
    requires e.Messages? && (e.full ==> trialFull) && MessageTrial(r, account, e.conversation, trialFull)(e.messages)
    requires e.generation < UINT64 && e.fetchID < UINT64
    ensures |Line(r, account, e)| <= 49152 + 67 + |OptionalString("cursor_next", r.quote, e.cursorNext)|
    ensures e.cursorNext == "" || |r.quote(e.cursorNext)| <= 16000 ==> |Line(r, account, e)| < 65536
  {
    WindowLineLength(r, account, e.conversation, e.messages, trialFull, e.full, e.generation, e.cursorNext,
        e.pageComplete, e.fetchID);
    NumberLength("generation", e.generation);
    NumberLength("fetch_id", e.fetchID);
  }

  /** A chunk of several messages passed the size test. */
  lemma SeveralFit<C, M(!new)>(r: Render<C, M>, account: string, conversation: string, messages: seq<M>, full: bool,
                               k: nat)
    requires k < |WindowChunks(r, account, conversation, messages, full)|
    requires |WindowChunks(r, account, conversation, messages, full)[k]| > 1
    ensures MessageTrial(r, account, conversation, full)(WindowChunks(r, account, conversation, messages, full)[k])
  {
    var chunks := WindowChunks(r, account, conversation, messages, full);
    assert [] + messages == messages;
    GreedySplits(MessageTrial(r, account, conversation, full), [], messages);
    assert chunks[k] in chunks;
  }

  /** The same bound for every line of a message window; only its last line carries a cursor. */
  lemma WindowLineBound<C, M(!new)>(r: Render<C, M>, account: string, conversation: string, messages: seq<M>,
                                    full: bool, generation: nat, cursorNext: string, fetchID: nat, i: nat)
    requires generation < UINT64 && fetchID < UINT64
    requires i < |WindowEvents<C, M>(conversation, WindowChunks(r, account, conversation, messages, full), full,
            generation, cursorNext, fetchID)|
    ensures var e := WindowEvents<C, M>(conversation, WindowChunks(r, account, conversation, messages, full), full,
            generation, cursorNext, fetchID)[i];
            |e.messages| > 1 || MessageTrial(r, account, conversation, full)(e.messages) ==>
              && |Line(r, account, e)| <= 49152 + 67
                  + |OptionalString("cursor_next", r.quote, e.cursorNext)|
              && (e.cursorNext == "" || |r.quote(cursorNext)| <= 16000 ==> |Line(r, account, e)| < 65536)
  {
    var e := WindowEvents<C, M>(conversation, WindowChunks(r, account, conversation, messages, full), full, generation,
        cursorNext, fetchID)[i];
    if |e.messages| > 1 {
      SeveralFit(r, account, conversation, messages, full, i);
    }
    if MessageTrial(r, account, conversation, full)(e.messages) {
      WindowLineWithin(r, account, full, e);
    }
  }
}
