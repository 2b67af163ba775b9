/**
 The threads of a sync before and after the workers: the order they are handled and
 emitted in, and what becomes of one of them.
 */
module Threads {
  import opened Wrappers
  import opened Participants
  import opened Pool

  // ---------- newest first, otherwise as listed ----------

  function Insert(c: RelayConversation, sorted: seq<RelayConversation>): seq<RelayConversation> {
    if sorted == [] || c.lastMessageTimestamp >= sorted[0].lastMessageTimestamp then [c] + sorted
    else [sorted[0]] + Insert(c, sorted[1..])
  }

  /** sort.SliceStable by descending activity. */
  function NewestFirst(convs: seq<RelayConversation>): seq<RelayConversation> {
    if convs == [] then [] else Insert(convs[0], NewestFirst(convs[1..]))
  }

  predicate Descending(convs: seq<RelayConversation>) {
    forall i, j :: 0 <= i < j < |convs| ==> convs[i].lastMessageTimestamp >= convs[j].lastMessageTimestamp
  }

  /** The threads of one timestamp, in order. */
  function At(convs: seq<RelayConversation>, t: int): seq<RelayConversation> {
    if convs == [] then []
    else (if convs[0].lastMessageTimestamp == t then [convs[0]] else []) + At(convs[1..], t)
  }

  lemma {:induction false} InsertPermutes(c: RelayConversation, sorted: seq<RelayConversation>)
    ensures multiset(Insert(c, sorted)) == multiset{c} + multiset(sorted)
  {
    if sorted == [] || c.lastMessageTimestamp >= sorted[0].lastMessageTimestamp {
    } else {
      InsertPermutes(c, sorted[1..]);
      assert sorted == [sorted[0]] + sorted[1..];
    }
  }

  lemma {:induction false} InsertKeepsOrder(c: RelayConversation, sorted: seq<RelayConversation>)
    requires Descending(sorted)
    ensures Descending(Insert(c, sorted))
    ensures forall x :: x in Insert(c, sorted) ==> x == c || x in sorted
  {
    if sorted == [] || c.lastMessageTimestamp >= sorted[0].lastMessageTimestamp {
    } else {
      InsertKeepsOrder(c, sorted[1..]);
      var rest := Insert(c, sorted[1..]);
      assert forall x :: x in rest ==> sorted[0].lastMessageTimestamp >= x.lastMessageTimestamp;
    }
  }

  lemma {:induction false} InsertIsStable(c: RelayConversation, sorted: seq<RelayConversation>, t: int)
    requires Descending(sorted)
    ensures At(Insert(c, sorted), t) == (if c.lastMessageTimestamp == t then [c] else []) + At(sorted, t)
  {
    if sorted == [] || c.lastMessageTimestamp >= sorted[0].lastMessageTimestamp {
      assert ([c] + sorted)[1..] == sorted;
    } else {
      var head, rest := sorted[0], Insert(c, sorted[1..]);
      var mine := if c.lastMessageTimestamp == t then [c] else [];
      InsertIsStable(c, sorted[1..], t);
      assert ([head] + rest)[1..] == rest;
      if head.lastMessageTimestamp == t {
        assert mine == [];
      } else {
        assert At(sorted, t) == At(sorted[1..], t) && At([head] + rest, t) == At(rest, t);
      }
    }
  }

  /** The order is the stable one: descending, and within one timestamp as listed. */
  lemma {:induction false} NewestFirstIsStable(convs: seq<RelayConversation>, t: int)
    ensures Descending(NewestFirst(convs))
    ensures multiset(NewestFirst(convs)) == multiset(convs)
    ensures At(NewestFirst(convs), t) == At(convs, t)
  {
    if convs == [] {
    } else {
      NewestFirstIsStable(convs[1..], t);
      InsertPermutes(convs[0], NewestFirst(convs[1..]));
      InsertKeepsOrder(convs[0], NewestFirst(convs[1..]));
      InsertIsStable(convs[0], NewestFirst(convs[1..]), t);
      assert convs == [convs[0]] + convs[1..];
    }
  }

  lemma {:induction false} AtHead(convs: seq<RelayConversation>, t: int)
    requires Descending(convs) && At(convs, t) != []
    ensures convs != [] && convs[0].lastMessageTimestamp >= t
  {
    if convs[0].lastMessageTimestamp != t {
      AtHead(convs[1..], t);
    }
  }

  lemma FirstIsListed(convs: seq<RelayConversation>)
    ensures convs == [] || At(convs, convs[0].lastMessageTimestamp) != []
  {
  }

  /** Those two facts leave no choice: any order with both is this one. */
  lemma {:induction false} StableOrderIsUnique(a: seq<RelayConversation>, b: seq<RelayConversation>)
    requires Descending(a) && Descending(b)
    requires forall t :: At(a, t) == At(b, t)
    ensures a == b
  {
    if a == [] {
      FirstIsListed(b);
      assert forall t :: At(b, t) == At(a, t) == [];
    } else {
      var t := a[0].lastMessageTimestamp;
      AtHead(b, t);
      var u := b[0].lastMessageTimestamp;
      assert At(b, u) == At(a, u);
      AtHead(a, u);
      assert u == t && At(a, t)[0] == a[0] && At(b, t)[0] == b[0];
      forall x
        ensures At(a[1..], x) == At(b[1..], x)
      {
        assert At(a, x) == At(b, x);
        if x == t {
          assert At(a, x)[1..] == At(a[1..], x) && At(b, x)[1..] == At(b[1..], x);
        } else {
          assert At(a, x) == At(a[1..], x) && At(b, x) == At(b[1..], x);
        }
      }
      StableOrderIsUnique(a[1..], b[1..]);
      assert a == [a[0]] + a[1..] && b == [b[0]] + b[1..];
    }
  }

  // ---------- one thread ----------

  /** What one worker meets while it handles one thread. */
  datatype Meeting = Meeting(selfIDs: set<string>, laterSelfIDs: set<string>, fetched: Option<RelayConversation>,
      current: bool)

  datatype Mapping = Mapping(thread: Conversation, unread: bool)

  /**
   Map the listed record; ask the phone for the full one only if the row carries no
   participants; drop it if the session retired.
   */
  function Outcome(conv: RelayConversation, m: Meeting): Slot<Mapping> {
    var listed := Mapped(Some(conv), m.selfIDs);
    var mapped :=
      if listed.Err? && |conv.participants| == 0
      then if m.fetched.None? then Err("skipping thread") else Mapped(m.fetched, m.laterSelfIDs)
      else listed;
    if mapped.Err? || !m.current then Empty else Filled(Mapping(mapped.value.0, conv.unread))
  }

  /** A thread keeps its id, provided the phone answers with the thread it was asked for. */
  lemma OutcomeKeepsID(conv: RelayConversation, m: Meeting)
    requires m.fetched.Some? ==> m.fetched.value.id == conv.id
    ensures Outcome(conv, m).Filled? ==> Outcome(conv, m).value.thread.localID == conv.id
  {
  }

  /**
   The session is still the sync's, and the row is acceptable, or lists nobody and the phone
   answers with a record that is.
   */
  predicate Usable(conv: RelayConversation, m: Meeting) {
    m.current && (Accepted(conv) || (conv.participants == [] && m.fetched.Some? && Accepted(m.fetched.value)))
  }

  /**
   Exactly the usable threads are handed on: made of the row where the row will do, and only
   otherwise of the phone's answer, with the row's unread flag in both cases.
   */
  lemma HandedOnExactly(conv: RelayConversation, m: Meeting)
    ensures Outcome(conv, m).Filled? <==> Usable(conv, m)
    ensures Outcome(conv, m).Filled? ==>
              var record := if Accepted(conv) then Mapped(Some(conv), m.selfIDs)
                            else Mapped(m.fetched, m.laterSelfIDs);
              record.Ok? && Outcome(conv, m).value == Mapping(record.value.0, conv.unread)
  {
    AcceptedExactly(conv, m.selfIDs);
    if m.fetched.Some? {
      AcceptedExactly(m.fetched.value, m.laterSelfIDs);
    }
  }
}
