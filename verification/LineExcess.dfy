/**
 How far a thread line can exceed the 48 KiB the chunk loop aims at, on threads the
 mapping produces, rendered as encoding/json renders them: struct fields in declaration
 order, empty ones left out.  Strings that need no escaping are quoted as they are; the
 witness uses no others.
 */
module LineExcess {
  import opened Wrappers
  import opened Cursor
  import opened Wire
  import opened Participants
  import opened Emission
  import Chunks
  import Counter

  function Quote(s: string): string {
    "\"" + s + "\""
  }

  /** A key with its comma in front, unless the value is empty. */
  function Omitempty(key: string, value: string, empty: bool): string {
    if empty then "" else "," + key + value
  }

  function ParticipantJson(p: Participant): string {
    "{\"local_id\":" + Quote(p.localID)
    + Omitempty("\"display_name\":", Quote(p.displayName), p.displayName == "")
    + Omitempty("\"address\":", Quote(p.address), p.address == "")
    + Omitempty("\"is_self\":", "true", !p.isSelf) + "}"
  }

  function ConversationJson(c: Conversation): string {
    "{\"local_id\":" + Quote(c.localID)
    + ",\"kind\":" + (if c.kind == Group then "\"group\"" else "\"direct\"")
    + ",\"transport\":" + Quote(c.transport)
    + Omitempty("\"title\":", Quote(c.title), c.title == "")
    + Omitempty("\"participants\":", "[" + Join(ParticipantJson, c.participants) + "]", c.participants == [])
    + Omitempty("\"latest_message\":", Quote(c.latestMessage), c.latestMessage == "")
    + Omitempty("\"last_activity_at\":", FormatInt(c.lastActivityAt), c.lastActivityAt == 0)
    + Omitempty("\"capabilities\":", "[" + Join(Quote, c.capabilities) + "]", c.capabilities == []) + "}"
  }

  /** Messages do not occur in thread lines. */
  function Json(): Render<Conversation, string> {
    Render(Quote, ConversationJson, Quote)
  }

  // ---------- the threads ----------

  function Name(n: nat): string {
    seq(n, _ => 'x')
  }

  /** A relay record of a group with one member and a name of n letters. */
  function Row(id: string, n: nat): RelayConversation {
    var member := RelayParticipant(Some(SmallInfo("p", "")), false, "", "");
    RelayConversation(id, true, SMS, [Some(member)], Name(n), "", 0, "", 0, false)
  }

  function Thread(id: string, n: nat): Conversation {
    Conversation(id, Group, "sms", Name(n), [Participant("p", "", "", false)], "", 0, ["text"])
  }

  lemma ThreadIsMapped(id: string, n: nat)
    requires id != ""
    ensures Mapped(Some(Row(id, n)), {}).Ok? && Mapped(Some(Row(id, n)), {}).value.0 == Thread(id, n)
  {
    var ps := Row(id, n).participants;
    assert ps[1..] == [];
    var e := Entry(ps[0], {}, SelfAddresses(ps));
    assert SelfAddresses(ps) == {};
    assert !Skipped(e, {}, false);
    assert Kept(ps[1..], {}, {}, {} + {"p"}, false) == [];
    assert Members(Row(id, n), {}) == [e] + [];
  }

  lemma ThreadLength(id: string, n: nat)
    requires |id| == 1 && n > 0
    ensures |ConversationJson(Thread(id, n))| == 118 + n
  {
    assert |ParticipantJson(Participant("p", "", "", false))| == 16;
  }

  lemma ListLength(threads: seq<Conversation>)
    ensures |Line(Json(), "a", Conversations(threads, true, 0))| == 69 + |Join(ConversationJson, threads)|
  {
  }

  const A := Thread("a", 24423)
  const B := Thread("b", 24423)
  const C := Thread("c", 1)

  /** Two of the threads fill the bound exactly; the third goes into a second chunk. */
  lemma CutAfterTwo()
    ensures ThreadChunks(Json(), "a", [A, B, C]) == [[A, B], [C]]
    ensures |Line(Json(), "a", Conversations([A, B], true, 0))| == 49152
  {
    var fits := ThreadTrial(Json(), "a");
    ThreadLength("a", 24423);
    ThreadLength("b", 24423);
    ThreadLength("c", 1);
    JoinLength(ConversationJson, [A], [B]);
    assert [A, B] == [A] + [B] && [A, B, C] == [A, B] + [C];
    JoinLength(ConversationJson, [A, B], [C]);
    ListLength([A, B]);
    ListLength([A, B, C]);
    GreedyAfterTwo(fits, A, B, C);
  }

  lemma GreedyAfterTwo<T>(fits: seq<T> -> bool, a: T, b: T, c: T)
    requires fits([a, b]) && !fits([a, b, c])
    ensures Chunks.Greedy(fits, [], [a, b, c]) == [[a, b], [c]]
  {
    assert [] + [a] == [a] && [a] + [b] == [a, b] && [a, b] + [c] == [a, b, c];
    assert [a, b, c][1..] == [b, c] && [b, c][1..] == [c] && [c][1..] == [];
    assert Chunks.Greedy(fits, [c], []) == [[c]];
    assert Chunks.Greedy(fits, [a, b], [c]) == [[a, b]] + [[c]];
    assert Chunks.Greedy(fits, [a], [b, c]) == Chunks.Greedy(fits, [a, b], [c]);
  }

  /** Their first line is over the bound by 15 bytes and the digits of the generation. */
  lemma FirstLineExcess(generation: nat)
    requires generation != 0
    ensures var events := ThreadEvents<Conversation, string>(ThreadChunks(Json(), "a", [A, B, C]), generation, true);
            && |events| == 2 && events[0].threads == [A, B]
            && |Line(Json(), "a", events[0])| == 49152 + 15 + |FormatNat(generation)|
  {
    CutAfterTwo();
    ThreadLineLength(Json(), "a", [A, B], false, generation);
  }

  /**
   16 bytes in the first generation a process mints, 35 in the widest: the trial bound is not
   kept, and 35 is tight.
   */
  lemma ThreadLineBoundIsReached()
    ensures Mapped(Some(Row("a", 24423)), {}).value.0 == A
    ensures Mapped(Some(Row("b", 24423)), {}).value.0 == B
    ensures Mapped(Some(Row("c", 1)), {}).value.0 == C
    ensures forall g {:trigger FormatNat(g)} :: g == Counter.After(1) || g == UINT64 - 1 ==>
              var events := ThreadEvents<Conversation, string>(ThreadChunks(Json(), "a", [A, B, C]), g, true);
              && |events| == 2
              && |Line(Json(), "a", events[0])| == 49152 + if g == 1 then 16 else 35
  {
    ThreadIsMapped("a", 24423);
    ThreadIsMapped("b", 24423);
    ThreadIsMapped("c", 1);
    assert Counter.After(0) == 0;
    FirstLineExcess(1);
    FirstLineExcess(UINT64 - 1);
    TenToThe19And20();
    FormatNatLength(UINT64 - 1, 20);
    assert |FormatNat(1)| == 1;
  }

  lemma TenToThe19And20()
    ensures Pow10(19) == 10_000_000_000_000_000_000 && Pow10(20) == 100_000_000_000_000_000_000
  {
    assert Pow10(5) == 100_000;
    assert Pow10(10) == 100_000 * Pow10(5);
    assert Pow10(15) == 100_000 * Pow10(10);
    assert Pow10(19) == 10_000 * Pow10(15);
  }
}
