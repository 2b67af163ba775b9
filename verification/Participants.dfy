/**
 Mapping one relay thread to its wire form.  The participant list is an
 order-dependent fold with two dedupe rules, one kept entry per key and one kept
 self, and the kept self feeds back into the identities of later mappings.
 */
module Participants {
  import opened Wrappers
  import opened Collections

  const SELF_SENTINEL := "1"

  // ---------- relay records ----------

  datatype SmallInfo = SmallInfo(participantID: string, number: string)

  datatype RelayParticipant = RelayParticipant(id: Option<SmallInfo>, isMe: bool, fullName: string, firstName: string)

  datatype ConversationType = UnknownType | SMS | RCS

  datatype RelayConversation = RelayConversation(
    id: string, isGroupChat: bool, convType: ConversationType, participants: seq<Option<RelayParticipant>>,
    name: string, latestMessageID: string, lastMessageTimestamp: int, defaultOutgoingID: string, sendMode: nat,
        unread: bool)

  // ---------- wire records ----------

  datatype Participant = Participant(localID: string, displayName: string, address: string, isSelf: bool)

  datatype Kind = Direct | Group

  datatype Conversation = Conversation(
    localID: string, kind: Kind, transport: string, title: string, participants: seq<Participant>,
    latestMessage: string, lastActivityAt: int, capabilities: seq<string>)

  datatype Meta = Meta(outgoingID: string, convType: ConversationType, sendMode: nat, isGroup: bool)

  const RCS_CAPS := ["text", "media", "reactions", "replies", "read_receipts", "typing_send", "typing_receive",
                     "group_create", "message_delete_own", "attachment_download"]
  const SMS_CAPS := ["text"]

  function Transport(t: ConversationType): string {
    match t
    case RCS => "rcs"
    case SMS => "sms"
    case UnknownType => "unknown"
  }

  function Number(p: RelayParticipant): string {
    if p.id.Some? then p.id.value.number else ""
  }

  function SenderKey(id: Option<SmallInfo>): string {
    if id.None? then ""
    else if id.value.participantID != "" then id.value.participantID
    else id.value.number
  }

  function MapParticipant(p: Option<RelayParticipant>, selfIDs: set<string>): Participant {
    if p.None? then Participant("", "", "", false)
    else
      var key := SenderKey(p.value.id);
      Participant(key,
                  if p.value.fullName != "" then p.value.fullName else p.value.firstName,
                  Number(p.value),
                  p.value.isMe || key in selfIDs || key == SELF_SENTINEL)
  }

  /** Numbers the relay itself marks as the user's own. */
  function SelfAddresses(ps: seq<Option<RelayParticipant>>): set<string> {
    set i | 0 <= i < |ps| && ps[i].Some? && ps[i].value.isMe && Number(ps[i].value) != "" :: Number(ps[i].value)
  }

  /** An entry as the fold sees it, after the shared-address rule. */
  function Entry(p: Option<RelayParticipant>, selfIDs: set<string>, addresses: set<string>): Participant {
    var mapped := MapParticipant(p, selfIDs);
    mapped.(isSelf := mapped.isSelf || mapped.address in addresses)
  }

  predicate Skipped(e: Participant, seen: set<string>, selfKept: bool) {
    e.localID == "" || e.localID in seen || (e.isSelf && selfKept)
  }

  /** The fold: what the entries still to come add to the list. */
  function Kept(ps: seq<Option<RelayParticipant>>, selfIDs: set<string>, addresses: set<string>,
                seen: set<string>, selfKept: bool): seq<Participant>
    decreases ps
  {
    if ps == [] then []
    else
      var e := Entry(ps[0], selfIDs, addresses);
      if Skipped(e, seen, selfKept) then Kept(ps[1..], selfIDs, addresses, seen, selfKept)
      else [e] + Kept(ps[1..], selfIDs, addresses, seen + {e.localID}, selfKept || e.isSelf)
  }

  function Members(conv: RelayConversation, selfIDs: set<string>): seq<Participant> {
    Kept(conv.participants, selfIDs, SelfAddresses(conv.participants), {}, false)
  }

  function Mapped(conv: Option<RelayConversation>, selfIDs: set<string>): Result<(Conversation, Meta)> {
    if conv.None? then Err("nil conversation")
    else if conv.value.id == "" then Err("conversation without id")
    else
      var c := conv.value;
      var members := Members(c, selfIDs);
      var kind := if c.isGroupChat || |members| > 2 then Group else Direct;
      if members == [] then Err("conversation has no participants")
      else Ok((Conversation(c.id, kind, Transport(c.convType), if kind == Group then c.name else "", members,
                            c.latestMessageID, c.lastMessageTimestamp,
                            if c.convType == RCS then RCS_CAPS else SMS_CAPS),
               Meta(c.defaultOutgoingID, c.convType, c.sendMode, c.isGroupChat)))
  }

  /** The first pass of mapConversation: the user's own numbers. */
  method FindSelfAddresses(ps: seq<Option<RelayParticipant>>) returns (selfAddresses: set<string>)
    ensures selfAddresses == SelfAddresses(ps)
  {
    selfAddresses := {};
    for i := 0 to |ps|
      invariant selfAddresses == SelfAddresses(ps[..i])
    {
      AddressesStep(ps, i);
      if ps[i].Some? && ps[i].value.isMe && Number(ps[i].value) != "" {
        selfAddresses := selfAddresses + {Number(ps[i].value)};
      }
    }
    assert ps[..|ps|] == ps;
  }

  /** Its second pass: map, merge and keep. */
  method KeepParticipants(ps: seq<Option<RelayParticipant>>, selfIDs: set<string>, selfAddresses: set<string>)
    returns (participants: seq<Participant>)
    ensures participants == Kept(ps, selfIDs, selfAddresses, {}, false)
  {
    participants := [];
    var seen: set<string> := {};
    var selfKept := false;
    for i := 0 to |ps|
      invariant participants + Kept(ps[i..], selfIDs, selfAddresses, seen, selfKept)
              == Kept(ps, selfIDs, selfAddresses, {}, false)
    {
      assert ps[i..][0] == ps[i] && ps[i..][1..] == ps[i + 1..];
      var mapped := MapParticipant(ps[i], selfIDs);
      if mapped.localID == "" {
        continue;
      }
      if mapped.address in selfAddresses {
        mapped := mapped.(isSelf := true);
      }
      if mapped.localID in seen {
        continue;
      }
      if mapped.isSelf {
        if selfKept {
          continue;
        }
        selfKept := true;
      }
      seen := seen + {mapped.localID};
      participants := participants + [mapped];
    }
  }

  /** mapConversation. */
  method MapConversation(conv: Option<RelayConversation>, selfIDs: set<string>)
    returns (r: Result<(Conversation, Meta)>)
    ensures r == Mapped(conv, selfIDs)
  {
    if conv.None? {
      return Err("nil conversation");
    }
    var c := conv.value;
    if c.id == "" {
      return Err("conversation without id");
    }
    var kind := Direct;
    if c.isGroupChat {
      kind := Group;
    }
    var selfAddresses := FindSelfAddresses(c.participants);
    var participants := KeepParticipants(c.participants, selfIDs, selfAddresses);
    if |participants| == 0 {
      return Err("conversation has no participants");
    }
    if |participants| > 2 {
      kind := Group;
    }
    var caps := SMS_CAPS;
    if c.convType == RCS {
      caps := RCS_CAPS;
    }
    var out := Conversation(c.id, kind, Transport(c.convType), "", participants, "", 0, caps);
    if kind == Group && c.name != "" {
      out := out.(title := c.name);
    }
    if c.latestMessageID != "" {
      out := out.(latestMessage := c.latestMessageID);
    }
    out := out.(lastActivityAt := c.lastMessageTimestamp);
    r := Ok((out, Meta(c.defaultOutgoingID, c.convType, c.sendMode, c.isGroupChat)));
  }

  lemma AddressesStep(ps: seq<Option<RelayParticipant>>, i: nat)
    requires i < |ps|
    ensures SelfAddresses(ps[..i + 1]) ==
            SelfAddresses(ps[..i]) +
            if ps[i].Some? && ps[i].value.isMe && Number(ps[i].value) != "" then {Number(ps[i].value)} else {}
  {
    var shorter, longer := ps[..i], ps[..i + 1];
    forall a | a in SelfAddresses(shorter)
      ensures a in SelfAddresses(longer)
    {
      var j :| 0 <= j < |shorter| && shorter[j].Some? && shorter[j].value.isMe && Number(shorter[j].value) != ""
          && Number(shorter[j].value) == a;
      assert longer[j] == shorter[j];
    }
    forall a | a in SelfAddresses(longer) && (ps[i].Some? ==> a != Number(ps[i].value))
      ensures a in SelfAddresses(shorter)
    {
      var j :| 0 <= j < |longer| && longer[j].Some? && longer[j].value.isMe && Number(longer[j].value) != ""
          && Number(longer[j].value) == a;
      assert j < i && longer[j] == shorter[j];
    }
    assert longer[i] == ps[i];
  }

  // ---------- one run ----------

  function KeyOf(p: Participant): string {
    p.localID
  }

  /** Keys are pairwise different, and at most one entry is self. */
  ghost predicate DistinctMembers(members: seq<Participant>) {
    && Distinct(KeyOf, members)
    && (forall i, j :: 0 <= i < j < |members| ==> !(members[i].isSelf && members[j].isSelf))
  }

  /** Kept keys are new, non-empty and pairwise different, and at most one kept entry is self. */
  lemma {:induction false} KeptDistinct(ps: seq<Option<RelayParticipant>>, selfIDs: set<string>, addresses: set<string>,
                                        seen: set<string>, selfKept: bool)
    ensures var members := Kept(ps, selfIDs, addresses, seen, selfKept);
            && DistinctMembers(members)
            && (forall i :: 0 <= i < |members| ==>
                members[i].localID != "" && members[i].localID !in seen && (selfKept ==> !members[i].isSelf))
    decreases ps
  {
    if ps == [] {
    } else {
      var e := Entry(ps[0], selfIDs, addresses);
      if Skipped(e, seen, selfKept) {
        KeptDistinct(ps[1..], selfIDs, addresses, seen, selfKept);
      } else {
        KeptDistinct(ps[1..], selfIDs, addresses, seen + {e.localID}, selfKept || e.isSelf);
      }
    }
  }

  /**
   Nobody with a key disappears: the key is kept, or the entry is one of the user's identities
   and one of those is kept.
   */
  lemma {:induction false} NobodyLost(ps: seq<Option<RelayParticipant>>, selfIDs: set<string>, addresses: set<string>,
                                      seen: set<string>, selfKept: bool, k: nat)
    requires k < |ps|
    ensures var members, e := Kept(ps, selfIDs, addresses, seen, selfKept), Entry(ps[k], selfIDs, addresses);
            e.localID == "" || e.localID in seen || e in members
            || (exists i :: 0 <= i < |members| && members[i].localID == e.localID)
            || (e.isSelf && (selfKept || exists i :: 0 <= i < |members| && members[i].isSelf))
    decreases ps
  {
    var e := Entry(ps[0], selfIDs, addresses);
    var members := Kept(ps, selfIDs, addresses, seen, selfKept);
    if Skipped(e, seen, selfKept) {
      if k > 0 {
        NobodyLost(ps[1..], selfIDs, addresses, seen, selfKept, k - 1);
      }
    } else {
      assert members[0] == e;
      if k > 0 {
        NobodyLost(ps[1..], selfIDs, addresses, seen + {e.localID}, selfKept || e.isSelf, k - 1);
        assert members[1..] == Kept(ps[1..], selfIDs, addresses, seen + {e.localID}, selfKept || e.isSelf);
        assert forall m :: m in members[1..] ==> m in members;
        assert forall i :: 0 <= i < |members[1..]| ==> members[1..][i] == members[i + 1];
      }
    }
  }

  lemma {:induction false} SomebodyKept(ps: seq<Option<RelayParticipant>>, selfIDs: set<string>, addresses: set<string>)
    ensures Kept(ps, selfIDs, addresses, {}, false) != [] <==>
            exists k :: 0 <= k < |ps| && ps[k].Some? && SenderKey(ps[k].value.id) != ""
  {
    if ps != [] {
      assert Entry(ps[0], selfIDs, addresses).localID == if ps[0].Some? then SenderKey(ps[0].value.id) else "";
      if Entry(ps[0], selfIDs, addresses).localID == "" {
        SomebodyKept(ps[1..], selfIDs, addresses);
        assert forall k :: 1 <= k < |ps| ==> ps[k] == ps[1..][k - 1];
        assert forall k :: 0 <= k < |ps[1..]| ==> ps[1..][k] == ps[k + 1];
      }
    }
  }

  // ---------- who is kept ----------

  /** Every participant of the record as the fold sees it. */
  function Entries(ps: seq<Option<RelayParticipant>>, selfIDs: set<string>, addresses: set<string>): seq<Participant> {
    seq(|ps|, i requires 0 <= i < |ps| => Entry(ps[i], selfIDs, addresses))
  }

  /** An entry has a key, and no entry kept before it has the same one or is, like it, the user. */
  predicate Stays(entries: seq<Participant>, at: seq<nat>, k: nat)
    requires k < |entries| && forall i :: 0 <= i < |at| ==> at[i] < |entries|
  {
    && entries[k].localID != ""
    && forall i :: 0 <= i < |at| && at[i] < k ==>
         && entries[at[i]].localID != entries[k].localID
         && !(entries[at[i]].isSelf && entries[k].isSelf)
  }

  /** The kept entries are those at positions `at`: in order, and exactly the ones that stay. */
  ghost predicate Keeps(entries: seq<Participant>, kept: seq<Participant>, at: seq<nat>) {
    && |at| == |kept|
    && (forall i :: 0 <= i < |at| ==> at[i] < |entries| && kept[i] == entries[at[i]])
    && (forall i, j :: 0 <= i < j < |at| ==> at[i] < at[j])
    && (forall k :: 0 <= k < |entries| ==> (k in at <==> Stays(entries, at, k)))
  }

  predicate HasSelf(members: seq<Participant>) {
    exists i :: 0 <= i < |members| && members[i].isSelf
  }

  lemma {:induction false} KeptAppend(ps: seq<Option<RelayParticipant>>, p: Option<RelayParticipant>,
                                      selfIDs: set<string>, addresses: set<string>, seen: set<string>, selfKept: bool)
    ensures var kept, e := Kept(ps, selfIDs, addresses, seen, selfKept), Entry(p, selfIDs, addresses);
            Kept(ps + [p], selfIDs, addresses, seen, selfKept) ==
            kept + if Skipped(e, seen + Ids(KeyOf, kept), selfKept || HasSelf(kept)) then [] else [e]
    decreases ps
  {
    if ps == [] {
      assert ps + [p] == [p] && [p][1..] == [];
    } else {
      var e := Entry(ps[0], selfIDs, addresses);
      assert (ps + [p])[1..] == ps[1..] + [p];
      if Skipped(e, seen, selfKept) {
        KeptAppend(ps[1..], p, selfIDs, addresses, seen, selfKept);
      } else {
        KeptAppend(ps[1..], p, selfIDs, addresses, seen + {e.localID}, selfKept || e.isSelf);
        var rest := Kept(ps[1..], selfIDs, addresses, seen + {e.localID}, selfKept || e.isSelf);
        IdsCons(KeyOf, e, rest);
        assert ([e] + rest)[1..] == rest;
        HasSelfCons(e, rest);
      }
    }
  }

  lemma HasSelfCons(e: Participant, rest: seq<Participant>)
    ensures HasSelf([e] + rest) <==> e.isSelf || HasSelf(rest)
  {
    if HasSelf(rest) {
      var i :| 0 <= i < |rest| && rest[i].isSelf;
      assert ([e] + rest)[i + 1].isSelf;
    }
    if e.isSelf {
      assert ([e] + rest)[0].isSelf;
    }
  }

  lemma KeepsAppend(entries: seq<Participant>, kept: seq<Participant>, at: seq<nat>, e: Participant)
    requires Keeps(entries, kept, at)
    ensures if Skipped(e, Ids(KeyOf, kept), HasSelf(kept)) then Keeps(entries + [e], kept, at)
            else Keeps(entries + [e], kept + [e], at + [|entries|])
  {
    var n, longer := |entries|, entries + [e];
    forall k | 0 <= k < n
      ensures Stays(longer, at, k) <==> Stays(entries, at, k)
      ensures Stays(longer, at + [n], k) <==> Stays(entries, at, k)
    {
      assert (at + [n])[..|at|] == at;
      assert forall i :: 0 <= i < |at| ==> (at + [n])[i] == at[i];
    }
    assert longer[n] == e && (at + [n])[|at|] == n;
    assert forall i :: 0 <= i < |at| ==> (at + [n])[i] == at[i];
    assert forall k :: k in at + [n] <==> k in at || k == n;
    LastStays(entries, kept, at, e);
  }

  lemma LastStays(entries: seq<Participant>, kept: seq<Participant>, at: seq<nat>, e: Participant)
    requires Keeps(entries, kept, at)
    ensures var longer := entries + [e];
            && (Stays(longer, at, |entries|) <==> !Skipped(e, Ids(KeyOf, kept), HasSelf(kept)))
            && (Stays(longer, at + [|entries|], |entries|) <==> !Skipped(e, Ids(KeyOf, kept), HasSelf(kept)))
  {
    var n, longer := |entries|, entries + [e];
    assert longer[n] == e;
    assert forall i :: 0 <= i < |at| ==> longer[at[i]] == kept[i] && (at + [n])[i] == at[i];
    assert (at + [n])[|at|] == n;
    if e.localID in Ids(KeyOf, kept) {
      var i :| 0 <= i < |kept| && KeyOf(kept[i]) == e.localID;
      assert at[i] < n && (at + [n])[i] < n;
    }
    if HasSelf(kept) {
      var i :| 0 <= i < |kept| && kept[i].isSelf;
      assert at[i] < n && (at + [n])[i] < n;
    }
  }

  /** Exactly the entries that stay are kept, in the record's order. */
  lemma {:induction false} KeptExactly(ps: seq<Option<RelayParticipant>>, selfIDs: set<string>, addresses: set<string>)
    returns (at: seq<nat>)
    ensures Keeps(Entries(ps, selfIDs, addresses), Kept(ps, selfIDs, addresses, {}, false), at)
    decreases |ps|
  {
    at := [];
    if ps != [] {
      var front, p := ps[..|ps| - 1], ps[|ps| - 1];
      assert ps == front + [p];
      var before := KeptExactly(front, selfIDs, addresses);
      var entries, kept := Entries(front, selfIDs, addresses), Kept(front, selfIDs, addresses, {}, false);
      var e := Entry(p, selfIDs, addresses);
      KeptAppend(front, p, selfIDs, addresses, {}, false);
      assert {} + Ids(KeyOf, kept) == Ids(KeyOf, kept);
      KeepsAppend(entries, kept, before, e);
      assert Entries(ps, selfIDs, addresses) == entries + [e];
      at := if Skipped(e, Ids(KeyOf, kept), HasSelf(kept)) then before else before + [|front|];
    }
  }

  /** Some entry the relay says is the user has this number. */
  predicate MyNumber(ps: seq<Option<RelayParticipant>>, number: string) {
    number != "" && exists j :: 0 <= j < |ps| && ps[j].Some? && ps[j].value.isMe && Number(ps[j].value) == number
  }

  /**
   One entry of a record: its key and names, and that it is the user exactly when the relay
   says so, the session knows the key, the key is the relay's own name for the user, or an
   entry the relay says is the user has the same number.  An absent entry is empty.
   */
  lemma EntryExactly(ps: seq<Option<RelayParticipant>>, selfIDs: set<string>, k: nat)
    requires k < |ps|
    ensures var e := Entry(ps[k], selfIDs, SelfAddresses(ps));
            match ps[k]
            case None => e == Participant("", "", "", false)
            case Some(p) =>
              var number := if p.id.Some? then p.id.value.number else "";
              && e.localID == (if p.id.Some? && p.id.value.participantID != "" then p.id.value.participantID
                               else number)
              && e.displayName == (if p.fullName == "" then p.firstName else p.fullName)
              && e.address == number
              && (e.isSelf <==> p.isMe || e.localID in selfIDs || e.localID == "1" || MyNumber(ps, number))
  {
    if ps[k].Some? {
      var number := Number(ps[k].value);
      if MyNumber(ps, number) {
        var j :| 0 <= j < |ps| && ps[j].Some? && ps[j].value.isMe && Number(ps[j].value) == number;
        assert number in SelfAddresses(ps);
      }
    }
  }

  // ---------- the thread ----------

  /** A record the mapping takes: it has an id, and some participant has a key. */
  predicate Accepted(conv: RelayConversation) {
    conv.id != "" && exists k :: 0 <= k < |conv.participants| && conv.participants[k].Some?
                                 && SenderKey(conv.participants[k].value.id) != ""
  }

  /** The number of members never rejects a record; without an id or a key, the error says which is missing. */
  lemma AcceptedExactly(conv: RelayConversation, selfIDs: set<string>)
    ensures Mapped(Some(conv), selfIDs).Ok? <==> Accepted(conv)
    ensures var r := Mapped(Some(conv), selfIDs);
            r.Err? ==>
              r.error == if conv.id == "" then "conversation without id" else "conversation has no participants"
    ensures Mapped(None, selfIDs) == Err("nil conversation")
  {
    SomebodyKept(conv.participants, selfIDs, SelfAddresses(conv.participants));
  }

  /**
   What an accepted record becomes: a group exactly if the relay flags it or more than two
   participants were kept, and only a group has a title.
   */
  lemma ThreadExactly(conv: RelayConversation, selfIDs: set<string>)
    requires Mapped(Some(conv), selfIDs).Ok?
    ensures var (thread, meta) := Mapped(Some(conv), selfIDs).value;
            && thread.localID == conv.id
            && thread.participants == Members(conv, selfIDs)
            && (thread.kind == Group <==> conv.isGroupChat || |thread.participants| > 2)
            && (if thread.kind == Group then thread.title == conv.name else thread.title == "")
            && (thread.transport == "rcs" <==> conv.convType == RCS)
            && (thread.transport == "sms" <==> conv.convType == SMS)
            && (thread.transport == "unknown" <==> conv.convType == UnknownType)
            && ("text" in thread.capabilities)
            && ("reactions" in thread.capabilities <==> conv.convType == RCS)
            && (conv.convType != RCS ==> thread.capabilities == ["text"])
            && thread.latestMessage == conv.latestMessageID
            && thread.lastActivityAt == conv.lastMessageTimestamp
            && meta.outgoingID == conv.defaultOutgoingID && meta.convType == conv.convType
            && meta.sendMode == conv.sendMode && meta.isGroup == conv.isGroupChat
  {
  }

  function Other(key: string): Option<RelayParticipant> {
    Some(RelayParticipant(Some(SmallInfo(key, "")), false, "", ""))
  }

  /** A direct thread with three members is not rejected: it comes out as a group. */
  lemma ThreeMembersMakeAGroup() returns (conv: RelayConversation)
    ensures !conv.isGroupChat && |conv.participants| == 3
    ensures Mapped(Some(conv), {}).Ok? && Mapped(Some(conv), {}).value.0.kind == Group
  {
    var ps := [Other("a"), Other("b"), Other("c")];
    conv := RelayConversation("t", false, SMS, ps, "", "", 0, "", 0, false);
    assert SelfAddresses(ps) == {};
    var a, b, c := Entry(ps[0], {}, {}), Entry(ps[1], {}, {}), Entry(ps[2], {}, {});
    assert ps[1..][1..] == [ps[2]] && [ps[2]][1..] == [];
    assert Kept([ps[2]], {}, {}, {} + {"a"} + {"b"}, false) == [c] + [];
    assert Kept(ps[1..], {}, {}, {} + {"a"}, false) == [b] + [c];
    assert Members(conv, {}) == [a] + ([b] + [c]);
  }

  // ---------- two runs ----------

  /** Knowing more identities keeps a subset of the keys; seen/kept are the two runs' fold states. */
  lemma {:induction false} MoreSelvesKeepFewer(ps: seq<Option<RelayParticipant>>, addresses: set<string>,
                                               selfIDs: set<string>, seen: set<string>, selfKept: bool,
                                               more: set<string>, seen2: set<string>, selfKept2: bool)
    requires selfIDs <= more && seen2 <= seen && (selfKept ==> selfKept2)
    ensures seen2 + Ids(KeyOf, Kept(ps, more, addresses, seen2, selfKept2))
            <= seen + Ids(KeyOf, Kept(ps, selfIDs, addresses, seen, selfKept))
    decreases ps
  {
    if ps == [] {
    } else {
      var e, e2 := Entry(ps[0], selfIDs, addresses), Entry(ps[0], more, addresses);
      var skip, skip2 := Skipped(e, seen, selfKept), Skipped(e2, seen2, selfKept2);
      var t, u := if skip then seen else seen + {e.localID}, if skip then selfKept else selfKept || e.isSelf;
      var t2, u2 := if skip2 then seen2 else seen2 + {e2.localID}, if skip2 then selfKept2 else selfKept2 || e2.isSelf;
      MoreSelvesKeepFewer(ps[1..], addresses, selfIDs, t, u, more, t2, u2);
      IdsCons(KeyOf, e, Kept(ps[1..], selfIDs, addresses, t, u));
      IdsCons(KeyOf, e2, Kept(ps[1..], more, addresses, t2, u2));
    }
  }

  /**
   For one relay record, more known identities never add a participant, and never turn a direct
   thread into a group.
   */
  lemma MoreSelvesNeverGrow(conv: RelayConversation, selfIDs: set<string>, more: set<string>)
    requires selfIDs <= more
    ensures Ids(KeyOf, Members(conv, more)) <= Ids(KeyOf, Members(conv, selfIDs))
    ensures |Members(conv, more)| <= |Members(conv, selfIDs)|
    ensures Mapped(Some(conv), more).Ok? <==> Mapped(Some(conv), selfIDs).Ok?
    ensures Mapped(Some(conv), selfIDs).Ok? && Mapped(Some(conv), selfIDs).value.0.kind == Direct
            ==> Mapped(Some(conv), more).value.0.kind == Direct
  {
    var addresses := SelfAddresses(conv.participants);
    MoreSelvesKeepFewer(conv.participants, addresses, selfIDs, {}, false, more, {}, false);
    KeptDistinct(conv.participants, selfIDs, addresses, {}, false);
    KeptDistinct(conv.participants, more, addresses, {}, false);
    var small, large := Members(conv, more), Members(conv, selfIDs);
    DistinctCount(KeyOf, small);
    DistinctCount(KeyOf, large);
    SubsetCount(Ids(KeyOf, small), Ids(KeyOf, large));
    SomebodyKept(conv.participants, selfIDs, addresses);
    SomebodyKept(conv.participants, more, addresses);
  }

  // ---------- feedback ----------

  /** The keys a mapping teaches the session: those of its self participants. */
  function Learned(members: seq<Participant>): set<string> {
    set i | 0 <= i < |members| && members[i].isSelf :: members[i].localID
  }

  /** The session's identity set, as Session.mapConversation reads and extends it. */
  class Identity {
    var selfIDs: set<string>

    constructor ()
      ensures selfIDs == {}
    {
      selfIDs := {};
    }

    method Map(conv: Option<RelayConversation>) returns (r: Result<(Conversation, Meta)>)
      modifies this
      ensures r == Mapped(conv, old(selfIDs))
      ensures selfIDs == old(selfIDs) + if r.Ok? then Learned(r.value.0.participants) else {}
    {
      r := MapConversation(conv, selfIDs);
      if r.Err? {
        return;
      }
      var members := r.value.0.participants;
      for i := 0 to |members|
        invariant selfIDs == old(selfIDs) + Learned(members[..i])
      {
        LearnedStep(members, i);
        if members[i].isSelf {
          selfIDs := selfIDs + {members[i].localID};
        }
      }
      assert members[..|members|] == members;
    }

    /** Mapping the same record twice in a row gives the same thread and learns nothing new. */
    method MapTwice(conv: RelayConversation)
      returns (first: Result<(Conversation, Meta)>, second: Result<(Conversation, Meta)>)
      modifies this
      ensures first == second == Mapped(Some(conv), old(selfIDs))
      ensures selfIDs == old(selfIDs) + if first.Ok? then Learned(first.value.0.participants) else {}
    {
      first := Map(Some(conv));
      LearningIsStable(conv, old(selfIDs));
      assert first.Ok? ==> first.value.0.participants == Members(conv, old(selfIDs));
      assert first.Err? ==> selfIDs == old(selfIDs);
      second := Map(Some(conv));
    }
  }

  lemma LearnedStep(members: seq<Participant>, i: nat)
    requires i < |members|
    ensures Learned(members[..i + 1]) == Learned(members[..i]) + if members[i].isSelf then {members[i].localID} else {}
  {
    var shorter, longer := members[..i], members[..i + 1];
    assert longer == shorter + [members[i]];
    assert forall j :: 0 <= j < i ==> longer[j] == shorter[j];
    assert longer[i] == members[i];
  }

  /** Adding the key of the self that was kept changes nothing about the fold. */
  lemma {:induction false} KnownSelfKeepsFold(ps: seq<Option<RelayParticipant>>, selfIDs: set<string>,
                                              addresses: set<string>,
                                              seen: set<string>, selfKept: bool, key: string)
    requires selfKept ==> key in seen
    requires var members := Kept(ps, selfIDs, addresses, seen, selfKept);
             forall m :: m in members ==> (m.isSelf <==> m.localID == key)
    ensures Kept(ps, selfIDs + {key}, addresses, seen, selfKept) == Kept(ps, selfIDs, addresses, seen, selfKept)
    decreases ps
  {
    if ps == [] {
    } else {
      var e := Entry(ps[0], selfIDs, addresses);
      var members := Kept(ps, selfIDs, addresses, seen, selfKept);
      if Skipped(e, seen, selfKept) {
        KnownSelfKeepsFold(ps[1..], selfIDs, addresses, seen, selfKept, key);
      } else {
        assert e in members && forall m :: m in members[1..] ==> m in members;
        KnownSelfKeepsFold(ps[1..], selfIDs, addresses, seen + {e.localID}, selfKept || e.isSelf, key);
      }
    }
  }

  lemma LearningIsStable(conv: RelayConversation, selfIDs: set<string>)
    ensures Mapped(Some(conv), selfIDs + Learned(Members(conv, selfIDs))) == Mapped(Some(conv), selfIDs)
  {
    var members, addresses := Members(conv, selfIDs), SelfAddresses(conv.participants);
    KeptDistinct(conv.participants, selfIDs, addresses, {}, false);
    if i :| 0 <= i < |members| && members[i].isSelf {
      assert Learned(members) == {members[i].localID};
      KnownSelfKeepsFold(conv.participants, selfIDs, addresses, {}, false, members[i].localID);
    } else {
      assert Learned(members) == {};
      assert selfIDs + {} == selfIDs;
    }
  }
}
