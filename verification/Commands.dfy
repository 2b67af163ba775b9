/**
 The five commands that carry a request id, and what each attempts to tell the daemon.
 The relay, the phone and the disk are oracles: a Meeting says what a command met.
 */
module Commands {
  import opened Wrappers

  const MAX_TEXT_CHARS: nat := 8000

  /** Minutes after which a correlation entry is dropped. */
  const PENDING_TTL: int := 10

  /** One attempt to emit; a closed session drops it later. */
  datatype Attempt =
    | CommandResult(requestID: string, ok: bool, error: string)
    | Status(conversation: string, message: string, token: string)
    | Other

  datatype Command =
    | SendText(requestID: string, conversation: string, text: string)
    | SendMedia(requestID: string, conversation: string)
    | React(requestID: string, emoji: string, add: bool)
    | DeleteMessage(requestID: string)
    | Open(requestID: string, addresses: seq<string>)

  // ---------- sending ----------

  /** The relay's answer to one SendMessage call. */
  datatype Reply = Failed(phoneSilent: bool) | Accepted | Retryable | Rejected

  datatype Sent = Delivered | Silent | Refused

  const MAX_RETRIES: nat := 3

  /**
   The outcome when the calls from number `call` on are answered by `replies` and the waits cut
   short by `cancelled`.
   */
  function Outcome(replies: nat -> Reply, cancelled: nat -> bool, call: nat): Sent
    requires call <= MAX_RETRIES
    decreases MAX_RETRIES - call
  {
    match replies(call)
    case Failed(silent) => if silent then Silent else Refused
    case Accepted => Delivered
    case Rejected => Refused
    case Retryable =>
      if call == MAX_RETRIES || cancelled(call) then Refused else Outcome(replies, cancelled, call + 1)
  }

  /**
   Call number `call` is made: at most three retries, each because the relay asked for it, and
   no wait before it was cut short.
   */
  predicate CallMade(replies: nat -> Reply, cancelled: nat -> bool, call: nat) {
    call <= 3 && forall k :: 0 <= k < call ==> replies(k) == Retryable && !cancelled(k)
  }

  lemma {:induction false} OutcomeFrom(replies: nat -> Reply, cancelled: nat -> bool, call: nat)
    requires CallMade(replies, cancelled, call)
    ensures Outcome(replies, cancelled, call) == Delivered
            <==> exists k :: k >= call && CallMade(replies, cancelled, k) && replies(k) == Accepted
    ensures Outcome(replies, cancelled, call) == Silent
            <==> exists k :: k >= call && CallMade(replies, cancelled, k) && replies(k) == Failed(true)
    decreases 3 - call
  {
    if replies(call) == Retryable && call < 3 && !cancelled(call) {
      assert forall k :: 0 <= k < call + 1 ==> replies(k) == Retryable && !cancelled(k);
      OutcomeFrom(replies, cancelled, call + 1);
    } else {
      assert forall k :: k > call ==> !CallMade(replies, cancelled, k);
    }
  }

  /**
   A send is delivered exactly if some call that was made was accepted, its outcome is left
   open exactly if some call that was made failed because the phone kept silent, and it is
   refused in every other case.
   */
  lemma OutcomeExactly(replies: nat -> Reply, cancelled: nat -> bool)
    ensures Outcome(replies, cancelled, 0) == Delivered
            <==> exists k: nat :: CallMade(replies, cancelled, k) && replies(k) == Accepted
    ensures Outcome(replies, cancelled, 0) == Silent
            <==> exists k: nat :: CallMade(replies, cancelled, k) && replies(k) == Failed(true)
  {
    OutcomeFrom(replies, cancelled, 0);
  }

  /** sendToRelay: retried at most three times, and only while the relay asks for it. */
  method SendToRelay(replies: nat -> Reply, cancelled: nat -> bool) returns (sent: Sent, calls: nat)
    ensures sent == Outcome(replies, cancelled, 0)
    ensures 1 <= calls <= MAX_RETRIES + 1
    ensures forall k: nat :: CallMade(replies, cancelled, k) <==> k < calls
  {
    var resp := replies(0);
    calls := 1;
    var attempt := 0;
    while !resp.Failed? && resp != Accepted && attempt < MAX_RETRIES
      invariant attempt <= MAX_RETRIES && calls == attempt + 1 && resp == replies(attempt)
      invariant CallMade(replies, cancelled, attempt)
      invariant Outcome(replies, cancelled, 0) == Outcome(replies, cancelled, attempt)
      decreases MAX_RETRIES - attempt
    {
      if resp != Retryable {
        break;
      }
      if cancelled(attempt) {
        return Refused, calls;
      }
      attempt := attempt + 1;
      resp := replies(attempt);
      calls := calls + 1;
    }
    if resp.Failed? {
      return if resp.phoneSilent then Silent else Refused, calls;
    }
    sent := if resp == Accepted then Delivered else Refused;
  }

  // ---------- what a command meets ----------

  datatype Meeting = Meeting(
    readable: bool,        // the staged upload could be read
    known: bool,           // thread metadata found
    client: bool,          // a client exists when it is needed
    uploaded: bool,        // the media upload worked
    txn: string,
    sent: Sent,
    selfState: Option<(bool, bool)>,  // reaction roster: self reacted with this emoji, with another
    accepted: bool,        // reaction, deletion: the relay took it
    answers: seq<bool>,    // per GetOrCreateConversation call: answered without an error
    createRCS: bool,       // the first answer asks for an explicit group creation
    threadID: string,      // the thread id in the last answer
    others: nat)           // events about the opened thread, if it could be fetched

  /** Why a command is refused before the relay is asked to send, if it is. */
  function Refusal(c: Command, m: Meeting): Option<string>
    requires c.SendText? || c.SendMedia?
  {
    match c
    case SendText(_, _, text) =>
      if |text| == 0 || |text| > MAX_TEXT_CHARS then Some("text rejected")
      else if !m.known then Some("unknown conversation")
      else if !m.client then Some("not connected")
      else None
    case SendMedia(_, _) =>
      if !m.readable then Some("unreadable file")
      else if !m.known then Some("unknown conversation")
      else if !m.client then Some("not connected")
      else if !m.uploaded then Some("media upload failed")
      else None
  }

  function Failure(requestID: string, error: string): seq<Attempt> {
    [CommandResult(requestID, false, error)]
  }

  function Success(requestID: string): seq<Attempt> {
    [CommandResult(requestID, true, "")]
  }

  function Answered(m: Meeting, call: nat): bool {
    call < |m.answers| && m.answers[call]
  }

  function Others(n: nat): seq<Attempt> {
    seq(n, _ => Other)
  }

  /** Everything a command attempts to emit, in order. */
  function Script(c: Command, m: Meeting): seq<Attempt> {
    match c
    case SendText(id, conversation, _) => SendScript(id, conversation, Refusal(c, m), m)
    case SendMedia(id, conversation) => SendScript(id, conversation, Refusal(c, m), m)
    case React(id, emoji, add) =>
      if emoji == "" then Failure(id, "reaction rejected")
      else if m.selfState.None? then Failure(id, "unknown message")
      else if m.selfState.value.0 == add then Success(id)
      else if !m.client then Failure(id, "not connected")
      else if !m.accepted then Failure(id, "reaction failed")
      else Success(id)
    case DeleteMessage(id) =>
      if !m.client then Failure(id, "not connected")
      else if !m.accepted then Failure(id, "delete failed")
      else Success(id)
    case Open(id, addresses) =>
      if |addresses| == 0 then Failure(id, "no addresses")
      else if !m.client then Failure(id, "not connected")
      else if !Answered(m, 0) then Failure(id, "open failed")
      else if |addresses| > 1 && m.createRCS && !Answered(m, 1) then Failure(id, "open failed")
      else if m.threadID == "" then Failure(id, "open failed")
      else Success(id) + Others(m.others)
  }

  function SendScript(id: string, conversation: string, refusal: Option<string>, m: Meeting): seq<Attempt> {
    if refusal.Some? then Failure(id, refusal.value)
    else Success(id) + [Status(conversation, m.txn, "accepted")]
         + if m.sent == Refused then [Status(conversation, m.txn, "failed:transport")] else []
  }

  // ---------- the commands ----------

  datatype Pending = Pending(requestID: string, conversation: string, at: int)

  /** The correlation table without its expired entries. */
  function Swept(pending: map<string, Pending>, now: int): map<string, Pending> {
    map txn | txn in pending && pending[txn].at >= now - PENDING_TTL :: pending[txn]
  }

  class Session {
    var attempts: seq<Attempt>
    var pending: map<string, Pending>

    constructor ()
      ensures attempts == [] && pending == map[]
    {
      attempts, pending := [], map[];
    }

    method Fire(a: Attempt)
      modifies this`attempts
      ensures attempts == old(attempts) + [a]
    {
      attempts := attempts + [a];
    }

    method Result(requestID: string, ok: bool, error: string)
      modifies this`attempts
      ensures attempts == old(attempts) + [CommandResult(requestID, ok, if ok then "" else error)]
    {
      if !ok && error != "" {
        Fire(CommandResult(requestID, ok, error));
      } else {
        Fire(CommandResult(requestID, ok, ""));
      }
    }

    method SweepPending(now: int)
      modifies this`pending
      ensures pending == Swept(old(pending), now)
    {
      var left := pending.Keys;
      while left != {}
        invariant left <= old(pending).Keys
        invariant pending == map txn | txn in old(pending)
                && (txn in left || old(pending)[txn].at >= now - PENDING_TTL) :: old(pending)[txn]
        decreases |left|
      {
        var txn :| txn in left;
        left := left - {txn};
        if pending[txn].at < now - PENDING_TTL {
          pending := pending - {txn};
        }
      }
    }

    /** The common end of SendText and SendMedia: acceptance first, then the relay's verdict. */
    method Relay(requestID: string, conversation: string, txn: string, now: int, replies: nat -> Reply,
                 cancelled: nat -> bool)
      modifies this
      ensures var sent := Outcome(replies, cancelled, 0);
              && attempts == old(attempts) + Success(requestID) + [Status(conversation, txn, "accepted")]
                             + (if sent == Refused then [Status(conversation, txn, "failed:transport")] else [])
              && pending == (if sent == Refused then Swept(old(pending), now) - {txn}
                             else Swept(old(pending), now)[txn := Pending(requestID, conversation, now)])
    {
      SweepPending(now);
      pending := pending[txn := Pending(requestID, conversation, now)];
      Result(requestID, true, "");
      Fire(Status(conversation, txn, "accepted"));
      var sent, calls := SendToRelay(replies, cancelled);
      if sent != Delivered {
        if sent == Silent {
          return;
        }
        pending := pending - {txn};
        Fire(Status(conversation, txn, "failed:transport"));
      }
    }

    method DoSendText(c: Command, m: Meeting, now: int, replies: nat -> Reply, cancelled: nat -> bool)
      requires c.SendText? && m.sent == Outcome(replies, cancelled, 0)
      modifies this
      ensures attempts == old(attempts) + Script(c, m)
    {
      if |c.text| == 0 || |c.text| > MAX_TEXT_CHARS {
        Result(c.requestID, false, "text rejected");
        return;
      }
      if !m.known {
        Result(c.requestID, false, "unknown conversation");
        return;
      }
      if !m.client {
        Result(c.requestID, false, "not connected");
        return;
      }
      Relay(c.requestID, c.conversation, m.txn, now, replies, cancelled);
    }

    method DoSendMedia(c: Command, m: Meeting, now: int, replies: nat -> Reply, cancelled: nat -> bool)
      requires c.SendMedia? && m.sent == Outcome(replies, cancelled, 0)
      modifies this
      ensures attempts == old(attempts) + Script(c, m)
    {
      if !m.readable {
        Result(c.requestID, false, "unreadable file");
        return;
      }
      if !m.known {
        Result(c.requestID, false, "unknown conversation");
        return;
      }
      if !m.client {
        Result(c.requestID, false, "not connected");
        return;
      }
      if !m.uploaded {
        Result(c.requestID, false, "media upload failed");
        return;
      }
      Relay(c.requestID, c.conversation, m.txn, now, replies, cancelled);
    }

    method DoReact(c: Command, m: Meeting)
      requires c.React?
      modifies this`attempts
      ensures attempts == old(attempts) + Script(c, m)
    {
      if c.emoji == "" {
        Result(c.requestID, false, "reaction rejected");
        return;
      }
      if m.selfState.None? {
        Result(c.requestID, false, "unknown message");
        return;
      }
      var present := m.selfState.value.0;
      if !c.add {
        if !present {
          Result(c.requestID, true, "");
          return;
        }
      } else if present {
        Result(c.requestID, true, "");
        return;
      }
      if !m.client {
        Result(c.requestID, false, "not connected");
        return;
      }
      if !m.accepted {
        Result(c.requestID, false, "reaction failed");
        return;
      }
      Result(c.requestID, true, "");
    }

    method DoDelete(c: Command, m: Meeting)
      requires c.DeleteMessage?
      modifies this`attempts
      ensures attempts == old(attempts) + Script(c, m)
    {
      if !m.client {
        Result(c.requestID, false, "not connected");
        return;
      }
      if !m.accepted {
        Result(c.requestID, false, "delete failed");
        return;
      }
      Result(c.requestID, true, "");
    }

    method DoOpen(c: Command, m: Meeting)
      requires c.Open?
      modifies this`attempts
      ensures attempts == old(attempts) + Script(c, m)
    {
      if |c.addresses| == 0 {
        Result(c.requestID, false, "no addresses");
        return;
      }
      if !m.client {
        Result(c.requestID, false, "not connected");
        return;
      }
      if !Answered(m, 0) {
        Result(c.requestID, false, "open failed");
        return;
      }
      if |c.addresses| > 1 && m.createRCS {
        if !Answered(m, 1) {
          Result(c.requestID, false, "open failed");
          return;
        }
      }
      if m.threadID == "" {
        Result(c.requestID, false, "open failed");
        return;
      }
      Result(c.requestID, true, "");
      for i := 0 to m.others
        invariant attempts == old(attempts) + (Success(c.requestID) + Others(i))
      {
        Fire(Other);
      }
    }
  }

  // ---------- one answer ----------

  function Results(script: seq<Attempt>): nat {
    if script == [] then 0 else Results(script[..|script| - 1]) + if script[|script| - 1].CommandResult? then 1 else 0
  }

  /** A transport failure follows the acceptance of the same transaction, which follows a positive result. */
  predicate InOrder(script: seq<Attempt>) {
    forall i :: 0 <= i < |script| && script[i].Status? && script[i].token == "failed:transport" ==>
      exists j :: 1 <= j < i && script[j] == script[i].(token := "accepted") && script[j - 1].CommandResult?
          && script[j - 1].ok
  }

  /** Exactly one result, and for this request. */
  predicate OneAnswer(script: seq<Attempt>, requestID: string) {
    && Results(script) == 1
    && (forall i :: 0 <= i < |script| && script[i].CommandResult? ==> script[i].requestID == requestID)
    && InOrder(script)
  }

  lemma {:induction false} ResultsConcat(a: seq<Attempt>, b: seq<Attempt>)
    ensures Results(a + b) == Results(a) + Results(b)
  {
    if b == [] {
      assert a + b == a;
    } else {
      assert (a + b)[..|a + b| - 1] == a + b[..|b| - 1];
      ResultsConcat(a, b[..|b| - 1]);
    }
  }

  lemma ResultsOfOne(a: Attempt)
    ensures Results([a]) == if a.CommandResult? then 1 else 0
  {
    assert [a][..0] == [];
  }

  lemma {:induction false} OthersAnswerNothing(n: nat)
    ensures Results(Others(n)) == 0
  {
    if n > 0 {
      assert Others(n)[..n - 1] == Others(n - 1);
      OthersAnswerNothing(n - 1);
    }
  }

  lemma ResultFirst(result: Attempt, rest: seq<Attempt>)
    requires result.CommandResult? && Results(rest) == 0
    requires forall i :: 0 <= i < |rest| ==> !rest[i].CommandResult?
    requires forall i :: 0 <= i < |rest| && rest[i].Status? && rest[i].token == "failed:transport" ==>
               i == 1 && rest[0] == rest[1].(token := "accepted") && result.ok
    ensures OneAnswer([result] + rest, result.requestID)
  {
    var script := [result] + rest;
    ResultsOfOne(result);
    ResultsConcat([result], rest);
    InOrderAfterResult(result, rest);
  }

  lemma InOrderAfterResult(result: Attempt, rest: seq<Attempt>)
    requires result.CommandResult?
    requires forall i :: 0 <= i < |rest| && rest[i].Status? && rest[i].token == "failed:transport" ==>
               i == 1 && rest[0] == rest[1].(token := "accepted") && result.ok
    ensures InOrder([result] + rest)
  {
    var script := [result] + rest;
    forall i | 0 <= i < |script| && script[i].Status? && script[i].token == "failed:transport"
      ensures exists j ::
                && 1 <= j < i && script[j] == script[i].(token := "accepted")
                && script[j - 1].CommandResult? && script[j - 1].ok
    {
      assert script[i] == rest[i - 1];
      assert script[1] == rest[0] && script[1 - 1] == result;
    }
  }

  lemma SendAnswersOnce(id: string, conversation: string, refusal: Option<string>, m: Meeting)
    ensures OneAnswer(SendScript(id, conversation, refusal, m), id)
  {
    if refusal.Some? {
      ResultFirst(CommandResult(id, false, refusal.value), []);
      assert Failure(id, refusal.value) == [CommandResult(id, false, refusal.value)] + [];
    } else {
      var accepted, failed := Status(conversation, m.txn, "accepted"), Status(conversation, m.txn, "failed:transport");
      var tail := if m.sent == Refused then [failed] else [];
      ResultsOfOne(accepted);
      ResultsOfOne(failed);
      ResultsConcat([accepted], tail);
      ResultFirst(CommandResult(id, true, ""), [accepted] + tail);
      assert SendScript(id, conversation, refusal, m) == [CommandResult(id, true, "")] + ([accepted] + tail);
    }
  }

  /** Whatever a command meets, it answers its request exactly once, acceptance before failure. */
  lemma EveryCommandAnswersOnce(c: Command, m: Meeting)
    ensures OneAnswer(Script(c, m), c.requestID)
  {
    match c
    case SendText(id, conversation, _) => SendAnswersOnce(id, conversation, Refusal(c, m), m);
    case SendMedia(id, conversation) => SendAnswersOnce(id, conversation, Refusal(c, m), m);
    case _ =>
      var script := Script(c, m);
      var rest := if |script| == 1 then [] else Others(m.others);
      OthersAnswerNothing(m.others);
      ResultFirst(script[0], rest);
      assert script == [script[0]] + rest;
  }

  // ---------- which answer ----------

  /** Something a command needs, and the error it reports without it. */
  datatype Need = Need(holds: bool, error: string)

  /** What each command needs, in the order it is looked at. */
  function Needs(c: Command, m: Meeting): seq<Need> {
    match c
    case SendText(_, _, text) =>
      [Need(1 <= |text| <= 8000, "text rejected"), Need(m.known, "unknown conversation"),
       Need(m.client, "not connected")]
    case SendMedia(_, _) =>
      [Need(m.readable, "unreadable file"), Need(m.known, "unknown conversation"), Need(m.client, "not connected"),
       Need(m.uploaded, "media upload failed")]
    case React(_, emoji, add) =>
      var roster := [Need(emoji != "", "reaction rejected"), Need(m.selfState.Some?, "unknown message")];
      if m.selfState.Some? && m.selfState.value.0 == add then roster   // nothing to change
      else roster + [Need(m.client, "not connected"), Need(m.accepted, "reaction failed")]
    case DeleteMessage(_) => [Need(m.client, "not connected"), Need(m.accepted, "delete failed")]
    case Open(_, addresses) =>
      var created := |addresses| == 1 || !m.createRCS || (|m.answers| > 1 && m.answers[1]);
      [Need(addresses != [], "no addresses"), Need(m.client, "not connected"),
       Need(|m.answers| > 0 && m.answers[0] && created && m.threadID != "", "open failed")]
  }

  /** Need number k is the first that is not met. */
  predicate FirstUnmet(needs: seq<Need>, k: nat) {
    k < |needs| && !needs[k].holds && forall j :: 0 <= j < k ==> needs[j].holds
  }

  predicate AllMet(needs: seq<Need>) {
    forall k :: 0 <= k < |needs| ==> needs[k].holds
  }

  /**
   A command fails exactly if something it needs is missing, and then its one attempt names
   the first such thing.
   */
  lemma FailsExactly(c: Command, m: Meeting, k: nat)
    requires FirstUnmet(Needs(c, m), k)
    ensures Script(c, m) == [CommandResult(c.requestID, false, Needs(c, m)[k].error)]
  {
    var needs := Needs(c, m);
    assert forall j :: 0 <= j < k ==> needs[j].holds;
    assert k == 0 || needs[0].holds;
    assert k <= 1 || needs[1].holds;
    assert k <= 2 || needs[2].holds;
  }

  /**
   A command whose needs are met succeeds; a send then reports the acceptance of its
   transaction, and a transport failure exactly if the relay refused it; an opened thread's
   events follow its result.
   */
  lemma SucceedsExactly(c: Command, m: Meeting)
    requires AllMet(Needs(c, m))
    ensures Script(c, m) == [CommandResult(c.requestID, true, "")] +
              match c {
                case Open(_, _) => seq(m.others, _ => Other)
                case React(_, _, _) => []
                case DeleteMessage(_) => []
                case _ =>
                  [Status(c.conversation, m.txn, "accepted")]
                  + if m.sent == Refused then [Status(c.conversation, m.txn, "failed:transport")] else []
              }
  {
    var needs := Needs(c, m);
    assert needs[0].holds && needs[1].holds;
    assert |needs| > 2 ==> needs[2].holds;
    assert |needs| > 3 ==> needs[3].holds;
  }

  /** The daemon hears of a transport failure exactly if the command was good and no call to the relay came through. */
  lemma TransportFailureExactly(c: Command, m: Meeting, replies: nat -> Reply, cancelled: nat -> bool)
    requires (c.SendText? || c.SendMedia?) && m.sent == Outcome(replies, cancelled, 0)
    ensures Status(c.conversation, m.txn, "failed:transport") in Script(c, m) <==>
            && AllMet(Needs(c, m))
            && forall k: nat :: CallMade(replies, cancelled, k) ==> replies(k) != Accepted && replies(k) != Failed(true)
  {
    OutcomeExactly(replies, cancelled);
    if AllMet(Needs(c, m)) {
      SucceedsExactly(c, m);
    } else {
      var k := FirstOf(Needs(c, m));
      FailsExactly(c, m, k);
    }
  }

  lemma FirstOf(needs: seq<Need>) returns (k: nat)
    requires !AllMet(needs)
    ensures FirstUnmet(needs, k)
  {
    k := 0;
    while needs[k].holds
      invariant k < |needs| && forall j :: 0 <= j < k ==> needs[j].holds
      decreases |needs| - k
    {
      k := k + 1;
    }
  }

  // ---------- correlation ----------

  /** A sweep keeps an entry exactly if it is at most ten minutes old. */
  lemma SweptExactly(pending: map<string, Pending>, now: int, txn: string)
    ensures txn in Swept(pending, now) <==> txn in pending && now - pending[txn].at <= 10
    ensures txn in Swept(pending, now) ==> Swept(pending, now)[txn] == pending[txn]
  {
  }
}
