/**
 Admission of commands: sixteen worker slots, a busy answer when they are taken, and
 workers whose attempts interleave freely.
 */
module Hub {
  import opened Commands
  import Accounts

  const MAX_WORKERS: nat := 16

  /** A request-id command as it arrives: the account it names and the path a media command carries. */
  datatype Line = Line(account: string, conversation: string, path: string, command: Command)

  datatype Verdict = Dropped | Answered(error: string) | Admitted

  /** The gate of dispatch for the commands that carry a request id. */
  function Gate(line: Line): Verdict {
    var valid := Accounts.AccountFile(line.account).Some?;
    var id := line.command.requestID;
    match line.command
    case SendText(_, _, _) => if !valid || line.conversation == "" || id == "" then Dropped else Admitted
    case SendMedia(_, _) =>
      if !valid || line.conversation == "" || id == "" || line.path == "" then Answered("unreadable file") else Admitted
    case _ => if !valid || id == "" then Dropped else Admitted
  }

  /** One dispatched command, what it meets, and whether it found a free slot. */
  datatype Ticket = Ticket(line: Line, m: Meeting, started: bool)

  /** What a ticket is to attempt in all. */
  function Due(t: Ticket): seq<Attempt> {
    match Gate(t.line)
    case Dropped => []
    case Answered(error) => Failure(t.line.command.requestID, error)
    case Admitted => if t.started then Script(t.line.command, t.m) else Failure(t.line.command.requestID, "busy")
  }

  datatype Entry = Entry(ticket: nat, attempt: Attempt)

  datatype World = World(
    tickets: seq<Ticket>,               // in order of arrival
    workers: map<nat, seq<Attempt>>,    // ticket -> what its worker has still to attempt
    quiet: nat,                         // workers of commands without a request id
    log: seq<Entry>)

  const INITIAL := World([], map[], 0, [])

  datatype Action =
    | Dispatch(line: Line, m: Meeting)
    | Attempt(ticket: nat)
    | Finish(ticket: nat)    // the worker returns and frees its slot
    | DispatchQuiet          // a command without a request id: login, logout, sync, history, read, typing
    | FinishQuiet

  predicate Enabled(w: World, a: Action) {
    match a
    case Dispatch(_, _) => true
    case Attempt(t) => t in w.workers && w.workers[t] != []
    case Finish(t) => t in w.workers && w.workers[t] == []
    case DispatchQuiet => true
    case FinishQuiet => w.quiet > 0
  }

  function Tagged(ticket: nat, script: seq<Attempt>): seq<Entry> {
    seq(|script|, i requires 0 <= i < |script| => Entry(ticket, script[i]))
  }

  /** The slots taken. */
  function Active(w: World): nat {
    |w.workers| + w.quiet
  }

  function Step(w: World, a: Action): World
    requires Enabled(w, a)
  {
    match a
    case Dispatch(line, m) =>
      var id := |w.tickets|;
      var free := Active(w) < MAX_WORKERS;
      var t := Ticket(line, m, free);
      if Gate(line).Admitted? && free then w.(tickets := w.tickets + [t], workers := w.workers[id := Due(t)])
      else w.(tickets := w.tickets + [t], log := w.log + Tagged(id, Due(t)))
    case Attempt(t) =>
      w.(workers := w.workers[t := w.workers[t][1..]], log := w.log + [Entry(t, w.workers[t][0])])
    case Finish(t) => w.(workers := w.workers - {t})
    case DispatchQuiet => if Active(w) < MAX_WORKERS then w.(quiet := w.quiet + 1) else w
    case FinishQuiet => w.(quiet := w.quiet - 1)
  }

  ghost predicate IsRun(states: seq<World>, actions: seq<Action>) {
    && |states| == |actions| + 1
    && states[0] == INITIAL
    && forall i :: 0 <= i < |actions| ==> Enabled(states[i], actions[i]) && states[i + 1] == Step(states[i], actions[i])
  }

  /** What the log holds of one ticket. */
  function Of(log: seq<Entry>, ticket: nat): seq<Attempt> {
    if log == [] then []
    else Of(log[..|log| - 1], ticket) + if log[|log| - 1].ticket == ticket then [log[|log| - 1].attempt] else []
  }

  function Left(w: World, ticket: nat): seq<Attempt> {
    if ticket in w.workers then w.workers[ticket] else []
  }

  ghost predicate Inv(w: World) {
    && Active(w) <= MAX_WORKERS
    && (forall t :: t in w.workers ==> t < |w.tickets|)
    && (forall i :: 0 <= i < |w.log| ==> w.log[i].ticket < |w.tickets|)
    && (forall t :: 0 <= t < |w.tickets| ==> Of(w.log, t) + Left(w, t) == Due(w.tickets[t]))
  }

  lemma {:induction false} OfConcat(a: seq<Entry>, b: seq<Entry>, t: nat)
    ensures Of(a + b, t) == Of(a, t) + Of(b, t)
  {
    if b == [] {
      assert a + b == a;
    } else {
      assert (a + b)[..|a + b| - 1] == a + b[..|b| - 1];
      OfConcat(a, b[..|b| - 1], t);
    }
  }

  lemma {:induction false} OfTagged(ticket: nat, script: seq<Attempt>, t: nat)
    ensures Of(Tagged(ticket, script), t) == if t == ticket then script else []
  {
    if script != [] {
      var n := |script| - 1;
      assert Tagged(ticket, script)[..n] == Tagged(ticket, script[..n]);
      OfTagged(ticket, script[..n], t);
      assert script == script[..n] + [script[n]];
    }
  }

  lemma {:induction false} OfAbsent(log: seq<Entry>, t: nat)
    requires forall i :: 0 <= i < |log| ==> log[i].ticket != t
    ensures Of(log, t) == []
  {
    if log != [] {
      OfAbsent(log[..|log| - 1], t);
    }
  }

  lemma DispatchKeepsInv(w: World, line: Line, m: Meeting)
    requires Inv(w)
    ensures Inv(Step(w, Dispatch(line, m)))
  {
    var v, id := Step(w, Dispatch(line, m)), |w.tickets|;
    var due := Due(v.tickets[id]);
    forall t | 0 <= t < |v.tickets|
      ensures Of(v.log, t) + Left(v, t) == Due(v.tickets[t])
    {
      OfConcat(w.log, Tagged(id, due), t);
      OfTagged(id, due, t);
      if t == id {
        OfAbsent(w.log, t);
      } else {
        assert v.tickets[t] == w.tickets[t] && Of(w.log, t) + [] == Of(w.log, t);
      }
    }
  }

  /** An attempt moves one entry from its worker's script to the log. */
  lemma AttemptMovesOne(w: World, ticket: nat, t: nat)
    requires Enabled(w, Attempt(ticket))
    ensures Of(Step(w, Attempt(ticket)).log, t) + Left(Step(w, Attempt(ticket)), t) == Of(w.log, t) + Left(w, t)
  {
    var v := Step(w, Attempt(ticket));
    var mine := if t == ticket then [w.workers[ticket][0]] else [];
    assert v.log[..|v.log| - 1] == w.log && Of(v.log, t) == Of(w.log, t) + mine;
    assert Left(w, t) == mine + Left(v, t);
    assert Of(w.log, t) + (mine + Left(v, t)) == Of(w.log, t) + mine + Left(v, t);
  }

  lemma AttemptKeepsInv(w: World, ticket: nat)
    requires Inv(w) && Enabled(w, Attempt(ticket))
    ensures Inv(Step(w, Attempt(ticket)))
  {
    var v := Step(w, Attempt(ticket));
    assert |v.workers| == |v.workers.Keys| && v.workers.Keys == w.workers.Keys && |w.workers| == |w.workers.Keys|;
    forall t | 0 <= t < |v.tickets|
      ensures Of(v.log, t) + Left(v, t) == Due(v.tickets[t])
    {
      AttemptMovesOne(w, ticket, t);
    }
  }

  lemma FinishKeepsInv(w: World, ticket: nat)
    requires Inv(w) && Enabled(w, Finish(ticket))
    ensures Inv(Step(w, Finish(ticket)))
  {
    var v := Step(w, Finish(ticket));
    assert v.workers.Keys == w.workers.Keys - {ticket};
    assert |v.workers| == |v.workers.Keys| && |w.workers| == |w.workers.Keys|;
    forall t | 0 <= t < |v.tickets|
      ensures Of(v.log, t) + Left(v, t) == Due(v.tickets[t])
    {
      assert Left(v, t) == Left(w, t);
    }
  }

  lemma QuietKeepsInv(w: World, a: Action)
    requires Inv(w) && Enabled(w, a) && (a.DispatchQuiet? || a.FinishQuiet?)
    ensures Inv(Step(w, a))
  {
    var v := Step(w, a);
    assert forall t :: Left(v, t) == Left(w, t);
  }

  lemma {:induction false} InvInEveryRun(states: seq<World>, actions: seq<Action>, i: nat)
    requires IsRun(states, actions) && i < |states|
    ensures Inv(states[i])
  {
    if i > 0 {
      InvInEveryRun(states, actions, i - 1);
      match actions[i - 1]
      case Dispatch(line, m) => DispatchKeepsInv(states[i - 1], line, m);
      case Attempt(t) => AttemptKeepsInv(states[i - 1], t);
      case Finish(t) => FinishKeepsInv(states[i - 1], t);
      case _ => QuietKeepsInv(states[i - 1], actions[i - 1]);
    }
  }

  lemma {:induction false} ResultsOfPrefix(a: seq<Attempt>, b: seq<Attempt>)
    ensures Results(a) <= Results(a + b)
  {
    ResultsConcat(a, b);
  }

  /**
   One answer per request, in every run: at most sixteen workers are active; a ticket's
   attempts are always the beginning of its script; an admitted or answered command has
   attempted at most one result, and exactly one once its worker is done; a dropped
   command attempts nothing.
   */
  lemma OneAnswerPerRequest(states: seq<World>, actions: seq<Action>, i: nat, t: nat)
    requires IsRun(states, actions) && i < |states| && t < |states[i].tickets|
    ensures Active(states[i]) <= 16
    ensures var w := states[i];
            var made, ticket := Of(w.log, t), w.tickets[t];
            && made <= Due(ticket)
            && Results(made) <= 1 && InOrder(made)
            && (Gate(ticket.line).Dropped? ==> made == [])
            && (!Gate(ticket.line).Dropped? && t !in w.workers ==> OneAnswer(made, ticket.line.command.requestID))
  {
    InvInEveryRun(states, actions, i);
    var w := states[i];
    var made, due := Of(w.log, t), Due(w.tickets[t]);
    ResultsOfPrefix(made, Left(w, t));
    DueAnswersOnce(w.tickets[t]);
    PrefixInOrder(made, due);
    assert t !in w.workers ==> made + [] == made;
  }

  lemma DueAnswersOnce(t: Ticket)
    ensures if Gate(t.line).Dropped? then Due(t) == [] else OneAnswer(Due(t), t.line.command.requestID)
    ensures Results(Due(t)) <= 1 && InOrder(Due(t))
  {
    EveryCommandAnswersOnce(t.line.command, t.m);
    if !Gate(t.line).Dropped? && !(Gate(t.line).Admitted? && t.started) {
      assert Due(t) == [Due(t)[0]] + [];
      ResultFirst(Due(t)[0], []);
    }
  }

  lemma PrefixInOrder(a: seq<Attempt>, b: seq<Attempt>)
    requires a <= b && InOrder(b)
    ensures InOrder(a)
  {
    forall i | 0 <= i < |a| && a[i].Status? && a[i].token == "failed:transport"
      ensures exists j :: 1 <= j < i && a[j] == a[i].(token := "accepted") && a[j - 1].CommandResult? && a[j - 1].ok
    {
      assert b[i] == a[i];
      var j :| 1 <= j < i && b[j] == b[i].(token := "accepted") && b[j - 1].CommandResult? && b[j - 1].ok;
      assert a[j] == b[j] && a[j - 1] == b[j - 1];
    }
  }

  // ---------- which commands are answered, and with what ----------

  /** A request id, an account the store can hold, and what else the kind of command cannot do without. */
  predicate Acceptable(line: Line) {
    && line.command.requestID != "" && Accounts.GoodName(line.account)
    && (line.command.SendText? || line.command.SendMedia? ==> line.conversation != "")
    && (line.command.SendMedia? ==> line.path != "")
  }

  /** What a command comes to, by whether it found a slot. */
  function Answer(line: Line, m: Meeting, free: bool): seq<Attempt> {
    var id := line.command.requestID;
    if Acceptable(line) then if free then Script(line.command, m) else [CommandResult(id, false, "busy")]
    else if line.command.SendMedia? then [CommandResult(id, false, "unreadable file")]
    else []
  }

  lemma DueIsAnswer(t: Ticket)
    ensures Due(t) == Answer(t.line, t.m, t.started)
    ensures Gate(t.line).Admitted? <==> Acceptable(t.line)
    ensures Gate(t.line).Dropped? <==> !Acceptable(t.line) && !t.line.command.SendMedia?
  {
    Accounts.NamedExactly(t.line.account);
  }

  lemma {:induction false} TicketStays(states: seq<World>, actions: seq<Action>, i: nat, j: nat, line: Line, m: Meeting)
    requires IsRun(states, actions) && i < j <= |actions| && actions[i] == Dispatch(line, m)
    ensures var t := |states[i].tickets|;
            t < |states[j].tickets| && states[j].tickets[t] == Ticket(line, m, Active(states[i]) < 16)
  {
    assert Enabled(states[j - 1], actions[j - 1]) && states[j] == Step(states[j - 1], actions[j - 1]);
    if j > i + 1 {
      TicketStays(states, actions, i, j - 1, line, m);
    }
  }

  /**
   In every run, a command that arrives at step i is run if and only if it is acceptable
   and fewer than sixteen slots are taken; what it has attempted is always the beginning of
   its answer, and the whole of it once no worker holds it.
   */
  lemma AnsweredExactly(states: seq<World>, actions: seq<Action>, i: nat, j: nat, line: Line, m: Meeting)
    requires IsRun(states, actions) && i < j <= |actions| && actions[i] == Dispatch(line, m)
    ensures var t, answer := |states[i].tickets|, Answer(line, m, Active(states[i]) < 16);
            && Of(states[j].log, t) <= answer
            && (t !in states[j].workers ==> Of(states[j].log, t) == answer)
            && (t in states[i + 1].workers <==> Acceptable(line) && Active(states[i]) < 16)
  {
    InvInEveryRun(states, actions, i);
    InvInEveryRun(states, actions, j);
    TicketStays(states, actions, i, j, line, m);
    var t, w := |states[i].tickets|, states[j];
    DueIsAnswer(w.tickets[t]);
    assert t !in w.workers ==> Of(w.log, t) + [] == Of(w.log, t);
    DueIsAnswer(Ticket(line, m, Active(states[i]) < 16));
    assert states[i + 1] == Step(states[i], actions[i]);
  }

  /**
   So, in every run, an acceptable command, and a media command in any case, has attempted
   exactly one result for its request once no worker holds it; and any other command
   attempts nothing.
   */
  lemma OneAnswerExactly(states: seq<World>, actions: seq<Action>, i: nat, j: nat, line: Line, m: Meeting)
    requires IsRun(states, actions) && i < j <= |actions| && actions[i] == Dispatch(line, m)
    ensures var t := |states[i].tickets|;
            var made := Of(states[j].log, t);
            && (!Acceptable(line) && !line.command.SendMedia? ==> made == [])
            && (Acceptable(line) || line.command.SendMedia? ==> t !in states[j].workers ==>
                  OneAnswer(made, line.command.requestID))
  {
    AnsweredExactly(states, actions, i, j, line, m);
    var t := Ticket(line, m, Active(states[i]) < 16);
    DueIsAnswer(t);
    DueAnswersOnce(t);
  }

  /** A slot is taken by exactly the commands that are run, and freed only when a worker is done. */
  lemma SlotsExactly(w: World, a: Action)
    requires Inv(w) && Enabled(w, a)
    ensures Active(Step(w, a)) == Active(w) +
              match a {
                case Dispatch(line, _) => if Acceptable(line) && Active(w) < 16 then 1 else 0
                case DispatchQuiet => if Active(w) < 16 then 1 else 0
                case Attempt(_) => 0
                case _ => -1
              }
    ensures a.Finish? ==> w.workers[a.ticket] == [] && a.ticket !in Step(w, a).workers
  {
    var v := Step(w, a);
    if a.Dispatch? {
      DueIsAnswer(Ticket(a.line, a.m, Active(w) < 16));
      assert v.workers.Keys == w.workers.Keys || v.workers.Keys == w.workers.Keys + {|w.tickets|};
    }
    if a.Finish? {
      assert v.workers.Keys == w.workers.Keys - {a.ticket};
    }
    if a.Attempt? {
      assert v.workers.Keys == w.workers.Keys;
    }
    assert |v.workers| == |v.workers.Keys| && |w.workers| == |w.workers.Keys|;
  }

  /** Commands arrive at any time; a worker goes on while it has something to attempt, and is done when it has not. */
  lemma EnabledExactly(w: World, line: Line, m: Meeting, t: nat)
    ensures Enabled(w, Dispatch(line, m)) && Enabled(w, DispatchQuiet)
    ensures t in w.workers <==> Enabled(w, Attempt(t)) || Enabled(w, Finish(t))
    ensures Enabled(w, Finish(t)) <==> t in w.workers && Left(w, t) == []
    ensures !(Enabled(w, Attempt(t)) && Enabled(w, Finish(t)))
    ensures Enabled(w, FinishQuiet) <==> w.quiet != 0
  {
  }
}
