/**
 Two sessions over one session file.  After a logout the hub forgets the session, and the
 account's next command gets a new one with a lifecycle and a save mutex of its own;
 what the older one still has in flight runs on beside it.
 */
module TwoSessions {
  import opened Wrappers
  import opened Lifecycle
  import SaveFence
  import FenceRuns
  import Counter

  /** A publish, and which session made it. */
  datatype Entry = Entry(newer: bool, saved: Saved)

  datatype Joint = Joint(
    older: World,
    newer: World,
    file: Option<Saved>,   // the one file both read and write
    log: seq<Entry>)       // the publishes since the newer session exists

  datatype Turn = By(newer: bool, action: Action)

  /** A session as it sees the shared file. */
  function Side(j: Joint, newer: bool): World {
    (if newer then j.newer else j.older).(file := j.file)
  }

  predicate Enabled(j: Joint, m: Turn) {
    Lifecycle.Enabled(Side(j, m.newer), m.action)
  }

  function Published(w: World, v: World): seq<Saved> {
    if |v.published| > |w.published| then v.published[|w.published|..] else []
  }

  function Tagged(newer: bool, saved: seq<Saved>): seq<Entry> {
    seq(|saved|, i requires 0 <= i < |saved| => Entry(newer, saved[i]))
  }

  function Step(j: Joint, m: Turn): Joint
    requires Enabled(j, m)
  {
    var w := Side(j, m.newer);
    var v := Lifecycle.Step(w, m.action);
    j.(older := if m.newer then j.older else v,
       newer := if m.newer then v else j.newer,
       file := v.file,
       log := j.log + Tagged(m.newer, Published(w, v)))
  }

  predicate Follows(states: seq<Joint>, moves: seq<Turn>, k: nat)
    requires k < |moves| < |states|
  {
    Enabled(states[k], moves[k]) && states[k + 1] == Step(states[k], moves[k])
  }

  ghost predicate Steps(states: seq<Joint>, moves: seq<Turn>) {
    && |states| == |moves| + 1
    && forall k {:trigger Follows(states, moves, k)} :: 0 <= k < |moves| ==> Follows(states, moves, k)
  }

  /** The moment the newer session is created. */
  function HandOver(w: World): Joint {
    Joint(w, Initial(false).(file := w.file), w.file, [])
  }

  predicate Starts(a: Action) {
    a.StartLogin? || a.StartRestore?
  }

  /**
   What follows a hand-over.  New commands go to the newer session; `late` says whether a
   login or restore that was dispatched to the older one has yet to begin.
   */
  ghost predicate After(w: World, late: bool, states: seq<Joint>, moves: seq<Turn>) {
    && Steps(states, moves) && states[0] == HandOver(w)
    && (!late ==> forall k :: 0 <= k < |moves| && !moves[k].newer ==> !Starts(moves[k].action))
  }

  /** A login or restore that has begun and is about to install its auth. */
  predicate Adopting(q: Proc) {
    q.LoginBuild? || q.RestoreBuild?
  }

  ghost predicate MayAdopt(w: World) {
    exists p :: p in w.procs && Adopting(w.procs[p])
  }

  // ---------- what the older session still writes ----------

  /** Publishes of one session in the log. */
  function Of(log: seq<Entry>, newer: bool): seq<Saved> {
    if log == [] then []
    else Of(log[..|log| - 1], newer) + if log[|log| - 1].newer == newer then [log[|log| - 1].saved] else []
  }

  lemma {:induction false} OfTagged(log: seq<Entry>, newer: bool, saved: seq<Saved>, side: bool)
    ensures Of(log + Tagged(newer, saved), side) == Of(log, side) + if side == newer then saved else []
  {
    var tagged := Tagged(newer, saved);
    if saved == [] {
      assert log + tagged == log;
    } else {
      var n := |saved| - 1;
      OfTagged(log, newer, saved[..n], side);
      assert tagged[..n] == Tagged(newer, saved[..n]);
      assert (log + tagged)[..|log| + n] == log + tagged[..n];
      assert saved == saved[..n] + [saved[n]];
    }
  }

  /** What a session step adds to its own publishes. */
  lemma StepPublishes(w: World, a: Action)
    requires Lifecycle.Enabled(w, a)
    ensures Lifecycle.Step(w, a).published == w.published + Published(w, Lifecycle.Step(w, a))
    ensures |Published(w, Lifecycle.Step(w, a))| <= 1
  {
    if !a.RelayLogout? {
      SaveFence.MoveWrites(w, a);
    }
  }

  /** The newer session's side of the invariant. */
  ghost predicate NewerSound(w: World) {
    SaveFence.Stamps(w) && SaveFence.Mutex(w) && SaveFence.AuthsOnly(w)
  }

  /** The older session is quiet, and nothing of it will install an auth. */
  ghost predicate Still(w: World, v: World) {
    SaveFence.QuietSince(w, v) && v.adopted == w.adopted && !MayAdopt(v)
  }

  ghost predicate OlderSound(w: World, v: World) {
    SaveFence.Mutex(v) && Still(w, v)
  }

  /** The log is the publishes of both since the hand-over. */
  predicate Logged(w: World, j: Joint) {
    j.older.published == w.published + Of(j.log, false) && j.newer.published == Of(j.log, true)
  }

  lemma SideKeeps(w: World, v: World, file: Option<Saved>)
    ensures SaveFence.Mutex(v) == SaveFence.Mutex(v.(file := file))
    ensures Still(w, v) == Still(w, v.(file := file))
    ensures NewerSound(v) == NewerSound(v.(file := file))
    ensures SaveFence.InOrder(v) == SaveFence.InOrder(v.(file := file))
  {
  }

  /** Only the start of a login or restore leads to an adoption. */
  lemma AdoptsNothing(v: World, a: Action)
    requires Lifecycle.Enabled(v, a) && !MayAdopt(v) && !Starts(a)
    ensures Lifecycle.Step(v, a).adopted == v.adopted && !MayAdopt(Lifecycle.Step(v, a))
  {
    if !a.RelayLogout? {
      assert a.Advance? ==> !Adopting(v.procs[a.p]);
      MoveAdoptsNothing(v, a);
    }
  }

  lemma MoveAdoptsNothing(v: World, a: Action)
    requires Lifecycle.Enabled(v, a) && !a.RelayLogout? && !Starts(a) && (a.Advance? ==> !Adopting(v.procs[a.p]))
    ensures var m := MoveOf(v, a);
            m.w.procs == v.procs && m.w.adopted == v.adopted && (m.next.Some? ==> !Adopting(m.next.value))
  {
    if a.Advance? {
      var q := v.procs[a.p];
      if InLogin(q) {
        LoginAdoptsNothing(v, q, a.answer);
      } else if InConnect(q) {
        ConnectAdoptsNothing(v, q, a.answer);
      }
    }
  }

  predicate NoAdoption(v: World, m: Move) {
    m.w.procs == v.procs && m.w.adopted == v.adopted && (m.next.Some? ==> !Adopting(m.next.value))
  }

  lemma LoginAdoptsNothing(v: World, q: Proc, answer: Answer)
    requires InLogin(q) && !Adopting(q)
    ensures NoAdoption(v, LoginMove(v, q, answer))
  {
  }

  lemma ConnectAdoptsNothing(v: World, q: Proc, answer: Answer)
    requires InConnect(q)
    ensures NoAdoption(v, ConnectMove(v, q, answer))
  {
  }

  lemma OlderStaysStill(w: World, v: World, file: Option<Saved>, a: Action)
    requires SaveFence.Mutex(v) && Still(w, v) && Lifecycle.Enabled(v.(file := file), a) && !Starts(a)
    ensures var u := Lifecycle.Step(v.(file := file), a); SaveFence.Mutex(u) && Still(w, u)
  {
    SideKeeps(w, v, file);
    SaveFence.StepKeepsMutex(v.(file := file), a);
    SaveFence.StaysQuiet(w, v.(file := file), a);
    AdoptsNothing(v.(file := file), a);
  }

  /** What one step adds to the log and to the publishes of the session that takes it. */
  lemma LogGrows(j: Joint, m: Turn, j': Joint) returns (saved: seq<Saved>)
    requires Enabled(j, m) && j' == Step(j, m)
    ensures j'.log == j.log + Tagged(m.newer, saved)
    ensures j'.older.published == j.older.published + if m.newer then [] else saved
    ensures j'.newer.published == j.newer.published + if m.newer then saved else []
  {
    var v := Side(j, m.newer);
    StepPublishes(v, m.action);
    saved := Published(v, Lifecycle.Step(v, m.action));
  }

  lemma LoggedGrows(w: World, j: Joint, newer: bool, saved: seq<Saved>, j': Joint)
    requires Logged(w, j) && j'.log == j.log + Tagged(newer, saved)
    requires j'.older.published == j.older.published + if newer then [] else saved
    requires j'.newer.published == j.newer.published + if newer then saved else []
    ensures Logged(w, j')
  {
    OfTagged(j.log, newer, saved, false);
    OfTagged(j.log, newer, saved, true);
  }

  lemma StepKeepsLogged(w: World, j: Joint, m: Turn, j': Joint)
    requires Logged(w, j) && Enabled(j, m) && j' == Step(j, m)
    ensures Logged(w, j')
  {
    var saved := LogGrows(j, m, j');
    LoggedGrows(w, j, m.newer, saved, j');
  }

  lemma StepKeepsOlder(w: World, j: Joint, m: Turn)
    requires OlderSound(w, j.older) && Enabled(j, m) && (m.newer || !Starts(m.action))
    ensures OlderSound(w, Step(j, m).older)
  {
    if !m.newer {
      OlderStaysStill(w, j.older, j.file, m.action);
    }
  }

  lemma StepKeepsNewer(j: Joint, m: Turn)
    requires NewerSound(j.newer) && Enabled(j, m)
    ensures NewerSound(Step(j, m).newer)
  {
    if m.newer {
      NewerKeepsSound(j.newer, j.file, m.action);
    }
  }

  lemma NewerKeepsSound(w: World, file: Option<Saved>, a: Action)
    requires NewerSound(w) && Lifecycle.Enabled(w.(file := file), a)
    ensures NewerSound(Lifecycle.Step(w.(file := file), a))
  {
    var v := w.(file := file);
    SideKeeps(w, w, file);
    SaveFence.StepKeepsStamps(v, a);
    SaveFence.StepKeepsMutex(v, a);
    SaveFence.StepKeepsAuthsOnly(v, a);
  }

  lemma {:induction false} LoggedAfter(w: World, late: bool, states: seq<Joint>, moves: seq<Turn>, i: nat)
    requires After(w, late, states, moves) && i < |states|
    ensures Logged(w, states[i])
  {
    if i > 0 {
      assert Follows(states, moves, i - 1);
      LoggedAfter(w, late, states, moves, i - 1);
      StepKeepsLogged(w, states[i - 1], moves[i - 1], states[i]);
    }
  }

  /** Nothing of the older session will adopt: it stays quiet. */
  lemma {:induction false} OlderAfter(w: World, states: seq<Joint>, moves: seq<Turn>, i: nat)
    requires SaveFence.Mutex(w) && w.sess.auth.None? && !MayAdopt(w) && After(w, false, states, moves) && i < |states|
    ensures OlderSound(w, states[i].older)
  {
    if i > 0 {
      assert Follows(states, moves, i - 1);
      OlderAfter(w, states, moves, i - 1);
      StepKeepsOlder(w, states[i - 1], moves[i - 1]);
    }
  }

  lemma {:induction false} NewerAfter(w: World, late: bool, states: seq<Joint>, moves: seq<Turn>, i: nat)
    requires After(w, late, states, moves) && i < |states|
    ensures NewerSound(states[i].newer)
  {
    if i > 0 {
      assert Follows(states, moves, i - 1);
      NewerAfter(w, late, states, moves, i - 1);
      StepKeepsNewer(states[i - 1], moves[i - 1]);
    }
  }

  // ---------- when the file goes back to the older session ----------

  /** The older session published after the newer one. */
  ghost predicate Overtaken(log: seq<Entry>) {
    exists i, j :: 0 <= i < j < |log| && log[i].newer && !log[j].newer
  }

  ghost predicate MayGoBack(w: World, late: bool) {
    exists states: seq<Joint>, moves: seq<Turn> :: After(w, late, states, moves) && Overtaken(states[|moves|].log)
  }

  lemma {:induction false} OfCounts(log: seq<Entry>, i: nat)
    requires i < |log|
    ensures Of(log, log[i].newer) != []
  {
    if i < |log| - 1 {
      OfCounts(log[..|log| - 1], i);
    }
  }

  lemma Extend(states: seq<Joint>, moves: seq<Turn>, m: Turn) returns (states': seq<Joint>, moves': seq<Turn>)
    requires Steps(states, moves) && Enabled(states[|moves|], m)
    ensures Steps(states', moves') && states'[0] == states[0]
    ensures states' == states + [Step(states[|moves|], m)] && moves' == moves + [m]
  {
    states', moves' := states + [Step(states[|moves|], m)], moves + [m];
    forall k | 0 <= k < |moves'|
      ensures Follows(states', moves', k)
    {
      if k < |moves| {
        assert Follows(states, moves, k);
      }
    }
  }

  /** A continuation by one of the two alone, as a run of that session. */
  lemma {:induction false} Continue(joint: seq<Joint>, moves: seq<Turn>, newer: bool,
                                    states: seq<World>, actions: seq<Action>)
    returns (joint': seq<Joint>, moves': seq<Turn>)
    requires Steps(joint, moves) && Lifecycle.Steps(states, actions) && states[0] == Side(joint[|moves|], newer)
    ensures Steps(joint', moves') && joint'[0] == joint[0]
    ensures |moves'| == |moves| + |actions| && moves' == moves + Turns(newer, actions)
    ensures var j, j', v := joint[|moves|], joint'[|moves'|], states[|actions|];
            && Side(j', newer) == v && j'.file == v.file
            && (if newer then j'.older == j.older else j'.newer == j.newer)
            && |v.published| >= |states[0].published|
            && j'.log == j.log + Tagged(newer, v.published[|states[0].published|..])
    decreases |actions|
  {
    if actions == [] {
      joint', moves' := joint, moves;
      assert joint[|moves|].log + [] == joint[|moves|].log;
    } else {
      var n := |actions| - 1;
      assert Lifecycle.Follows(states, actions, n);
      PrefixSteps(states, actions, n);
      joint', moves' := Continue(joint, moves, newer, states[..n + 1], actions[..n]);
      var u, v, before := states[n], states[n + 1], |states[0].published|;
      StepPublishes(u, actions[n]);
      TaggedAppend(joint[|moves|].log, newer, u.published, before, Published(u, v));
      joint', moves' := Extend(joint', moves', By(newer, actions[n]));
      assert actions == actions[..n] + [actions[n]];
    }
  }

  function Turns(newer: bool, actions: seq<Action>): seq<Turn> {
    seq(|actions|, i requires 0 <= i < |actions| => By(newer, actions[i]))
  }

  lemma TaggedAppend(log: seq<Entry>, newer: bool, saved: seq<Saved>, before: nat, more: seq<Saved>)
    requires before <= |saved|
    ensures log + Tagged(newer, saved[before..]) + Tagged(newer, more) == log + Tagged(newer, (saved + more)[before..])
  {
  }

  lemma PrefixSteps(states: seq<World>, actions: seq<Action>, n: nat)
    requires Lifecycle.Steps(states, actions) && n <= |actions|
    ensures Lifecycle.Steps(states[..n + 1], actions[..n])
  {
    var front, acts := states[..n + 1], actions[..n];
    forall k: nat | k < n
      ensures Lifecycle.Follows(front, acts, k)
    {
      assert Lifecycle.Follows(states, actions, k);
    }
  }

  /** A new session logs in, and a sync of it saves. */
  lemma NewerPublishes(w: World) returns (states: seq<World>, actions: seq<Action>)
    ensures Lifecycle.Steps(states, actions) && states[0] == HandOver(w).newer
    ensures var v := states[|actions|]; v.sess.auth.Some? && |v.published| == 1 && v.published[0].born == 1
  {
    states, actions := [HandOver(w).newer], [];
    states, actions := FenceRuns.FailedLogin(states, actions);
    SaveFence.StampsAlong(states, actions, |actions|);
    states, actions := FenceRuns.SyncSaves(states, actions, 0);
  }

  /** The newer session logs in and publishes while the older one stands still. */
  lemma NewerFirst(w: World) returns (states: seq<Joint>, moves: seq<Turn>)
    ensures After(w, false, states, moves)
    ensures var j := states[|moves|];
            && j.older == w && j.newer.sess.auth.Some? && |j.newer.published| == 1 && j.newer.published[0].born == 1
            && |j.log| == 1 && j.log[0].newer
  {
    var runs, actions := NewerPublishes(w);
    states, moves := Continue([HandOver(w)], [], true, runs, actions);
  }

  /** If a run of the older session from there on publishes: the newer publish is overtaken. */
  lemma ThenOlder(w: World, late: bool, runs: seq<World>, actions: seq<Action>, states: seq<Joint>, moves: seq<Turn>)
    returns (states': seq<Joint>, moves': seq<Turn>)
    requires After(w, false, states, moves) && |states[|moves|].log| == 1 && states[|moves|].log[0].newer
    requires Lifecycle.Steps(runs, actions) && runs[0] == Side(states[|moves|], false)
    requires |runs[|actions|].published| > |runs[0].published|
    requires !late ==> forall k :: 0 <= k < |actions| ==> !Starts(actions[k])
    ensures After(w, late, states', moves') && Overtaken(states'[|moves'|].log)
    ensures states'[|moves'|].file == runs[|actions|].file && states'[|moves'|].newer == states[|moves|].newer
  {
    states', moves' := Continue(states, moves, false, runs, actions);
    var log := states'[|moves'|].log;
    assert log[0].newer && !log[1].newer;
  }

  /** With a save of the older session past its recheck, that write lands last. */
  lemma Overtake(w: World) returns (states: seq<Joint>, moves: seq<Turn>)
    requires SaveFence.Mutex(w) && SaveFence.Writing(w) == 1
    ensures After(w, false, states, moves) && Overtaken(states[|moves|].log)
    ensures var end, q := states[|moves|], w.procs[w.saveMu.value];
            && end.file == Some(Saved(q.born, q.saved))
            && end.newer.sess.auth.Some? && |end.newer.published| == 1 && end.newer.published[0].born == 1
  {
    states, moves := NewerFirst(w);
    var v, a := Side(states[|moves|], false), Advance(w.saveMu.value, Good);
    SaveFence.MoveWrites(v, a);
    var u := Lifecycle.Step(v, a);
    var runs, actions := [v, u], [a];
    assert Lifecycle.Follows(runs, actions, 0);
    states, moves := ThenOlder(w, false, runs, actions, states, moves);
  }

  /** With an auth, or a login or restore that will install one, a sync of the older session saves last. */
  lemma SaveAndOvertake(w: World, late: bool) returns (states: seq<Joint>, moves: seq<Turn>)
    requires SaveFence.Mutex(w) && SaveFence.Stamps(w) && SaveFence.Writing(w) == 0
    requires w.sess.auth.Some? || MayAdopt(w) || late
    ensures After(w, late, states, moves) && Overtaken(states[|moves|].log)
  {
    states, moves := NewerFirst(w);
    var v := Side(states[|moves|], false);
    var runs, actions := [v], [];
    if w.sess.auth.None? {
      var p: nat;
      if p' :| p' in w.procs && Adopting(w.procs[p']) {
        p := p';
      } else {
        p := FenceRuns.FreshProc(v.procs);
        runs, actions := FenceRuns.LoginBegins(runs, actions, p);
      }
      runs, actions := FenceRuns.Adopts(runs, actions, p);
    }
    runs, actions := FenceRuns.SavesNow(runs, actions);
    states, moves := ThenOlder(w, late, runs, actions, states, moves);
  }

  /**
   The forgotten session can publish over a file of its successor if and only if, at the
   hand-over, one of its saves is past its recheck, or it has an auth, or a login or
   restore of it is about to install one, or was dispatched to it and has yet to begin.
   */
  lemma GoesBackExactly(w: World, late: bool)
    requires SaveFence.Mutex(w) && SaveFence.Stamps(w)
    ensures MayGoBack(w, late) <==> SaveFence.Writing(w) == 1 || w.sess.auth.Some? || MayAdopt(w) || late
  {
    if SaveFence.Writing(w) == 1 {
      var states, moves := Overtake(w);
      assert After(w, late, states, moves);
    } else if w.sess.auth.Some? || MayAdopt(w) || late {
      var states, moves := SaveAndOvertake(w, late);
      assert After(w, late, states, moves) && Overtaken(states[|moves|].log);
    } else if MayGoBack(w, late) {
      var states: seq<Joint>, moves: seq<Turn> :| After(w, late, states, moves) && Overtaken(states[|moves|].log);
      LoggedAfter(w, late, states, moves, |moves|);
      OlderAfter(w, states, moves, |moves|);
      var log := states[|moves|].log;
      var i, j :| 0 <= i < j < |log| && log[i].newer && !log[j].newer;
      OfCounts(log, j);
    }
  }

  /** It does happen: after a logout that succeeded, the newer session's file is replaced by the revoked auth. */
  lemma RevokedAuthReturns() returns (runs: seq<World>, actions: seq<Action>, states: seq<Joint>, moves: seq<Turn>)
    ensures Lifecycle.IsRun(runs, actions)
    ensures var torn := runs[|actions|];
            torn.sess.auth.None? && torn.sess.client.None? && torn.file.None? && After(torn, false, states, moves)
    ensures var end := states[|moves|];
            && |end.newer.published| == 1 && end.newer.sess.auth.Some?
            && end.file == Some(Saved(0, Some(1))) && end.file.value !in end.newer.published
  {
    runs, actions := FenceRuns.SaveInFlight();
    runs, actions := FenceRuns.LogoutPasses(runs, actions, 2);
    SaveFence.OnlyAuthsPublished(runs, actions, |actions|);
    states, moves := Overtake(runs[|actions|]);
  }

  // ---------- otherwise the lifecycles never decrease ----------

  /** Older session first, and within a session by lifecycle. */
  ghost predicate Ascending(log: seq<Entry>) {
    forall i, j :: 0 <= i < j < |log| ==>
      && (log[i].newer ==> log[j].newer)
      && (log[i].newer == log[j].newer ==> log[i].saved.born <= log[j].saved.born)
  }

  ghost predicate NewerBehind(j: Joint, m: Turn) {
    m.newer && SaveFence.PassesBehind(Side(j, true), m.action)
  }

  lemma {:induction false} NewerInOrder(w: World, late: bool, states: seq<Joint>, moves: seq<Turn>, i: nat)
    requires After(w, late, states, moves) && i < |states|
    requires forall k :: 0 <= k < i ==> !NewerBehind(states[k], moves[k])
    ensures SaveFence.InOrder(states[i].newer)
  {
    if i > 0 {
      assert Follows(states, moves, i - 1);
      NewerInOrder(w, late, states, moves, i - 1);
      NewerAfter(w, late, states, moves, i - 1);
      StepKeepsNewerOrder(w, states[i - 1], moves[i - 1], states[i]);
    }
  }

  lemma StepKeepsNewerOrder(w: World, j: Joint, m: Turn, j': Joint)
    requires NewerSound(j.newer) && SaveFence.InOrder(j.newer)
    requires Enabled(j, m) && j' == Step(j, m) && !NewerBehind(j, m)
    ensures SaveFence.InOrder(j'.newer)
  {
    if m.newer {
      SideKeeps(w, j.newer, j.file);
      NewerStaysInOrder(Side(j, true), m.action);
    }
  }

  lemma NewerStaysInOrder(v: World, a: Action)
    requires SaveFence.Stamps(v) && SaveFence.Mutex(v) && SaveFence.InOrder(v)
    requires Lifecycle.Enabled(v, a) && !SaveFence.PassesBehind(v, a)
    ensures SaveFence.InOrder(Lifecycle.Step(v, a))
  {
    SaveFence.StepKeepsOrder(v, a);
  }

  lemma {:induction false} OnlyNewer(log: seq<Entry>)
    requires Of(log, false) == []
    ensures |Of(log, true)| == |log| && forall i :: 0 <= i < |log| ==> log[i] == Entry(true, Of(log, true)[i])
  {
    if log != [] {
      OnlyNewer(log[..|log| - 1]);
    }
  }

  /**
   With none of these at the hand-over, and no save of the newer session passing behind
   a newer publish, the file's lifecycle never decreases.
   */
  lemma LifecyclesNeverDecrease(w: World, states: seq<Joint>, moves: seq<Turn>)
    requires SaveFence.Mutex(w) && w.sess.auth.None? && SaveFence.Writing(w) == 0 && !MayAdopt(w)
    requires After(w, false, states, moves)
    requires forall k :: 0 <= k < |moves| ==> !NewerBehind(states[k], moves[k])
    ensures Ascending(states[|moves|].log)
  {
    LoggedAfter(w, false, states, moves, |moves|);
    OlderAfter(w, states, moves, |moves|);
    NewerInOrder(w, false, states, moves, |moves|);
    assert Of(states[|moves|].log, false) == [];
    OnlyNewer(states[|moves|].log);
  }
}
