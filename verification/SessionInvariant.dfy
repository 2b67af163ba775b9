/**
 What every release of the session lock leaves behind, over every interleaving of the
 operations of Lifecycle, and who may raise the connected flag.
 */
module SessionInvariant {
  import opened Wrappers
  import opened Lifecycle
  import SaveFence
  import FenceRuns
  import Counter

  /**
   A client exists exactly when an auth does; it carries the current generation; only with one
   can the session be connected.
   */
  predicate Sound(s: Fields) {
    && (s.client.Some? <==> s.auth.Some?)
    && (s.connected ==> s.client.Some?)
    && (s.client.Some? ==> s.client.value.gen == s.clientGen)
  }

  predicate Below(c: Option<Client>, n: nat) {
    c.Some? ==> c.value.id < n
  }

  /** Every client that exists was built at an address already handed out. */
  predicate Addressed(w: World) {
    Below(w.sess.client, w.nextAddr) && Below(w.dialled, w.nextAddr)
  }

  lemma MoveKeepsSound(w: World, a: Action)
    requires Sound(w.sess) && Addressed(w) && Enabled(w, a) && !a.RelayLogout?
    ensures Sound(MoveOf(w, a).w.sess) && Addressed(MoveOf(w, a).w)
  {
    if a.Advance? {
      var q := w.procs[a.p];
      if InLogin(q) {
        LoginKeepsSound(w, q, a.answer);
      } else if InConnect(q) {
        ConnectKeepsSound(w, q, a.answer);
      } else if InLogout(q) {
        LogoutKeepsSound(w, q, a.answer);
      }
    }
  }

  lemma LoginKeepsSound(w: World, q: Proc, answer: Answer)
    requires Sound(w.sess) && Addressed(w) && InLogin(q)
    ensures var v := LoginMove(w, q, answer).w; Sound(v.sess) && Addressed(v)
  {
  }

  lemma ConnectKeepsSound(w: World, q: Proc, answer: Answer)
    requires Sound(w.sess) && Addressed(w) && InConnect(q)
    ensures var v := ConnectMove(w, q, answer).w; Sound(v.sess) && Addressed(v)
  {
  }

  lemma LogoutKeepsSound(w: World, q: Proc, answer: Answer)
    requires Sound(w.sess) && Addressed(w) && InLogout(q)
    ensures var v := LogoutMove(w, q, answer).w; Sound(v.sess) && Addressed(v)
  {
  }

  lemma StepKeepsSound(w: World, a: Action)
    requires Sound(w.sess) && Addressed(w) && Enabled(w, a)
    ensures Sound(Step(w, a).sess) && Addressed(Step(w, a))
  {
    if !a.RelayLogout? {
      MoveKeepsSound(w, a);
    }
  }

  /** The invariant holds whenever the lock is free, in every run. */
  lemma {:induction false} SoundInEveryRun(states: seq<World>, actions: seq<Action>, i: nat)
    requires IsRun(states, actions) && i < |states|
    ensures Sound(states[i].sess) && Addressed(states[i])
  {
    if i > 0 {
      assert Follows(states, actions, i - 1);
      SoundInEveryRun(states, actions, i - 1);
      StepKeepsSound(states[i - 1], actions[i - 1]);
    }
  }

  /**
   In every run the flag goes up only in the last section of a connect, on an open
   session whose client is the one that connect captured, and in the lifecycle it
   captured, unless the counter went round a whole number of times.
   */
  lemma OnlyTheOwnerConnects(states: seq<World>, actions: seq<Action>, i: nat)
    requires IsRun(states, actions) && i < |actions|
    requires !states[i].sess.connected && states[i + 1].sess.connected
    ensures var w, a := states[i], actions[i];
            && a.Advance? && a.p in w.procs && w.procs[a.p].ConnectRaise?
            && var q := w.procs[a.p];
               && w.sess.client == Some(q.client) && !w.sess.closed
               && q.born <= w.bumps && (q.born == w.bumps || (q.born >= 1 && (w.bumps - q.born) % Counter.CYCLE == 0))
               && states[i + 1].dialled == w.sess.client
  {
    assert Follows(states, actions, i);
    var w, a := states[i], actions[i];
    SaveFence.OnlyAuthsPublished(states, actions, i);
    MoveConnects(w, a);
    Counter.SameStamp(w.procs[a.p].born, w.bumps);
  }

  lemma MoveConnects(w: World, a: Action)
    requires Enabled(w, a) && !w.sess.connected && Step(w, a).sess.connected
    ensures a.Advance? && w.procs[a.p].ConnectRaise?
            && OwnsClient(w.sess, Counter.After(w.procs[a.p].born), w.procs[a.p].client)
    ensures Step(w, a).dialled == Some(w.procs[a.p].client)
  {
    if a.Advance? {
      StaysOffline(w, w.procs[a.p], a.answer);
    }
  }

  /** Every operation but the last section of a connect leaves an offline session offline. */
  lemma StaysOffline(w: World, q: Proc, answer: Answer)
    requires !w.sess.connected
    ensures InLogin(q) ==> !LoginMove(w, q, answer).w.sess.connected
    ensures InLogout(q) ==> !LogoutMove(w, q, answer).w.sess.connected
    ensures InConnect(q) && !q.ConnectRaise? ==> !ConnectMove(w, q, answer).w.sess.connected
  {
  }

  /** The flag speaks of the client the session has now. */
  predicate Honest(w: World) {
    w.sess.connected ==> w.dialled == w.sess.client
  }

  /** A restore about to install its client in a session that is connected. */
  predicate RestoresOverConnected(w: World, a: Action) {
    a.Advance? && a.p in w.procs && w.procs[a.p].RestoreBuild? && w.sess.connected
  }

  /**
   It keeps doing so in every step but one: a restore over a connected session swaps in
   a client that never connected and leaves the flag up.
   */
  lemma HonestExceptRestore(w: World, a: Action)
    requires Sound(w.sess) && Addressed(w) && Enabled(w, a) && Honest(w)
    ensures Honest(Step(w, a)) <==> !RestoresOverConnected(w, a)
  {
    if a.Advance? {
      var q := w.procs[a.p];
      if InLogin(q) {
        LoginHonest(w, q, a.answer);
      } else if InLogout(q) {
        LogoutHonest(w, q, a.answer);
      } else if InConnect(q) {
        ConnectHonest(w, q, a.answer);
      }
    }
  }

  lemma LoginHonest(w: World, q: Proc, answer: Answer)
    requires Sound(w.sess) && Addressed(w) && Honest(w) && InLogin(q)
    ensures Honest(LoginMove(w, q, answer).w) <==> !(q.RestoreBuild? && w.sess.connected)
  {
  }

  lemma LogoutHonest(w: World, q: Proc, answer: Answer)
    requires Honest(w) && InLogout(q)
    ensures Honest(LogoutMove(w, q, answer).w)
  {
  }

  lemma ConnectHonest(w: World, q: Proc, answer: Answer)
    requires Honest(w) && InConnect(q)
    ensures Honest(ConnectMove(w, q, answer).w)
  {
  }

  /** The flag speaks of the present client throughout a run iff it never restores over a connected session. */
  lemma {:induction false} HonestRun(states: seq<World>, actions: seq<Action>, i: nat)
    requires IsRun(states, actions) && i < |states|
    ensures (forall k :: 0 <= k <= i ==> Honest(states[k]))
            <==> (forall k :: 0 <= k < i ==> !RestoresOverConnected(states[k], actions[k]))
  {
    if i > 0 {
      assert Follows(states, actions, i - 1);
      HonestRun(states, actions, i - 1);
      SoundInEveryRun(states, actions, i - 1);
      if Honest(states[i - 1]) {
        HonestExceptRestore(states[i - 1], actions[i - 1]);
      }
    }
  }

  /** A restored session whose first connect succeeds. */
  lemma ConnectedSession() returns (states: seq<World>, actions: seq<Action>)
    ensures IsRun(states, actions)
    ensures var w := states[|actions|];
            && w.sess.connected && w.sess.client == Some(Client(2, 1)) && w.dialled == w.sess.client
            && w.sess.auth == Some(1) && w.file.Some? && 1 !in w.procs
  {
    states, actions := FenceRuns.RestoredSession();
    var w := states[2];
    var client := Client(2, 1);
    var looping := w.(sess := w.sess.(connectCancel := Some(3)), nextAddr := 4, procs := map[0 := ConnectTop(3)]);
    states, actions := FenceRuns.AdvanceTo(states, actions, 0, looping);
    var capturing := looping.(procs := map[0 := ConnectCapture(3)]);
    states, actions := FenceRuns.AdvanceTo(states, actions, 0, capturing);
    var fetching := looping.(procs := map[0 := ConnectFetch(3, client, 0)]);
    states, actions := FenceRuns.AdvanceTo(states, actions, 0, fetching);
    states, actions := Dials(states, actions, client);
  }

  lemma Dials(states: seq<World>, actions: seq<Action>, client: Client)
    returns (states': seq<World>, actions': seq<Action>)
    requires IsRun(states, actions)
    requires var w := states[|actions|];
             && w.procs == map[0 := ConnectFetch(3, client, 0)]
             && w.bumps == 0 && w.sess.lifecycle == 0 && w.sess.client == Some(client) && !w.sess.closed
    ensures IsRun(states', actions')
    ensures var w, v := states[|actions|], states'[|actions'|];
            && v.sess == w.sess.(connected := true, authenticated := true) && v.dialled == Some(client)
            && v.file == w.file && v.procs.Keys == {0}
  {
    var w := states[|actions|];
    assert Counter.After(0) == 0;
    var dialling := w.(procs := map[0 := ConnectDial(3, client, 0)]);
    states', actions' := FenceRuns.AdvanceTo(states, actions, 0, dialling);
    var raising := w.(procs := map[0 := ConnectRaise(3, client, 0)]);
    states', actions' := FenceRuns.AdvanceTo(states', actions', 0, raising);
    var raised := w.(sess := w.sess.(connected := true, authenticated := true), dialled := Some(client),
                     procs := map[0 := SaveEnter(0, Finish)]);
    states', actions' := FenceRuns.AdvanceTo(states', actions', 0, raised);
  }

  /**
   Such a restore is reachable: a second hello over a connected session ends with the flag up
   for a client that never connected.
   */
  lemma RestoredOverConnected() returns (states: seq<World>, actions: seq<Action>)
    ensures IsRun(states, actions)
    ensures var end := states[|actions|];
            && !Honest(end) && end.sess.connected && end.sess.client.Some? && end.dialled.Some?
            && end.dialled.value.id < end.sess.client.value.id
  {
    states, actions := ConnectedSession();
    SoundInEveryRun(states, actions, |actions|);
    FenceRuns.ExtendRun(states, actions, StartRestore(1, true));
    var w := Step(states[|actions|], StartRestore(1, true));
    states, actions := states + [w], actions + [StartRestore(1, true)];
    states, actions := FenceRuns.AdvanceTo(states, actions, 1, Step(w, Advance(1, Good)));
  }
}
