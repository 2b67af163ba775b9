/**
 Runs that show how tight the save fence is: each is built step by step from a new
 session.
 */
module FenceRuns {
  import opened Wrappers
  import opened Lifecycle
  import opened SaveFence
  import Counter

  /** From some step on, operations only go on, or syncs start. */
  predicate Advances(actions: seq<Action>, from: nat) {
    forall k :: from <= k < |actions| ==> actions[k].Advance? || actions[k].StartHolding?
  }

  lemma ExtendRun(states: seq<World>, actions: seq<Action>, a: Action)
    requires Steps(states, actions) && Enabled(states[|actions|], a)
    ensures Steps(states + [Step(states[|actions|], a)], actions + [a])
  {
    var states', actions' := states + [Step(states[|actions|], a)], actions + [a];
    forall k | 0 <= k < |actions'|
      ensures Follows(states', actions', k)
    {
      if k < |actions| {
        assert Follows(states, actions, k);
      }
    }
  }

  /** A session restored from the file it found, about to connect. */
  lemma RestoredSession() returns (states: seq<World>, actions: seq<Action>)
    ensures IsRun(states, actions) && |states| == 3
    ensures var w := states[2];
            && w.procs == map[0 := ConnectStart]
            && w.bumps == 0 && w.adopted == 1 && w.sess == Restored(NEW_SESSION, 1, true, 2) && w.nextAddr == 3
            && w.published == [] && w.file == Some(STORED) && w.saveMu.None? && w.dialled.None?
  {
    states, actions := [Initial(true)], [];
    var w1 := Initial(true).(procs := map[0 := RestoreBuild(true)]);
    ExtendRun(states, actions, StartRestore(0, true));
    states, actions := states + [w1], actions + [StartRestore(0, true)];
    var w2 := w1.(sess := Restored(NEW_SESSION, 1, true, 2), nextAddr := 3, adopted := 1,
        procs := map[0 := ConnectStart]);
    states, actions := AdvanceTo(states, actions, 0, w2);
  }

  /** The same, and a sync that holds its first stamp. */
  lemma RestoredAndHolding() returns (states: seq<World>, actions: seq<Action>)
    ensures IsRun(states, actions) && |states| == 4
    ensures var w := states[3];
            && w.procs == map[0 := ConnectStart, 1 := Holding(0)]
            && w.bumps == 0 && w.adopted == 1 && w.sess.client.Some? && w.sess.auth == Some(1) && w.sess.lifecycle == 0
            && w.published == [] && w.file == Some(STORED) && w.saveMu.None?
  {
    states, actions := RestoredSession();
    states, actions := StartSync(states, actions, 1);
  }

  /** The same, with the sync's save stopped between its recheck and its write. */
  lemma SaveInFlight() returns (states: seq<World>, actions: seq<Action>)
    ensures IsRun(states, actions) && |states| == 8
    ensures var w := states[7];
            && w.procs == map[0 := ConnectStart, 1 := SaveWrite(0, Some(1), Finish)]
            && w.bumps == 0 && w.adopted == 1 && w.sess.client.Some? && w.published == [] && w.file == Some(STORED)
  {
    states, actions := RestoredAndHolding();
    var w := states[3];
    var entering := w.(procs := map[0 := ConnectStart, 1 := SaveEnter(0, Finish)]);
    states, actions := AdvanceTo(states, actions, 1, entering);
    var waiting := entering.(procs := map[0 := ConnectStart, 1 := SaveWait(0, Some(1), Finish)]);
    states, actions := AdvanceTo(states, actions, 1, waiting);
    var checking := waiting.(saveMu := Some(1), procs := map[0 := ConnectStart, 1 := SaveRecheck(0, Some(1), Finish)]);
    states, actions := AdvanceTo(states, actions, 1, checking);
    var writing := checking.(procs := map[0 := ConnectStart, 1 := SaveWrite(0, Some(1), Finish)]);
    states, actions := AdvanceTo(states, actions, 1, writing);
  }

  lemma AdvanceTo(states: seq<World>, actions: seq<Action>, p: nat, next: World)
    returns (states': seq<World>, actions': seq<Action>)
    requires Steps(states, actions) && Enabled(states[|actions|], Advance(p, Good))
    requires next == Step(states[|actions|], Advance(p, Good))
    ensures states' == states + [next] && actions' == actions + [Advance(p, Good)]
    ensures Steps(states', actions') && states'[0] == states[0]
  {
    ExtendRun(states, actions, Advance(p, Good));
    states', actions' := states + [next], actions + [Advance(p, Good)];
  }

  /** A logout up to the deletion. */
  lemma LogoutRevokes(states: seq<World>, actions: seq<Action>, p: nat)
    returns (states': seq<World>, actions': seq<Action>)
    requires Steps(states, actions) && p !in states[|actions|].procs
    ensures Steps(states', actions') && states'[0] == states[0] && |states'| == |states| + 3
    ensures var w, v := states[|actions|], states'[|actions'|];
            && v.procs == w.procs[p := LogoutDelete] && v.bumps == w.bumps + 1 && v.sess.auth == w.sess.auth
            && v.adopted == w.adopted && v.published == w.published && v.saveMu == w.saveMu
  {
    var w := states[|actions|];
    var client, s := w.sess.client, w.sess.(pairCancel := None);
    var w1 := w.(sess := s, procs := w.procs[p := LogoutBump(client)]);
    ExtendRun(states, actions, StartLogout(p));
    states', actions' := states + [w1], actions + [StartLogout(p)];
    var w2 := w.(sess := Bumped(s), bumps := w.bumps + 1, procs := w.procs[p := LogoutRevoke(client)]);
    states', actions' := AdvanceTo(states', actions', p, w2);
    var w3 := w2.(procs := w.procs[p := LogoutDelete]);
    states', actions' := AdvanceTo(states', actions', p, w3);
  }

  /** A logout whose revoke and deletion succeed. */
  lemma LogoutPasses(states: seq<World>, actions: seq<Action>, p: nat)
    returns (states': seq<World>, actions': seq<Action>)
    requires Steps(states, actions) && p !in states[|actions|].procs
    ensures Steps(states', actions') && states'[0] == states[0] && |states'| == |states| + 5
    ensures var w, v := states[|actions|], states'[|actions'|];
            && v.file.None? && v.sess.auth.None? && v.sess.client.None?
            && v.procs == w.procs && v.adopted == w.adopted && v.published == w.published && v.saveMu == w.saveMu
  {
    var procs := states[|actions|].procs;
    states', actions' := LogoutRevokes(states, actions, p);
    var w := states'[|actions'|];
    var deleted := w.(file := None, procs := procs[p := LogoutTeardown]);
    states', actions' := AdvanceTo(states', actions', p, deleted);
    var torn := deleted.(sess := TornDown(w.sess), bumps := w.bumps + 1, procs := procs);
    states', actions' := AdvanceTo(states', actions', p, torn);
  }

  /**
   The one stale write does happen: a logout that revoked, deleted the file and tore the
   session down is followed by the write that was already past its recheck, and the
   session file is back.
   */
  lemma LoggedOutFileReappears() returns (states: seq<World>, actions: seq<Action>)
    ensures IsRun(states, actions) && |states| == 14
    ensures var torn, end := states[12], states[13];
            && torn.file.None? && torn.sess.auth.None? && torn.sess.client.None? && torn.published == []
            && end.adopted == torn.adopted && end.bumps == torn.bumps
            && end.file == Some(Saved(0, Some(1))) && |end.published| == 1
  {
    states, actions := SaveInFlight();
    states, actions := LogoutPasses(states, actions, 2);
    var w, file := states[12], Saved(0, Some(1));
    var written := w.(saveMu := None, file := Some(file), published := [file], procs := w.procs - {1});
    states, actions := AdvanceTo(states, actions, 1, written);
  }

  /** A sync that starts, and saves with nothing in between. */
  lemma SyncSaves(states: seq<World>, actions: seq<Action>, p: nat) returns (states': seq<World>, actions': seq<Action>)
    requires Steps(states, actions)
    requires var w := states[|actions|]; p !in w.procs && Stamps(w) && w.sess.auth.Some? && w.saveMu.None?
    ensures Steps(states', actions') && states'[0] == states[0] && states <= states'
    ensures actions <= actions' && Advances(actions', |actions|)
    ensures var w, v := states[|actions|], states'[|actions'|];
            && v.published == w.published + [Saved(w.bumps, w.sess.auth)] && v.file == Some(Saved(w.bumps, w.sess.auth))
            && v.procs == w.procs && v.sess == w.sess && v.bumps == w.bumps && v.saveMu.None? && v.adopted == w.adopted
  {
    states', actions' := StartSync(states, actions, p);
    states', actions' := SavePasses(states', actions', p, states[|actions|].bumps);
    assert states[|actions|].procs[p := Holding(states[|actions|].bumps)] - {p} == states[|actions|].procs;
  }

  /** A logout up to its deletion, of a session that does nothing else. */
  lemma FileDeleted() returns (states: seq<World>, actions: seq<Action>)
    ensures IsRun(states, actions)
    ensures var w := states[|actions|];
            && w.procs == map[0 := ConnectStart, 1 := LogoutTeardown] && w.file.None? && w.saveMu.None?
            && w.bumps == 1 && w.sess.auth == Some(1) && w.published == []
  {
    states, actions := RestoredSession();
    states, actions := LogoutRevokes(states, actions, 1);
    var w := states[|actions|];
    var deleted := w.(file := None, procs := w.procs[1 := LogoutTeardown]);
    states, actions := AdvanceTo(states, actions, 1, deleted);
  }

  /**
   No stale write is needed: while a logout stands between its deletion and its teardown,
   with no save under way and no stamp held by anyone, two syncs start and save in the
   lifecycle of the logout itself, and the session is torn down over the file they left.
   */
  lemma SavesDuringLogout() returns (states: seq<World>, actions: seq<Action>, deleted: nat)
    ensures IsRun(states, actions) && deleted < |states|
    ensures var w := states[deleted];
            w.file.None? && w.published == [] && w.bumps == 1 && (forall p :: p in w.procs ==> !Stamped(w.procs[p]))
    ensures var w, end := states[deleted], states[|actions|];
            && end.sess.auth.None? && end.sess.client.None? && Writing(end) == 0 && end.adopted == w.adopted
            && end.published == [Saved(1, Some(1)), Saved(1, Some(1))] && end.file == Some(Saved(1, Some(1)))
  {
    states, actions := FileDeleted();
    deleted := |actions|;
    OnlyAuthsPublished(states, actions, |actions|);
    states, actions := SyncSaves(states, actions, 2);
    states, actions := SyncSaves(states, actions, 2);
    var w := states[|actions|];
    var torn := w.(sess := TornDown(w.sess), bumps := w.bumps + 1, procs := w.procs - {1});
    states, actions := AdvanceTo(states, actions, 1, torn);
  }

  // ---------- an adoption after the teardown ----------

  lemma FreshProc(procs: map<nat, Proc>) returns (p: nat)
    ensures p !in procs
  {
    p := FreshKey(procs.Keys);
  }

  lemma {:induction false} FreshKey(keys: set<nat>) returns (k: nat)
    ensures forall x :: x in keys ==> x < k
    decreases |keys|
  {
    if keys == {} {
      k := 0;
    } else {
      var x :| x in keys;
      var n := FreshKey(keys - {x});
      assert forall y :: y in keys ==> y == x || y in keys - {x};
      k := if n <= x then x + 1 else n;
    }
  }

  lemma LoginBegins(states: seq<World>, actions: seq<Action>, p: nat)
    returns (states': seq<World>, actions': seq<Action>)
    requires Steps(states, actions) && p !in states[|actions|].procs && Mutex(states[|actions|])
    requires Stamps(states[|actions|])
    ensures Steps(states', actions') && states'[0] == states[0]
    ensures actions' == actions + [StartLogin(p)]
    ensures var w, v := states[|actions|], states'[|actions'|];
            && p in v.procs && v.procs[p].LoginBuild? && v.published == w.published
            && Mutex(v) && Stamps(v) && Writing(v) == Writing(w)
  {
    var w := states[|actions|];
    ExtendRun(states, actions, StartLogin(p));
    states', actions' := states + [Step(w, StartLogin(p))], actions + [StartLogin(p)];
    StepKeepsMutex(w, StartLogin(p));
    StepKeepsStamps(w, StartLogin(p));
  }

  /** A login or restore installs its auth. */
  lemma Adopts(states: seq<World>, actions: seq<Action>, p: nat)
    returns (states': seq<World>, actions': seq<Action>)
    requires Steps(states, actions)
    requires var w := states[|actions|];
             Mutex(w) && Stamps(w) && p in w.procs && (w.procs[p].LoginBuild? || w.procs[p].RestoreBuild?)
    ensures Steps(states', actions') && states'[0] == states[0] && actions' == actions + [Advance(p, Good)]
    ensures var w, v := states[|actions|], states'[|actions'|];
            Mutex(v) && Stamps(v) && v.sess.auth.Some? && v.published == w.published && Writing(v) == Writing(w)
  {
    var w := states[|actions|];
    StepKeepsMutex(w, Advance(p, Good));
    StepKeepsStamps(w, Advance(p, Good));
    states', actions' := AdvanceTo(states, actions, p, Step(w, Advance(p, Good)));
  }

  /** A save waiting at its recheck is let through, or gives the mutex back. */
  lemma RecheckDone(states: seq<World>, actions: seq<Action>)
    returns (states': seq<World>, actions': seq<Action>)
    requires Steps(states, actions)
    requires var w := states[|actions|]; Mutex(w) && Stamps(w) && w.sess.auth.Some? && Writing(w) == 0
    ensures Steps(states', actions') && states'[0] == states[0] && actions <= actions' && Advances(actions', |actions|)
    ensures var w, v := states[|actions|], states'[|actions'|];
            && Mutex(v) && Stamps(v) && v.sess == w.sess && v.published == w.published
            && (v.saveMu.None? || Writing(v) == 1)
  {
    var w := states[|actions|];
    if w.saveMu.None? {
      states', actions' := states, actions;
    } else {
      var q := w.saveMu.value;
      StepKeepsMutex(w, Advance(q, Good));
      StepKeepsStamps(w, Advance(q, Good));
      states', actions' := AdvanceTo(states, actions, q, Step(w, Advance(q, Good)));
    }
  }

  /** A session with an auth publishes: a save that waits is let through, or a sync starts and saves. */
  lemma SavesNow(states: seq<World>, actions: seq<Action>)
    returns (states': seq<World>, actions': seq<Action>)
    requires Steps(states, actions)
    requires var w := states[|actions|]; Mutex(w) && Stamps(w) && Writing(w) == 0 && w.sess.auth.Some?
    ensures Steps(states', actions') && states'[0] == states[0] && actions <= actions' && Advances(actions', |actions|)
    ensures |states'[|actions'|].published| > |states[|actions|].published|
  {
    states', actions' := RecheckDone(states, actions);
    var w := states'[|actions'|];
    if w.saveMu.None? {
      var r := FreshProc(w.procs);
      states', actions' := SyncSaves(states', actions', r);
    } else {
      var q := w.saveMu.value;
      MoveWrites(w, Advance(q, Good));
      states', actions' := AdvanceTo(states', actions', q, Step(w, Advance(q, Good)));
    }
  }

  // ---------- an old stamp that is current again ----------

  /** A login whose config fetch fails: one bump, a fresh auth, nothing else in flight. */
  lemma FailedLogin(states: seq<World>, actions: seq<Action>) returns (states': seq<World>, actions': seq<Action>)
    requires Steps(states, actions) && 0 !in states[|actions|].procs
    ensures Steps(states', actions') && states'[0] == states[0]
    ensures var w, v := states[|actions|], states'[|actions'|];
            && v.bumps == w.bumps + 1 && v.sess.auth.Some?
            && v.procs == w.procs && v.published == w.published && v.saveMu == w.saveMu
  {
    var w := states[|actions|];
    ExtendRun(states, actions, StartLogin(0));
    var w1 := Step(w, StartLogin(0));
    states', actions' := states + [w1], actions + [StartLogin(0)];
    var w2 := Step(w1, Advance(0, Good));
    states', actions' := AdvanceTo(states', actions', 0, w2);
    ExtendRun(states', actions', Advance(0, Bad));
    states', actions' := states' + [Step(w2, Advance(0, Bad))], actions' + [Advance(0, Bad)];
  }

  lemma {:induction false} FailedLogins(states: seq<World>, actions: seq<Action>, n: nat)
    returns (states': seq<World>, actions': seq<Action>)
    requires Steps(states, actions) && 0 !in states[|actions|].procs && states[|actions|].sess.auth.Some?
    ensures Steps(states', actions') && states'[0] == states[0]
    ensures var w, v := states[|actions|], states'[|actions'|];
            && v.bumps == w.bumps + n && v.sess.auth.Some?
            && v.procs == w.procs && v.published == w.published && v.saveMu == w.saveMu
  {
    if n == 0 {
      states', actions' := states, actions;
    } else {
      states', actions' := FailedLogins(states, actions, n - 1);
      states', actions' := FailedLogin(states', actions');
    }
  }

  /** A save nothing interferes with. */
  lemma SavePasses(states: seq<World>, actions: seq<Action>, p: nat, born: nat)
    returns (states': seq<World>, actions': seq<Action>)
    requires Steps(states, actions)
    requires var w := states[|actions|];
             && p in w.procs && w.procs[p] == Holding(born) && Counter.After(born) == w.sess.lifecycle
             && w.sess.auth.Some? && w.saveMu.None?
    ensures Steps(states', actions') && states'[0] == states[0] && states <= states'
    ensures actions <= actions' && Advances(actions', |actions|)
    ensures var w, v := states[|actions|], states'[|actions'|];
            && v.published == w.published + [Saved(born, w.sess.auth)]
            && v.file == Some(Saved(born, w.sess.auth)) && v.adopted == w.adopted
            && v.procs == w.procs - {p} && v.sess == w.sess && v.bumps == w.bumps && v.saveMu.None?
  {
    var w := states[|actions|];
    var auth := w.sess.auth;
    var entering := w.(procs := w.procs[p := SaveEnter(born, Finish)]);
    states', actions' := AdvanceTo(states, actions, p, entering);
    var waiting := w.(procs := w.procs[p := SaveWait(born, auth, Finish)]);
    states', actions' := AdvanceTo(states', actions', p, waiting);
    var checking := w.(saveMu := Some(p), procs := w.procs[p := SaveRecheck(born, auth, Finish)]);
    states', actions' := AdvanceTo(states', actions', p, checking);
    var writing := w.(saveMu := Some(p), procs := w.procs[p := SaveWrite(born, auth, Finish)]);
    states', actions' := AdvanceTo(states', actions', p, writing);
    var file := Saved(born, auth);
    var done := w.(file := Some(file), published := w.published + [file], procs := w.procs - {p});
    states', actions' := AdvanceTo(states', actions', p, done);
  }

  lemma StartSync(states: seq<World>, actions: seq<Action>, p: nat) returns (states': seq<World>, actions': seq<Action>)
    requires Steps(states, actions) && p !in states[|actions|].procs
    ensures var w := states[|actions|];
            && states' == states + [w.(procs := w.procs[p := Holding(w.bumps)])]
            && actions' == actions + [StartHolding(p, w.bumps)] && Steps(states', actions')
  {
    var w := states[|actions|];
    ExtendRun(states, actions, StartHolding(p, w.bumps));
    states', actions' := states + [Step(w, StartHolding(p, w.bumps))], actions + [StartHolding(p, w.bumps)];
  }

  /** Two syncs in flight, one of the first lifecycle and one of the current, a whole counter cycle later. */
  lemma CycleApart() returns (states: seq<World>, actions: seq<Action>)
    ensures IsRun(states, actions)
    ensures var w := states[|actions|];
            && w.procs == map[1 := Holding(1), 2 := Holding(1 + Counter.CYCLE)]
            && w.bumps == 1 + Counter.CYCLE && w.sess.auth.Some? && w.saveMu.None? && w.published == []
  {
    states, actions := [Initial(false)], [];
    states, actions := FailedLogin(states, actions);
    states, actions := StartSync(states, actions, 1);
    states, actions := FailedLogins(states, actions, Counter.CYCLE);
    states, actions := StartSync(states, actions, 2);
  }

  /** A stamp a whole counter cycle old is current again: then an older lifecycle is published after a newer one. */
  lemma OldStampReturns() returns (states: seq<World>, actions: seq<Action>)
    ensures IsRun(states, actions)
    ensures var end := states[|actions|];
            && |end.published| == 2 && end.published[0].born == 1 + Counter.CYCLE && end.published[1].born == 1
            && !Ordered(end.published)
  {
    states, actions := CycleApart();
    OnlyAuthsPublished(states, actions, |actions|);
    Counter.SameStamp(1, 1 + Counter.CYCLE);
    states, actions := SavePasses(states, actions, 2, 1 + Counter.CYCLE);
    states, actions := SavePasses(states, actions, 1, 1);
  }
}
