/**
 The save fence, over every interleaving of the operations of Lifecycle: what may
 still be published once the lifecycle has moved on.
 */
module SaveFence {
  import opened Wrappers
  import opened Lifecycle
  import Counter

  predicate InSaveMu(p: Proc) {
    p.SaveRecheck? || p.SaveWrite?
  }

  predicate Captured(p: Proc) {
    p.SaveWait? || p.SaveRecheck? || p.SaveWrite?
  }

  ghost predicate Ordered(published: seq<Saved>) {
    forall i, j :: 0 <= i < j < |published| ==> published[i].born <= published[j].born
  }

  /** The session carries the counter; no operation carries a stamp from the future. */
  ghost predicate Stamps(w: World) {
    && w.sess.lifecycle == Counter.After(w.bumps)
    && (forall p :: p in w.procs && Stamped(w.procs[p]) ==> w.procs[p].born <= w.bumps)
  }

  /**
   The save mutex is held by exactly the save between taking and releasing it; what a save
   will write is an auth.
   */
  ghost predicate Mutex(w: World) {
    && (w.saveMu.Some? ==> w.saveMu.value in w.procs && InSaveMu(w.procs[w.saveMu.value]))
    && (forall p :: p in w.procs && InSaveMu(w.procs[p]) ==> w.saveMu == Some(p))
    && (forall p :: p in w.procs && Captured(w.procs[p]) ==> w.procs[p].saved.Some?)
  }

  /** No nil auth was ever published, and no lifecycle from the future. */
  ghost predicate AuthsOnly(w: World) {
    forall i :: 0 <= i < |w.published| ==> w.published[i].auth.Some? && w.published[i].born <= w.bumps
  }

  /** A file on disk is one of those published or the one found at the start. */
  predicate Provenance(w: World) {
    w.file.Some? ==> w.file.value == STORED || w.file.value in w.published
  }

  /** The publish log is ordered by lifecycle, and the next write continues it. */
  ghost predicate InOrder(w: World) {
    && Ordered(w.published)
    && (forall p, i :: p in w.procs && w.procs[p].SaveWrite? && 0 <= i < |w.published| ==>
          w.published[i].born <= w.procs[p].born)
  }

  ghost predicate Inv(w: World) {
    Stamps(w) && Mutex(w) && AuthsOnly(w) && Provenance(w)
  }

  // ---------- one step ----------

  /** The lifecycle moved at most once, and the session's counter with it. */
  predicate BumpsOnce(w: World, v: World) {
    || (v.bumps == w.bumps && v.sess.lifecycle == w.sess.lifecycle)
    || (v.bumps == w.bumps + 1 && v.sess.lifecycle == Counter.Bump(w.sess.lifecycle))
  }

  lemma MoveBumps(w: World, a: Action)
    requires Enabled(w, a) && !a.RelayLogout?
    ensures BumpsOnce(w, MoveOf(w, a).w)
  {
    if a.Advance? {
      var q := w.procs[a.p];
      if InLogin(q) {
        LoginBumpsNothing(w, q, a.answer);
      } else if InConnect(q) {
        ConnectBumpsNothing(w, q, a.answer);
      }
    }
  }

  lemma LoginBumpsNothing(w: World, q: Proc, answer: Answer)
    requires InLogin(q)
    ensures BumpsOnce(w, LoginMove(w, q, answer).w)
  {
  }

  lemma ConnectBumpsNothing(w: World, q: Proc, answer: Answer)
    requires InConnect(q)
    ensures BumpsOnce(w, ConnectMove(w, q, answer).w)
  {
  }

  predicate BornBy(p: Proc, n: nat) {
    Stamped(p) ==> p.born <= n
  }

  lemma MoveBorn(w: World, a: Action)
    requires Stamps(w) && Enabled(w, a) && !a.RelayLogout?
    ensures var m := MoveOf(w, a);
            && m.w.procs == w.procs && m.w.bumps >= w.bumps
            && (m.next.Some? ==> BornBy(m.next.value, m.w.bumps))
  {
    if a.Advance? {
      var q := w.procs[a.p];
      assert BornBy(q, w.bumps);
      if InSave(q) {
        SaveBorn(w, a.p, q, a.answer);
      } else if InLogin(q) {
        LoginBorn(w, q, a.answer);
      } else if InConnect(q) {
        ConnectBorn(w, q, a.answer);
      }
    }
  }

  predicate KeepsBorn(w: World, m: Move) {
    m.w.procs == w.procs && m.w.bumps == w.bumps && (m.next.Some? ==> BornBy(m.next.value, w.bumps))
  }

  lemma SaveBorn(w: World, p: nat, q: Proc, answer: Answer)
    requires BornBy(q, w.bumps) && InSave(q)
    ensures KeepsBorn(w, SaveMove(w, p, q, answer))
  {
  }

  lemma LoginBorn(w: World, q: Proc, answer: Answer)
    requires BornBy(q, w.bumps) && InLogin(q)
    ensures KeepsBorn(w, LoginMove(w, q, answer))
  {
  }

  lemma ConnectBorn(w: World, q: Proc, answer: Answer)
    requires BornBy(q, w.bumps) && InConnect(q)
    ensures KeepsBorn(w, ConnectMove(w, q, answer))
  {
  }

  lemma MoveStamps(w: World, a: Action)
    requires Stamps(w) && Enabled(w, a) && !a.RelayLogout?
    ensures var m := MoveOf(w, a);
            && m.w.procs == w.procs && m.w.bumps >= w.bumps
            && m.w.sess.lifecycle == Counter.After(m.w.bumps)
            && (m.next.Some? ==> BornBy(m.next.value, m.w.bumps))
  {
    MoveBumps(w, a);
    MoveBorn(w, a);
    var next := MoveOf(w, a).w;
    assert next.bumps == w.bumps + 1 ==> Counter.After(next.bumps) == Counter.Bump(Counter.After(w.bumps));
  }

  lemma StepKeepsStamps(w: World, a: Action)
    requires Stamps(w) && Enabled(w, a)
    ensures Stamps(Step(w, a))
  {
    if !a.RelayLogout? {
      MoveStamps(w, a);
    }
  }

  /** Only a save takes or releases the mutex, and it takes it only when it is free. */
  lemma MoveMutex(w: World, a: Action)
    requires Mutex(w) && Enabled(w, a) && !a.RelayLogout?
    ensures var m := MoveOf(w, a);
            && m.w.procs == w.procs
            && (m.next.Some? && InSaveMu(m.next.value) ==> m.w.saveMu == Some(a.p))
            && (m.next.Some? && Captured(m.next.value) ==> m.next.value.saved.Some?)
            && (m.w.saveMu != w.saveMu ==> w.saveMu.None? || (a.p in w.procs && InSaveMu(w.procs[a.p])))
            && (m.w.saveMu.None? || m.w.saveMu == w.saveMu || m.w.saveMu == Some(a.p))
            && (m.w.saveMu == Some(a.p) ==> m.next.Some? && InSaveMu(m.next.value))
  {
    if a.Advance? {
      var q := w.procs[a.p];
      if InLogin(q) {
        LoginLeavesMutex(w, q, a.answer);
      } else if InLogout(q) {
        LogoutLeavesMutex(w, q, a.answer);
      } else if InConnect(q) {
        ConnectLeavesMutex(w, q, a.answer);
      }
    }
  }

  predicate LeavesMutex(w: World, m: Move) {
    m.w.procs == w.procs && m.w.saveMu == w.saveMu && (m.next.Some? ==> !Captured(m.next.value))
  }

  lemma LoginLeavesMutex(w: World, q: Proc, answer: Answer)
    requires InLogin(q)
    ensures LeavesMutex(w, LoginMove(w, q, answer))
  {
  }

  lemma LogoutLeavesMutex(w: World, q: Proc, answer: Answer)
    requires InLogout(q)
    ensures LeavesMutex(w, LogoutMove(w, q, answer))
  {
  }

  lemma ConnectLeavesMutex(w: World, q: Proc, answer: Answer)
    requires InConnect(q)
    ensures LeavesMutex(w, ConnectMove(w, q, answer))
  {
  }

  lemma StepKeepsMutex(w: World, a: Action)
    requires Mutex(w) && Enabled(w, a)
    ensures Mutex(Step(w, a))
  {
    if !a.RelayLogout? {
      MoveMutex(w, a);
    }
  }

  /** What a step can do to the publish log: nothing, or append the file of the save that is writing. */
  predicate Writes(w: World, a: Action) {
    Enabled(w, a) && a.Advance? && w.procs[a.p].SaveWrite? && (a.answer.Good? || a.answer.WrittenButFailed?)
  }

  /** A deletion of the file that takes effect. */
  predicate Deletes(w: World, a: Action) {
    Enabled(w, a) && a.Advance? && w.procs[a.p].LogoutDelete? && (a.answer.Good? || a.answer.WrittenButFailed?)
  }

  /** The guard of the recheck. */
  predicate Passes(w: World, q: Proc)
    requires q.SaveRecheck?
  {
    Counter.After(q.born) == w.sess.lifecycle && q.saved == w.sess.auth
  }

  /** A save passes its recheck with a stamp of an ended lifecycle. */
  predicate LatePass(w: World, a: Action) {
    Enabled(w, a) && a.Advance? && w.procs[a.p].SaveRecheck? && w.procs[a.p].born < w.bumps && Passes(w, w.procs[a.p])
  }

  /** A save passes its recheck although a newer lifecycle was published already. */
  ghost predicate PassesBehind(w: World, a: Action) {
    && Enabled(w, a) && a.Advance? && w.procs[a.p].SaveRecheck? && Passes(w, w.procs[a.p])
    && exists i :: 0 <= i < |w.published| && w.published[i].born > w.procs[a.p].born
  }

  lemma MoveWrites(w: World, a: Action)
    requires Enabled(w, a) && !a.RelayLogout?
    ensures var m := MoveOf(w, a);
            && m.w.procs == w.procs
            && (if Writes(w, a) then var file := Saved(w.procs[a.p].born, w.procs[a.p].saved);
                                     m.w.published == w.published + [file] && m.w.file == Some(file)
                else m.w.published == w.published && m.w.file == if Deletes(w, a) then None else w.file)
            && (a.Advance? && w.procs[a.p].SaveWrite? ==> m.w.saveMu.None?)
  {
    if a.Advance? {
      var q := w.procs[a.p];
      if InLogin(q) {
        LoginWritesNothing(w, q, a.answer);
      } else if InConnect(q) {
        ConnectWritesNothing(w, q, a.answer);
      }
    }
  }

  predicate WritesNothing(w: World, m: Move) {
    m.w.procs == w.procs && m.w.published == w.published && m.w.file == w.file
  }

  lemma LoginWritesNothing(w: World, q: Proc, answer: Answer)
    requires InLogin(q)
    ensures WritesNothing(w, LoginMove(w, q, answer))
  {
  }

  lemma ConnectWritesNothing(w: World, q: Proc, answer: Answer)
    requires InConnect(q)
    ensures WritesNothing(w, ConnectMove(w, q, answer))
  {
  }

  /** Only a recheck admits a write, and without a late pass only one of the current lifecycle. */
  lemma MoveAdmits(w: World, a: Action)
    requires Stamps(w) && Enabled(w, a) && !a.RelayLogout?
    ensures var m := MoveOf(w, a);
            m.next.Some? && m.next.value.SaveWrite? ==>
              && a.Advance? && w.procs[a.p].SaveRecheck? && Passes(w, w.procs[a.p])
              && m.next.value == SaveWrite(w.procs[a.p].born, w.procs[a.p].saved, w.procs[a.p].next)
              && m.w.bumps == w.bumps && (m.next.value.born == w.bumps || LatePass(w, a))
  {
  }

  lemma StepKeepsAuthsOnly(w: World, a: Action)
    requires Stamps(w) && Mutex(w) && AuthsOnly(w) && Enabled(w, a)
    ensures AuthsOnly(Step(w, a))
  {
    if !a.RelayLogout? {
      MoveWrites(w, a);
      MoveStamps(w, a);
    }
  }

  lemma StepKeepsProvenance(w: World, a: Action)
    requires Provenance(w) && Enabled(w, a)
    ensures Provenance(Step(w, a))
  {
    if !a.RelayLogout? {
      MoveWrites(w, a);
    }
  }

  lemma StepKeepsOrder(w: World, a: Action)
    requires Stamps(w) && Mutex(w) && InOrder(w) && Enabled(w, a)
    ensures InOrder(Step(w, a)) <==> !PassesBehind(w, a)
  {
    if !a.RelayLogout? {
      MoveWrites(w, a);
      MoveAdmits(w, a);
      if PassesBehind(w, a) {
        var v := Step(w, a);
        assert a.p in v.procs && v.procs[a.p].SaveWrite? && v.procs[a.p].born == w.procs[a.p].born;
      }
    }
  }

  lemma StepKeepsInv(w: World, a: Action)
    requires Inv(w) && Enabled(w, a)
    ensures Inv(Step(w, a))
  {
    StepKeepsStamps(w, a);
    StepKeepsMutex(w, a);
    StepKeepsAuthsOnly(w, a);
    StepKeepsProvenance(w, a);
  }

  // ---------- every run ----------

  lemma {:induction false} InvAlong(states: seq<World>, actions: seq<Action>, i: nat, j: nat)
    requires Steps(states, actions) && i <= j < |states| && Inv(states[i])
    ensures Inv(states[j])
    decreases j
  {
    if i < j {
      assert Follows(states, actions, j - 1);
      InvAlong(states, actions, i, j - 1);
      StepKeepsInv(states[j - 1], actions[j - 1]);
    }
  }

  /**
   In every reachable state of every run: no nil auth was published, a session file on
   disk is one of those publishes or the one found at the start, at most one save is
   between taking the save mutex and releasing it, and no stamp is from the future.
   */
  lemma OnlyAuthsPublished(states: seq<World>, actions: seq<Action>, i: nat)
    requires IsRun(states, actions) && i < |states|
    ensures Inv(states[i])
  {
    InvAlong(states, actions, 0, i);
  }

  lemma {:induction false} StampsAlong(states: seq<World>, actions: seq<Action>, i: nat)
    requires Steps(states, actions) && Stamps(states[0]) && i < |states|
    ensures Stamps(states[i])
  {
    if i > 0 {
      assert Follows(states, actions, i - 1);
      StampsAlong(states, actions, i - 1);
      StepKeepsStamps(states[i - 1], actions[i - 1]);
    }
  }

  /**
   Published lifecycles never decrease, and the next write continues them, throughout a
   run, if and only if no save passed its recheck behind a newer publish.
   */
  lemma {:induction false} PublishesInOrderExactly(states: seq<World>, actions: seq<Action>, i: nat)
    requires IsRun(states, actions) && i < |states|
    ensures (forall k :: 0 <= k <= i ==> InOrder(states[k]))
            <==> (forall k :: 0 <= k < i ==> !PassesBehind(states[k], actions[k]))
  {
    if i > 0 {
      assert Follows(states, actions, i - 1);
      PublishesInOrderExactly(states, actions, i - 1);
      OnlyAuthsPublished(states, actions, i - 1);
      if InOrder(states[i - 1]) {
        StepKeepsOrder(states[i - 1], actions[i - 1]);
      }
    }
  }

  /** Only a late pass is behind. */
  lemma BehindIsLate(w: World, a: Action)
    requires AuthsOnly(w) && PassesBehind(w, a)
    ensures LatePass(w, a)
  {
  }

  /**
   A save passes late exactly when its auth is still the session's and its stamp is a whole,
   positive number of counter cycles old.
   */
  lemma LatePassExactly(w: World, a: Action)
    requires Stamps(w) && Enabled(w, a) && a.Advance? && w.procs[a.p].SaveRecheck?
    ensures var q := w.procs[a.p];
            LatePass(w, a) <==>
              q.saved == w.sess.auth && 1 <= q.born < w.bumps && (w.bumps - q.born) % Counter.CYCLE == 0
  {
    Counter.SameStamp(w.procs[a.p].born, w.bumps);
  }

  /** Late passes among the steps from state i to state j. */
  function LatePasses(states: seq<World>, actions: seq<Action>, i: nat, j: nat): nat
    requires i <= j <= |actions| < |states|
    decreases j
  {
    if i == j then 0
    else LatePasses(states, actions, i, j - 1) + if LatePass(states[j - 1], actions[j - 1]) then 1 else 0
  }

  /** Publishes of a lifecycle that ended at or before the n-th bump. */
  function Old(published: seq<Saved>, n: nat): nat {
    if published == [] then 0
    else Old(published[..|published| - 1], n) + if published[|published| - 1].born <= n then 1 else 0
  }

  /** The one save already past its recheck, if its lifecycle is that old. */
  function Pending(w: World, n: nat): nat {
    if Writing(w) == 1 && w.procs[w.saveMu.value].born <= n then 1 else 0
  }

  lemma StepSpendsPending(w: World, a: Action, n: nat)
    requires Inv(w) && Enabled(w, a) && w.bumps > n
    ensures var v := Step(w, a);
            && v.bumps > n
            && Old(v.published, n) + Pending(v, n) <=
               Old(w.published, n) + Pending(w, n) + if LatePass(w, a) then 1 else 0
  {
    if !a.RelayLogout? {
      MoveWrites(w, a);
      MoveAdmits(w, a);
      MoveMutex(w, a);
      MoveStamps(w, a);
      if Writes(w, a) {
        assert MoveOf(w, a).w.published[..|w.published|] == w.published;
      }
    }
  }

  predicate StaleBounded(w: World, v: World, n: nat, late: nat) {
    v.bumps > n && Old(v.published, n) + Pending(v, n) <= Old(w.published, n) + Pending(w, n) + late
  }

  lemma StaleStep(w: World, v: World, a: Action, u: World, n: nat, late: nat)
    requires Inv(v) && Enabled(v, a) && u == Step(v, a) && StaleBounded(w, v, n, late)
    ensures StaleBounded(w, u, n, late + if LatePass(v, a) then 1 else 0)
  {
    StepSpendsPending(v, a, n);
  }

  lemma {:induction false} StaleWritesFrom(states: seq<World>, actions: seq<Action>, i: nat, j: nat, n: nat)
    requires Steps(states, actions) && i <= j < |states| && Inv(states[i]) && states[i].bumps > n
    ensures StaleBounded(states[i], states[j], n, LatePasses(states, actions, i, j))
    decreases j
  {
    if i < j {
      assert Follows(states, actions, j - 1);
      InvAlong(states, actions, i, j - 1);
      StaleWritesFrom(states, actions, i, j - 1, n);
      StaleStep(states[i], states[j - 1], actions[j - 1], states[j], n, LatePasses(states, actions, i, j - 1));
    }
  }

  /**
   After any bump at most one more file of an older lifecycle is ever published, the one
   whose save is already past its recheck, and one more for every late pass.
   */
  lemma AtMostOneStaleWrite(states: seq<World>, actions: seq<Action>, i: nat, j: nat, n: nat)
    requires IsRun(states, actions) && i <= j < |states| && states[i].bumps > n
    ensures Old(states[j].published, n) + Pending(states[j], n)
            <= Old(states[i].published, n) + Pending(states[i], n) + LatePasses(states, actions, i, j)
    ensures Old(states[j].published, n) <= Old(states[i].published, n) + 1 + LatePasses(states, actions, i, j)
  {
    OnlyAuthsPublished(states, actions, i);
    StaleWritesFrom(states, actions, i, j, n);
  }

  lemma StepBumps(w: World, a: Action)
    requires Enabled(w, a)
    ensures w.bumps <= Step(w, a).bumps
  {
    if !a.RelayLogout? {
      MoveBumps(w, a);
    }
  }

  lemma {:induction false} BumpsGrow(states: seq<World>, actions: seq<Action>, i: nat, j: nat)
    requires Steps(states, actions) && i <= j < |states|
    ensures states[i].bumps <= states[j].bumps
    decreases j
  {
    if i < j {
      assert Follows(states, actions, j - 1);
      BumpsGrow(states, actions, i, j - 1);
      StepBumps(states[j - 1], actions[j - 1]);
    }
  }

  /** Within the first cycle of the counter nothing passes late. */
  lemma {:induction false} NoLatePasses(states: seq<World>, actions: seq<Action>, i: nat, j: nat)
    requires IsRun(states, actions) && i <= j <= |actions| && states[|actions|].bumps <= Counter.CYCLE
    ensures LatePasses(states, actions, i, j) == 0
    decreases j
  {
    if i < j {
      NoLatePasses(states, actions, i, j - 1);
      NotLate(states, actions, j - 1);
    }
  }

  lemma NotLate(states: seq<World>, actions: seq<Action>, k: nat)
    requires IsRun(states, actions) && k < |actions| && states[|actions|].bumps <= Counter.CYCLE
    ensures !LatePass(states[k], actions[k])
  {
    OnlyAuthsPublished(states, actions, k);
    BumpsGrow(states, actions, k, |actions|);
    if LatePass(states[k], actions[k]) {
      LatePassExactly(states[k], actions[k]);
    }
  }

  /**
   The fence in plain words.  In every run of at most 2^64-1 bumps: no nil auth is
   published, published lifecycles never decrease, and after any bump at most one file of
   an older lifecycle is still published.
   */
  lemma TheFence(states: seq<World>, actions: seq<Action>, i: nat, j: nat, n: nat)
    requires IsRun(states, actions) && states[|actions|].bumps <= Counter.CYCLE
    requires i <= j < |states| && states[i].bumps > n
    ensures AuthsOnly(states[j]) && Ordered(states[j].published)
    ensures Old(states[j].published, n) <= Old(states[i].published, n) + 1
  {
    OnlyAuthsPublished(states, actions, j);
    forall k | 0 <= k < j
      ensures !PassesBehind(states[k], actions[k])
    {
      OnlyAuthsPublished(states, actions, k);
      NotLate(states, actions, k);
      if PassesBehind(states[k], actions[k]) {
        BehindIsLate(states[k], actions[k]);
      }
    }
    PublishesInOrderExactly(states, actions, j);
    NoLatePasses(states, actions, i, j);
    AtMostOneStaleWrite(states, actions, i, j, n);
  }

  // ---------- after a teardown ----------

  /** Any write at all that is past its recheck. */
  function Writing(w: World): nat {
    if w.saveMu.Some? && w.saveMu.value in w.procs && w.procs[w.saveMu.value].SaveWrite? then 1 else 0
  }

  /** Without an auth nothing new gets past the recheck, and only a login or a restore brings an auth. */
  lemma MoveWithoutAuth(w: World, a: Action)
    requires Mutex(w) && Enabled(w, a) && !a.RelayLogout? && w.sess.auth.None?
    ensures StaysWithoutAuth(w, MoveOf(w, a))
  {
    if a.Advance? {
      var q := w.procs[a.p];
      if InLogin(q) {
        LoginAdopts(w, q, a.answer);
      } else if InConnect(q) {
        ConnectAdoptsNothing(w, q, a.answer);
      }
    }
  }

  predicate StaysWithoutAuth(w: World, m: Move) {
    && m.w.adopted >= w.adopted
    && (m.w.adopted == w.adopted ==> m.w.sess.auth.None?)
    && (m.next.Some? ==> !m.next.value.SaveWrite?)
  }

  lemma LoginAdopts(w: World, q: Proc, answer: Answer)
    requires InLogin(q) && w.sess.auth.None?
    ensures StaysWithoutAuth(w, LoginMove(w, q, answer))
  {
  }

  lemma ConnectAdoptsNothing(w: World, q: Proc, answer: Answer)
    requires InConnect(q) && w.sess.auth.None?
    ensures StaysWithoutAuth(w, ConnectMove(w, q, answer))
  {
  }

  lemma StepWithoutAuth(w: World, a: Action)
    requires Mutex(w) && Enabled(w, a) && w.sess.auth.None?
    ensures Step(w, a).adopted == w.adopted ==> Step(w, a).sess.auth.None?
    ensures |Step(w, a).published| + Writing(Step(w, a)) <= |w.published| + Writing(w)
  {
    if !a.RelayLogout? {
      MoveWithoutAuth(w, a);
      MoveWrites(w, a);
      MoveMutex(w, a);
    }
  }

  lemma AdoptedNeverFalls(w: World, a: Action)
    requires Enabled(w, a)
    ensures w.adopted <= Step(w, a).adopted
  {
  }

  /** What holds in a later state v as long as no login or restore installed an auth since the teardown state w. */
  predicate QuietSince(w: World, v: World) {
    v.adopted >= w.adopted
    && (v.adopted == w.adopted ==> v.sess.auth.None? && |v.published| + Writing(v) <= |w.published| + Writing(w))
  }

  lemma StaysQuiet(w: World, v: World, a: Action)
    requires Mutex(v) && Enabled(v, a) && QuietSince(w, v)
    ensures QuietSince(w, Step(v, a))
  {
    AdoptedNeverFalls(v, a);
    if v.adopted == w.adopted {
      StepWithoutAuth(v, a);
    }
  }

  lemma {:induction false} QuietUntilAdopted(states: seq<World>, actions: seq<Action>, i: nat, j: nat)
    requires Steps(states, actions) && i <= j < |states|
    requires Mutex(states[i]) && states[i].sess.auth.None?
    ensures Mutex(states[j]) && QuietSince(states[i], states[j])
    decreases j
  {
    if i < j {
      assert Follows(states, actions, j - 1);
      QuietUntilAdopted(states, actions, i, j - 1);
      StaysQuiet(states[i], states[j - 1], actions[j - 1]);
      StepKeepsMutex(states[j - 1], actions[j - 1]);
    }
  }

  /**
   In every run, after a teardown and before the next login or restore installs an auth,
   nothing is published but the one write already past its recheck, if there is one.
   */
  lemma AtMostOneWriteAfterTeardown(states: seq<World>, actions: seq<Action>, i: nat, j: nat)
    requires IsRun(states, actions) && i <= j < |states|
    requires states[i].sess.auth.None? && states[j].adopted == states[i].adopted
    ensures states[j].sess.auth.None?
    ensures |states[j].published| <= |states[i].published| + Writing(states[i])
  {
    OnlyAuthsPublished(states, actions, i);
    QuietUntilAdopted(states, actions, i, j);
  }

  /** A continuation of w in which no login or restore installs an auth. */
  ghost predicate Unadopted(w: World, states: seq<World>, actions: seq<Action>) {
    Steps(states, actions) && states[0] == w && states[|actions|].adopted == w.adopted
  }

  ghost predicate StillPublishes(w: World) {
    exists states: seq<World>, actions: seq<Action> :: Unadopted(w, states, actions)
        && |states[|actions|].published| > |w.published|
  }

  ghost predicate EndsWithFile(w: World) {
    exists states: seq<World>, actions: seq<Action> :: Unadopted(w, states, actions) && states[|actions|].file.Some?
  }

  lemma WriteKeepsAdopted(w: World, a: Action)
    requires Writes(w, a)
    ensures Step(w, a).adopted == w.adopted
  {
  }

  /** The write in flight, carried out. */
  lemma WriteLands(w: World)
    requires Mutex(w) && Writing(w) == 1
    ensures var a := Advance(w.saveMu.value, Good);
            && Unadopted(w, [w, Step(w, a)], [a])
            && |Step(w, a).published| == |w.published| + 1 && Step(w, a).file.Some?
  {
    MoveWrites(w, Advance(w.saveMu.value, Good));
  }

  /** A torn-down session publishes again before the next adoption if and only if a write is past its recheck. */
  lemma TornDownPublishesExactly(w: World)
    requires Mutex(w) && w.sess.auth.None?
    ensures StillPublishes(w) <==> Writing(w) == 1
  {
    if Writing(w) == 1 {
      WriteLands(w);
      var a := Advance(w.saveMu.value, Good);
      var states, actions := [w, Step(w, a)], [a];
      assert Unadopted(w, states, actions) && |states[|actions|].published| > |w.published|;
    }
    if StillPublishes(w) {
      var states: seq<World>, actions: seq<Action> :| Unadopted(w, states, actions)
          && |states[|actions|].published| > |w.published|;
      QuietUntilAdopted(states, actions, 0, |actions|);
    }
  }

  /**
   A torn-down session can still have a file before the next adoption if and only if it has one
   already or a write is past its recheck.
   */
  lemma LoggedOutFileExactly(w: World)
    requires Mutex(w) && w.sess.auth.None?
    ensures EndsWithFile(w) <==> w.file.Some? || Writing(w) == 1
  {
    if w.file.Some? {
      var states, actions: seq<Action> := [w], [];
      assert Unadopted(w, states, actions) && states[|actions|].file.Some?;
    } else if Writing(w) == 1 {
      WriteLands(w);
      var a := Advance(w.saveMu.value, Good);
      var states, actions := [w, Step(w, a)], [a];
      assert Unadopted(w, states, actions) && states[|actions|].file.Some?;
    }
    if EndsWithFile(w) {
      var states: seq<World>, actions: seq<Action> :| Unadopted(w, states, actions) && states[|actions|].file.Some?;
      QuietUntilAdopted(states, actions, 0, |actions|);
      FileExactly(states, actions, 0, |actions|);
      if w.file.None? {
        var k :| 0 <= k < |actions| && Writes(states[k], actions[k]) && NoDeletion(states, actions, k + 1, |actions|);
        assert Follows(states, actions, k);
        PublishedGrows(states, actions, 0, k);
        PublishedGrows(states, actions, k + 1, |actions|);
        MoveWrites(states[k], actions[k]);
      }
    }
  }

  // ---------- between the deletion and the teardown ----------

  ghost predicate NoDeletion(states: seq<World>, actions: seq<Action>, i: nat, j: nat)
    requires j <= |actions| < |states|
  {
    forall k :: i <= k < j ==> !Deletes(states[k], actions[k])
  }

  lemma {:induction false} PublishedGrows(states: seq<World>, actions: seq<Action>, i: nat, j: nat)
    requires Steps(states, actions) && i <= j < |states|
    ensures |states[i].published| <= |states[j].published|
    decreases j
  {
    if i < j {
      assert Follows(states, actions, j - 1);
      PublishedGrows(states, actions, i, j - 1);
      if !actions[j - 1].RelayLogout? {
        MoveWrites(states[j - 1], actions[j - 1]);
      }
    }
  }

  /**
   Whatever runs from state i to state j: there is a file exactly when there was one and no
   deletion since, or some save wrote one and no deletion came after it.
   */
  lemma {:induction false} FileExactly(states: seq<World>, actions: seq<Action>, i: nat, j: nat)
    requires Steps(states, actions) && i <= j < |states|
    ensures states[j].file.Some? <==>
            || (states[i].file.Some? && NoDeletion(states, actions, i, j))
            || (exists k :: i <= k < j && Writes(states[k], actions[k]) && NoDeletion(states, actions, k + 1, j))
    decreases j
  {
    if i < j {
      assert Follows(states, actions, j - 1);
      FileExactly(states, actions, i, j - 1);
      var w, a := states[j - 1], actions[j - 1];
      if !a.RelayLogout? {
        MoveWrites(w, a);
      }
      if Writes(w, a) {
        assert NoDeletion(states, actions, j, j);
      } else if !Deletes(w, a) {
        assert forall k: nat :: NoDeletion(states, actions, k, j - 1) ==> NoDeletion(states, actions, k, j);
      }
    }
  }

  /**
   A logout's window: from the deletion at state i, with no further deletion, to a
   teardown at state t.  The session ends without a file, and stays so until the next
   adoption, if and only if nothing wrote in the window and no write is past its recheck.
   */
  lemma LogoutLeavesNoFileExactly(states: seq<World>, actions: seq<Action>, i: nat, t: nat)
    requires IsRun(states, actions) && i <= t < |states|
    requires states[i].file.None? && NoDeletion(states, actions, i, t) && states[t].sess.auth.None?
    ensures !EndsWithFile(states[t]) <==>
            (forall k :: i <= k < t ==> !Writes(states[k], actions[k])) && Writing(states[t]) == 0
  {
    OnlyAuthsPublished(states, actions, t);
    LoggedOutFileExactly(states[t]);
    FileExactly(states, actions, i, t);
    forall k | i <= k < t && Writes(states[k], actions[k])
      ensures NoDeletion(states, actions, k + 1, t)
    {
    }
  }

  // ---------- how tight the fence is ----------

  /**
   A save passes its recheck exactly when the auth is still the same and its stamp is a whole
   number of cycles old, usually zero.
   */
  lemma RecheckPassesExactly(w: World, p: nat)
    requires Stamps(w) && p in w.procs && w.procs[p].SaveRecheck?
    ensures var q, after := w.procs[p], Step(w, Advance(p, Good));
            (p in after.procs && after.procs[p].SaveWrite?)
            <==>
            && q.saved == w.sess.auth
            && (q.born == w.bumps || (q.born >= 1 && (w.bumps - q.born) % Counter.CYCLE == 0))
  {
    Counter.SameStamp(w.procs[p].born, w.bumps);
  }
}
