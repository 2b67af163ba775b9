/**
 What an operation has been through.  Causes gives the ways into each stage; followed
 backwards along a run they say what every operation that got somewhere has met on its
 way: no logout deletes or tears down before its revoke, no connect goes online before it
 reached the relay, and no login saves before its own pairing was confirmed.
 */
module Histories {
  import opened Wrappers
  import opened Lifecycle
  import opened Causes
  import SaveFence

  /** Step k is one of operation p, from stage q. */
  predicate Ran(states: seq<World>, actions: seq<Action>, k: nat, p: nat, q: Proc)
    requires k < |actions| < |states|
  {
    actions[k].Advance? && actions[k].p == p && p in states[k].procs && states[k].procs[p] == q
  }

  lemma CountedInEveryRun(states: seq<World>, actions: seq<Action>, i: nat)
    requires IsRun(states, actions) && i < |states|
    ensures Counted(states[i])
  {
    SaveFence.StampsAlong(states, actions, i);
  }

  /** The step in which an operation came to the stage it is at. */
  lemma {:induction false} Entered(states: seq<World>, actions: seq<Action>, i: nat, p: nat) returns (k: nat)
    requires IsRun(states, actions) && i < |states| && p in states[i].procs
    ensures k < i && Enabled(states[k], actions[k]) && LeadsTo(states[k], actions[k], states[i].procs[p])
    ensures !actions[k].RelayLogout? && actions[k].p == p
    ensures forall m :: k < m <= i ==> p in states[m].procs && states[m].procs[p] == states[i].procs[p]
  {
    assert i > 0;
    var w, a := states[i - 1], actions[i - 1];
    assert Follows(states, actions, i - 1);
    CountedInEveryRun(states, actions, i - 1);
    StepSettles(w, a, p);
    if a.RelayLogout? || a.p != p {
      k := Entered(states, actions, i - 1, p);
    } else {
      k := i - 1;
      StagesExactly(w, a, states[i].procs[p]);
    }
  }

  // ---------- logout ----------

  /** At step k a logout had no client to revoke, or its revoke succeeded. */
  predicate Revoked(states: seq<World>, actions: seq<Action>, k: nat, p: nat)
    requires k < |actions| < |states|
  {
    && actions[k].Advance? && actions[k].p == p && p in states[k].procs && states[k].procs[p].LogoutRevoke?
    && (states[k].procs[p].target.None? || actions[k].answer.Good?)
  }

  predicate Ending(w: World, p: nat) {
    p in w.procs && (w.procs[p].LogoutDelete? || w.procs[p].LogoutTeardown?)
  }

  /** In every run, a logout that deletes or tears down has revoked, and nothing but that since. */
  lemma EndingWasRevoked(states: seq<World>, actions: seq<Action>, i: nat, p: nat) returns (k: nat)
    requires IsRun(states, actions) && i < |states| && Ending(states[i], p)
    ensures k < i && Revoked(states, actions, k, p)
    ensures forall m :: k < m <= i ==> Ending(states[m], p)
  {
    k := Entered(states, actions, i, p);
    if states[i].procs[p].LogoutTeardown? {
      k := Entered(states, actions, k, p);
    }
  }

  /** What a logout revokes is the client it found at its start, and it bumped the lifecycle in between. */
  lemma RevokesWhatItFound(states: seq<World>, actions: seq<Action>, i: nat, p: nat) returns (s: nat, b: nat)
    requires IsRun(states, actions) && i < |states| && p in states[i].procs && states[i].procs[p].LogoutRevoke?
    ensures s < b < i && actions[s] == StartLogout(p) && states[i].procs[p].target == states[s].sess.client
    ensures Ran(states, actions, b, p, LogoutBump(states[s].sess.client)) && states[b + 1].bumps == states[b].bumps + 1
  {
    b := Entered(states, actions, i, p);
    s := Entered(states, actions, b, p);
    assert Follows(states, actions, b);
    CountedInEveryRun(states, actions, b);
    BumpsExactly(states[b], actions[b]);
  }

  /**
   In every run the revoke decides: the logout goes on to delete if and only if it found no
   client or the relay confirmed; otherwise it is over.  Either way the session, its file
   and its publishes are after the revoke what they were before.
   */
  lemma RevokeDecides(states: seq<World>, actions: seq<Action>, k: nat, p: nat)
    requires IsRun(states, actions) && k < |actions|
    requires actions[k].Advance? && actions[k].p == p && p in states[k].procs && states[k].procs[p].LogoutRevoke?
    ensures Ending(states[k + 1], p) <==> Revoked(states, actions, k, p)
    ensures p in states[k + 1].procs <==> Revoked(states, actions, k, p)
    ensures var w, v := states[k], states[k + 1];
            v.sess == w.sess && v.file == w.file && v.published == w.published && v.bumps == w.bumps
  {
    assert Follows(states, actions, k);
  }

  /**
   In every run, a session that had an auth, a client or a file and has none after a step
   lost it to a logout that revoked first.
   */
  lemma NothingEndsUnrevoked(states: seq<World>, actions: seq<Action>, i: nat) returns (k: nat)
    requires IsRun(states, actions) && i < |actions|
    requires || (states[i].sess.auth.Some? && states[i + 1].sess.auth.None?)
             || (states[i].sess.client.Some? && states[i + 1].sess.client.None?)
             || (states[i].file.Some? && states[i + 1].file.None?)
    ensures actions[i].Advance? && k < i && Revoked(states, actions, k, actions[i].p)
    ensures forall m :: k < m <= i ==> Ending(states[m], actions[i].p)
  {
    assert Follows(states, actions, i);
    AuthAndClientExactly(states[i], actions[i]);
    FileCauses(states[i], actions[i]);
    k := EndingWasRevoked(states, actions, i, actions[i].p);
  }

  // ---------- connect ----------

  /**
   In every run, a session goes online only at the end of a connect that found the client
   and the lifecycle there, reached the relay twice, and owned the client after each answer
   as it does now.
   */
  lemma OnlineWasDialled(states: seq<World>, actions: seq<Action>, i: nat) returns (c: nat, f: nat, d: nat)
    requires IsRun(states, actions) && i < |actions|
    requires !states[i].sess.connected && states[i + 1].sess.connected
    ensures c < f < d < i && Enabled(states[i], actions[i]) && Connects(states[i], actions[i])
    ensures var p := actions[i].p;
            var q := states[i].procs[p];
            && Ran(states, actions, c, p, ConnectCapture(q.ctx))
            && states[c].sess.client == Some(q.client) && states[c].bumps == q.born
            && Ran(states, actions, f, p, ConnectFetch(q.ctx, q.client, q.born)) && actions[f].answer.Good?
            && StillMine(states[f], q.client, q.born)
            && Ran(states, actions, d, p, ConnectDial(q.ctx, q.client, q.born)) && actions[d].answer.Good?
            && StillMine(states[d], q.client, q.born)
  {
    assert Follows(states, actions, i);
    CountedInEveryRun(states, actions, i);
    OnlineExactly(states[i], actions[i]);
    d := Entered(states, actions, i, actions[i].p);
    f := Entered(states, actions, d, actions[i].p);
    c := Entered(states, actions, f, actions[i].p);
  }

  // ---------- login ----------

  /** A save that a confirmed pairing started. */
  predicate SavesPairing(q: Proc) {
    InSave(q) && q.next.StartConnecting?
  }

  /** Back to the start of that save. */
  lemma {:induction false} SaveBegan(states: seq<World>, actions: seq<Action>, i: nat, p: nat) returns (c: nat)
    requires IsRun(states, actions) && i < |states| && p in states[i].procs && SavesPairing(states[i].procs[p])
    ensures c < i && Enabled(states[c], actions[c]) && actions[c].Advance? && actions[c].p == p
    ensures EndsPairing(states[c], actions[c]) && actions[c].answer.Good?
    ensures states[c].procs[p].born == states[i].procs[p].born
    decreases i
  {
    c := Entered(states, actions, i, p);
    if !states[i].procs[p].SaveEnter? {
      c := SaveBegan(states, actions, c, p);
    }
  }

  /**
   In every run, a login saves its session only after its own start, the relay's two answers
   and the phone's confirmation, all good and for one client, auth, pairing and lifecycle,
   which were still the session's when the phone was asked and when it confirmed.
   */
  lemma SavedWasPaired(states: seq<World>, actions: seq<Action>, i: nat, p: nat)
    returns (s: nat, b: nat, f: nat, g: nat, h: nat, c: nat)
    requires IsRun(states, actions) && i < |states| && p in states[i].procs && SavesPairing(states[i].procs[p])
    ensures s < b < f < g < h < c < i && actions[s] == StartLogin(p)
    ensures p in states[c].procs && states[c].procs[p].PairWait?
    ensures var q := states[c].procs[p];
            && q.born == states[i].procs[p].born == states[s].bumps + 1 && q.auth == states[s].nextAddr
            && Ran(states, actions, b, p, LoginBuild(q.auth, q.born)) && q.client.id == states[b].nextAddr
            && Ran(states, actions, f, p, LoginFetch(q.client, q.auth, q.born)) && actions[f].answer.Good?
            && Ran(states, actions, g, p, LoginPair(q.client, q.auth, q.born)) && actions[g].answer.Good?
            && q.pairing == states[g].nextAddr
            && Ran(states, actions, h, p, PairCheck(q.pairing, q.client, q.auth, q.born))
            && StillPairing(states[h], q.pairing, q.client, q.auth, q.born)
            && Ran(states, actions, c, p, q) && actions[c].answer.Good?
            && StillPairing(states[c], q.pairing, q.client, q.auth, q.born)
  {
    c := SaveBegan(states, actions, i, p);
    h := Entered(states, actions, c, p);
    g := Entered(states, actions, h, p);
    f := Entered(states, actions, g, p);
    b := Entered(states, actions, f, p);
    s := Entered(states, actions, b, p);
  }
}
