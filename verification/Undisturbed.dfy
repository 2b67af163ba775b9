/**
 Whole operations with nothing in between.  From any state of a session, one operation is
 started and carried on to its end by the answers of the relay, the phone and the disk;
 what the session is then is what each operation is for.
 */
module Undisturbed {
  import opened Wrappers
  import opened Lifecycle
  import opened Causes
  import Counter

  /** Steps of one operation, all answered well. */
  function Goods(p: nat, n: nat): seq<Action> {
    seq(n, _ => Advance(p, Good))
  }

  lemma Go(states: seq<World>, actions: seq<Action>, a: Action, next: World)
    returns (states': seq<World>, actions': seq<Action>)
    requires Steps(states, actions) && Enabled(states[|actions|], a) && next == Step(states[|actions|], a)
    ensures Steps(states', actions') && states' == states + [next] && actions' == actions + [a]
  {
    states', actions' := states + [next], actions + [a];
    forall k | 0 <= k < |actions'|
      ensures Follows(states', actions', k)
    {
      if k < |actions| {
        assert Follows(states, actions, k);
      }
    }
  }

  // ---------- the parts ----------

  /** A save in its own lifecycle, with an auth to save. */
  lemma SavePart(states: seq<World>, actions: seq<Action>, w: World, p: nat)
    returns (states': seq<World>, actions': seq<Action>)
    requires Steps(states, actions) && w == states[|actions|]
    requires Counted(w) && p in w.procs && w.procs[p].SaveEnter? && w.procs[p].born == w.bumps
    requires w.sess.auth.Some? && w.saveMu.None?
    ensures Steps(states', actions') && states'[0] == states[0] && actions' == actions + Goods(p, 4)
    ensures var file := Saved(w.bumps, w.sess.auth);
            states'[|actions'|] == w.(file := Some(file), published := w.published + [file],
                procs := if w.procs[p].next.Finish? then w.procs - {p} else w.procs[p := ConnectStart])
  {
    var born, next, saved := w.bumps, w.procs[p].next, w.sess.auth;
    var file, good := Saved(born, saved), Advance(p, Good);
    var w1 := w.(procs := w.procs[p := SaveWait(born, saved, next)]);
    var w2 := w.(saveMu := Some(p), procs := w.procs[p := SaveRecheck(born, saved, next)]);
    var w3 := w2.(procs := w.procs[p := SaveWrite(born, saved, next)]);
    states', actions' := Go(states, actions, good, w1);
    states', actions' := Go(states', actions', good, w2);
    states', actions' := Go(states', actions', good, w3);
    assert w3.procs - {p} == w.procs - {p} && w3.procs[p := ConnectStart] == w.procs[p := ConnectStart];
    states', actions' := Go(states', actions', good, w.(file := Some(file), published := w.published + [file],
        procs := if next.Finish? then w.procs - {p} else w.procs[p := ConnectStart]));
  }

  /** A connect from its capture on, if the relay answers. */
  lemma DialPart(states: seq<World>, actions: seq<Action>, w: World, p: nat)
    returns (states': seq<World>, actions': seq<Action>)
    requires Steps(states, actions) && w == states[|actions|]
    requires Counted(w) && p in w.procs && w.procs[p].ConnectCapture? && w.sess.client.Some? && !w.sess.closed
    ensures Steps(states', actions') && states'[0] == states[0] && actions' == actions + Goods(p, 4)
    ensures states'[|actions'|] == w.(sess := w.sess.(connected := true, authenticated := true),
                dialled := w.sess.client, procs := w.procs[p := SaveEnter(w.bumps, Finish)])
  {
    var ctx, client, born, good := w.procs[p].ctx, w.sess.client.value, w.bumps, Advance(p, Good);
    states', actions' := Go(states, actions, good, w.(procs := w.procs[p := ConnectFetch(ctx, client, born)]));
    states', actions' := Go(states', actions', good, w.(procs := w.procs[p := ConnectDial(ctx, client, born)]));
    states', actions' := Go(states', actions', good, w.(procs := w.procs[p := ConnectRaise(ctx, client, born)]));
    states', actions' := Go(states', actions', good, w.(sess := w.sess.(connected := true, authenticated := true),
        dialled := w.sess.client, procs := w.procs[p := SaveEnter(w.bumps, Finish)]));
  }

  /** A connect loop that reaches the relay at once. */
  lemma ConnectPart(states: seq<World>, actions: seq<Action>, w: World, p: nat)
    returns (states': seq<World>, actions': seq<Action>)
    requires Steps(states, actions) && w == states[|actions|]
    requires Counted(w) && p in w.procs && w.procs[p].ConnectStart? && w.sess.client.Some? && !w.sess.closed
    ensures Steps(states', actions') && states'[0] == states[0] && actions' == actions + Goods(p, 6)
    ensures states'[|actions'|] == w.(
                sess := w.sess.(connectCancel := Some(w.nextAddr), connected := true, authenticated := true),
                nextAddr := w.nextAddr + 1, dialled := w.sess.client,
                procs := w.procs[p := SaveEnter(w.bumps, Finish)])
  {
    var ctx, good := w.nextAddr, Advance(p, Good);
    var w1 := w.(sess := w.sess.(connectCancel := Some(ctx)), nextAddr := ctx + 1,
                 procs := w.procs[p := ConnectTop(ctx)]);
    states', actions' := Go(states, actions, good, w1);
    var w2 := w1.(procs := w.procs[p := ConnectCapture(ctx)]);
    states', actions' := Go(states', actions', good, w2);
    states', actions' := DialPart(states', actions', w2, p);
  }

  /** A login's rebuild. */
  lemma RebuildPart(states: seq<World>, actions: seq<Action>, w: World, p: nat, auth: nat)
    returns (states': seq<World>, actions': seq<Action>, s: Fields)
    requires Steps(states, actions) && w == states[|actions|]
    requires Counted(w) && p in w.procs && w.procs[p] == LoginBuild(auth, w.bumps)
    ensures Steps(states', actions') && states'[0] == states[0] && actions' == actions + Goods(p, 1)
    ensures var gen, n := (w.sess.clientGen + 1) % Counter.WIDTH, w.nextAddr;
            s == w.sess.(client := Some(Client(n, gen)), clientGen := gen, auth := Some(auth), connected := false,
                         authenticated := false, connectCancel := None, pairCancel := None)
    ensures states'[|actions'|] == w.(sess := s, nextAddr := w.nextAddr + 1, adopted := w.adopted + 1,
                procs := w.procs[p := LoginFetch(s.client.value, auth, w.bumps)])
  {
    var gen, n := (w.sess.clientGen + 1) % Counter.WIDTH, w.nextAddr;
    s := w.sess.(client := Some(Client(n, gen)), clientGen := gen, auth := Some(auth), connected := false,
                 authenticated := false, connectCancel := None, pairCancel := None);
    states', actions' := Go(states, actions, Advance(p, Good), w.(sess := s, nextAddr := n + 1,
        adopted := w.adopted + 1, procs := w.procs[p := LoginFetch(s.client.value, auth, w.bumps)]));
  }

  /** The two answers of the relay that start a pairing. */
  lemma PairPart(states: seq<World>, actions: seq<Action>, w: World, p: nat)
    returns (states': seq<World>, actions': seq<Action>)
    requires Steps(states, actions) && w == states[|actions|]
    requires Counted(w) && p in w.procs && w.procs[p].LoginFetch?
    ensures Steps(states', actions') && states'[0] == states[0] && actions' == actions + Goods(p, 2)
    ensures var q, n := w.procs[p], w.nextAddr;
            states'[|actions'|] == w.(sess := w.sess.(pairCancel := Some(n), pairing := Some(n + 1)), nextAddr := n + 2,
                procs := w.procs[p := PairCheck(n + 1, q.client, q.auth, q.born)])
  {
    var q, n, good := w.procs[p], w.nextAddr, Advance(p, Good);
    states', actions' := Go(states, actions, good, w.(sess := w.sess.(pairCancel := Some(n)), nextAddr := n + 1,
        procs := w.procs[p := LoginPair(q.client, q.auth, q.born)]));
    states', actions' := Go(states', actions', good, w.(
        sess := w.sess.(pairCancel := Some(n), pairing := Some(n + 1)), nextAddr := n + 2,
        procs := w.procs[p := PairCheck(n + 1, q.client, q.auth, q.born)]));
  }

  /** The phone's answer, to a pairing that is still the session's. */
  lemma ConfirmPart(states: seq<World>, actions: seq<Action>, w: World, p: nat, answer: Answer)
    returns (states': seq<World>, actions': seq<Action>)
    requires Steps(states, actions) && w == states[|actions|]
    requires Counted(w) && p in w.procs && w.procs[p].PairCheck? && w.procs[p].born == w.bumps
    requires var q := w.procs[p]; StillPairing(w, q.pairing, q.client, q.auth, q.born)
    ensures Steps(states', actions') && states'[0] == states[0]
    ensures actions' == actions + Goods(p, 1) + [Advance(p, answer)]
    ensures states'[|actions'|] == w.(sess := w.sess.(pairing := None, pairCancel := None),
                procs := if answer.Good? then w.procs[p := SaveEnter(w.bumps, StartConnecting)] else w.procs - {p})
  {
    var q := w.procs[p];
    var w1 := w.(procs := w.procs[p := PairWait(q.pairing, q.client, q.auth, q.born)]);
    states', actions' := Go(states, actions, Advance(p, Good), w1);
    assert w1.procs - {p} == w.procs - {p};
    states', actions' := Go(states', actions', Advance(p, answer),
        w.(sess := w.sess.(pairing := None, pairCancel := None),
           procs := if answer.Good? then w.procs[p := SaveEnter(w.bumps, StartConnecting)] else w.procs - {p}));
  }

  /** The first step of a login. */
  lemma LoginStart(w: World, p: nat) returns (states: seq<World>, actions: seq<Action>, u: World)
    requires Counted(w) && p !in w.procs
    ensures Steps(states, actions) && states[0] == w && actions == [StartLogin(p)] && u == states[1] && Counted(u)
    ensures u == w.(sess := w.sess.(lifecycle := u.sess.lifecycle), bumps := w.bumps + 1, nextAddr := w.nextAddr + 1,
                procs := w.procs[p := LoginBuild(w.nextAddr, w.bumps + 1)])
  {
    BumpsExactly(w, StartLogin(p));
    u := Step(w, StartLogin(p));
    states, actions := Go([w], [], StartLogin(p), u);
  }

  // ---------- whole operations ----------

  /** The session is online with this client and auth, and its file holds the auth. */
  predicate Online(w: World, client: nat, auth: nat, born: nat) {
    && w.sess.connected && w.sess.authenticated && !w.sess.closed
    && w.sess.client.Some? && w.sess.client.value.id == client && w.dialled == w.sess.client
    && w.sess.auth == Some(auth) && w.file == Some(Saved(born, Some(auth)))
  }

  /**
   A login that the relay and the phone answer well ends online with a new client and auth,
   saved in the login's own lifecycle, when the phone confirmed and when it was connected;
   nothing of the pairing is left.
   */
  lemma LoginAlone(w: World, p: nat) returns (states: seq<World>, actions: seq<Action>)
    requires Counted(w) && p !in w.procs && w.saveMu.None? && !w.sess.closed
    ensures Steps(states, actions) && states[0] == w && actions == [StartLogin(p)] + Goods(p, 19)
    ensures var v, file := states[|actions|], Saved(w.bumps + 1, Some(w.nextAddr));
            && Online(v, w.nextAddr + 1, w.nextAddr, w.bumps + 1)
            && v.bumps == w.bumps + 1 && v.published == w.published + [file, file]
            && v.sess.pairing.None? && v.sess.pairCancel.None? && v.saveMu.None? && v.procs == w.procs
  {
    var u, s;
    states, actions, u := LoginStart(w, p);
    states, actions, s := RebuildPart(states, actions, u, p, w.nextAddr);
    states, actions := PairPart(states, actions, states[|actions|], p);
    states, actions := ConfirmPart(states, actions, states[|actions|], p, Good);
    states, actions := SavePart(states, actions, states[|actions|], p);
    states, actions := ConnectPart(states, actions, states[|actions|], p);
    states, actions := SavePart(states, actions, states[|actions|], p);
    assert actions == [StartLogin(p)] + Goods(p, 19);
    assert states[|actions|].procs == w.procs;
  }

  /** A restore of a stored session ends online in the lifecycle it found, with the file written anew. */
  lemma RestoreAlone(w: World, p: nat, mobile: bool) returns (states: seq<World>, actions: seq<Action>)
    requires Counted(w) && p !in w.procs && w.saveMu.None? && !w.sess.closed && w.file.Some?
    ensures Steps(states, actions) && states[0] == w && actions == [StartRestore(p, mobile)] + Goods(p, 11)
    ensures var v := states[|actions|];
            && Online(v, w.nextAddr + 1, w.nextAddr, w.bumps)
            && v.bumps == w.bumps && v.published == w.published + [v.file.value]
            && v.saveMu.None? && v.procs == w.procs
  {
    var gen := (w.sess.clientGen + 1) % Counter.WIDTH;
    var u := w.(procs := w.procs[p := RestoreBuild(mobile)]);
    states, actions := Go([w], [], StartRestore(p, mobile), u);
    var r := w.(sess := w.sess.(auth := Some(w.nextAddr), authenticated := mobile, clientGen := gen,
                                client := Some(Client(w.nextAddr + 1, gen))),
                nextAddr := w.nextAddr + 2, adopted := w.adopted + 1, procs := w.procs[p := ConnectStart]);
    states, actions := Go(states, actions, Advance(p, Good), r);
    states, actions := ConnectPart(states, actions, r, p);
    states, actions := SavePart(states, actions, states[|actions|], p);
    assert actions == [StartRestore(p, mobile)] + Goods(p, 11);
    assert states[|actions|].procs == w.procs;
  }

  /** A logout up to its revoke. */
  lemma LogoutStart(w: World, p: nat) returns (states: seq<World>, actions: seq<Action>, u: World)
    requires Counted(w) && p !in w.procs
    ensures Steps(states, actions) && states[0] == w && actions == [StartLogout(p), Advance(p, Good)]
    ensures u == states[2] && Counted(u)
    ensures u == w.(sess := w.sess.(lifecycle := u.sess.lifecycle, pairCancel := None), bumps := w.bumps + 1,
                procs := w.procs[p := LogoutRevoke(w.sess.client)])
  {
    var w1 := w.(sess := w.sess.(pairCancel := None), procs := w.procs[p := LogoutBump(w.sess.client)]);
    states, actions := Go([w], [], StartLogout(p), w1);
    BumpsExactly(w1, Advance(p, Good));
    u := Step(w1, Advance(p, Good));
    states, actions := Go(states, actions, Advance(p, Good), u);
  }

  /**
   A logout whose revoke the relay does not confirm: the session keeps its client, auth,
   flags and file, in a new lifecycle.
   */
  lemma UnrevokedLogoutAlone(w: World, p: nat, revoke: Answer) returns (states: seq<World>, actions: seq<Action>)
    requires Counted(w) && p !in w.procs && w.sess.client.Some? && !revoke.Good?
    ensures Steps(states, actions) && states[0] == w
    ensures actions == [StartLogout(p), Advance(p, Good), Advance(p, revoke)]
    ensures var v := states[|actions|];
            && v.procs == w.procs && Counted(v) && v.bumps == w.bumps + 1
            && v.file == w.file && v.published == w.published
            && v.sess == w.sess.(lifecycle := v.sess.lifecycle, pairCancel := None)
  {
    var u;
    states, actions, u := LogoutStart(w, p);
    assert u.procs - {p} == w.procs;
    states, actions := Go(states, actions, Advance(p, revoke), u.(procs := w.procs));
  }

  /** Deletion and teardown. */
  lemma EndPart(states: seq<World>, actions: seq<Action>, w: World, p: nat, delete: Answer)
    returns (states': seq<World>, actions': seq<Action>)
    requires Steps(states, actions) && w == states[|actions|]
    requires Counted(w) && p in w.procs && w.procs[p].LogoutDelete?
    ensures Steps(states', actions') && states'[0] == states[0]
    ensures actions' == actions + [Advance(p, delete), Advance(p, Good)]
    ensures var v := states'[|actions'|];
            && Counted(v) && v.sess == w.sess.(client := None, auth := None, connected := false,
                                               authenticated := false, lifecycle := v.sess.lifecycle)
            && v.bumps == w.bumps + 1 && v.published == w.published && v.procs == w.procs - {p}
            && v.file == if delete.Good? || delete.WrittenButFailed? then None else w.file
  {
    var file := if delete.Good? || delete.WrittenButFailed? then None else w.file;
    var w1 := w.(file := file, procs := w.procs[p := LogoutTeardown]);
    states', actions' := Go(states, actions, Advance(p, delete), w1);
    BumpsExactly(w1, Advance(p, Good));
    var v := Step(w1, Advance(p, Good));
    assert w1.procs - {p} == w.procs - {p};
    states', actions' := Go(states', actions', Advance(p, Good), v);
  }

  /**
   A logout with nothing to revoke, or a confirmed revoke: the session ends offline without
   client and auth, two lifecycles later, and without its file exactly if it had none or the
   deletion took effect.
   */
  lemma LogoutAlone(w: World, p: nat, revoke: Answer, delete: Answer)
    returns (states: seq<World>, actions: seq<Action>)
    requires Counted(w) && p !in w.procs && (w.sess.client.None? || revoke.Good?)
    ensures Steps(states, actions) && states[0] == w
    ensures actions == [StartLogout(p), Advance(p, Good), Advance(p, revoke), Advance(p, delete), Advance(p, Good)]
    ensures var v := states[|actions|];
            && v.procs == w.procs && Counted(v) && v.bumps == w.bumps + 2 && v.published == w.published
            && v.sess.client.None? && v.sess.auth.None? && !v.sess.connected && !v.sess.authenticated
            && v.sess.pairCancel.None?
            && (v.file.None? <==> w.file.None? || delete.Good? || delete.WrittenButFailed?)
            && (v.file.Some? ==> v.file == w.file)
  {
    var u;
    states, actions, u := LogoutStart(w, p);
    var w2 := u.(procs := w.procs[p := LogoutDelete]);
    states, actions := Go(states, actions, Advance(p, revoke), w2);
    states, actions := EndPart(states, actions, w2, p, delete);
    assert w2.procs - {p} == w.procs;
  }

  /** A close keeps what the session is, in a new lifecycle, and stops its pairing and its reconnect loop. */
  lemma CloseAlone(w: World, p: nat) returns (states: seq<World>, actions: seq<Action>)
    requires Counted(w) && p !in w.procs
    ensures Steps(states, actions) && states[0] == w && actions == [StartClose(p), Advance(p, Good)]
    ensures var v := states[|actions|];
            && v.procs == w.procs && v.bumps == w.bumps + 1 && Counted(v) && v.file == w.file
            && v.sess == w.sess.(closed := true, lifecycle := v.sess.lifecycle, pairCancel := None,
                                 connectCancel := None)
  {
    var u := w.(sess := w.sess.(closed := true), procs := w.procs[p := CloseRetire]);
    states, actions := Go([w], [], StartClose(p), u);
    BumpsExactly(u, Advance(p, Good));
    var v := Step(u, Advance(p, Good));
    assert v.procs == w.procs;
    states, actions := Go(states, actions, Advance(p, Good), v);
  }

  // ---------- what fails ----------

  /** A login that the phone does not confirm leaves the session offline and unpaired, and its file as it was. */
  lemma UnconfirmedLoginAlone(w: World, p: nat, answer: Answer) returns (states: seq<World>, actions: seq<Action>)
    requires Counted(w) && p !in w.procs && !answer.Good?
    ensures Steps(states, actions) && states[0] == w
    ensures actions == [StartLogin(p)] + Goods(p, 4) + [Advance(p, answer)]
    ensures var v := states[|actions|];
            && v.procs == w.procs && v.bumps == w.bumps + 1 && v.file == w.file && v.published == w.published
            && !v.sess.connected && !v.sess.authenticated && v.sess.pairing.None? && v.sess.pairCancel.None?
            && v.sess.auth == Some(w.nextAddr) && v.sess.client.Some? && v.sess.client.value.id == w.nextAddr + 1
  {
    var u, s;
    states, actions, u := LoginStart(w, p);
    states, actions, s := RebuildPart(states, actions, u, p, w.nextAddr);
    states, actions := PairPart(states, actions, states[|actions|], p);
    states, actions := ConfirmPart(states, actions, states[|actions|], p, answer);
    assert states[|actions|].procs == w.procs;
    assert actions == [StartLogin(p)] + Goods(p, 4) + [Advance(p, answer)];
  }

  /** A reconnect loop after its pause. */
  lemma RetryPart(states: seq<World>, actions: seq<Action>, w: World, p: nat)
    returns (states': seq<World>, actions': seq<Action>)
    requires Steps(states, actions) && w == states[|actions|]
    requires Counted(w) && p in w.procs && w.procs[p].ConnectBackoff? && w.sess.client.Some? && !w.sess.closed
    requires w.sess.connectCancel == Some(w.procs[p].ctx)
    ensures Steps(states', actions') && states'[0] == states[0] && actions' == actions + Goods(p, 6)
    ensures states'[|actions'|] == w.(sess := w.sess.(connected := true, authenticated := true),
                dialled := w.sess.client, procs := w.procs[p := SaveEnter(w.bumps, Finish)])
  {
    var ctx := w.procs[p].ctx;
    states', actions' := Go(states, actions, Advance(p, Good), w.(procs := w.procs[p := ConnectTop(ctx)]));
    var w2 := w.(procs := w.procs[p := ConnectCapture(ctx)]);
    states', actions' := Go(states', actions', Advance(p, Good), w2);
    states', actions' := DialPart(states', actions', w2, p);
  }

  /**
   A connect whose attempt fails tries again after its pause, and then ends online just the
   same.
   */
  lemma SecondAttemptAlone(w: World, p: nat, ctx: nat, client: Client, answer: Answer)
    returns (states: seq<World>, actions: seq<Action>)
    requires Counted(w) && p in w.procs && !w.sess.closed && w.sess.client.Some? && w.sess.connectCancel == Some(ctx)
    requires w.procs[p] == ConnectFetch(ctx, client, w.bumps) || w.procs[p] == ConnectDial(ctx, client, w.bumps)
    requires !answer.Good? && !answer.FatalAuth?
    ensures Steps(states, actions) && states[0] == w && actions == [Advance(p, answer)] + Goods(p, 6)
    ensures states[|actions|] == w.(sess := w.sess.(connected := true, authenticated := true),
                dialled := w.sess.client, procs := w.procs[p := SaveEnter(w.bumps, Finish)])
  {
    var w1 := w.(procs := w.procs[p := ConnectBackoff(ctx)]);
    states, actions := Go([w], [], Advance(p, answer), w1);
    states, actions := RetryPart(states, actions, w1, p);
    assert actions == [Advance(p, answer)] + Goods(p, 6);
  }
}
