/**
 Which steps change which field.  The operations of a session are given step by step in
 Lifecycle; here the same system is read the other way round, field by field: for each
 part of a session's state, all the steps of all the operations that touch it, and what
 they leave there.  The stamp an operation carries counts as current while the lifecycle
 counter, which goes round after 2^64-1 bumps, shows the same number.
 */
module Causes {
  import opened Wrappers
  import opened Lifecycle
  import Counter

  /** The stage of the operation that takes this step, before the step. */
  function Stage(w: World, a: Action): Option<Proc>
    requires Enabled(w, a)
  {
    if a.Advance? then Some(w.procs[a.p]) else None
  }

  predicate IsCurrent(w: World, born: nat) {
    Counter.After(born) == Counter.After(w.bumps)
  }

  /** The 64-bit stamp shows how often the lifecycle was bumped. */
  predicate Counted(w: World) {
    w.sess.lifecycle == Counter.After(w.bumps)
  }

  /** Connect's owner check: current lifecycle, the same client, and not closed. */
  predicate StillMine(w: World, client: Client, born: nat) {
    IsCurrent(w, born) && w.sess.client == Some(client) && !w.sess.closed
  }

  /** The pairing check: current lifecycle, and the same client, auth and pairing. */
  predicate StillPairing(w: World, pairing: nat, client: Client, auth: nat, born: nat) {
    IsCurrent(w, born) && w.sess.client == Some(client) && w.sess.auth == Some(auth) && w.sess.pairing == Some(pairing)
  }

  // ---------- auth and client ----------

  /**
   A session gets an auth and a client from a login's rebuild or a restore, loses both in a
   logout's teardown, and keeps them in every other step.  A new client has an address of
   its own and carries the next client generation.
   */
  lemma AuthAndClientExactly(w: World, a: Action)
    requires Enabled(w, a)
    ensures var q, v := Stage(w, a), Step(w, a);
            if q.Some? && q.value.LoginBuild? then
              && v.sess.auth == Some(q.value.auth)
              && v.sess.clientGen == (w.sess.clientGen + 1) % 0x1_0000_0000_0000_0000
              && v.sess.client == Some(Client(w.nextAddr, v.sess.clientGen))
              && v.nextAddr == w.nextAddr + 1 && v.adopted == w.adopted + 1
            else if q.Some? && q.value.RestoreBuild? then
              && v.sess.auth == Some(w.nextAddr)
              && v.sess.clientGen == (w.sess.clientGen + 1) % 0x1_0000_0000_0000_0000
              && v.sess.client == Some(Client(w.nextAddr + 1, v.sess.clientGen))
              && v.nextAddr == w.nextAddr + 2 && v.adopted == w.adopted + 1
            else
              && v.sess.clientGen == w.sess.clientGen && v.adopted == w.adopted
              && (if q == Some(LogoutTeardown) then v.sess.auth.None? && v.sess.client.None?
                  else v.sess.auth == w.sess.auth && v.sess.client == w.sess.client)
  {
    if a.Advance? {
      var q := w.procs[a.p];
      if InSave(q) {
      } else if InLogin(q) {
      } else if InLogout(q) {
      } else if InConnect(q) {
      }
    }
  }

  // ---------- the lifecycle ----------

  /**
   The lifecycle is bumped by the start of a login, twice by a logout, before it revokes
   and when it tears down, and by a close; the stamp always shows the number of bumps.
   */
  lemma BumpsExactly(w: World, a: Action)
    requires Enabled(w, a) && Counted(w)
    ensures var q, v := Stage(w, a), Step(w, a);
            && v.bumps == w.bumps +
                 (if a.StartLogin?
                     || (q.Some? && (q.value.LogoutBump? || q.value.LogoutTeardown? || q.value.CloseRetire?))
                  then 1 else 0)
            && Counted(v)
  {
    assert Counter.After(w.bumps + 1) == Counter.Bump(Counter.After(w.bumps));
    if a.Advance? {
      var q := w.procs[a.p];
      if InSave(q) {
      } else if InLogin(q) {
      } else if InLogout(q) {
      } else if InConnect(q) {
      }
    }
  }

  /** Only Close closes. */
  lemma ClosedExactly(w: World, a: Action)
    requires Enabled(w, a)
    ensures Step(w, a).sess.closed <==> w.sess.closed || a.StartClose?
  {
    if a.Advance? {
      var q := w.procs[a.p];
      if InSave(q) {
      } else if InLogin(q) {
      } else if InLogout(q) {
      } else if InConnect(q) {
      }
    }
  }

  // ---------- the flags ----------

  /** The step of a connect in which the relay rejects the session's credentials. */
  predicate Rejected(w: World, a: Action)
    requires Enabled(w, a)
  {
    a.Advance? && a.answer.FatalAuth? && (w.procs[a.p].ConnectFetch? || w.procs[a.p].ConnectDial?)
  }

  /** The last step of a connect that still owns the session's client. */
  predicate Connects(w: World, a: Action)
    requires Enabled(w, a)
  {
    && a.Advance? && w.procs[a.p].ConnectRaise?
    && StillMine(w, w.procs[a.p].client, w.procs[a.p].born)
  }

  /**
   One of the steps that take a session offline: a login's rebuild, a logout's teardown,
   credentials rejected during a connect, and a logout reported by the relay in the current
   lifecycle.
   */
  predicate GoesOffline(w: World, a: Action)
    requires Enabled(w, a)
  {
    || (a.Advance? && (w.procs[a.p].LoginBuild? || w.procs[a.p].LogoutTeardown?))
    || Rejected(w, a)
    || (a.RelayLogout? && IsCurrent(w, a.born))
  }

  /** The flags after a step. */
  predicate Flags(w: World, a: Action, v: World)
    requires Enabled(w, a)
  {
    && (v.sess.connected <==> Connects(w, a) || (w.sess.connected && !GoesOffline(w, a)))
    && (v.sess.authenticated <==>
          if a.Advance? && w.procs[a.p].RestoreBuild? then w.procs[a.p].mobile
          else Connects(w, a) || (w.sess.authenticated && !GoesOffline(w, a)))
    && v.dialled == if Connects(w, a) then Some(w.procs[a.p].client) else w.dialled
  }

  lemma ConnectFlags(w: World, a: Action)
    requires Enabled(w, a) && Counted(w) && a.Advance? && InConnect(w.procs[a.p])
    ensures Flags(w, a, Step(w, a))
  {
  }

  lemma OtherFlags(w: World, a: Action)
    requires Enabled(w, a) && Counted(w) && !(a.Advance? && InConnect(w.procs[a.p]))
    ensures Flags(w, a, Step(w, a))
  {
    if a.Advance? {
      var q := w.procs[a.p];
      if InSave(q) {
      } else if InLogin(q) {
      } else if InLogout(q) {
      }
    }
  }

  /**
   A session is online after a step exactly if a connect that owned its client just ended,
   or it was online and the step is none that takes it offline.  The authenticated flag
   moves with it, but a restore also sets it, by what the stored auth holds.
   */
  lemma OnlineExactly(w: World, a: Action)
    requires Enabled(w, a) && Counted(w)
    ensures Flags(w, a, Step(w, a))
  {
    if a.Advance? && InConnect(w.procs[a.p]) {
      ConnectFlags(w, a);
    } else {
      OtherFlags(w, a);
    }
  }

  // ---------- pairing and contexts ----------

  /** The step in which a pairing completion finds its pairing still the session's. */
  predicate EndsPairing(w: World, a: Action)
    requires Enabled(w, a)
  {
    && a.Advance? && w.procs[a.p].PairWait?
    && StillPairing(w, w.procs[a.p].pairing, w.procs[a.p].client, w.procs[a.p].auth, w.procs[a.p].born)
  }

  /**
   A pairing begins when the relay answers a login's second call, and ends with the
   completion that owns it, whatever the phone's answer.  Its cancel function is set after
   the first call, and used up by that completion, by the next login, and by a logout or a
   close.
   */
  lemma PairingExactly(w: World, a: Action)
    requires Enabled(w, a) && Counted(w)
    ensures var q, v := Stage(w, a), Step(w, a);
            && v.sess.pairing ==
                 (if EndsPairing(w, a) then None
                  else if q.Some? && q.value.LoginPair? && a.answer.Good? then Some(w.nextAddr)
                  else w.sess.pairing)
            && v.sess.pairCancel ==
                 (if EndsPairing(w, a) || a.StartLogout? || (q.Some? && (q.value.LoginBuild? || q.value.CloseRetire?))
                  then None
                  else if q.Some? && q.value.LoginFetch? && a.answer.Good? then Some(w.nextAddr)
                  else w.sess.pairCancel)
  {
    if a.Advance? {
      var q := w.procs[a.p];
      if InSave(q) {
      } else if InLogin(q) {
      } else if InLogout(q) {
      } else if InConnect(q) {
      }
    }
  }

  /** A reconnect loop's context is installed at its start, and stopped by the next one, by a login and by a close. */
  lemma ReconnectExactly(w: World, a: Action)
    requires Enabled(w, a)
    ensures var q, v := Stage(w, a), Step(w, a);
            v.sess.connectCancel ==
              if q.Some? && q.value.ConnectStart? then Some(w.nextAddr)
              else if q.Some? && (q.value.LoginBuild? || q.value.CloseRetire?) then None
              else w.sess.connectCancel
  {
    if a.Advance? {
      var q := w.procs[a.p];
      if InSave(q) {
      } else if InLogin(q) {
      } else if InLogout(q) {
      } else if InConnect(q) {
      }
    }
  }

  // ---------- saving ----------

  /** The save mutex is taken when it is free, by a save only, and released when that save gives up or has written. */
  lemma SaveMutexExactly(w: World, a: Action)
    requires Enabled(w, a) && Counted(w)
    ensures var q, v := Stage(w, a), Step(w, a);
            v.saveMu ==
              if q.Some? && q.value.SaveWait? then Some(a.p)
              else if q.Some? && q.value.SaveWrite? then None
              else if q.Some? && q.value.SaveRecheck? && !(IsCurrent(w, q.value.born) && w.sess.auth == q.value.saved)
              then None
              else w.saveMu
    ensures Stage(w, a).Some? && Stage(w, a).value.SaveWait? ==> w.saveMu.None?
  {
  }

  /**
   A session file comes to be by the write of a save, and holds what that save captured; it
   goes by the deletion of a logout.
   */
  lemma FileCauses(w: World, a: Action)
    requires Enabled(w, a)
    ensures var q, v := Stage(w, a), Step(w, a);
            if q.Some? && q.value.SaveWrite? && (a.answer.Good? || a.answer.WrittenButFailed?) then
              v.file == Some(Saved(q.value.born, q.value.saved)) && v.published == w.published + [v.file.value]
            else
              && v.published == w.published
              && v.file == if q == Some(LogoutDelete) && (a.answer.Good? || a.answer.WrittenButFailed?) then None
                           else w.file
  {
  }

  // ---------- how an operation gets where it is ----------

  predicate Was(w: World, a: Action, q: Proc)
    requires Enabled(w, a)
  {
    a.Advance? && w.procs[a.p] == q
  }

  /** A save that goes on to connect, without having failed: it was not its turn any more, or it has written. */
  predicate GoesOnToConnect(w: World, a: Action)
    requires Enabled(w, a)
  {
    a.Advance? &&
    match w.procs[a.p]
    case RestoreBuild(_) => true
    case SaveEnter(born, next) => next.StartConnecting? && !(IsCurrent(w, born) && w.sess.auth.Some?)
    case SaveRecheck(born, saved, next) => next.StartConnecting? && !(IsCurrent(w, born) && w.sess.auth == saved)
    case SaveWrite(_, _, next) => next.StartConnecting? && a.answer.Good?
    case _ => false
  }

  /** A connect that will try again later. */
  predicate BacksOff(w: World, a: Action, ctx: nat)
    requires Enabled(w, a)
  {
    a.Advance? &&
    match w.procs[a.p]
    case ConnectCapture(c) => c == ctx && w.sess.client.None?
    case ConnectFetch(c, client, born) =>
      c == ctx && !a.answer.FatalAuth? && !(a.answer.Good? && StillMine(w, client, born))
    case ConnectDial(c, client, born) =>
      c == ctx && !a.answer.FatalAuth? && !(a.answer.Good? && StillMine(w, client, born))
    case ConnectRaise(c, client, born) => c == ctx && !StillMine(w, client, born)
    case _ => false
  }

  predicate LoopStopped(w: World, ctx: nat) {
    w.sess.closed || w.sess.connectCancel != Some(ctx)
  }

  /** The ways into each stage: where the operation was before this step, and what it found or was answered. */
  predicate LeadsTo(w: World, a: Action, q: Proc)
    requires Enabled(w, a)
  {
    match q
    case LoginBuild(auth, born) => a.StartLogin? && auth == w.nextAddr && born == w.bumps + 1
    case LoginFetch(client, auth, born) =>
      Was(w, a, LoginBuild(auth, born))
      && client == Client(w.nextAddr, (w.sess.clientGen + 1) % 0x1_0000_0000_0000_0000)
    case LoginPair(client, auth, born) => Was(w, a, LoginFetch(client, auth, born)) && a.answer.Good?
    case PairCheck(pairing, client, auth, born) =>
      Was(w, a, LoginPair(client, auth, born)) && a.answer.Good? && pairing == w.nextAddr
    case PairWait(pairing, client, auth, born) =>
      Was(w, a, PairCheck(pairing, client, auth, born)) && StillPairing(w, pairing, client, auth, born)
    case RestoreBuild(mobile) => a.StartRestore? && a.mobile == mobile
    case SaveEnter(born, next) =>
      if next.StartConnecting? then EndsPairing(w, a) && a.answer.Good? && w.procs[a.p].born == born
      else Was(w, a, Holding(born)) || (Connects(w, a) && w.procs[a.p].born == born)
    case SaveWait(born, saved, next) =>
      Was(w, a, SaveEnter(born, next)) && IsCurrent(w, born) && saved == w.sess.auth && saved.Some? && a.answer.Good?
    case SaveRecheck(born, saved, next) => Was(w, a, SaveWait(born, saved, next))
    case SaveWrite(born, saved, next) =>
      Was(w, a, SaveRecheck(born, saved, next)) && IsCurrent(w, born) && w.sess.auth == saved
    case Holding(born) => a.StartHolding? && a.born == born
    case ConnectStart => GoesOnToConnect(w, a)
    case ConnectTop(ctx) =>
      (Was(w, a, ConnectStart) && ctx == w.nextAddr)
      || (Was(w, a, ConnectBackoff(ctx)) && (a.answer.Good? || !LoopStopped(w, ctx)))
    case ConnectCapture(ctx) => Was(w, a, ConnectTop(ctx)) && !LoopStopped(w, ctx)
    case ConnectFetch(ctx, client, born) =>
      Was(w, a, ConnectCapture(ctx)) && w.sess.client == Some(client) && born == w.bumps
    case ConnectDial(ctx, client, born) =>
      Was(w, a, ConnectFetch(ctx, client, born)) && a.answer.Good? && StillMine(w, client, born)
    case ConnectRaise(ctx, client, born) =>
      Was(w, a, ConnectDial(ctx, client, born)) && a.answer.Good? && StillMine(w, client, born)
    case ConnectBackoff(ctx) => BacksOff(w, a, ctx)
    case LogoutBump(target) => a.StartLogout? && target == w.sess.client
    case LogoutRevoke(target) => Was(w, a, LogoutBump(target))
    case LogoutDelete => a.Advance? && w.procs[a.p].LogoutRevoke? && (w.procs[a.p].target.None? || a.answer.Good?)
    case LogoutTeardown => Was(w, a, LogoutDelete)
    case CloseRetire => a.StartClose?
  }

  lemma SaveStages(w: World, a: Action, q: Proc)
    requires Enabled(w, a) && Counted(w) && a.Advance? && InSave(w.procs[a.p])
    ensures MoveOf(w, a).next == Some(q) <==> LeadsTo(w, a, q)
  {
  }

  lemma LoginStages(w: World, a: Action, q: Proc)
    requires Enabled(w, a) && Counted(w) && a.Advance? && InLogin(w.procs[a.p])
    ensures MoveOf(w, a).next == Some(q) <==> LeadsTo(w, a, q)
  {
  }

  lemma LogoutStages(w: World, a: Action, q: Proc)
    requires Enabled(w, a) && Counted(w) && a.Advance? && InLogout(w.procs[a.p])
    ensures MoveOf(w, a).next == Some(q) <==> LeadsTo(w, a, q)
  {
  }

  lemma ConnectStages(w: World, a: Action, q: Proc)
    requires Enabled(w, a) && Counted(w) && a.Advance? && InConnect(w.procs[a.p])
    ensures MoveOf(w, a).next == Some(q) <==> LeadsTo(w, a, q)
  {
  }

  lemma StartStages(w: World, a: Action, q: Proc)
    requires Enabled(w, a) && Counted(w) && !a.RelayLogout? && (a.Advance? ==> w.procs[a.p].Holding?)
    ensures MoveOf(w, a).next == Some(q) <==> LeadsTo(w, a, q)
  {
  }

  /**
   The stage an operation is at after its own step is exactly the one whose ways in were
   taken, and it is over exactly if none was.
   */
  lemma StagesExactly(w: World, a: Action, q: Proc)
    requires Enabled(w, a) && Counted(w) && !a.RelayLogout?
    ensures a.p in Step(w, a).procs && Step(w, a).procs[a.p] == q <==> LeadsTo(w, a, q)
  {
    StepSettles(w, a, a.p);
    if !a.Advance? || w.procs[a.p].Holding? {
      StartStages(w, a, q);
    } else if InSave(w.procs[a.p]) {
      SaveStages(w, a, q);
    } else if InLogin(w.procs[a.p]) {
      LoginStages(w, a, q);
    } else if InLogout(w.procs[a.p]) {
      LogoutStages(w, a, q);
    } else {
      ConnectStages(w, a, q);
    }
  }

  /** A step moves its own operation only. */
  lemma StepSettles(w: World, a: Action, p: nat)
    requires Enabled(w, a)
    ensures var v := Step(w, a);
            if a.RelayLogout? || a.p != p
            then (p in v.procs <==> p in w.procs) && (p in v.procs ==> v.procs[p] == w.procs[p])
            else (p in v.procs <==> MoveOf(w, a).next.Some?)
                 && (p in v.procs ==> MoveOf(w, a).next == Some(v.procs[p]))
  {
    if !a.RelayLogout? {
      MoveKeepsProcs(w, a);
    }
  }

  lemma MoveKeepsProcs(w: World, a: Action)
    requires Enabled(w, a) && !a.RelayLogout?
    ensures MoveOf(w, a).w.procs == w.procs
  {
    if a.Advance? {
      var q := w.procs[a.p];
      if InSave(q) {
      } else if InLogin(q) {
      } else if InLogout(q) {
      } else if InConnect(q) {
      }
    }
  }

  /** Which operations can begin, and go on: any, at any time, but a restore needs a file and a save the free mutex. */
  lemma EnabledExactly(w: World, p: nat, mobile: bool, born: nat, answer: Answer)
    requires born <= w.bumps
    ensures p !in w.procs ==>
              && Enabled(w, StartLogin(p)) && Enabled(w, StartLogout(p)) && Enabled(w, StartClose(p))
              && Enabled(w, StartHolding(p, born))
              && (Enabled(w, StartRestore(p, mobile)) <==> w.file.Some?)
    ensures p in w.procs ==> (Enabled(w, Advance(p, answer)) <==> !(w.procs[p].SaveWait? && w.saveMu.Some?))
    ensures Enabled(w, RelayLogout(born))
  {
  }
}
