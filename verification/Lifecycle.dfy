/**
 The session fields that login, pairing, connect, logout and close race over, and
 every section of code that touches them under the session lock.  Each section is a
 method of the class; the value functions are what those methods are proved to
 compute, and what the interleavings of the next modules are made of.
 */
module Lifecycle {
  import opened Wrappers
  import Counter

  /** A relay client: its address and the client generation its event handler captured. */
  datatype Client = Client(id: nat, gen: nat)

  /** Contexts, pairing sessions and auth records are compared by address: a number each. */
  datatype Fields = Fields(
    lifecycle: nat,
    client: Option<Client>,
    clientGen: nat,
    auth: Option<nat>,
    pairing: Option<nat>,
    pairCancel: Option<nat>,
    connectCancel: Option<nat>,
    connected: bool,
    authenticated: bool,
    closed: bool)

  const NEW_SESSION := Fields(0, None, 0, None, None, None, None, false, false, false)

  function Bumped(s: Fields): Fields {
    s.(lifecycle := Counter.Bump(s.lifecycle))
  }

  /** buildClient. */
  function Built(s: Fields, clientID: nat): Fields {
    var gen := (s.clientGen + 1) % Counter.WIDTH;
    s.(clientGen := gen, client := Some(Client(clientID, gen)))
  }

  /** Login's rebuild: stop pairing and reconnect, drop the old client, go offline, start anew. */
  function LoggedIn(s: Fields, auth: nat, clientID: nat): Fields {
    Built(s.(pairCancel := None, connectCancel := None, connected := false, authenticated := false,
        auth := Some(auth)), clientID)
  }

  /** Restore's section: it keeps the connected flag of whatever was there before. */
  function Restored(s: Fields, auth: nat, mobile: bool, clientID: nat): Fields {
    Built(s.(auth := Some(auth), authenticated := mobile), clientID)
  }

  predicate OwnsPairing(s: Fields, stamp: nat, client: Client, auth: nat, pairing: nat) {
    s.lifecycle == stamp && s.client == Some(client) && s.auth == Some(auth) && s.pairing == Some(pairing)
  }

  function PairingDone(s: Fields): Fields {
    s.(pairing := None, pairCancel := None)
  }

  predicate OwnsClient(s: Fields, stamp: nat, client: Client) {
    s.lifecycle == stamp && s.client == Some(client) && !s.closed
  }

  function Raised(s: Fields, stamp: nat, client: Client): Fields {
    if OwnsClient(s, stamp, client) then s.(connected := true, authenticated := true) else s
  }

  function Offline(s: Fields): Fields {
    s.(connected := false, authenticated := false)
  }

  function OfflineIfCurrent(s: Fields, stamp: nat): Fields {
    if s.lifecycle == stamp then Offline(s) else s
  }

  function TornDown(s: Fields): Fields {
    Bumped(Offline(s).(client := None, auth := None))
  }

  function Retired(s: Fields): Fields {
    Bumped(s.(pairCancel := None, connectCancel := None))
  }

  /** One session; every method is one lock-held section (or the closing of the channel). */
  class Session {
    var lifecycle: nat
    var client: Option<Client>
    var clientGen: nat
    var auth: Option<nat>
    var pairing: Option<nat>
    var pairCancel: Option<nat>
    var connectCancel: Option<nat>
    var connected: bool
    var authenticated: bool
    var closed: bool

    ghost function View(): Fields
      reads this
    {
      Fields(lifecycle, client, clientGen, auth, pairing, pairCancel, connectCancel, connected, authenticated, closed)
    }

    constructor ()
      ensures View() == NEW_SESSION
    {
      lifecycle, client, clientGen, auth := 0, None, 0, None;
      pairing, pairCancel, connectCancel := None, None, None;
      connected, authenticated, closed := false, false, false;
    }

    method BumpLifecycle() returns (stamp: nat)
      modifies this
      ensures View() == Bumped(old(View())) && stamp == lifecycle
    {
      lifecycle := (lifecycle + 1) % Counter.WIDTH;
      if lifecycle == 0 {
        lifecycle := 1;
      }
      stamp := lifecycle;
    }

    method BuildClient(clientID: nat)
      modifies this
      ensures View() == Built(old(View()), clientID)
    {
      clientGen := (clientGen + 1) % Counter.WIDTH;
      client := Some(Client(clientID, clientGen));
    }

    method LoginRebuild(newAuth: nat, clientID: nat)
      modifies this
      ensures View() == LoggedIn(old(View()), newAuth, clientID)
    {
      if pairCancel.Some? {
        pairCancel := None;
      }
      if connectCancel.Some? {
        connectCancel := None;
      }
      if client.Some? {
        client := None;
      }
      connected := false;
      authenticated := false;
      auth := Some(newAuth);
      BuildClient(clientID);
    }

    method RestoreSection(stored: nat, mobile: bool, clientID: nat)
      modifies this
      ensures View() == Restored(old(View()), stored, mobile, clientID)
    {
      auth := Some(stored);
      authenticated := mobile;
      BuildClient(clientID);
    }

    /** finishPairing's recheck after the phone answered. */
    method FinishPairing(stamp: nat, mine: Client, myAuth: nat, myPairing: nat) returns (stale: bool)
      modifies this
      ensures stale == !OwnsPairing(old(View()), stamp, mine, myAuth, myPairing)
      ensures View() == if stale then old(View()) else PairingDone(old(View()))
    {
      if lifecycle != stamp || client != Some(mine) || auth != Some(myAuth) || pairing != Some(myPairing) {
        return true;
      }
      pairing := None;
      if pairCancel.Some? {
        pairCancel := None;
      }
      stale := false;
    }

    method RunConnectLoop(ctx: nat)
      modifies this
      ensures View() == old(View()).(connectCancel := Some(ctx))
    {
      if connectCancel.Some? {
        connectCancel := None;
      }
      connectCancel := Some(ctx);
    }

    /** connectOnce's last section. */
    method RaiseConnected(stamp: nat, mine: Client) returns (raised: bool)
      modifies this
      ensures raised == OwnsClient(old(View()), stamp, mine)
      ensures View() == Raised(old(View()), stamp, mine)
    {
      if lifecycle != stamp || client != Some(mine) || closed {
        return false;
      }
      connected := true;
      authenticated := true;
      raised := true;
    }

    method LoggedOutByRelay(stamp: nat)
      modifies this
      ensures View() == OfflineIfCurrent(old(View()), stamp)
    {
      if lifecycle != stamp {
        return;
      }
      connected := false;
      authenticated := false;
    }

    method Teardown()
      modifies this
      ensures View() == TornDown(old(View()))
    {
      client := None;
      auth := None;
      connected := false;
      authenticated := false;
      lifecycle := (lifecycle + 1) % Counter.WIDTH;
      if lifecycle == 0 {
        lifecycle := 1;
      }
    }

    method CloseSection()
      modifies this
      ensures View() == Retired(old(View()))
    {
      if pairCancel.Some? {
        pairCancel := None;
      }
      if connectCancel.Some? {
        connectCancel := None;
      }
      lifecycle := (lifecycle + 1) % Counter.WIDTH;
      if lifecycle == 0 {
        lifecycle := 1;
      }
    }
  }

  // ---------- the operations ----------

  /** What the caller of a save does once it returns without an error. */
  datatype AfterSave = Finish | StartConnecting

  /**
   Where an operation stands between two of its steps.  `born` is how often the
   lifecycle had been bumped when the operation read its stamp, so the 64-bit stamp it
   carries is Counter.After(born).
   */
  datatype Proc =
    // Login: bumped; FetchConfig in flight; StartGaiaPairing in flight
    | LoginBuild(auth: nat, born: nat)
    | LoginFetch(client: Client, auth: nat, born: nat)
    | LoginPair(client: Client, auth: nat, born: nat)
    // Restore: the file was read; before the section that installs it
    | RestoreBuild(mobile: bool)
    // finishPairing: before its first check; FinishGaiaPairing in flight
    | PairCheck(pairing: nat, client: Client, auth: nat, born: nat)
    | PairWait(pairing: nat, client: Client, auth: nat, born: nat)
    // saveAuthIfCurrent: before its check; waiting for saveMu; holding it before the recheck; writing
    | SaveEnter(born: nat, next: AfterSave)
    | SaveWait(born: nat, saved: Option<nat>, next: AfterSave)
    | SaveRecheck(born: nat, saved: Option<nat>, next: AfterSave)
    | SaveWrite(born: nat, saved: Option<nat>, next: AfterSave)
    // an operation that only carries a stamp until it saves: a sync, or a dispatched token refresh
    | Holding(born: nat)
    // runConnectLoop and connectLoop
    | ConnectStart
    | ConnectTop(ctx: nat)
    | ConnectCapture(ctx: nat)
    | ConnectFetch(ctx: nat, client: Client, born: nat)
    | ConnectDial(ctx: nat, client: Client, born: nat)
    | ConnectRaise(ctx: nat, client: Client, born: nat)
    | ConnectBackoff(ctx: nat)
    // Logout: client read; revoking; deleting; tearing down
    | LogoutBump(target: Option<Client>)
    | LogoutRevoke(target: Option<Client>)
    | LogoutDelete
    | LogoutTeardown
    // Close: channel closed, section to come
    | CloseRetire

  predicate InLogin(p: Proc) {
    p.LoginBuild? || p.LoginFetch? || p.LoginPair? || p.RestoreBuild? || p.PairCheck? || p.PairWait?
  }

  predicate InSave(p: Proc) {
    p.SaveEnter? || p.SaveWait? || p.SaveRecheck? || p.SaveWrite?
  }

  predicate InConnect(p: Proc) {
    p.ConnectStart? || p.ConnectTop? || p.ConnectCapture? || p.ConnectFetch? || p.ConnectDial? || p.ConnectRaise?
        || p.ConnectBackoff?
  }

  predicate InLogout(p: Proc) {
    p.LogoutBump? || p.LogoutRevoke? || p.LogoutDelete? || p.LogoutTeardown? || p.CloseRetire?
  }

  predicate Stamped(p: Proc) {
    p.LoginBuild? || p.LoginFetch? || p.LoginPair? || p.PairCheck? || p.PairWait? || p.SaveEnter? || p.SaveWait?
        || p.SaveRecheck?
    || p.SaveWrite? || p.Holding? || p.ConnectFetch? || p.ConnectDial? || p.ConnectRaise?
  }

  /** One published session file. */
  datatype Saved = Saved(born: nat, auth: Option<nat>)

  /** One account: its session, its file, and the operations in flight. */
  datatype World = World(
    sess: Fields,
    bumps: nat,                // bumps so far
    adopted: nat,              // logins and restores that installed an auth so far
    nextAddr: nat,             // next unused address
    dialled: Option<Client>,   // the client whose connect last raised the flag
    saveMu: Option<nat>,       // the operation holding the save mutex
    file: Option<Saved>,       // the session file
    published: seq<Saved>,     // every successful publish, in order
    procs: map<nat, Proc>)

  /** The session file an earlier process left behind. */
  const STORED := Saved(0, Some(0))

  /** A new session, with or without such a file. */
  function Initial(stored: bool): World {
    World(NEW_SESSION, 0, 0, 1, None, None, if stored then Some(STORED) else None, [], map[])
  }

  /** The answer of the relay or the disk to the call an operation is in. */
  datatype Answer = Good | Bad | FatalAuth | WrittenButFailed

  datatype Action =
    | StartLogin(p: nat)
    | StartRestore(p: nat, mobile: bool)
    | StartLogout(p: nat)
    | StartClose(p: nat)
    | StartHolding(p: nat, born: nat)
    | RelayLogout(born: nat)
    | Advance(p: nat, answer: Answer)

  predicate Enabled(w: World, a: Action) {
    match a
    case StartLogin(p) => p !in w.procs
    case StartRestore(p, _) => p !in w.procs && w.file.Some?
    case StartLogout(p) => p !in w.procs
    case StartClose(p) => p !in w.procs
    case StartHolding(p, born) => p !in w.procs && born <= w.bumps
    case RelayLogout(born) => born <= w.bumps
    case Advance(p, _) => p in w.procs && (w.procs[p].SaveWait? ==> w.saveMu.None?)
  }

  /** A step's effect on everything but the operation table, and where it leaves its own operation. */
  datatype Move = Move(w: World, next: Option<Proc>)

  function Goto(w: World, q: Proc): Move {
    Move(w, Some(q))
  }

  function Done(w: World): Move {
    Move(w, None)
  }

  function Follow(w: World, next: AfterSave): Move {
    if next.Finish? then Done(w) else Goto(w, ConnectStart)
  }

  function Bump(w: World, s: Fields): World {
    w.(sess := s, bumps := w.bumps + 1)
  }

  predicate Cancelled(s: Fields, ctx: nat) {
    s.connectCancel != Some(ctx)
  }

  function ConnectFailed(w: World, ctx: nat, answer: Answer): Move {
    if answer.FatalAuth? then Done(w.(sess := Offline(w.sess))) else Goto(w, ConnectBackoff(ctx))
  }

  /** One step of saveAuthIfCurrent. */
  function SaveMove(w: World, p: nat, q: Proc, answer: Answer): Move
    requires InSave(q)
  {
    var s := w.sess;
    match q
    case SaveEnter(born, next) =>
      if Counter.After(born) != s.lifecycle || s.auth.None? then Follow(w, next)
      else if answer.Good? then Goto(w, SaveWait(born, s.auth, next))
      else Done(w)
    case SaveWait(born, saved, next) => Goto(w.(saveMu := Some(p)), SaveRecheck(born, saved, next))
    case SaveRecheck(born, saved, next) =>
      if Counter.After(born) == s.lifecycle && s.auth == saved then Goto(w, SaveWrite(born, saved, next))
      else Follow(w.(saveMu := None), next)
    case SaveWrite(born, saved, next) =>
      var file := Saved(born, saved);
      var w' := if answer.Good? || answer.WrittenButFailed?
          then w.(file := Some(file), published := w.published + [file]) else w;
      if answer.Good? then Follow(w'.(saveMu := None), next) else Done(w'.(saveMu := None))
  }

  /** One step of Login, of the pairing completion it spawns, and of Restore. */
  function LoginMove(w: World, q: Proc, answer: Answer): Move
    requires InLogin(q)
  {
    var s := w.sess;
    match q
    case LoginBuild(auth, born) =>
      var s' := LoggedIn(s, auth, w.nextAddr);
      Goto(w.(sess := s', nextAddr := w.nextAddr + 1, adopted := w.adopted + 1),
          LoginFetch(s'.client.value, auth, born))
    case LoginFetch(client, auth, born) =>
      if answer.Good?
      then Goto(w.(sess := s.(pairCancel := Some(w.nextAddr)), nextAddr := w.nextAddr + 1),
                LoginPair(client, auth, born))
      else Done(w)
    case LoginPair(client, auth, born) =>
      if answer.Good?
      then Goto(w.(sess := s.(pairing := Some(w.nextAddr)), nextAddr := w.nextAddr + 1),
                PairCheck(w.nextAddr, client, auth, born))
      else Done(w)
    case RestoreBuild(mobile) =>
      var s' := Restored(s, w.nextAddr, mobile, w.nextAddr + 1);
      Goto(w.(sess := s', nextAddr := w.nextAddr + 2, adopted := w.adopted + 1), ConnectStart)
    case PairCheck(pairing, client, auth, born) =>
      if OwnsPairing(s, Counter.After(born), client, auth, pairing)
      then Goto(w, PairWait(pairing, client, auth, born))
      else Done(w)
    case PairWait(pairing, client, auth, born) =>
      if !OwnsPairing(s, Counter.After(born), client, auth, pairing) then Done(w)
      else if answer.Good? then Goto(w.(sess := PairingDone(s)), SaveEnter(born, StartConnecting))
      else Done(w.(sess := PairingDone(s)))
  }

  /** One step of runConnectLoop, connectLoop and connectOnce. */
  function ConnectMove(w: World, q: Proc, answer: Answer): Move
    requires InConnect(q)
  {
    var s := w.sess;
    match q
    case ConnectStart => Goto(w.(sess := s.(connectCancel := Some(w.nextAddr)), nextAddr := w.nextAddr + 1),
        ConnectTop(w.nextAddr))
    case ConnectTop(ctx) => if Cancelled(s, ctx) || s.closed then Done(w) else Goto(w, ConnectCapture(ctx))
    case ConnectCapture(ctx) =>
      if s.client.None? then Goto(w, ConnectBackoff(ctx)) else Goto(w, ConnectFetch(ctx, s.client.value, w.bumps))
    case ConnectFetch(ctx, client, born) =>
      if !answer.Good? then ConnectFailed(w, ctx, answer)
      else if OwnsClient(s, Counter.After(born), client) then Goto(w, ConnectDial(ctx, client, born))
      else Goto(w, ConnectBackoff(ctx))
    case ConnectDial(ctx, client, born) =>
      if !answer.Good? then ConnectFailed(w, ctx, answer)
      else if OwnsClient(s, Counter.After(born), client) then Goto(w, ConnectRaise(ctx, client, born))
      else Goto(w, ConnectBackoff(ctx))
    case ConnectRaise(ctx, client, born) =>
      if OwnsClient(s, Counter.After(born), client)
      then Goto(w.(sess := Raised(s, Counter.After(born), client), dialled := Some(client)), SaveEnter(born, Finish))
      else Goto(w, ConnectBackoff(ctx))
    case ConnectBackoff(ctx) =>
      if (Cancelled(s, ctx) || s.closed) && !answer.Good? then Done(w) else Goto(w, ConnectTop(ctx))
  }

  /** One step of Logout and Close. */
  function LogoutMove(w: World, q: Proc, answer: Answer): Move
    requires InLogout(q)
  {
    match q
    case LogoutBump(target) => Goto(Bump(w, Bumped(w.sess)), LogoutRevoke(target))
    case LogoutRevoke(target) => if target.Some? && !answer.Good? then Done(w) else Goto(w, LogoutDelete)
    case LogoutDelete => Goto(if answer.Good? || answer.WrittenButFailed? then w.(file := None) else w, LogoutTeardown)
    case LogoutTeardown => Done(Bump(w, TornDown(w.sess)))
    case CloseRetire => Done(Bump(w, Retired(w.sess)))
  }

  function AdvanceMove(w: World, p: nat, q: Proc, answer: Answer): Move {
    if q.Holding? then Goto(w, SaveEnter(q.born, Finish))
    else if InSave(q) then SaveMove(w, p, q, answer)
    else if InLogin(q) then LoginMove(w, q, answer)
    else if InLogout(q) then LogoutMove(w, q, answer)
    else ConnectMove(w, q, answer)
  }

  /** The first section of an operation. */
  function StartMove(w: World, a: Action): Move
    requires !a.RelayLogout? && !a.Advance?
  {
    match a
    case StartLogin(_) => Goto(Bump(w, Bumped(w.sess)).(nextAddr := w.nextAddr + 1),
        LoginBuild(w.nextAddr, w.bumps + 1))
    case StartRestore(_, mobile) => Goto(w, RestoreBuild(mobile))
    case StartLogout(_) => Goto(w.(sess := w.sess.(pairCancel := None)), LogoutBump(w.sess.client))
    case StartClose(_) => Goto(w.(sess := w.sess.(closed := true)), CloseRetire)
    case StartHolding(_, born) => Goto(w, Holding(born))
  }

  function MoveOf(w: World, a: Action): Move
    requires Enabled(w, a) && !a.RelayLogout?
  {
    if a.Advance? then AdvanceMove(w, a.p, w.procs[a.p], a.answer) else StartMove(w, a)
  }

  function Settle(m: Move, p: nat): World {
    m.w.(procs := if m.next.Some? then m.w.procs[p := m.next.value] else m.w.procs - {p})
  }

  function Step(w: World, a: Action): World
    requires Enabled(w, a)
  {
    if a.RelayLogout? then w.(sess := OfflineIfCurrent(w.sess, Counter.After(a.born)))
    else Settle(MoveOf(w, a), a.p)
  }

  /** State k + 1 follows from state k by an enabled action. */
  predicate Follows(states: seq<World>, actions: seq<Action>, k: nat)
    requires k < |actions| < |states|
  {
    Enabled(states[k], actions[k]) && states[k + 1] == Step(states[k], actions[k])
  }

  /** Every state follows from the one before. */
  ghost predicate Steps(states: seq<World>, actions: seq<Action>) {
    && |states| == |actions| + 1
    && forall k {:trigger Follows(states, actions, k)} :: 0 <= k < |actions| ==> Follows(states, actions, k)
  }

  /** A run: such a sequence from a new session on. */
  ghost predicate IsRun(states: seq<World>, actions: seq<Action>) {
    Steps(states, actions) && (states[0] == Initial(false) || states[0] == Initial(true))
  }
}
