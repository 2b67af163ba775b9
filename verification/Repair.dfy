/**
 Overflow repair: event handlers that dropped an event mark its thread and ask for a
 catch-up; one catch-up at a time runs a full sync, takes the marks and asks the relay
 for their windows.  Each step is one lock-held section, one atomic access, one fetch or
 one emission; clients, logins and the close may come between any two.
 */
module Repair {
  import opened Wrappers
  import opened DirtySet
  import Counter

  datatype Handler =
    | Marking(thread: string)               // about to mark; no thread: an event without one
    | Requesting(thread: string, at: nat)   // marked after `at` takes; about to ask for a catch-up

  /** A window being refreshed: the client and the number of bumps its refresh saw, and the marks still to come. */
  datatype Window = Window(thread: string, client: nat, born: nat, rest: seq<string>)

  datatype CatchUp =
    | Syncing                        // up to and including the full sync
    | Refreshing(rest: seq<string>)  // took the marks; these windows are to come
    | Checking(window: Window)       // read the session; before the first check that it still owns its client
    | Fetching(window: Window)       // in the fetch
    | Delivering(window: Window)     // fetched and still the owner; before the last lifecycle check and the emission
    | Clearing                       // about to clear the flag

  datatype World = World(
    dirty: seq<string>,
    resyncing: bool,
    catchUps: map<nat, CatchUp>,
    handlers: map<nat, Handler>,
    client: Option<nat>,
    clients: nat,             // clients built so far; each has its own number
    bumps: nat,
    closed: bool,
    takes: nat,               // takes so far
    taken: seq<string>,       // every mark ever taken, in the order of the takes
    asked: seq<string>,       // every mark whose refresh was begun
    refreshed: seq<string>)   // every mark whose window was emitted

  const INITIAL := World([], false, map[], map[], None, 0, 0, false, 0, [], [], [])

  datatype Action =
    | Overflow(h: nat, thread: string)           // a handler found the queue full and dropped an event
    | Handle(h: nat, spawn: nat)                 // its next step; `spawn` names a catch-up it may start
    | Run(c: nat, order: seq<string>, ok: bool)  // a catch-up's next step: the order of a take, the answer to a fetch
    | NewClient
    | DropClient
    | Bump
    | Close

  predicate Enabled(w: World, a: Action) {
    match a
    case Overflow(h, _) => h !in w.handlers
    case Handle(h, spawn) => h in w.handlers && spawn !in w.catchUps
    case Run(c, order, _) => c in w.catchUps && (w.catchUps[c].Syncing? ==> multiset(order) == multiset(w.dirty))
    case _ => true
  }

  function Handled(w: World, h: nat, spawn: nat): World
    requires h in w.handlers
  {
    match w.handlers[h]
    case Marking(thread) =>
      w.(dirty := if thread == "" then w.dirty else Marked(w.dirty, thread),
         handlers := w.handlers[h := Requesting(thread, w.takes)])
    case Requesting(_, _) =>
      var done := w.(handlers := w.handlers - {h});
      if w.resyncing then done else done.(resyncing := true, catchUps := w.catchUps[spawn := Syncing])
  }

  predicate Current(w: World, born: nat) {
    Counter.After(born) == Counter.After(w.bumps) && !w.closed
  }

  predicate Owned(w: World, x: Window) {
    w.client == Some(x.client) && Current(w, x.born)
  }

  /** The start of one refresh: the session is read; without a client there is nothing to do. */
  function Asked(w: World, rest: seq<string>): CatchUp
    requires rest != []
  {
    if w.client.None? then Refreshing(rest[1..]) else Checking(Window(rest[0], w.client.value, w.bumps, rest[1..]))
  }

  function Goto(w: World, c: nat, next: CatchUp): World {
    w.(catchUps := w.catchUps[c := next])
  }

  function Ran(w: World, c: nat, order: seq<string>, ok: bool): World
    requires c in w.catchUps
  {
    match w.catchUps[c]
    case Syncing => Goto(w.(dirty := [], takes := w.takes + 1, taken := w.taken + order), c, Refreshing(order))
    case Refreshing(rest) =>
      if rest == [] || w.closed then Goto(w, c, Clearing)
      else Goto(w.(asked := w.asked + [rest[0]]), c, Asked(w, rest))
    case Checking(x) => Goto(w, c, if Owned(w, x) then Fetching(x) else Refreshing(x.rest))
    case Fetching(x) => Goto(w, c, if ok && Owned(w, x) then Delivering(x) else Refreshing(x.rest))
    case Delivering(x) =>
      Goto(if Current(w, x.born) then w.(refreshed := w.refreshed + [x.thread]) else w, c, Refreshing(x.rest))
    case Clearing => w.(resyncing := false, catchUps := w.catchUps - {c})
  }

  function Step(w: World, a: Action): World
    requires Enabled(w, a)
  {
    match a
    case Overflow(h, thread) => w.(handlers := w.handlers[h := Marking(thread)])
    case Handle(h, spawn) => Handled(w, h, spawn)
    case Run(c, order, ok) => Ran(w, c, order, ok)
    case NewClient => w.(client := Some(w.clients), clients := w.clients + 1)
    case DropClient => w.(client := None)
    case Bump => w.(bumps := w.bumps + 1)
    case Close => w.(closed := true)
  }

  predicate Follows(states: seq<World>, actions: seq<Action>, k: nat)
    requires k < |actions| < |states|
  {
    Enabled(states[k], actions[k]) && states[k + 1] == Step(states[k], actions[k])
  }

  ghost predicate IsRun(states: seq<World>, actions: seq<Action>) {
    && |states| == |actions| + 1
    && states[0] == INITIAL
    && forall k {:trigger Follows(states, actions, k)} :: 0 <= k < |actions| ==> Follows(states, actions, k)
  }

  // ---------- one catch-up at a time ----------

  /** The flag is up exactly while a catch-up runs, and only one does. */
  ghost predicate Single(w: World) {
    && (w.resyncing <==> exists c :: c in w.catchUps)
    && (forall c, d :: c in w.catchUps && d in w.catchUps ==> c == d)
  }

  lemma StepKeepsSingle(w: World, a: Action)
    requires Single(w) && Enabled(w, a)
    ensures Single(Step(w, a))
  {
    var v := Step(w, a);
    match a
    case Handle(h, spawn) =>
      if w.handlers[h].Requesting? && !w.resyncing {
        assert spawn in v.catchUps;
      } else {
        assert v.catchUps == w.catchUps;
      }
    case Run(c, _, _) =>
      assert forall d :: d in v.catchUps ==> d in w.catchUps;
      assert !w.catchUps[c].Clearing? ==> c in v.catchUps;
    case _ => assert v.catchUps == w.catchUps;
  }

  // ---------- which marks are left ----------

  predicate Takes(w: World, a: Action) {
    a.Run? && a.c in w.catchUps && w.catchUps[a.c].Syncing?
  }

  /** A catch-up that has not yet taken the marks. */
  ghost predicate WillTake(w: World) {
    exists c :: c in w.catchUps && w.catchUps[c].Syncing?
  }

  /** A handler that marked a thread since the last take. */
  predicate Marker(w: World, h: nat) {
    h in w.handlers && w.handlers[h].Requesting? && w.handlers[h].thread != "" && w.handlers[h].at == w.takes
  }

  /** Its request comes while the running catch-up is past its take, and is turned away. */
  ghost predicate TurnedAway(w: World, a: Action) {
    a.Handle? && Marker(w, a.h) && w.resyncing && !WillTake(w)
  }

  ghost predicate NoTake(states: seq<World>, actions: seq<Action>, i: nat, j: nat)
    requires j <= |actions| < |states|
  {
    forall k :: i <= k < j ==> !Takes(states[k], actions[k])
  }

  /** A marker was turned away, and nothing was taken since. */
  ghost predicate LeftBehind(states: seq<World>, actions: seq<Action>, i: nat)
    requires i <= |actions| < |states|
  {
    exists k :: 0 <= k < i && TurnedAway(states[k], actions[k]) && NoTake(states, actions, k + 1, i)
  }

  lemma LeftBehindStep(states: seq<World>, actions: seq<Action>, i: nat)
    requires 1 <= i <= |actions| < |states|
    ensures LeftBehind(states, actions, i) <==>
            && !Takes(states[i - 1], actions[i - 1])
            && (LeftBehind(states, actions, i - 1) || TurnedAway(states[i - 1], actions[i - 1]))
  {
    if !Takes(states[i - 1], actions[i - 1]) {
      if LeftBehind(states, actions, i - 1) {
        var k :| 0 <= k < i - 1 && TurnedAway(states[k], actions[k]) && NoTake(states, actions, k + 1, i - 1);
        assert NoTake(states, actions, k + 1, i);
      } else if TurnedAway(states[i - 1], actions[i - 1]) {
        assert NoTake(states, actions, i, i);
      }
      if LeftBehind(states, actions, i) {
        var k :| 0 <= k < i && TurnedAway(states[k], actions[k]) && NoTake(states, actions, k + 1, i);
        assert k < i - 1 ==> NoTake(states, actions, k + 1, i - 1);
      }
    }
  }

  /** Every mark has somebody to see to it, or was left behind. */
  ghost predicate Covered(w: World, left: bool) {
    && (w.dirty != [] ==> left || WillTake(w) || exists h :: Marker(w, h))
    && (left ==> w.dirty != [])
    && (forall h :: Marker(w, h) ==> w.dirty != [])
    && (forall h :: h in w.handlers && w.handlers[h].Requesting? ==> w.handlers[h].at <= w.takes)
  }

  lemma MarkedIsDirty(order: seq<string>, id: string)
    ensures Marked(order, id) != []
    ensures order != [] ==> Marked(order, id) != []
  {
  }

  lemma HandleKeepsCovered(w: World, h: nat, spawn: nat, left: bool)
    requires Single(w) && Covered(w, left) && Enabled(w, Handle(h, spawn))
    ensures Covered(Handled(w, h, spawn), left || TurnedAway(w, Handle(h, spawn)))
  {
    var v := Handled(w, h, spawn);
    match w.handlers[h]
    case Marking(thread) =>
      MarkedIsDirty(w.dirty, thread);
      assert thread != "" ==> Marker(v, h);
      assert forall k :: k != h ==> (Marker(v, k) <==> Marker(w, k));
      assert v.catchUps == w.catchUps;
    case Requesting(_, _) =>
      assert forall k :: k != h ==> (Marker(v, k) <==> Marker(w, k));
      if w.resyncing {
        assert v.catchUps == w.catchUps;
      } else {
        assert v.catchUps[spawn].Syncing?;
      }
  }

  lemma RunKeepsCovered(w: World, c: nat, order: seq<string>, ok: bool, left: bool)
    requires Single(w) && Covered(w, left) && Enabled(w, Run(c, order, ok))
    ensures Covered(Ran(w, c, order, ok), left && !w.catchUps[c].Syncing?)
  {
    var v := Ran(w, c, order, ok);
    if w.catchUps[c].Syncing? {
      assert forall h :: !Marker(v, h);
    } else {
      assert forall h :: Marker(v, h) <==> Marker(w, h);
      assert !WillTake(w);
    }
  }

  lemma StepKeepsCovered(w: World, a: Action, left: bool)
    requires Single(w) && Covered(w, left) && Enabled(w, a)
    ensures Covered(Step(w, a), !Takes(w, a) && (left || TurnedAway(w, a)))
  {
    match a
    case Handle(h, spawn) => HandleKeepsCovered(w, h, spawn, left);
    case Run(c, order, ok) => RunKeepsCovered(w, c, order, ok, left);
    case _ =>
      var v := Step(w, a);
      assert v.catchUps == w.catchUps && forall h :: Marker(v, h) <==> Marker(w, h);
  }

  lemma {:induction false} CoveredInEveryRun(states: seq<World>, actions: seq<Action>, i: nat)
    requires IsRun(states, actions) && i < |states|
    ensures Single(states[i]) && Covered(states[i], LeftBehind(states, actions, i))
  {
    if i > 0 {
      assert Follows(states, actions, i - 1);
      CoveredInEveryRun(states, actions, i - 1);
      StepKeepsSingle(states[i - 1], actions[i - 1]);
      StepKeepsCovered(states[i - 1], actions[i - 1], LeftBehind(states, actions, i - 1));
      LeftBehindStep(states, actions, i);
    }
  }

  /** Nobody is at work. */
  predicate Quiet(w: World) {
    w.handlers == map[] && w.catchUps == map[]
  }

  /**
   In every run, once handlers and catch-up are done: a mark is left if and only if some
   handler that marked a thread after the last take was turned away, because the
   catch-up of that take was still running.
   */
  lemma QuietMarksExactly(states: seq<World>, actions: seq<Action>, i: nat)
    requires IsRun(states, actions) && i < |states| && Quiet(states[i])
    ensures states[i].dirty != [] <==> LeftBehind(states, actions, i)
  {
    CoveredInEveryRun(states, actions, i);
  }

  /** At no moment of any run do two catch-ups run. */
  lemma OneCatchUp(states: seq<World>, actions: seq<Action>, i: nat, c: nat, d: nat)
    requires IsRun(states, actions) && i < |states| && c in states[i].catchUps && d in states[i].catchUps
    ensures c == d && states[i].resyncing
  {
    CoveredInEveryRun(states, actions, i);
  }

  // ---------- what was taken is asked for ----------

  function Rest(s: CatchUp): seq<string> {
    match s
    case Refreshing(rest) => rest
    case Checking(x) => x.rest
    case Fetching(x) => x.rest
    case Delivering(x) => x.rest
    case _ => []
  }

  /** What the running catch-up has still to ask for. */
  ghost predicate Owes(w: World, rest: seq<string>) {
    if exists c :: c in w.catchUps then exists c :: c in w.catchUps && Rest(w.catchUps[c]) == rest
    else rest == []
  }

  ghost predicate AllAsked(w: World) {
    if w.closed then w.asked <= w.taken
    else forall rest :: Owes(w, rest) ==> w.taken == w.asked + rest
  }

  lemma OwesOnly(w: World, c: nat, rest: seq<string>)
    requires Single(w) && c in w.catchUps
    ensures Owes(w, rest) <==> rest == Rest(w.catchUps[c])
  {
  }

  /** One step of a catch-up asks for the first of what it owes, takes more, or changes neither. */
  lemma RanAsks(w: World, c: nat, order: seq<string>, ok: bool)
    requires c in w.catchUps && (w.closed ==> w.asked <= w.taken)
    requires !w.closed ==> w.taken == w.asked + Rest(w.catchUps[c])
    ensures var v := Ran(w, c, order, ok);
            if w.closed then v.asked <= v.taken
            else v.taken == v.asked + if c in v.catchUps then Rest(v.catchUps[c]) else []
  {
    if w.catchUps[c].Refreshing? && w.catchUps[c].rest != [] {
      var rest := w.catchUps[c].rest;
      assert w.asked + rest == w.asked + [rest[0]] + rest[1..];
    }
  }

  lemma RunKeepsAsked(w: World, c: nat, order: seq<string>, ok: bool)
    requires Single(w) && AllAsked(w) && Enabled(w, Run(c, order, ok))
    ensures AllAsked(Ran(w, c, order, ok))
  {
    var v := Ran(w, c, order, ok);
    StepKeepsSingle(w, Run(c, order, ok));
    OwesOnly(w, c, Rest(w.catchUps[c]));
    RanAsks(w, c, order, ok);
    forall rest | Owes(v, rest)
      ensures rest == if c in v.catchUps then Rest(v.catchUps[c]) else []
    {
      NowOwes(w, c, order, ok, rest);
    }
  }

  lemma NowOwes(w: World, c: nat, order: seq<string>, ok: bool, rest: seq<string>)
    requires Single(w) && c in w.catchUps && Single(Ran(w, c, order, ok)) && Owes(Ran(w, c, order, ok), rest)
    ensures var v := Ran(w, c, order, ok); rest == if c in v.catchUps then Rest(v.catchUps[c]) else []
  {
    var v := Ran(w, c, order, ok);
    if c in v.catchUps {
      OwesOnly(v, c, rest);
    } else {
      assert forall d :: d !in v.catchUps;
    }
  }

  lemma StepKeepsAsked(w: World, a: Action)
    requires Single(w) && AllAsked(w) && Enabled(w, a)
    ensures AllAsked(Step(w, a))
  {
    var v := Step(w, a);
    match a
    case Run(c, order, ok) => RunKeepsAsked(w, c, order, ok);
    case Handle(h, spawn) =>
      forall rest | !w.closed && Owes(v, rest)
        ensures Owes(w, rest)
      {
        if v.catchUps != w.catchUps {
          StepKeepsSingle(w, a);
          OwesOnly(v, spawn, rest);
        }
      }
    case Close =>
      if !w.closed {
        if c :| c in w.catchUps {
          OwesOnly(w, c, Rest(w.catchUps[c]));
        } else {
          assert Owes(w, []);
        }
      }
    case _ => assert forall rest :: Owes(v, rest) <==> Owes(w, rest);
  }

  /** In every run of an open session whose catch-ups are done, every mark ever taken was asked for, in order. */
  lemma {:induction false} TakenAreAsked(states: seq<World>, actions: seq<Action>, i: nat)
    requires IsRun(states, actions) && i < |states|
    ensures AllAsked(states[i])
    ensures !states[i].closed && states[i].catchUps == map[] ==> states[i].asked == states[i].taken
  {
    if i > 0 {
      assert Follows(states, actions, i - 1);
      TakenAreAsked(states, actions, i - 1);
      CoveredInEveryRun(states, actions, i - 1);
      StepKeepsAsked(states[i - 1], actions[i - 1]);
    }
    if states[i].catchUps == map[] {
      assert Owes(states[i], []);
    }
  }

  // ---------- which windows are refreshed ----------

  /** The session is open, and its lifecycle shows the stamp it showed after `born` bumps. */
  predicate OpenSince(w: World, born: nat) {
    !w.closed && Counter.After(w.bumps) == Counter.After(born)
  }

  predicate InWindow(w: World, c: nat) {
    c in w.catchUps && (w.catchUps[c].Checking? || w.catchUps[c].Fetching? || w.catchUps[c].Delivering?)
  }

  /** Catch-up c begins the refresh of its next mark. */
  predicate Asks(w: World, a: Action, c: nat) {
    a.Run? && a.c == c && c in w.catchUps && w.catchUps[c].Refreshing? && w.catchUps[c].rest != [] && !w.closed
  }

  /** At f the fetch begun at i returns a page, the session still has the client of i, its lifecycle, and is open. */
  predicate FetchSucceeds(states: seq<World>, actions: seq<Action>, i: nat, f: nat, c: nat)
    requires i < f < |actions| < |states|
  {
    && actions[f].Run? && actions[f].c == c && actions[f].ok
    && c in states[f].catchUps && states[f].catchUps[c].Fetching?
    && states[f].client == states[i].client && OpenSince(states[f], states[i].bumps)
  }

  ghost predicate FetchedBy(states: seq<World>, actions: seq<Action>, i: nat, k: nat, c: nat)
    requires k <= |actions| < |states|
  {
    exists f :: i < f < k && FetchSucceeds(states, actions, i, f, c)
  }

  lemma FetchedByStep(states: seq<World>, actions: seq<Action>, i: nat, k: nat, c: nat)
    requires i < k < |actions| < |states|
    ensures FetchedBy(states, actions, i, k + 1, c)
            <==> FetchedBy(states, actions, i, k, c) || FetchSucceeds(states, actions, i, k, c)
  {
  }

  /** The state of a refresh begun at i, k steps into the run. */
  ghost predicate Underway(states: seq<World>, actions: seq<Action>, i: nat, k: nat, c: nat)
    requires i < k <= |actions| < |states| && Asks(states[i], actions[i], c) && InWindow(states[k], c)
  {
    var rest, s := states[i].catchUps[c].rest, states[k].catchUps[c];
    && states[i].client.Some?
    && s.window == Window(rest[0], states[i].client.value, states[i].bumps, rest[1..])
    && states[k].asked == states[i].asked + [rest[0]] && states[k].refreshed == states[i].refreshed
    && (s.Delivering? <==> FetchedBy(states, actions, i, k, c))
  }

  /** Whatever is not the step of the running catch-up leaves it and the logs alone. */
  lemma OthersLeaveWindow(w: World, a: Action, c: nat)
    requires Single(w) && Enabled(w, a) && c in w.catchUps && !(a.Run? && a.c == c)
    ensures var v := Step(w, a);
            c in v.catchUps && v.catchUps[c] == w.catchUps[c] && v.asked == w.asked && v.refreshed == w.refreshed
  {
  }

  lemma {:induction false} StaysUnderway(states: seq<World>, actions: seq<Action>, i: nat, k: nat, c: nat)
    requires IsRun(states, actions) && i < k <= |actions| && Asks(states[i], actions[i], c)
    requires forall m :: i < m <= k ==> InWindow(states[m], c)
    ensures Underway(states, actions, i, k, c)
  {
    assert Follows(states, actions, k - 1);
    if k > i + 1 {
      StaysUnderway(states, actions, i, k - 1, c);
      CoveredInEveryRun(states, actions, k - 1);
      FetchedByStep(states, actions, i, k - 1, c);
      if !(actions[k - 1].Run? && actions[k - 1].c == c) {
        OthersLeaveWindow(states[k - 1], actions[k - 1], c);
      }
    }
  }

  /** The step that ends a refresh. */
  lemma WindowEnds(w: World, a: Action, c: nat)
    requires Single(w) && Enabled(w, a) && InWindow(w, c)
    requires c in Step(w, a).catchUps && Step(w, a).catchUps[c].Refreshing?
    ensures var v, x := Step(w, a), w.catchUps[c].window;
            && v.asked == w.asked
            && v.refreshed == w.refreshed + (if w.catchUps[c].Delivering? && Current(w, x.born) then [x.thread] else [])
            && !(w.catchUps[c].Fetching? && a.Run? && a.ok && Owned(w, x))
  {
    if !(a.Run? && a.c == c) {
      OthersLeaveWindow(w, a, c);
    }
  }

  /**
   In every run, a mark whose refresh began at i and ended at j was refreshed if and only
   if there was a client at i, its fetch returned a page while that client was still the
   session's, and at the last step the lifecycle was still the same and the session open.
   */
  lemma RefreshedExactly(states: seq<World>, actions: seq<Action>, i: nat, j: nat, c: nat)
    requires IsRun(states, actions) && i < j <= |actions| && Asks(states[i], actions[i], c)
    requires forall m :: i < m < j ==> InWindow(states[m], c)
    requires c in states[j].catchUps && states[j].catchUps[c].Refreshing?
    ensures var mark := states[i].catchUps[c].rest[0];
            && states[j].asked == states[i].asked + [mark]
            && states[j].refreshed == states[i].refreshed +
                 if FetchedBy(states, actions, i, j, c) && OpenSince(states[j - 1], states[i].bumps) then [mark] else []
  {
    assert Follows(states, actions, j - 1);
    CoveredInEveryRun(states, actions, j - 1);
    if j > i + 1 {
      StaysUnderway(states, actions, i, j - 1, c);
      FetchedByStep(states, actions, i, j - 1, c);
      WindowEnds(states[j - 1], actions[j - 1], c);
    }
  }

  // ---------- nobody waits ----------

  /** Steps a catch-up has yet to make at most, once it took the marks. */
  function StepsLeft(s: CatchUp): nat {
    match s
    case Syncing => 0
    case Refreshing(rest) => 4 * |rest| + 2
    case Checking(x) => 4 * |x.rest| + 5
    case Fetching(x) => 4 * |x.rest| + 4
    case Delivering(x) => 4 * |x.rest| + 3
    case Clearing => 1
  }

  /** A catch-up takes the marks in its first step, and comes to its end in a bounded number of further ones. */
  lemma CatchUpEnds(w: World, c: nat, order: seq<string>, ok: bool)
    requires Enabled(w, Run(c, order, ok))
    ensures var v := Step(w, Run(c, order, ok));
            if w.catchUps[c].Syncing? then
              c in v.catchUps && v.catchUps[c] == Refreshing(order) && v.dirty == [] && v.taken == w.taken + order
            else
              && v.dirty == w.dirty && v.taken == w.taken
              && (if StepsLeft(w.catchUps[c]) == 1 then c !in v.catchUps && !v.resyncing
                  else c in v.catchUps && 0 < StepsLeft(v.catchUps[c]) < StepsLeft(w.catchUps[c]))
  {
  }

  /** A handler ends after two steps: its mark is set, and its request starts a catch-up exactly if none runs. */
  lemma HandlerEnds(w: World, h: nat, spawn: nat)
    requires Single(w) && Enabled(w, Handle(h, spawn))
    ensures var v := Step(w, Handle(h, spawn));
            if w.handlers[h].Marking? then
              && h in v.handlers && v.handlers[h].Requesting? && v.catchUps == w.catchUps
              && (if w.handlers[h].thread == "" then v.dirty == w.dirty else w.handlers[h].thread in v.dirty)
            else
              && h !in v.handlers && v.dirty == w.dirty && v.resyncing
              && (spawn in v.catchUps <==> w.catchUps == map[])
  {
    if w.handlers[h].Marking? {
      var order := Marked(w.dirty, w.handlers[h].thread);
      assert w.handlers[h].thread !in w.dirty ==> order[|order| - 1] == w.handlers[h].thread;
    } else if !w.resyncing {
      assert w.catchUps == map[];
    }
  }

  /** The session's own changes: what a refresh may find changed. */
  lemma SessionExactly(w: World, a: Action)
    requires Enabled(w, a)
    ensures var v := Step(w, a);
            && v.client == (if a.NewClient? then Some(w.clients) else if a.DropClient? then None else w.client)
            && v.clients == w.clients + (if a.NewClient? then 1 else 0)
            && v.bumps == w.bumps + (if a.Bump? then 1 else 0)
            && (v.closed <==> w.closed || a.Close?)
  {
  }

  // ---------- marks that do not heal ----------

  lemma Extend(states: seq<World>, actions: seq<Action>, a: Action, next: World)
    returns (states': seq<World>, actions': seq<Action>)
    requires IsRun(states, actions) && Enabled(states[|actions|], a) && next == Step(states[|actions|], a)
    ensures IsRun(states', actions') && states' == states + [next] && actions' == actions + [a]
  {
    states', actions' := states + [next], actions + [a];
    forall k | 0 <= k < |actions'|
      ensures Follows(states', actions', k)
    {
      if k < |actions| {
        assert Follows(states, actions, k);
      }
    }
  }

  const TAKEN := World([], true, map[0 := Refreshing(["a"])], map[], Some(0), 1, 0, false, 1, ["a"], [], [])

  /** A handler marks a thread and its request starts a catch-up, which takes the mark. */
  lemma FirstRepair() returns (states: seq<World>, actions: seq<Action>)
    ensures IsRun(states, actions) && states[|actions|] == TAKEN
  {
    states, actions := [INITIAL], [];
    var w := INITIAL.(client := Some(0), clients := 1);
    states, actions := Extend(states, actions, NewClient, w);
    w := w.(handlers := map[0 := Marking("a")]);
    states, actions := Extend(states, actions, Overflow(0, "a"), w);
    assert [] + ["a"] == ["a"];
    w := w.(dirty := ["a"], handlers := map[0 := Requesting("a", 0)]);
    states, actions := Extend(states, actions, Handle(0, 0), w);
    w := w.(resyncing := true, catchUps := map[0 := Syncing], handlers := map[]);
    states, actions := Extend(states, actions, Handle(0, 0), w);
    states, actions := Extend(states, actions, Run(0, ["a"], true), TAKEN);
  }

  /** The catch-up asks for its one window. */
  lemma OnlyWindow(states: seq<World>, actions: seq<Action>, w: World)
    returns (states': seq<World>, actions': seq<Action>)
    requires IsRun(states, actions) && states[|actions|] == w
    requires w.catchUps == map[0 := Refreshing(["a"])] && w.client == Some(0) && w.bumps == 0 && !w.closed
    ensures IsRun(states', actions')
    ensures states'[|actions'|] == w.(asked := w.asked + ["a"], catchUps := map[0 := Fetching(Window("a", 0, 0, []))])
  {
    var x := Window("a", 0, 0, []);
    assert ["a"][1..] == [];
    var checking := w.(asked := w.asked + ["a"], catchUps := map[0 := Checking(x)]);
    states', actions' := Extend(states, actions, Run(0, [], true), checking);
    states', actions' := Extend(states', actions', Run(0, [], true), checking.(catchUps := map[0 := Fetching(x)]));
  }

  /** The catch-up comes to its end. */
  lemma Ends(states: seq<World>, actions: seq<Action>, w: World)
    returns (states': seq<World>, actions': seq<Action>)
    requires IsRun(states, actions) && states[|actions|] == w && w.catchUps == map[0 := Refreshing([])]
    ensures IsRun(states', actions')
    ensures states'[|actions'|] == w.(resyncing := false, catchUps := map[])
  {
    states', actions' := Extend(states, actions, Run(0, [], true), w.(catchUps := map[0 := Clearing]));
    states', actions' := Extend(states', actions', Run(0, [], true), w.(resyncing := false, catchUps := map[]));
  }

  /** A second handler marks another thread after the take, and is turned away. */
  lemma TurnedAwayMarker() returns (states: seq<World>, actions: seq<Action>)
    ensures IsRun(states, actions) && states[|actions|] == TAKEN.(dirty := ["b"])
  {
    states, actions := FirstRepair();
    var w := TAKEN.(handlers := map[0 := Marking("b")]);
    states, actions := Extend(states, actions, Overflow(0, "b"), w);
    assert [] + ["b"] == ["b"];
    w := w.(dirty := ["b"], handlers := map[0 := Requesting("b", 1)]);
    states, actions := Extend(states, actions, Handle(0, 1), w);
    states, actions := Extend(states, actions, Handle(0, 1), TAKEN.(dirty := ["b"]));
  }

  /** Everything comes to rest with that mark left, although the first one was refreshed. */
  lemma MarkLeftBehind() returns (states: seq<World>, actions: seq<Action>)
    ensures IsRun(states, actions)
    ensures var end := states[|actions|]; Quiet(end) && !end.closed && end.dirty == ["b"] && end.refreshed == ["a"]
  {
    states, actions := TurnedAwayMarker();
    states, actions := OnlyWindow(states, actions, TAKEN.(dirty := ["b"]));
    var x, w := Window("a", 0, 0, []), states[|actions|];
    states, actions := Extend(states, actions, Run(0, [], true), w.(catchUps := map[0 := Delivering(x)]));
    var refreshed := w.(refreshed := ["a"], catchUps := map[0 := Refreshing([])]);
    states, actions := Extend(states, actions, Run(0, [], true), refreshed);
    states, actions := Ends(states, actions, refreshed);
  }

  /** One failed fetch, and a mark that nobody was turned away with is gone without a refresh. */
  lemma FailedFetchLosesMark() returns (states: seq<World>, actions: seq<Action>)
    ensures IsRun(states, actions)
    ensures var end := states[|actions|];
            Quiet(end) && !end.closed && end.dirty == [] && end.taken == end.asked == ["a"] && end.refreshed == []
  {
    states, actions := FirstRepair();
    states, actions := OnlyWindow(states, actions, TAKEN);
    var failed := states[|actions|].(catchUps := map[0 := Refreshing([])]);
    states, actions := Extend(states, actions, Run(0, [], false), failed);
    states, actions := Ends(states, actions, failed);
    assert [] + ["a"] == ["a"];
  }
}
