/**
 The relay event queue of one session: event handlers push into a bounded channel and
 make room by dropping the oldest event, one consumer takes events out and rechecks
 their lifecycle stamp.  Each action is one lock-held read or one channel select; the
 session's own steps (bumps, new clients, close) may come between any two.
 */
module EventQueue {
  import Counter

  const CAPACITY: nat := 256

  /** A relay event with the number of bumps its handler saw; the stamp it carries is Counter.After(born). */
  datatype Queued = Queued(born: nat, event: nat)

  datatype Handler =
    | Pushing(q: Queued)   // read its stamp; first select next
    | Dropping(q: Queued)  // queue was full; about to drop the oldest
    | Retrying(q: Queued)  // dropped; second select next

  datatype Consumer = Waiting | Holding(index: nat, q: Queued) | Stopped

  /** A dispatch: which push it was, and how often the lifecycle had been bumped at the dequeue check. */
  datatype Dispatch = Dispatch(index: nat, at: nat)

  datatype World = World(
    bumps: nat, clientGen: nat, closed: bool,
    queue: seq<Queued>,
    left: nat,                  // events taken out of the queue so far, dropped or received
    handlers: map<nat, Handler>,
    consumer: Consumer,
    pushed: seq<Queued>,        // every successful push, in order
    dispatched: seq<Dispatch>)  // every dispatch, in order

  const INITIAL := World(0, 0, false, [], 0, map[], Waiting, [], [])

  datatype Action =
    | Bump
    | NewClient
    | Close
    | Relay(h: nat, gen: nat, event: nat)  // a client's handler is called and reads the session
    | Select(h: nat)                       // a handler's next select
    | Take(seesClose: bool)                // the consumer's select
    | Check                                // the consumer's recheck

  predicate Enabled(w: World, a: Action) {
    match a
    case Relay(h, _, _) => h !in w.handlers
    case Select(h) => h in w.handlers
    case Take(seesClose) => w.consumer.Waiting? && if seesClose then w.closed else w.queue != []
    case Check => w.consumer.Holding?
    case _ => true
  }

  function Push(w: World, q: Queued): World {
    w.(queue := w.queue + [q], pushed := w.pushed + [q])
  }

  function Pop(w: World): World
    requires w.queue != []
  {
    w.(queue := w.queue[1..], left := w.left + 1)
  }

  function Selected(w: World, h: nat): World
    requires h in w.handlers
  {
    match w.handlers[h]
    case Pushing(q) =>
      if |w.queue| < CAPACITY then Push(w, q).(handlers := w.handlers - {h})
      else w.(handlers := w.handlers[h := Dropping(q)])
    case Dropping(q) => (if w.queue == [] then w else Pop(w)).(handlers := w.handlers[h := Retrying(q)])
    case Retrying(q) => (if |w.queue| < CAPACITY then Push(w, q) else w).(handlers := w.handlers - {h})
  }

  function Step(w: World, a: Action): World
    requires Enabled(w, a)
  {
    match a
    case Bump => w.(bumps := w.bumps + 1)
    case NewClient => w.(clientGen := (w.clientGen + 1) % Counter.WIDTH)
    case Close => w.(closed := true)
    case Relay(h, gen, event) =>
      if gen != w.clientGen then w else w.(handlers := w.handlers[h := Pushing(Queued(w.bumps, event))])
    case Select(h) => Selected(w, h)
    case Take(seesClose) =>
      if seesClose then w.(consumer := Stopped) else Pop(w).(consumer := Holding(w.left, w.queue[0]))
    case Check =>
      var index, q := w.consumer.index, w.consumer.q;
      var next := w.(consumer := Waiting);
      if Counter.After(q.born) == Counter.After(w.bumps)
          then next.(dispatched := w.dispatched + [Dispatch(index, w.bumps)]) else next
  }

  ghost predicate IsRun(states: seq<World>, actions: seq<Action>) {
    && |states| == |actions| + 1
    && states[0] == INITIAL
    && forall i :: 0 <= i < |actions| ==> Enabled(states[i], actions[i]) && states[i + 1] == Step(states[i], actions[i])
  }

  /** The queue is what is left of the pushes, in order. */
  ghost predicate Queue(w: World) {
    && |w.queue| <= CAPACITY
    && w.left + |w.queue| == |w.pushed|
    && w.queue == w.pushed[w.left..]
    && (w.consumer.Holding? ==> w.consumer.index < w.left && w.pushed[w.consumer.index] == w.consumer.q)
  }

  /** Dispatches come in push order, each at most once, each stamped with the lifecycle of its check. */
  ghost predicate Dispatches(w: World) {
    && (forall i, j :: 0 <= i < j < |w.dispatched| ==> w.dispatched[i].index < w.dispatched[j].index)
    && (forall i :: 0 <= i < |w.dispatched| ==>
          && w.dispatched[i].index < w.left <= |w.pushed|
          && (w.consumer.Holding? ==> w.dispatched[i].index < w.consumer.index)
          && Counter.After(w.pushed[w.dispatched[i].index].born) == Counter.After(w.dispatched[i].at))
  }

  /** Stamps were read no later than the moment they are compared. */
  ghost predicate Past(w: World) {
    && (forall h :: h in w.handlers ==> w.handlers[h].q.born <= w.bumps)
    && (forall i :: 0 <= i < |w.pushed| ==> w.pushed[i].born <= w.bumps)
    && (forall i :: 0 <= i < |w.dispatched| && w.dispatched[i].index < |w.pushed| ==>
          w.pushed[w.dispatched[i].index].born <= w.dispatched[i].at <= w.bumps)
  }

  ghost predicate Inv(w: World) {
    Queue(w) && Dispatches(w) && Past(w)
  }

  lemma PushKeepsQueue(w: World, q: Queued)
    requires Queue(w) && |w.queue| < CAPACITY
    ensures Queue(Push(w, q))
  {
  }

  lemma PopKeepsQueue(w: World)
    requires Queue(w) && w.queue != []
    ensures Queue(Pop(w)) && w.pushed[w.left] == w.queue[0]
  {
  }

  lemma StepKeepsQueue(w: World, a: Action)
    requires Queue(w) && Enabled(w, a)
    ensures Queue(Step(w, a))
  {
    if w.queue != [] {
      PopKeepsQueue(w);
    }
    if a.Select? && |w.queue| < CAPACITY {
      PushKeepsQueue(w, w.handlers[a.h].q);
    }
  }

  /** The push log only grows, and nothing comes back into the queue. */
  lemma StepGrows(w: World, a: Action)
    requires Enabled(w, a)
    ensures w.left <= Step(w, a).left
    ensures Step(w, a).pushed == w.pushed
            || (a.Select? && Step(w, a).pushed == w.pushed + [w.handlers[a.h].q])
  {
  }

  lemma CheckKeepsDispatches(w: World)
    requires Queue(w) && Dispatches(w) && Enabled(w, Check)
    ensures Dispatches(Step(w, Check))
  {
  }

  lemma StepKeepsDispatches(w: World, a: Action)
    requires Queue(w) && Dispatches(w) && Enabled(w, a)
    ensures Dispatches(Step(w, a))
  {
    StepGrows(w, a);
    StepKeepsQueue(w, a);
    if a.Check? {
      CheckKeepsDispatches(w);
    }
  }

  lemma StepKeepsPast(w: World, a: Action)
    requires Queue(w) && Dispatches(w) && Past(w) && Enabled(w, a)
    ensures Past(Step(w, a))
  {
    StepGrows(w, a);
  }

  lemma {:induction false} InvInEveryRun(states: seq<World>, actions: seq<Action>, i: nat)
    requires IsRun(states, actions) && i < |states|
    ensures Inv(states[i])
  {
    if i > 0 {
      InvInEveryRun(states, actions, i - 1);
      StepKeepsQueue(states[i - 1], actions[i - 1]);
      StepKeepsDispatches(states[i - 1], actions[i - 1]);
      StepKeepsPast(states[i - 1], actions[i - 1]);
    }
  }

  // ---------- what that means ----------

  /** One sequence is obtained from the other by leaving elements out. */
  predicate Subsequence<T(==)>(a: seq<T>, b: seq<T>)
    decreases b
  {
    a == [] || (b != [] && if a[0] == b[0] then Subsequence(a[1..], b[1..]) else Subsequence(a, b[1..]))
  }

  function Events(w: World, from: nat): seq<Queued>
    requires from <= |w.dispatched|
    requires forall i :: 0 <= i < |w.dispatched| ==> w.dispatched[i].index < |w.pushed|
    decreases |w.dispatched| - from
  {
    if from == |w.dispatched| then [] else [w.pushed[w.dispatched[from].index]] + Events(w, from + 1)
  }

  lemma {:induction false} SubsequenceSkips<T>(a: seq<T>, b: seq<T>, k: nat)
    requires k <= |b| && Subsequence(a, b[k..])
    ensures Subsequence(a, b)
  {
    if k > 0 {
      assert b[1..][k - 1..] == b[k..];
      SubsequenceSkips(a, b[1..], k - 1);
      if a != [] && a[0] == b[0] {
        SubsequenceTail(a, b[1..]);
      }
    } else {
      assert b[0..] == b;
    }
  }

  lemma {:induction false} SubsequenceTail<T>(a: seq<T>, b: seq<T>)
    requires a != [] && Subsequence(a, b)
    ensures Subsequence(a[1..], b)
    decreases b
  {
    if a[0] == b[0] {
      if |a| > 1 {
        if a[1] == b[0] {
          SubsequenceTail(a[1..], b[1..]);
        }
      }
    } else {
      SubsequenceTail(a, b[1..]);
      if |a| > 1 && a[1] == b[0] {
        SubsequenceTail(a[1..], b[1..]);
      }
    }
  }

  lemma {:induction false} EventsAreSubsequence(w: World, from: nat, after: nat)
    requires Inv(w) && from <= |w.dispatched| && after <= |w.pushed|
    requires forall i :: from <= i < |w.dispatched| ==> after <= w.dispatched[i].index
    ensures Subsequence(Events(w, from), w.pushed[after..])
    decreases |w.dispatched| - from
  {
    if from < |w.dispatched| {
      var index := w.dispatched[from].index;
      EventsAreSubsequence(w, from + 1, index + 1);
      var tail := w.pushed[index..];
      assert tail[0] == w.pushed[index] && tail[1..] == w.pushed[index + 1..];
      assert Events(w, from)[1..] == Events(w, from + 1);
      assert Subsequence(Events(w, from), tail);
      assert w.pushed[after..][index - after..] == tail;
      SubsequenceSkips(Events(w, from), w.pushed[after..], index - after);
    }
  }

  /**
   In every run: at most 256 events queued, the dispatched events are a first-in
   first-out subsequence of the pushed ones, and each dispatch happened in the lifecycle
   its event was stamped in, unless the counter went round a whole number of times.
   */
  lemma QueueKeepsItsPromises(states: seq<World>, actions: seq<Action>, i: nat)
    requires IsRun(states, actions) && i < |states|
    ensures var w := states[i];
            && |w.queue| <= 256
            && (forall d :: 0 <= d < |w.dispatched| ==> w.dispatched[d].index < |w.pushed|)
            && Subsequence(Events(w, 0), w.pushed)
            && (forall d :: 0 <= d < |w.dispatched| ==>
                  var born, at := w.pushed[w.dispatched[d].index].born, w.dispatched[d].at;
                  born <= at && (born == at || (born >= 1 && (at - born) % Counter.CYCLE == 0)))
  {
    InvInEveryRun(states, actions, i);
    var w := states[i];
    EventsAreSubsequence(w, 0, 0);
    assert w.pushed[0..] == w.pushed;
    forall d | 0 <= d < |w.dispatched|
      ensures var born, at := w.pushed[w.dispatched[d].index].born, w.dispatched[d].at;
              born <= at && (born == at || (born >= 1 && (at - born) % Counter.CYCLE == 0))
    {
      Counter.SameStamp(w.pushed[w.dispatched[d].index].born, w.dispatched[d].at);
    }
  }

  // ---------- which events get in ----------

  /** Step k calls a client's handler while that client's generation is the session's. */
  predicate Accepts(states: seq<World>, actions: seq<Action>, k: nat)
    requires k < |actions| < |states|
  {
    actions[k].Relay? && actions[k].gen == states[k].clientGen
  }

  /** What that call hands over: the event, stamped with the lifecycle of that moment. */
  function Handed(states: seq<World>, actions: seq<Action>, k: nat): Queued
    requires k < |actions| < |states| && actions[k].Relay?
  {
    Queued(states[k].bumps, actions[k].event)
  }

  ghost predicate FromCurrentClient(states: seq<World>, actions: seq<Action>, i: nat, q: Queued)
    requires i <= |actions| < |states|
  {
    exists k: nat :: k < i && Accepts(states, actions, k) && q == Handed(states, actions, k)
  }

  lemma FromCurrentClientLater(states: seq<World>, actions: seq<Action>, i: nat, q: Queued)
    requires i < |actions| < |states| && FromCurrentClient(states, actions, i, q)
    ensures FromCurrentClient(states, actions, i + 1, q)
  {
    var k: nat :| k < i && Accepts(states, actions, k) && q == Handed(states, actions, k);
  }

  /** In every run, what a handler holds and what was pushed came from the client that was current at its call. */
  lemma {:induction false} OnlyCurrentClientsPush(states: seq<World>, actions: seq<Action>, i: nat)
    requires IsRun(states, actions) && i < |states|
    ensures forall h :: h in states[i].handlers ==> FromCurrentClient(states, actions, i, states[i].handlers[h].q)
    ensures forall n :: 0 <= n < |states[i].pushed| ==> FromCurrentClient(states, actions, i, states[i].pushed[n])
  {
    if i > 0 {
      var k := i - 1;
      OnlyCurrentClientsPush(states, actions, k);
      forall h | h in states[i].handlers
        ensures FromCurrentClient(states, actions, i, states[i].handlers[h].q)
      {
        if h in states[k].handlers && states[i].handlers[h].q == states[k].handlers[h].q {
          FromCurrentClientLater(states, actions, k, states[k].handlers[h].q);
        } else {
          assert Accepts(states, actions, k) && states[i].handlers[h].q == Handed(states, actions, k);
        }
      }
      forall n | 0 <= n < |states[i].pushed|
        ensures FromCurrentClient(states, actions, i, states[i].pushed[n])
      {
        StepGrows(states[k], actions[k]);
        var q := states[i].pushed[n];
        assert (n < |states[k].pushed| && q == states[k].pushed[n])
               || (actions[k].Select? && q == states[k].handlers[actions[k].h].q);
        FromCurrentClientLater(states, actions, k, q);
      }
    }
  }

  /** A select of handler h, after its call at k and before m, that found the queue full. */
  ghost predicate FoundFull(states: seq<World>, actions: seq<Action>, k: nat, m: nat, h: nat)
    requires m <= |actions| < |states|
  {
    exists n :: k < n < m && actions[n] == Select(h) && |states[n].queue| >= 256
  }

  /** Between its call and its end a handler keeps its event, and gives way only after it found the queue full. */
  lemma {:induction false} HandlerUnderway(states: seq<World>, actions: seq<Action>, k: nat, m: nat, h: nat)
    requires IsRun(states, actions) && k < m <= |actions|
    requires Accepts(states, actions, k) && actions[k].h == h
    requires forall n :: k < n <= m ==> h in states[n].handlers
    ensures states[m].handlers[h].q == Handed(states, actions, k)
    ensures !states[m].handlers[h].Pushing? ==> FoundFull(states, actions, k, m, h)
  {
    var w, a := states[m - 1], actions[m - 1];
    if m > k + 1 {
      HandlerUnderway(states, actions, k, m - 1, h);
      if !w.handlers[h].Pushing? {
        var n :| k < n < m - 1 && actions[n] == Select(h) && |states[n].queue| >= CAPACITY;
        assert FoundFull(states, actions, k, m, h);
      } else if a == Select(h) {
        assert states[m] == Step(w, a) && h in Step(w, a).handlers;
        assert |w.queue| >= CAPACITY;
      }
    }
  }

  /**
   Every event the current client hands over becomes a push when its handler ends, unless
   the queue was full at two of its selects, the last one included.
   */
  lemma HandlerFate(states: seq<World>, actions: seq<Action>, k: nat, j: nat, h: nat)
    requires IsRun(states, actions) && k < j < |actions|
    requires Enabled(states[k], actions[k]) && Accepts(states, actions, k) && actions[k].h == h
    requires forall n :: k < n <= j ==> h in states[n].handlers
    requires h !in states[j + 1].handlers
    ensures h in states[k + 1].handlers && actions[j] == Select(h)
    ensures if |states[j].queue| < 256
            then states[j + 1].pushed == states[j].pushed + [Handed(states, actions, k)]
            else states[j + 1].pushed == states[j].pushed && FoundFull(states, actions, k, j, h)
  {
    HandlerUnderway(states, actions, k, j, h);
  }

  function SelectsLeft(w: World, h: nat): nat {
    if h !in w.handlers then 0
    else match w.handlers[h]
      case Pushing(_) => 3
      case Dropping(_) => 2
      case Retrying(_) => 1
  }

  /** A handler never waits: it ends after at most three selects, and after the first if there is room. */
  lemma HandlerNeverWaits(w: World, h: nat)
    requires h in w.handlers
    ensures Enabled(w, Select(h))
    ensures SelectsLeft(Step(w, Select(h)), h) < SelectsLeft(w, h) <= 3
    ensures w.handlers[h].Pushing? && |w.queue| < CAPACITY ==> h !in Step(w, Select(h)).handlers
    ensures w.handlers[h].Dropping? && w.queue != [] ==> |Step(w, Select(h)).queue| == |w.queue| - 1
  {
  }

  /** The consumer goes on exactly while it holds an event, or waits and there is an event or the close to see. */
  lemma ConsumerGoesOn(w: World)
    ensures Enabled(w, Check) <==> w.consumer.Holding?
    ensures Enabled(w, Take(false)) <==> w.consumer.Waiting? && w.queue != []
    ensures Enabled(w, Take(true)) <==> w.consumer.Waiting? && w.closed
    ensures w.consumer.Holding? ==> Step(w, Check).consumer.Waiting?
    ensures Enabled(w, Bump) && Enabled(w, NewClient) && Enabled(w, Close)
  {
  }

  /** Any other client's handler changes nothing, and a current client's always becomes a handler of its event. */
  lemma CallIsTakenExactly(states: seq<World>, actions: seq<Action>, k: nat)
    requires IsRun(states, actions) && k < |actions| && actions[k].Relay?
    ensures Accepts(states, actions, k) <==> actions[k].h in states[k + 1].handlers
    ensures !Accepts(states, actions, k) ==> states[k + 1] == states[k]
  {
    if Accepts(states, actions, k) {
      HandlerUnderway(states, actions, k, k + 1, actions[k].h);
    }
  }

  // ---------- which events are dispatched ----------

  /** At step m the consumer rechecks push number n, and its stamp is that of the lifecycle. */
  predicate ChecksCurrent(states: seq<World>, actions: seq<Action>, m: nat, n: nat)
    requires m < |actions| < |states|
  {
    && actions[m].Check? && states[m].consumer.Holding? && states[m].consumer.index == n
    && Counter.After(states[m].consumer.q.born) == Counter.After(states[m].bumps)
  }

  ghost predicate WasChecked(states: seq<World>, actions: seq<Action>, i: nat, n: nat)
    requires i <= |actions| < |states|
  {
    exists m :: 0 <= m < i && ChecksCurrent(states, actions, m, n)
  }

  predicate WasDispatched(w: World, n: nat) {
    exists d :: 0 <= d < |w.dispatched| && w.dispatched[d].index == n
  }

  lemma WasCheckedStep(states: seq<World>, actions: seq<Action>, i: nat, n: nat)
    requires i < |actions| < |states|
    ensures WasChecked(states, actions, i + 1, n)
            <==> WasChecked(states, actions, i, n) || ChecksCurrent(states, actions, i, n)
  {
  }

  lemma DispatchedStep(w: World, a: Action, n: nat)
    requires Enabled(w, a)
    ensures WasDispatched(Step(w, a), n) <==>
            || WasDispatched(w, n)
            || (a.Check? && w.consumer.index == n && Counter.After(w.consumer.q.born) == Counter.After(w.bumps))
  {
    var v := Step(w, a);
    if WasDispatched(w, n) {
      var d :| 0 <= d < |w.dispatched| && w.dispatched[d].index == n;
      assert v.dispatched[d].index == n;
    }
    if a.Check? && w.consumer.index == n && Counter.After(w.consumer.q.born) == Counter.After(w.bumps) {
      assert v.dispatched[|w.dispatched|].index == n;
    }
  }

  /** In every run an event is dispatched if and only if the consumer took it and found its stamp current. */
  lemma {:induction false} DispatchedExactly(states: seq<World>, actions: seq<Action>, i: nat, n: nat)
    requires IsRun(states, actions) && i < |states|
    ensures WasDispatched(states[i], n) <==> WasChecked(states, actions, i, n)
  {
    if i > 0 {
      DispatchedExactly(states, actions, i - 1, n);
      DispatchedStep(states[i - 1], actions[i - 1], n);
      WasCheckedStep(states, actions, i - 1, n);
    }
  }

  /**
   Events leave the queue from the front only, one at a time: to the consumer, or dropped
   by a handler that had found the queue full.
   */
  lemma LeavesExactly(states: seq<World>, actions: seq<Action>, i: nat)
    requires IsRun(states, actions) && i < |actions|
    ensures var w, a, v := states[i], actions[i], states[i + 1];
            var taken, dropped := a == Take(false), a.Select? && w.handlers[a.h].Dropping? && w.queue != [];
            && v.left == w.left + (if taken || dropped then 1 else 0)
            && (taken ==> w.queue != [] && v.consumer == Holding(w.left, w.queue[0]))
            && (dropped ==> v.consumer == w.consumer)
            && (a == Take(true) ==> w.closed && v.consumer.Stopped?)
  {
    InvInEveryRun(states, actions, i);
    InvInEveryRun(states, actions, i + 1);
  }

  /** The session's own part: only a bump bumps, only a new client is one generation later, only a close closes. */
  lemma SessionExactly(w: World, a: Action)
    requires Enabled(w, a)
    ensures var v := Step(w, a);
            && v.bumps == w.bumps + (if a.Bump? then 1 else 0)
            && v.clientGen == (if a.NewClient? then (w.clientGen + 1) % 0x1_0000_0000_0000_0000 else w.clientGen)
            && (v.closed <==> w.closed || a.Close?)
  {
  }
}
