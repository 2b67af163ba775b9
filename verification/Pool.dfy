/**
 The worker pool of a sync: eight workers pull indices from an unbuffered channel and
 write an index-aligned result array.  What handling index i comes to is a function of
 i and of what the handling met (M), so that every schedule, and everything the relay
 and the session may answer meanwhile, is a run of this module.
 */
module Pool {
  import opened Collections

  const WORKERS: nat := 8

  datatype Slot<+T> = Empty | Filled(value: T)

  datatype World<M, +T> = World(
    next: nat,              // the next index the feeder offers
    busy: map<nat, nat>,    // worker -> the index in its hands
    results: seq<Slot<T>>,
    skipped: nat,
    handled: seq<nat>,      // indices in the order their handling ended
    met: map<nat, M>)       // what the handling of each of them met

  datatype Action<+M> = Take(worker: nat) | Finish(worker: nat, m: M)

  function Start<M, T>(n: nat): World<M, T> {
    World(0, map[], seq(n, _ => Empty), 0, [], map[])
  }

  predicate Enabled<M, T>(n: nat, w: World<M, T>, a: Action<M>) {
    match a
    case Take(worker) => worker < WORKERS && worker !in w.busy && w.next < n
    case Finish(worker, _) => worker in w.busy && w.busy[worker] < |w.results|
  }

  function Taken<M, T>(w: World<M, T>, worker: nat): World<M, T> {
    w.(busy := w.busy[worker := w.next], next := w.next + 1)
  }

  function Step<M, T>(handle: (nat, M) -> Slot<T>, n: nat, w: World<M, T>, a: Action<M>): World<M, T>
    requires Enabled(n, w, a)
  {
    match a
    case Take(worker) => Taken(w, worker)
    case Finish(worker, m) =>
      var i := w.busy[worker];
      var slot := handle(i, m);
      w.(busy := w.busy - {worker}, handled := w.handled + [i], met := w.met[i := m],
         results := if slot.Filled? then w.results[i := slot] else w.results,
         skipped := if slot.Filled? then w.skipped else w.skipped + 1)
  }

  ghost predicate IsRun<M, T>(handle: (nat, M) -> Slot<T>, n: nat, states: seq<World<M, T>>, actions: seq<Action<M>>) {
    && |states| == |actions| + 1
    && states[0] == Start(n)
    && forall i :: 0 <= i < |actions| ==>
        Enabled(n, states[i], actions[i]) && states[i + 1] == Step(handle, n, states[i], actions[i])
  }

  /** The feeder closed the channel and every worker returned. */
  predicate Joined<M, T>(n: nat, w: World<M, T>) {
    w.next == n && |w.busy| == 0
  }

  function CountFilled<T>(results: seq<Slot<T>>): nat {
    if results == [] then 0 else CountFilled(results[..|results| - 1]) + if results[|results| - 1].Filled? then 1 else 0
  }

  lemma {:induction false} FillOne<T>(results: seq<Slot<T>>, i: nat, slot: Slot<T>)
    requires i < |results| && results[i].Empty? && slot.Filled?
    ensures CountFilled(results[i := slot]) == CountFilled(results) + 1
  {
    var n := |results| - 1;
    if i == n {
      assert results[i := slot][..n] == results[..n];
    } else {
      assert results[i := slot][..n] == results[..n][i := slot];
      FillOne(results[..n], i, slot);
    }
  }

  lemma {:induction false} FillNone<T>(results: seq<Slot<T>>)
    requires forall i :: 0 <= i < |results| ==> results[i].Empty?
    ensures CountFilled(results) == 0
  {
    if results != [] {
      FillNone(results[..|results| - 1]);
    }
  }

  /** What a worker holds was offered and was not met yet. */
  ghost predicate Busy<M, T>(w: World<M, T>) {
    forall k :: k in w.busy ==> k < WORKERS && w.busy[k] < w.next && w.busy[k] !in w.met
  }

  /** No two workers hold the same index. */
  ghost predicate Apart(busy: map<nat, nat>) {
    forall j, k :: j in busy && k in busy && j != k ==> busy[j] != busy[k]
  }

  /** Every offered index is in one worker's hands or was met, never both. */
  ghost predicate Hands<M, T>(w: World<M, T>) {
    && Busy(w) && Apart(w.busy)
    && (forall i :: i in w.met ==> i < w.next)
    && |w.handled| + |w.busy| == w.next
  }

  /** The handled log lists only what was met, each index once. */
  ghost predicate Handled<M, T>(w: World<M, T>) {
    && (forall k :: 0 <= k < |w.handled| ==> w.handled[k] in w.met && w.handled[k] < w.next)
    && (forall j, k :: 0 <= j < k < |w.handled| ==> w.handled[j] != w.handled[k])
  }

  ghost predicate Results<M, T>(handle: (nat, M) -> Slot<T>, n: nat, w: World<M, T>) {
    && w.next <= n == |w.results|
    && (forall i :: i in w.met ==> i < n && w.results[i] == handle(i, w.met[i]))
    && (forall i :: 0 <= i < n && i !in w.met ==> w.results[i].Empty?)
    && CountFilled(w.results) + w.skipped == |w.handled|
  }

  lemma TakeKeepsApart(busy: map<nat, nat>, worker: nat, next: nat)
    requires Apart(busy) && worker !in busy && forall k :: k in busy ==> busy[k] < next
    ensures Apart(busy[worker := next]) && |busy[worker := next]| == |busy| + 1
  {
    var more := busy[worker := next];
    assert more.Keys == busy.Keys + {worker};
    assert |more| == |more.Keys| && |busy| == |busy.Keys|;
  }

  lemma TakeKeepsHands<M, T>(w: World<M, T>, worker: nat)
    requires Hands(w) && worker < WORKERS && worker !in w.busy
    ensures Hands(Taken(w, worker))
  {
    TakeKeepsApart(w.busy, worker, w.next);
  }

  lemma FinishKeepsHands<M, T>(handle: (nat, M) -> Slot<T>, n: nat, w: World<M, T>, worker: nat, m: M)
    requires Hands(w) && Enabled(n, w, Finish(worker, m))
    ensures Hands(Step(handle, n, w, Finish(worker, m)))
  {
    var v := Step(handle, n, w, Finish(worker, m));
    assert v.busy.Keys == w.busy.Keys - {worker};
    assert |v.busy| == |v.busy.Keys| && |w.busy| == |w.busy.Keys|;
  }

  lemma StepKeepsHandled<M, T>(handle: (nat, M) -> Slot<T>, n: nat, w: World<M, T>, a: Action<M>)
    requires Hands(w) && Handled(w) && Enabled(n, w, a)
    ensures Handled(Step(handle, n, w, a))
  {
    if a.Finish? {
      var v := Step(handle, n, w, a);
      assert v.handled[|w.handled|] == w.busy[a.worker];
    }
  }

  lemma StepKeepsResults<M, T>(handle: (nat, M) -> Slot<T>, n: nat, w: World<M, T>, a: Action<M>)
    requires Hands(w) && Results(handle, n, w) && Enabled(n, w, a)
    ensures Results(handle, n, Step(handle, n, w, a))
  {
    if a.Finish? {
      var i, v := w.busy[a.worker], Step(handle, n, w, a);
      var slot := handle(i, a.m);
      assert i !in w.met && w.results[i].Empty?;
      if slot.Filled? {
        FillOne(w.results, i, slot);
        assert v.results == w.results[i := slot];
      } else {
        assert v.results == w.results;
      }
    }
  }

  lemma {:induction false} InEveryRun<M, T>(handle: (nat, M) -> Slot<T>, n: nat, states: seq<World<M, T>>,
                                            actions: seq<Action<M>>, i: nat)
    requires IsRun(handle, n, states, actions) && i < |states|
    ensures Hands(states[i]) && Handled(states[i]) && Results(handle, n, states[i])
  {
    if i == 0 {
      FillNone(states[0].results);
    } else {
      var w, a := states[i - 1], actions[i - 1];
      InEveryRun(handle, n, states, actions, i - 1);
      match a {
        case Take(worker) => TakeKeepsHands(w, worker);
        case Finish(worker, m) => FinishKeepsHands(handle, n, w, worker, m);
      }
      StepKeepsHandled(handle, n, w, a);
      StepKeepsResults(handle, n, w, a);
    }
  }

  /** The filled slots, in index order. */
  function Collected<T>(results: seq<Slot<T>>): seq<T> {
    if results == [] then []
    else Collected(results[..|results| - 1]) + if results[|results| - 1].Filled? then [results[|results| - 1].value]
        else []
  }

  lemma {:induction false} CollectedCount<T>(results: seq<Slot<T>>)
    ensures |Collected(results)| == CountFilled(results) <= |results|
    ensures CountFilled(results) == |results| ==>
            forall i :: 0 <= i < |results| ==> results[i].Filled? && Collected(results)[i] == results[i].value
  {
    if results != [] {
      var front := results[..|results| - 1];
      CollectedCount(front);
      if CountFilled(results) == |results| {
        forall i | 0 <= i < |results|
          ensures results[i].Filled? && Collected(results)[i] == results[i].value
        {
          if i < |front| {
            assert front[i] == results[i];
          }
        }
      }
    }
  }

  lemma {:induction false} AllFilled<T>(results: seq<Slot<T>>)
    requires forall i :: 0 <= i < |results| ==> results[i].Filled?
    ensures |Collected(results)| == |results|
  {
    if results != [] {
      AllFilled(results[..|results| - 1]);
    }
  }

  /**
   Every schedule that ends has handled each index exactly once; filled slots and skips
   add up to the listing; every slot is the outcome of its own index; and without a
   skip nothing is missing.
   */
  lemma NothingLostInThePool<M, T>(handle: (nat, M) -> Slot<T>, n: nat, states: seq<World<M, T>>,
                                   actions: seq<Action<M>>)
    requires IsRun(handle, n, states, actions) && Joined(n, states[|actions|])
    ensures var w := states[|actions|];
            && |w.handled| == |w.results| == n
            && (forall i :: 0 <= i < n ==> i in w.handled && i in w.met && w.results[i] == handle(i, w.met[i]))
            && (forall j, k :: 0 <= j < k < |w.handled| ==> w.handled[j] != w.handled[k])
            && |Collected(w.results)| + w.skipped == n
            && (w.skipped == 0 ==> forall i :: 0 <= i < n ==>
                w.results[i].Filled? && Collected(w.results)[i] == w.results[i].value)
  {
    InEveryRun(handle, n, states, actions, |actions|);
    var w := states[|actions|];
    CollectedCount(w.results);
    forall i | 0 <= i < n
      ensures i in w.handled && i in w.met
    {
      Pigeonhole(w.handled, i);
    }
  }

  function Values(s: seq<nat>): set<nat> {
    set i | 0 <= i < |s| :: s[i]
  }

  lemma {:induction false} DistinctValues(s: seq<nat>)
    requires forall j, k :: 0 <= j < k < |s| ==> s[j] != s[k]
    ensures |Values(s)| == |s|
  {
    if s == [] {
      assert Values(s) == {};
    } else {
      var n := |s| - 1;
      DistinctValues(s[..n]);
      assert forall i :: 0 <= i < n ==> s[..n][i] == s[i];
      assert Values(s) == Values(s[..n]) + {s[n]};
      assert s[n] !in Values(s[..n]);
    }
  }

  lemma {:induction false} RangeCount(n: nat) returns (range: set<nat>)
    ensures |range| == n && forall i: nat :: i in range <==> i < n
  {
    if n == 0 {
      range := {};
    } else {
      var shorter := RangeCount(n - 1);
      range := shorter + {n - 1};
    }
  }

  /** n different numbers below n are all of them. */
  lemma Pigeonhole(s: seq<nat>, i: nat)
    requires i < |s| && forall k :: 0 <= k < |s| ==> s[k] < |s|
    requires forall j, k :: 0 <= j < k < |s| ==> s[j] != s[k]
    ensures i in s
  {
    DistinctValues(s);
    var range := RangeCount(|s|);
    var others := range - {i};
    assert |others| == |s| - 1;
    if i !in s {
      SubsetCount(Values(s), others);
    }
  }

  /** At no moment of any run are more than eight indices in hand, nor one index in two workers' hands. */
  lemma AtMostEightInHand<M, T>(handle: (nat, M) -> Slot<T>, n: nat, states: seq<World<M, T>>, actions: seq<Action<M>>,
                                i: nat)
    requires IsRun(handle, n, states, actions) && i < |states|
    ensures |states[i].busy| <= 8
    ensures Apart(states[i].busy)
  {
    InEveryRun(handle, n, states, actions, i);
    BoundedSet(states[i].busy.Keys, WORKERS);
  }

  lemma {:induction false} BoundedSet(keys: set<nat>, n: nat)
    requires forall k :: k in keys ==> k < n
    ensures |keys| <= n
  {
    if n == 0 {
      assert keys == {};
    } else {
      BoundedSet(keys - {n - 1}, n - 1);
    }
  }

  // ---------- schedules that there are ----------

  lemma Extend<M, T>(handle: (nat, M) -> Slot<T>, n: nat, states: seq<World<M, T>>, actions: seq<Action<M>>,
                     a: Action<M>)
    returns (states': seq<World<M, T>>, actions': seq<Action<M>>)
    requires IsRun(handle, n, states, actions) && Enabled(n, states[|actions|], a)
    ensures IsRun(handle, n, states', actions') && actions' == actions + [a]
    ensures states' == states + [Step(handle, n, states[|actions|], a)]
  {
    states', actions' := states + [Step(handle, n, states[|actions|], a)], actions + [a];
  }

  /** Whatever the handling of each index meets, there is a schedule that handles the first k, and so all of them. */
  lemma {:induction false} SomeSchedule<M, T>(handle: (nat, M) -> Slot<T>, n: nat, meets: nat -> M, k: nat)
    returns (states: seq<World<M, T>>, actions: seq<Action<M>>)
    requires k <= n
    ensures IsRun(handle, n, states, actions)
    ensures var w := states[|actions|];
            && w.next == k && w.busy == map[] && |w.results| == n
            && (forall i :: 0 <= i < k ==> i in w.met && w.met[i] == meets(i))
    ensures k == n ==> Joined(n, states[|actions|])
  {
    if k == 0 {
      states, actions := [Start(n)], [];
    } else {
      states, actions := SomeSchedule(handle, n, meets, k - 1);
      states, actions := Extend(handle, n, states, actions, Take(0));
      assert states[|actions|].busy == map[0 := k - 1];
      states, actions := Extend(handle, n, states, actions, Finish(0, meets(k - 1)));
      assert states[|actions|].busy == map[];
    }
  }

  /** With enough to do, all eight workers can be busy at once, with the first eight indices. */
  lemma {:induction false} EightAtOnce<M, T>(handle: (nat, M) -> Slot<T>, n: nat, k: nat)
    returns (states: seq<World<M, T>>, actions: seq<Action<M>>)
    requires k <= 8 && k <= n
    ensures IsRun(handle, n, states, actions)
    ensures var w := states[|actions|];
            w.next == k && (forall i: nat :: i in w.busy <==> i < k) && (forall i: nat :: i < k ==> w.busy[i] == i)
  {
    if k == 0 {
      states, actions := [Start(n)], [];
    } else {
      states, actions := EightAtOnce(handle, n, k - 1);
      states, actions := Extend(handle, n, states, actions, Take(k - 1));
    }
  }
}
