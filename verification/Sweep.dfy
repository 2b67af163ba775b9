/**
 The staging sweep: expired files go, then the oldest live ones until the directory is
 under its cap, then crash-left session temp files.  Any removal may fail.
 */
module Sweep {
  import opened Wrappers
  import Accounts
  import Collections

  const STAGED_MAX_BYTES: nat := 256 * 1024 * 1024

  datatype Info = Info(regular: bool, size: nat, modTime: int)

  /** A directory entry as ReadDir lists it; its Info call may fail. */
  datatype DirEntry = DirEntry(name: string, info: Option<Info>)

  datatype Candidate = Candidate(name: string, size: nat, modTime: int)

  predicate Regular(e: DirEntry) {
    e.info.Some? && e.info.value.regular
  }

  predicate Expired(e: DirEntry, cutoff: int) {
    Regular(e) && e.info.value.modTime < cutoff
  }

  predicate IsLive(e: DirEntry, cutoff: int) {
    Regular(e) && e.info.value.modTime >= cutoff
  }

  function Live(entries: seq<DirEntry>, cutoff: int): seq<Candidate> {
    if entries == [] then []
    else
      var e := entries[|entries| - 1];
      Live(entries[..|entries| - 1], cutoff)
      + if IsLive(e, cutoff) then [Candidate(e.name, e.info.value.size, e.info.value.modTime)] else []
  }

  function Total(files: seq<Candidate>): nat {
    if files == [] then 0 else files[0].size + Total(files[1..])
  }

  function NameOf(c: Candidate): string {
    c.name
  }

  function Names(files: seq<Candidate>): set<string> {
    Collections.Ids(NameOf, files)
  }

  /** What sort.Slice by modification time may return: it is not stable, so ties fall either way. */
  ghost predicate AgeOrder(order: seq<Candidate>, kept: seq<Candidate>) {
    && multiset(order) == multiset(kept)
    && forall i, j :: 0 <= i < j < |order| ==> order[i].modTime <= order[j].modTime
  }

  /** A directory lists a name once. */
  predicate Distinct(entries: seq<DirEntry>) {
    forall i, j :: 0 <= i < j < |entries| ==> entries[i].name != entries[j].name
  }

  ghost predicate DistinctNames(files: seq<Candidate>) {
    Collections.Distinct(NameOf, files)
  }

  /** What a removal loop looks for: an expired regular file, or one that also carries a session temp name. */
  datatype Rule = Expiry(cutoff: int) | Debris(cutoff: int)

  predicate Applies(rule: Rule, e: DirEntry) {
    Expired(e, rule.cutoff) && (rule.Debris? ==> Accounts.SessionTemp(e.name))
  }

  /** The names a removal loop gets rid of; removing a stuck name fails. */
  function Doomed(entries: seq<DirEntry>, rule: Rule, stuck: set<string>): set<string> {
    if entries == [] then {}
    else
      var e := entries[|entries| - 1];
      Doomed(entries[..|entries| - 1], rule, stuck) + if Applies(rule, e) && e.name !in stuck then {e.name} else {}
  }

  lemma {:induction false} DoomedNames(entries: seq<DirEntry>, rule: Rule, stuck: set<string>, name: string)
    ensures name in Doomed(entries, rule, stuck) <==>
            exists i :: 0 <= i < |entries| && entries[i].name == name && Applies(rule, entries[i]) && name !in stuck
  {
    if entries == [] {
    } else {
      var n := |entries| - 1;
      DoomedNames(entries[..n], rule, stuck, name);
      assert forall i :: 0 <= i < n ==> entries[..n][i] == entries[i];
      if exists i :: 0 <= i < n && entries[..n][i].name == name && Applies(rule, entries[..n][i]) && name !in stuck {
        var i :| 0 <= i < n && entries[..n][i].name == name && Applies(rule, entries[..n][i]) && name !in stuck;
        assert entries[i].name == name && Applies(rule, entries[i]);
      }
    }
  }

  /** The live files the cap loop removes, oldest first. */
  function Evicted(order: seq<Candidate>, total: int, stuck: set<string>): seq<Candidate> {
    if order == [] || total <= STAGED_MAX_BYTES then []
    else if order[0].name !in stuck then [order[0]] + Evicted(order[1..], total - order[0].size, stuck)
    else Evicted(order[1..], total, stuck)
  }

  /** What is left of a sorted listing once some of it was removed. */
  function Survivors(order: seq<Candidate>, gone: set<string>): seq<Candidate> {
    if order == [] then []
    else (if order[0].name in gone then [] else [order[0]]) + Survivors(order[1..], gone)
  }

  class Directory {
    var names: set<string>

    method Remove(name: string, stuck: set<string>) returns (ok: bool)
      modifies this
      ensures ok == (name !in stuck)
      ensures names == if ok then old(names) - {name} else old(names)
    {
      ok := name !in stuck;
      if ok {
        names := names - {name};
      }
    }
  }

  /** One entry of a removal loop. */
  lemma DoomedStep(entries: seq<DirEntry>, rule: Rule, stuck: set<string>, i: nat)
    requires i < |entries| && Distinct(entries)
    ensures entries[i].name !in Doomed(entries[..i], rule, stuck)
    ensures Doomed(entries[..i + 1], rule, stuck) ==
            Doomed(entries[..i], rule, stuck) + if Applies(rule, entries[i]) && entries[i].name !in stuck
                then {entries[i].name} else {}
  {
    DoomedNames(entries[..i], rule, stuck, entries[i].name);
    assert entries[..i + 1][..i] == entries[..i];
  }

  lemma LiveStep(entries: seq<DirEntry>, cutoff: int, i: nat)
    requires i < |entries|
    ensures var e := entries[i];
            Live(entries[..i + 1], cutoff) ==
            Live(entries[..i], cutoff) + if IsLive(e, cutoff)
                then [Candidate(e.name, e.info.value.size, e.info.value.modTime)] else []
  {
    assert entries[..i + 1][..i] == entries[..i];
  }

  /** The first loop: expired files are removed, live ones are candidates with a running total. */
  method RemoveExpired(dir: Directory, entries: seq<DirEntry>, cutoff: int, stuck: set<string>)
    returns (removed: nat, kept: seq<Candidate>, total: nat)
    requires Distinct(entries)
    modifies dir
    ensures var gone := Doomed(entries, Expiry(cutoff), stuck);
            dir.names == old(dir.names) - gone && removed == |gone|
    ensures kept == Live(entries, cutoff) && total == Total(kept)
  {
    removed, kept, total := 0, [], 0;
    ghost var gone: set<string> := {};
    for i := 0 to |entries|
      invariant gone == Doomed(entries[..i], Expiry(cutoff), stuck)
      invariant dir.names == old(dir.names) - gone && removed == |gone|
      invariant kept == Live(entries[..i], cutoff) && total == Total(kept)
    {
      var e := entries[i];
      DoomedStep(entries, Expiry(cutoff), stuck, i);
      LiveStep(entries, cutoff, i);
      if e.info.None? {
        continue;
      }
      if !e.info.value.regular {
        continue;
      }
      if e.info.value.modTime < cutoff {
        var ok := dir.Remove(e.name, stuck);
        if ok {
          gone := gone + {e.name};
          removed := removed + 1;
        }
        continue;
      }
      var live := Candidate(e.name, e.info.value.size, e.info.value.modTime);
      TotalAppend(kept, live);
      kept := kept + [live];
      total := total + e.info.value.size;
    }
    assert entries[..|entries|] == entries;
  }

  lemma {:induction false} TotalAppend(files: seq<Candidate>, c: Candidate)
    ensures Total(files + [c]) == Total(files) + c.size
  {
    if files != [] {
      assert (files + [c])[1..] == files[1..] + [c];
      TotalAppend(files[1..], c);
    }
  }

  lemma {:induction false} SurvivorsIgnore(order: seq<Candidate>, gone: set<string>, name: string)
    requires name !in Names(order)
    ensures Survivors(order, gone + {name}) == Survivors(order, gone)
  {
    if order != [] {
      NamesCons(order);
      SurvivorsIgnore(order[1..], gone, name);
    }
  }

  lemma NamesCons(order: seq<Candidate>)
    requires order != []
    ensures Names(order) == {order[0].name} + Names(order[1..])
  {
    Collections.IdsCons(NameOf, order[0], order[1..]);
    assert order == [order[0]] + order[1..];
  }

  lemma {:induction false} EvictedNames(order: seq<Candidate>, total: int, stuck: set<string>)
    ensures Names(Evicted(order, total, stuck)) <= Names(order)
    decreases order
  {
    var gone := Evicted(order, total, stuck);
    if order != [] && total > STAGED_MAX_BYTES {
      NamesCons(order);
      if order[0].name !in stuck {
        EvictedNames(order[1..], total - order[0].size, stuck);
        NamesCons(gone);
        assert gone[1..] == Evicted(order[1..], total - order[0].size, stuck);
      } else {
        EvictedNames(order[1..], total, stuck);
      }
    }
  }

  lemma {:induction false} SurvivorsOfNothing(order: seq<Candidate>)
    ensures Survivors(order, {}) == order
  {
    if order != [] {
      SurvivorsOfNothing(order[1..]);
    }
  }

  /** Whichever removals fail, the bytes that survive are the total without the bytes removed. */
  lemma {:induction false} SurvivingBytes(order: seq<Candidate>, total: int, stuck: set<string>)
    requires DistinctNames(order)
    ensures var gone := Evicted(order, total, stuck);
            Total(Survivors(order, Names(gone))) == Total(order) - Total(gone)
    decreases order
  {
    var gone := Evicted(order, total, stuck);
    if order == [] || total <= STAGED_MAX_BYTES {
      assert Names(gone) == {};
      SurvivorsOfNothing(order);
    } else {
      var first, rest := order[0], order[1..];
      FirstIsNoOther(order);
      if first.name !in stuck {
        var later := Evicted(rest, total - first.size, stuck);
        SurvivingBytes(rest, total - first.size, stuck);
        assert gone[1..] == later;
        NamesCons(gone);
        assert Names(gone) == Names(later) + {first.name};
        SurvivorsIgnore(rest, Names(later), first.name);
        assert Survivors(order, Names(gone)) == Survivors(rest, Names(later));
      } else {
        SurvivingBytes(rest, total, stuck);
        EvictedNames(rest, total, stuck);
        assert Survivors(order, Names(gone)) == [first] + Survivors(rest, Names(gone));
        assert ([first] + Survivors(rest, Names(gone)))[1..] == Survivors(rest, Names(gone));
      }
    }
  }

  lemma FirstIsNoOther(order: seq<Candidate>)
    requires DistinctNames(order) && order != []
    ensures DistinctNames(order[1..]) && order[0].name !in Names(order[1..])
  {
    assert forall i :: 0 <= i < |order[1..]| ==> order[1..][i] == order[i + 1];
  }

  lemma {:induction false} LiveDistinct(entries: seq<DirEntry>, cutoff: int)
    requires Distinct(entries)
    ensures DistinctNames(Live(entries, cutoff))
  {
    if entries != [] {
      var n := |entries| - 1;
      LiveDistinct(entries[..n], cutoff);
      forall c | c in Live(entries[..n], cutoff)
        ensures c.name != entries[n].name
      {
        var i := LiveIsListed(entries[..n], cutoff, c);
      }
    }
  }

  /** The second loop: oldest first, until the running total is under the cap. */
  method Enforce(dir: Directory, order: seq<Candidate>, total: int, stuck: set<string>)
    returns (removed: nat, left: int)
    requires total == Total(order) && DistinctNames(order)
    modifies dir
    ensures var gone := Evicted(order, total, stuck);
            && dir.names == old(dir.names) - Names(gone)
            && removed == |gone| && left == Total(Survivors(order, Names(gone)))
  {
    removed, left := 0, total;
    ghost var gone: seq<Candidate> := [];
    for i := 0 to |order|
      invariant gone + Evicted(order[i..], left, stuck) == Evicted(order, total, stuck)
      invariant removed == |gone| && left == total - Total(gone)
      invariant dir.names == old(dir.names) - Names(gone)
    {
      if left <= STAGED_MAX_BYTES {
        assert gone + [] == gone;
        break;
      }
      EvictedStep(gone, order, i, left, stuck);
      var ok := dir.Remove(order[i].name, stuck);
      if ok {
        TotalAppend(gone, order[i]);
        Collections.IdsAppend(NameOf, gone, order[i]);
        gone, removed, left := gone + [order[i]], removed + 1, left - order[i].size;
      }
    }
    assert gone + [] == gone;
    SurvivingBytes(order, total, stuck);
  }

  lemma EvictedStep(gone: seq<Candidate>, order: seq<Candidate>, i: nat, total: int, stuck: set<string>)
    requires i < |order| && total > STAGED_MAX_BYTES
    ensures gone + Evicted(order[i..], total, stuck) ==
            if order[i].name !in stuck
            then gone + [order[i]] + Evicted(order[i + 1..], total - order[i].size, stuck)
            else gone + Evicted(order[i + 1..], total, stuck)
  {
    assert order[i..][0] == order[i] && order[i..][1..] == order[i + 1..];
    if order[i].name !in stuck {
      var later := Evicted(order[i + 1..], total - order[i].size, stuck);
      assert gone + ([order[i]] + later) == gone + [order[i]] + later;
    }
  }

  /** The third loop: crash-left temp files of the session directory. */
  method RemoveDebris(dir: Directory, entries: seq<DirEntry>, cutoff: int, stuck: set<string>) returns (removed: nat)
    requires Distinct(entries)
    modifies dir
    ensures var gone := Doomed(entries, Debris(cutoff), stuck);
            dir.names == old(dir.names) - gone && removed == |gone|
  {
    removed := 0;
    for i := 0 to |entries|
      invariant dir.names == old(dir.names) - Doomed(entries[..i], Debris(cutoff), stuck)
      invariant removed == |Doomed(entries[..i], Debris(cutoff), stuck)|
    {
      var e := entries[i];
      DoomedStep(entries, Debris(cutoff), stuck, i);
      if !Accounts.SessionTemp(e.name) {
        continue;
      }
      if e.info.None? || !e.info.value.regular || e.info.value.modTime >= cutoff {
        continue;
      }
      var ok := dir.Remove(e.name, stuck);
      if ok {
        removed := removed + 1;
      }
    }
    assert entries[..|entries|] == entries;
  }

  function DebrisOf(list: Option<seq<DirEntry>>, cutoff: int, stuck: set<string>): set<string> {
    if list.Some? then Doomed(list.value, Debris(cutoff), stuck) else {}
  }

  /** The two loops over the staging directory; `order` is what the sort returned. */
  method SweepDirectory(staged: Directory, entries: seq<DirEntry>, cutoff: int, stuck: set<string>,
                        order: seq<Candidate>) returns (removed: nat)
    requires Distinct(entries) && AgeOrder(order, Live(entries, cutoff))
    modifies staged
    ensures staged.names ==
            old(staged.names) - Doomed(entries, Expiry(cutoff), stuck) - Names(Evicted(order, Total(order), stuck))
    ensures removed == |Doomed(entries, Expiry(cutoff), stuck)| + |Evicted(order, Total(order), stuck)|
  {
    var gone, kept, total := RemoveExpired(staged, entries, cutoff, stuck);
    TotalOfPermutation(order, kept);
    LiveDistinct(entries, cutoff);
    Collections.DistinctOfPermutation(NameOf, order, kept);
    var evicted, left := Enforce(staged, order, total, stuck);
    removed := gone + evicted;
  }

  /** The loop over the store directory, whose listing may fail. */
  method SweepStore(store: Directory, list: Option<seq<DirEntry>>, cutoff: int, stuck: set<string>)
    returns (removed: nat)
    requires list.Some? ==> Distinct(list.value)
    modifies store
    ensures store.names == old(store.names) - DebrisOf(list, cutoff, stuck)
    ensures removed == |DebrisOf(list, cutoff, stuck)|
  {
    if list.None? {
      return 0;
    }
    removed := RemoveDebris(store, list.value, cutoff, stuck);
  }

  /** SweepStaged; either listing may fail. */
  method SweepStaged(staged: Directory, store: Directory, stagedList: Option<seq<DirEntry>>,
                     storeList: Option<seq<DirEntry>>, cutoff: int, tmpCutoff: int, stuck: set<string>,
                     order: seq<Candidate>)
    returns (removed: Result<nat>)
    requires staged != store
    requires stagedList.Some? ==> Distinct(stagedList.value) && AgeOrder(order, Live(stagedList.value, cutoff))
    requires storeList.Some? ==> Distinct(storeList.value)
    modifies staged, store
    ensures stagedList.None? ==> removed.Err? && staged.names == old(staged.names) && store.names == old(store.names)
    ensures stagedList.Some? ==> staged.names == old(staged.names) - Doomed(stagedList.value, Expiry(cutoff), stuck)
                                                                   - Names(Evicted(order, Total(order), stuck))
    ensures stagedList.Some? ==> store.names == old(store.names) - DebrisOf(storeList, tmpCutoff, stuck)
    ensures stagedList.Some? ==>
              removed == Ok(|Doomed(stagedList.value, Expiry(cutoff), stuck)| + |Evicted(order, Total(order), stuck)|
                            + |DebrisOf(storeList, tmpCutoff, stuck)|)
  {
    if stagedList.None? {
      return Err("read directory");
    }
    var gone := SweepDirectory(staged, stagedList.value, cutoff, stuck, order);
    var debris := SweepStore(store, storeList, tmpCutoff, stuck);
    removed := Ok(gone + debris);
  }

  lemma {:induction false} TotalOfPermutation(a: seq<Candidate>, b: seq<Candidate>)
    requires multiset(a) == multiset(b)
    ensures Total(a) == Total(b)
  {
    if a == [] {
      assert |multiset(b)| == 0;
    } else {
      assert a[0] in multiset(b);
      var front, back := Collections.Pick(b, a[0]);
      assert a == [a[0]] + a[1..];
      TotalOfPermutation(a[1..], front + back);
      TotalConcat(front, back);
      TotalConcat(front + [a[0]], back);
      TotalConcat(front, [a[0]]);
    }
  }

  lemma {:induction false} TotalConcat(a: seq<Candidate>, b: seq<Candidate>)
    ensures Total(a + b) == Total(a) + Total(b)
  {
    if a == [] {
      assert a + b == b;
    } else {
      assert (a + b)[1..] == a[1..] + b;
      TotalConcat(a[1..], b);
    }
  }

  // ---------- what the sweep achieves ----------

  lemma TailOfTail(order: seq<Candidate>, j: nat)
    requires 0 < j <= |order|
    ensures order[1..][j - 1..] == order[j..] && order[0..] == order
  {
  }

  /**
   When removals succeed, the files evicted are the shortest oldest-first prefix that brings the
   rest under the cap.
   */
  lemma {:induction false} EvictsShortestPrefix(order: seq<Candidate>, stuck: set<string>)
    requires forall i :: 0 <= i < |order| ==> order[i].name !in stuck
    ensures var k := |Evicted(order, Total(order), stuck)|;
            && k <= |order| && Evicted(order, Total(order), stuck) == order[..k]
            && Total(order[k..]) <= 268435456
            && (forall j :: 0 <= j < k ==> Total(order[j..]) > 268435456)
  {
    var gone := Evicted(order, Total(order), stuck);
    if order != [] && Total(order) > STAGED_MAX_BYTES {
      EvictsShortestPrefix(order[1..], stuck);
      var k := |gone|;
      assert gone == [order[0]] + order[1..][..k - 1];
      TailOfTail(order, k);
      forall j | 0 <= j < k
        ensures Total(order[j..]) > STAGED_MAX_BYTES
      {
        if j > 0 {
          TailOfTail(order, j);
        }
      }
    } else {
      assert order[0..] == order;
    }
  }

  /**
   When removals fail, every removal still happened above the cap, and ending above it means
   every survivor refused to go.
   */
  lemma {:induction false} EvictsOnlyAboveCap(order: seq<Candidate>, total: int, stuck: set<string>)
    ensures var gone := Evicted(order, total, stuck);
            && (forall i :: 0 <= i < |gone| ==> total - Total(gone[..i]) > 268435456 && gone[i].name !in stuck)
            && (total - Total(gone) > 268435456 ==> forall c :: c in order ==> c in gone || c.name in stuck)
    decreases order
  {
    var gone := Evicted(order, total, stuck);
    if order != [] && total > STAGED_MAX_BYTES {
      assert forall c :: c in order ==> c == order[0] || c in order[1..];
      if order[0].name !in stuck {
        var rest := Evicted(order[1..], total - order[0].size, stuck);
        EvictsOnlyAboveCap(order[1..], total - order[0].size, stuck);
        assert gone == [order[0]] + rest && gone[1..] == rest;
        forall i | 0 <= i < |gone|
          ensures total - Total(gone[..i]) > STAGED_MAX_BYTES && gone[i].name !in stuck
        {
          if i > 0 {
            assert gone[..i][1..] == rest[..i - 1] && gone[i] == rest[i - 1];
          }
        }
      } else {
        EvictsOnlyAboveCap(order[1..], total, stuck);
      }
    }
  }

  /** Entries that are not regular files, or whose Info failed, are never touched by name. */
  lemma OnlyRegularFilesGo(entries: seq<DirEntry>, cutoff: int, stuck: set<string>, order: seq<Candidate>, k: nat)
    requires AgeOrder(order, Live(entries, cutoff)) && Distinct(entries)
    requires k < |entries| && !Regular(entries[k])
    ensures entries[k].name !in Doomed(entries, Expiry(cutoff), stuck)
    ensures entries[k].name !in Names(Evicted(order, Total(order), stuck))
  {
    DoomedNames(entries, Expiry(cutoff), stuck, entries[k].name);
    if entries[k].name in Names(Evicted(order, Total(order), stuck)) {
      var c := EvictedAreListed(entries, cutoff, stuck, order, entries[k].name);
    }
  }

  lemma EvictedAreListed(entries: seq<DirEntry>, cutoff: int, stuck: set<string>, order: seq<Candidate>, name: string)
    returns (i: nat)
    requires AgeOrder(order, Live(entries, cutoff))
    requires name in Names(Evicted(order, Total(order), stuck))
    ensures i < |entries| && entries[i].name == name && IsLive(entries[i], cutoff)
  {
    var gone := Evicted(order, Total(order), stuck);
    var j :| 0 <= j < |gone| && gone[j].name == name;
    EvictedInOrder(order, Total(order), stuck, gone[j]);
    assert gone[j] in multiset(order);
    i := LiveIsListed(entries, cutoff, gone[j]);
  }

  lemma {:induction false} EvictedInOrder(order: seq<Candidate>, total: int, stuck: set<string>, c: Candidate)
    requires c in Evicted(order, total, stuck)
    ensures c in order
    decreases order
  {
    if order[0].name !in stuck {
      if c != order[0] {
        EvictedInOrder(order[1..], total - order[0].size, stuck, c);
      }
    } else {
      EvictedInOrder(order[1..], total, stuck, c);
    }
  }

  lemma {:induction false} LiveIsListed(entries: seq<DirEntry>, cutoff: int, c: Candidate) returns (i: nat)
    requires c in Live(entries, cutoff)
    ensures i < |entries| && entries[i].name == c.name && IsLive(entries[i], cutoff)
  {
    var n := |entries| - 1;
    if c in Live(entries[..n], cutoff) {
      i := LiveIsListed(entries[..n], cutoff, c);
    } else {
      i := n;
    }
  }

  lemma SurvivorsOfPrefix(order: seq<Candidate>, k: nat)
    requires k <= |order| && DistinctNames(order)
    ensures Survivors(order, Names(order[..k])) == order[k..] && order == order[..k] + order[k..]
    ensures k > 0 ==> [order[..k][k - 1]] + order[k..] == order[k - 1..]
  {
    SurvivorsSplit(order, k, Names(order[..k]), 0);
    CutAt(order, k);
  }

  lemma CutAt(order: seq<Candidate>, k: nat)
    requires k <= |order|
    ensures order[0..] == order == order[..k] + order[k..]
    ensures k > 0 ==> [order[..k][k - 1]] + order[k..] == order[k - 1..]
  {
  }

  lemma {:induction false} SurvivorsSplit(order: seq<Candidate>, k: nat, gone: set<string>, from: nat)
    requires from <= |order| && k <= |order| && gone == Names(order[..k])
    requires DistinctNames(order)
    ensures Survivors(order[from..], gone) == order[if from < k then k else from..]
    decreases |order| - from
  {
    if from < |order| {
      assert order[from..][1..] == order[from + 1..];
      PrefixNames(order, k, from);
      SurvivorsSplit(order, k, gone, from + 1);
    }
  }

  lemma PrefixNames(order: seq<Candidate>, k: nat, i: nat)
    requires k <= |order| && i < |order|
    requires DistinctNames(order)
    ensures order[i].name in Names(order[..k]) <==> i < k
  {
    if i < k {
      assert order[..k][i] == order[i];
    } else {
      assert forall j :: 0 <= j < k ==> order[..k][j] == order[j];
    }
  }

  /**
   With successful removals the live files that survive are the newest ones, at most the
   cap in total, and the last one to go went only because it and they were above it.
   */
  lemma SurvivorsFitTheCap(order: seq<Candidate>, stuck: set<string>)
    requires DistinctNames(order)
    requires forall i :: 0 <= i < |order| ==> order[i].name !in stuck
    ensures var gone := Evicted(order, Total(order), stuck);
            var rest := Survivors(order, Names(gone));
            && order == gone + rest && Total(rest) <= 268435456
            && (gone != [] ==> Total([gone[|gone| - 1]] + rest) > 268435456)
  {
    EvictsShortestPrefix(order, stuck);
    SurvivorsOfPrefix(order, |Evicted(order, Total(order), stuck)|);
  }

  /** With successful removals no expired regular file survives. */
  lemma NothingExpiredSurvives(names: set<string>, entries: seq<DirEntry>, cutoff: int, stuck: set<string>, i: nat)
    requires i < |entries| && Expired(entries[i], cutoff)
    ensures entries[i].name !in names - Doomed(entries, Expiry(cutoff), stuck)
            <==> entries[i].name !in names || entries[i].name !in stuck
  {
    assert Applies(Expiry(cutoff), entries[i]);
    DoomedNames(entries, Expiry(cutoff), stuck, entries[i].name);
  }

  // ---------- name by name ----------

  /** An entry that is a regular file of this age. */
  predicate FileOlderThan(e: DirEntry, cutoff: int) {
    e.info.Some? && e.info.value.regular && e.info.value.modTime < cutoff
  }

  predicate FileSince(e: DirEntry, cutoff: int) {
    e.info.Some? && e.info.value.regular && e.info.value.modTime >= cutoff
  }

  /** The live files are the regular ones modified since the cutoff, with their sizes and times. */
  lemma {:induction false} LiveExactly(entries: seq<DirEntry>, cutoff: int, c: Candidate)
    ensures c in Live(entries, cutoff) <==> exists i ::
              && 0 <= i < |entries| && FileSince(entries[i], cutoff)
              && c == Candidate(entries[i].name, entries[i].info.value.size, entries[i].info.value.modTime)
  {
    if entries != [] {
      var n := |entries| - 1;
      var e := entries[n];
      LiveExactly(entries[..n], cutoff, c);
      assert forall i :: 0 <= i < n ==> entries[..n][i] == entries[i];
      if FileSince(e, cutoff) && c == Candidate(e.name, e.info.value.size, e.info.value.modTime) {
        assert c in Live(entries, cutoff);
      }
    }
  }

  /**
   Of the staging directory: what is not a regular file stays; a regular file older than the
   cutoff goes if it can be removed; a younger one goes exactly if the cap loop evicted it.
   */
  lemma StagedExactly(names: set<string>, entries: seq<DirEntry>, cutoff: int, stuck: set<string>,
                      order: seq<Candidate>, i: nat)
    requires Distinct(entries) && AgeOrder(order, Live(entries, cutoff)) && i < |entries| && entries[i].name in names
    ensures var e, evicted := entries[i], Evicted(order, Total(order), stuck);
            var left := names - Doomed(entries, Expiry(cutoff), stuck) - Names(evicted);
            if FileOlderThan(e, cutoff) then e.name !in left <==> e.name !in stuck
            else if FileSince(e, cutoff) then
              e.name !in left <==> Candidate(e.name, e.info.value.size, e.info.value.modTime) in evicted
            else e.name in left
  {
    var e, evicted := entries[i], Evicted(order, Total(order), stuck);
    DoomedNames(entries, Expiry(cutoff), stuck, e.name);
    EvictedAreLive(entries, cutoff, stuck, order, i);
  }

  /** An evicted name is that of one live entry. */
  lemma EvictedAreLive(entries: seq<DirEntry>, cutoff: int, stuck: set<string>, order: seq<Candidate>, i: nat)
    requires Distinct(entries) && AgeOrder(order, Live(entries, cutoff)) && i < |entries|
    ensures var e, evicted := entries[i], Evicted(order, Total(order), stuck);
            e.name in Names(evicted) <==>
              && FileSince(e, cutoff)
              && Candidate(e.name, e.info.value.size, e.info.value.modTime) in evicted
  {
    var e, evicted := entries[i], Evicted(order, Total(order), stuck);
    if e.name in Names(evicted) {
      var k :| 0 <= k < |evicted| && NameOf(evicted[k]) == e.name;
      var c := evicted[k];
      EvictedFrom(order, Total(order), stuck, c);
      assert c in multiset(order) && c in multiset(Live(entries, cutoff));
      LiveExactly(entries, cutoff, c);
    }
    if FileSince(e, cutoff) {
      var c := Candidate(e.name, e.info.value.size, e.info.value.modTime);
      if c in evicted {
        var k :| 0 <= k < |evicted| && evicted[k] == c;
        assert NameOf(evicted[k]) == e.name;
      }
    }
  }

  lemma {:induction false} EvictedFrom(order: seq<Candidate>, total: int, stuck: set<string>, c: Candidate)
    requires c in Evicted(order, total, stuck)
    ensures c in order
    decreases order
  {
    if order[0].name !in stuck {
      if c != order[0] {
        EvictedFrom(order[1..], total - order[0].size, stuck, c);
      }
    } else {
      EvictedFrom(order[1..], total, stuck, c);
    }
  }

  /** Of the store directory exactly the old regular files with a session temp name go, if they can be removed. */
  lemma DebrisExactly(list: Option<seq<DirEntry>>, cutoff: int, stuck: set<string>, name: string)
    ensures name in DebrisOf(list, cutoff, stuck) <==>
              && list.Some? && name !in stuck && (exists middle :: name == ".session-" + middle + ".tmp")
              && exists i :: 0 <= i < |list.value| && list.value[i].name == name && FileOlderThan(list.value[i], cutoff)
  {
    if list.Some? {
      DoomedNames(list.value, Debris(cutoff), stuck, name);
      Accounts.TempExactly(name);
      assert forall e :: FileOlderThan(e, cutoff) <==> Expired(e, cutoff);
    }
  }
}
