/**
 Listing the whole inbox, a page at a time.  The relay is an oracle: for every call
 number and cursor it answers with some page or fails.
 */
module Paging {
  import opened Wrappers
  import opened Collections

  const PAGE_SIZE: nat := 200
  const MAX_PAGES: nat := 10

  /** A page; `next` is the relay's cursor, absent or with an empty item id when there is none. */
  datatype Page<+T> = Page(items: seq<T>, next: Option<string>)

  /**
   What one listing can meet: the answer to each list call, whether re-arming works, and before
   which pages the session retires.
   */
  datatype Relay<!T> = Relay(list: (nat, Option<string>) -> Option<Page<T>>, rearm: bool, retired: nat -> bool)

  datatype Listing<+T> = Listing(items: seq<T>, capped: bool)

  predicate More<T>(p: Page<T>) {
    |p.items| >= PAGE_SIZE && p.next.Some? && p.next.value != ""
  }

  /** Items with a non-empty id that was not seen before, in order. */
  function Fresh<T>(id: T -> string, seen: set<string>, items: seq<T>): seq<T>
    decreases items
  {
    if items == [] then []
    else if id(items[0]) == "" || id(items[0]) in seen then Fresh(id, seen, items[1..])
    else [items[0]] + Fresh(id, seen + {id(items[0])}, items[1..])
  }

  function Flatten<T>(pages: seq<Page<T>>): seq<T> {
    if pages == [] then [] else Flatten(pages[..|pages| - 1]) + pages[|pages| - 1].items
  }

  /** The cursor page k is asked with. */
  function Asked<T>(pages: seq<Page<T>>, k: nat): Option<string>
    requires k <= |pages|
  {
    if k == 0 then None else pages[k - 1].next
  }

  /** Consecutive calls returned these pages, each asked with the cursor of the one before. */
  ghost predicate Fetched<T(!new)>(r: Relay<T>, pages: seq<Page<T>>, firstCall: nat) {
    forall k {:trigger Asked(pages, k)} :: 0 <= k < |pages| ==> r.list(firstCall + k, Asked(pages, k)) == Some(pages[k])
  }

  /** The pages one listing collected: all but the last promised another. */
  ghost predicate Collected<T(!new)>(r: Relay<T>, pages: seq<Page<T>>, calls: nat) {
    && 1 <= |pages| <= MAX_PAGES
    && (if calls == |pages| then Fetched(r, pages, 0)
        else calls == |pages| + 1 && r.list(0, None).None? && r.rearm && Fetched(r, pages, 1))
    && (forall k :: 0 <= k < |pages| ==> !r.retired(k))
    && (forall k :: 0 <= k < |pages| - 1 ==> More(pages[k]))
  }

  lemma {:induction false} FreshAppend<T>(id: T -> string, seen: set<string>, a: seq<T>, x: T)
    ensures Fresh(id, seen, a + [x]) ==
            Fresh(id, seen, a) + if id(x) == "" || id(x) in seen + Ids(id, Fresh(id, seen, a)) then [] else [x]
    decreases a
  {
    if a == [] {
      assert a + [x] == [x];
    } else {
      assert (a + [x])[1..] == a[1..] + [x];
      if id(a[0]) == "" || id(a[0]) in seen {
        FreshAppend(id, seen, a[1..], x);
      } else {
        FreshAppend(id, seen + {id(a[0])}, a[1..], x);
        var rest := Fresh(id, seen + {id(a[0])}, a[1..]);
        IdsCons(id, a[0], rest);
      }
    }
  }

  // ---------- first occurrences ----------

  /** Position k is the first with its id, and the id is not empty. */
  predicate FirstAt<T>(id: T -> string, items: seq<T>, k: nat)
    requires k < |items|
  {
    id(items[k]) != "" && forall j :: 0 <= j < k ==> id(items[j]) != id(items[k])
  }

  /**
   The kept items are those at positions `at`: increasing, all of them first occurrences, and
   every first occurrence among them.
   */
  ghost predicate Selects<T>(id: T -> string, items: seq<T>, kept: seq<T>, at: seq<nat>) {
    && |at| == |kept|
    && (forall i :: 0 <= i < |at| ==> at[i] < |items| && kept[i] == items[at[i]] && FirstAt(id, items, at[i]))
    && (forall i, j :: 0 <= i < j < |at| ==> at[i] < at[j])
    && (forall k :: 0 <= k < |items| && FirstAt(id, items, k) ==> k in at)
  }

  /** First-occurrence dedupe: every non-empty id once, by its first item, in order. */
  ghost predicate IsDedupe<T>(id: T -> string, items: seq<T>, kept: seq<T>) {
    (exists at :: Selects(id, items, kept, at)) && DistinctIds(id, kept)
  }

  ghost predicate DistinctIds<T>(id: T -> string, items: seq<T>) {
    (forall i :: 0 <= i < |items| ==> id(items[i]) != "") && Distinct(id, items)
  }

  lemma SelectsAppend<T>(id: T -> string, items: seq<T>, kept: seq<T>, at: seq<nat>, x: T)
    requires Selects(id, items, kept, at)
    ensures if FirstAt(id, items + [x], |items|) then Selects(id, items + [x], kept + [x], at + [|items|])
            else Selects(id, items + [x], kept, at)
  {
    var longer := items + [x];
    assert longer[|items|] == x && forall k :: 0 <= k < |items| ==> longer[k] == items[k];
    forall k | 0 <= k < |items|
      ensures FirstAt(id, longer, k) <==> FirstAt(id, items, k)
    {
    }
    assert forall k :: k in at ==> k in at + [|items|];
    assert (at + [|items|])[|at|] == |items|;
  }

  /** An id is among the kept ones exactly when it is not empty and occurs. */
  lemma SelectedIds<T>(id: T -> string, items: seq<T>, kept: seq<T>, at: seq<nat>, k: nat)
    requires Selects(id, items, kept, at) && k < |items| && id(items[k]) != ""
    ensures id(items[k]) in Ids(id, kept)
    decreases k
  {
    if FirstAt(id, items, k) {
      var i :| 0 <= i < |at| && at[i] == k;
      assert kept[i] == items[k];
    } else {
      var j :| 0 <= j < k && id(items[j]) == id(items[k]);
      SelectedIds(id, items, kept, at, j);
    }
  }

  lemma {:induction false} FreshSelects<T>(id: T -> string, items: seq<T>) returns (at: seq<nat>)
    ensures Selects(id, items, Fresh(id, {}, items), at)
    decreases items
  {
    at := [];
    if items != [] {
      var front, x := items[..|items| - 1], items[|items| - 1];
      assert items == front + [x];
      var before := FreshSelects(id, front);
      var kept := Fresh(id, {}, front);
      FreshAppend(id, {}, front, x);
      SelectsAppend(id, front, kept, before, x);
      if id(x) != "" && FirstAt(id, items, |front|) {
        assert id(x) !in Ids(id, kept);
        at := before + [|front|];
      } else {
        if id(x) != "" {
          var j :| 0 <= j < |front| && id(items[j]) == id(x);
          SelectedIds(id, front, kept, before, j);
        }
        at := before;
      }
    }
  }

  /** What the loop computes is the first-occurrence dedupe. */
  lemma FreshIsDedupe<T>(id: T -> string, items: seq<T>)
    ensures IsDedupe(id, items, Fresh(id, {}, items))
  {
    var kept := Fresh(id, {}, items);
    var at := FreshSelects(id, items);
    forall i, j | 0 <= i < j < |kept|
      ensures id(kept[i]) != id(kept[j])
    {
      assert at[i] < at[j] && FirstAt(id, items, at[j]);
    }
    assert forall i :: 0 <= i < |kept| ==> FirstAt(id, items, at[i]);
  }

  /** The inner loop: a page is appended without the ids already listed. */
  method AppendPage<T>(id: T -> string, ghost before: seq<T>, all: seq<T>, seen: set<string>, items: seq<T>)
    returns (all': seq<T>, seen': set<string>)
    requires all == Fresh(id, {}, before) && seen == Ids(id, all)
    ensures all' == Fresh(id, {}, before + items) && seen' == Ids(id, all')
  {
    all', seen' := all, seen;
    assert before + items[..0] == before;
    for i := 0 to |items|
      invariant all' == Fresh(id, {}, before + items[..i]) && seen' == Ids(id, all')
    {
      var item := items[i];
      assert before + items[..i + 1] == before + items[..i] + [item];
      FreshAppend(id, {}, before + items[..i], item);
      assert {} + Ids(id, all') == Ids(id, all');
      if id(item) == "" || id(item) in seen' {
        continue;
      }
      IdsAppend(id, all', item);
      seen' := seen' + {id(item)};
      all' := all' + [item];
    }
    assert items[..|items|] == items;
  }

  /** One page; only the first is retried, after re-arming the phone. */
  method FetchPage<T>(r: Relay<T>, page: nat, calls: nat, cursor: Option<string>)
    returns (resp: Option<Page<T>>, calls': nat)
    ensures calls < calls' <= calls + if page == 0 then 2 else 1
    ensures r.list(calls' - 1, cursor) == resp
    ensures calls' == calls + 2 <==> page == 0 && r.list(calls, cursor).None? && r.rearm
  {
    resp, calls' := r.list(calls, cursor), calls + 1;
    if resp.None? && page == 0 && r.rearm {
      resp, calls' := r.list(calls', cursor), calls' + 1;
    }
  }

  /** Pages collected so far, all of which promise another, and the cursor for the next. */
  ghost predicate Open<T(!new)>(r: Relay<T>, pages: seq<Page<T>>, calls: nat, cursor: Option<string>) {
    && |pages| <= calls <= |pages| + 1 && cursor == Asked(pages, |pages|) && (pages == [] ==> calls == 0)
    && (pages != [] ==> Collected(r, pages, calls) && More(pages[|pages| - 1]))
  }

  /**
   Why a listing fails: fewer than ten pages were collected, all of which promise another, and
   the session was retired before the next, or the relay gave none, on the first page not
   even after re-arming.
   */
  ghost predicate StoppedShort<T(!new)>(r: Relay<T>, pages: seq<Page<T>>, calls: nat) {
    && |pages| < 10
    && (pages != [] ==> More(pages[|pages| - 1]))
    && exists before: nat ::
         && Open(r, pages, before, Asked(pages, |pages|))
         && ((r.retired(|pages|) && calls == before)
             || (calls == before + 1 && r.list(before, Asked(pages, |pages|)).None? && (pages == [] ==> !r.rearm))
             || (calls == before + 2 && pages == [] && r.rearm && r.list(0, None).None? && r.list(1, None).None?))
  }

  lemma FetchedExtends<T(!new)>(r: Relay<T>, pages: seq<Page<T>>, firstCall: nat, got: Page<T>)
    requires Fetched(r, pages, firstCall)
    requires r.list(firstCall + |pages|, Asked(pages, |pages|)) == Some(got)
    ensures Fetched(r, pages + [got], firstCall)
  {
    var longer := pages + [got];
    forall k | 0 <= k < |longer|
      ensures r.list(firstCall + k, Asked(longer, k)) == Some(longer[k])
    {
      assert Asked(longer, k) == Asked(pages, k);
      assert k < |pages| ==> longer[k] == pages[k];
    }
  }

  lemma OpenExtends<T(!new)>(r: Relay<T>, pages: seq<Page<T>>, calls: nat, cursor: Option<string>, got: Page<T>,
                      calls': nat)
    requires Open(r, pages, calls, cursor) && |pages| < MAX_PAGES && !r.retired(|pages|)
    requires calls < calls' <= calls + (if pages == [] then 2 else 1) && r.list(calls' - 1, cursor) == Some(got)
    requires calls' == calls + 2 ==> r.list(calls, cursor).None? && r.rearm
    ensures Collected(r, pages + [got], calls')
  {
    FetchedExtends(r, pages, calls' - 1 - |pages|, got);
    assert (pages + [got])[..|pages|] == pages;
  }

  lemma RetiredStopsShort<T(!new)>(r: Relay<T>, pages: seq<Page<T>>, calls: nat, cursor: Option<string>)
    requires Open(r, pages, calls, cursor) && |pages| < 10 && r.retired(|pages|)
    ensures StoppedShort(r, pages, calls)
  {
  }

  lemma RefusedStopsShort<T(!new)>(r: Relay<T>, pages: seq<Page<T>>, before: nat, cursor: Option<string>, calls: nat)
    requires Open(r, pages, before, cursor) && |pages| < 10
    requires before < calls <= before + 2 && r.list(calls - 1, cursor).None?
    requires calls == before + 2 <==> pages == [] && r.list(before, cursor).None? && r.rearm
    ensures StoppedShort(r, pages, calls)
  {
    assert pages == [] ==> before == 0 && cursor == None;
  }

  /** The page loop. */
  method ListPages<T(!new)>(id: T -> string, r: Relay<T>)
    returns (result: Result<Listing<T>>, calls: nat, ghost pages: seq<Page<T>>)
    ensures calls <= MAX_PAGES + 1
    ensures result.Ok? ==>
      && Collected(r, pages, calls)
      && result.value.items == Fresh(id, {}, Flatten(pages))
      && result.value.capped == More(pages[|pages| - 1])
      && (result.value.capped ==> |pages| == MAX_PAGES)
    ensures result.Err? ==> StoppedShort(r, pages, calls)
  {
    var all: seq<T> := [];
    var seen: set<string> := {};
    var cursor: Option<string> := None;
    calls, pages := 0, [];
    for page := 0 to MAX_PAGES
      invariant |pages| == page && Open(r, pages, calls, cursor)
      invariant all == Fresh(id, {}, Flatten(pages)) && seen == Ids(id, all)
    {
      if r.retired(page) {
        RetiredStopsShort(r, pages, calls, cursor);
        return Err("session retired during listing"), calls, pages;
      }
      var resp, calls' := FetchPage(r, page, calls, cursor);
      if resp.None? {
        RefusedStopsShort(r, pages, calls, cursor, calls');
        return Err("list failed"), calls', pages;
      }
      var got := resp.value;
      OpenExtends(r, pages, calls, cursor, got, calls');
      all, seen := AppendPage(id, Flatten(pages), all, seen, got.items);
      assert (pages + [got])[..page] == pages;
      calls, pages := calls', pages + [got];
      if |got.items| < PAGE_SIZE || got.next.None? || got.next.value == "" {
        return Ok(Listing(all, false)), calls, pages;
      }
      cursor := got.next;
    }
    return Ok(Listing(all, true)), calls, pages;
  }

  /** listAllConversations: what it returns is the first-occurrence dedupe of the pages it got. */
  method ListAll<T(!new)>(id: T -> string, r: Relay<T>)
    returns (result: Result<Listing<T>>, calls: nat, ghost pages: seq<Page<T>>)
    ensures calls <= 11
    ensures result.Ok? ==>
      && Collected(r, pages, calls)
      && IsDedupe(id, Flatten(pages), result.value.items)
      && (result.value.capped <==>
            var last := pages[|pages| - 1];
            |pages| == 10 && |last.items| >= 200 && last.next.Some? && last.next.value != "")
    ensures result.Err? ==> StoppedShort(r, pages, calls)
  {
    result, calls, pages := ListPages(id, r);
    FreshIsDedupe(id, Flatten(pages));
  }

  // ---------- a faithful relay ----------

  /** Where the page behind a cursor starts; `at` knows the cursors the relay has minted. */
  function Start(at: map<string, nat>, cursor: Option<string>): nat {
    if cursor.Some? && cursor.value in at then at[cursor.value] else 0
  }

  function End(n: nat, from: nat): nat {
    if from + PAGE_SIZE <= n then from + PAGE_SIZE else n
  }

  /** Every successful answer is the next 200 items of one inbox, and the cursor is empty only at its end. */
  ghost predicate Faithful<T(!new)>(r: Relay<T>, inbox: seq<T>, at: map<string, nat>) {
    forall call, cursor :: r.list(call, cursor).Some? && (cursor.Some? ==> cursor.value in at) ==>
      var p, from := r.list(call, cursor).value, Start(at, cursor);
      var to := End(|inbox|, from);
      && from <= |inbox|
      && p.items == inbox[from..to]
      && (if p.next.Some? && p.next.value != "" then p.next.value in at && at[p.next.value] == to else to == |inbox|)
  }

  lemma {:induction false} PagesCoverInbox<T(!new)>(r: Relay<T>, inbox: seq<T>, at: map<string, nat>,
                                             pages: seq<Page<T>>, firstCall: nat, k: nat)
    requires Faithful(r, inbox, at) && Fetched(r, pages, firstCall) && 1 <= k <= |pages|
    requires forall i :: 0 <= i < |pages| - 1 ==> More(pages[i])
    ensures |Flatten(pages[..k])| <= |inbox| && Flatten(pages[..k]) == inbox[..|Flatten(pages[..k])|]
    ensures var p, n := pages[k - 1], |Flatten(pages[..k])|;
            if p.next.Some? && p.next.value != "" then p.next.value in at && at[p.next.value] == n else n == |inbox|
    ensures |pages[k - 1].items| < PAGE_SIZE ==> |Flatten(pages[..k])| == |inbox|
  {
    var p := pages[k - 1];
    assert pages[..k][..k - 1] == pages[..k - 1];
    if k == 1 {
      assert Flatten(pages[..1]) == p.items by {
        assert pages[..1][..0] == [];
      }
      assert Asked(pages, 0) == None;
    } else {
      PagesCoverInbox(r, inbox, at, pages, firstCall, k - 1);
      var from := |Flatten(pages[..k - 1])|;
      assert More(pages[k - 2]);
      assert Asked(pages, k - 1) == pages[k - 2].next;
      assert Start(at, pages[k - 2].next) == from;
      assert p.items == inbox[from..End(|inbox|, from)];
    }
  }

  lemma {:induction false} FreshKeepsDistinct<T>(id: T -> string, items: seq<T>)
    requires DistinctIds(id, items)
    ensures Fresh(id, {}, items) == items
    decreases items
  {
    if items != [] {
      var n := |items| - 1;
      FreshKeepsDistinct(id, items[..n]);
      assert items == items[..n] + [items[n]];
      FreshAppend(id, {}, items[..n], items[n]);
      assert forall i :: 0 <= i < n ==> items[..n][i] == items[i];
    }
  }

  /** Against a faithful relay an uncapped listing is the whole inbox. */
  method ListInbox<T(!new)>(id: T -> string, r: Relay<T>, ghost inbox: seq<T>, ghost at: map<string, nat>)
    returns (result: Result<Listing<T>>)
    requires Faithful(r, inbox, at) && DistinctIds(id, inbox)
    ensures result.Ok? && !result.value.capped ==> result.value.items == inbox
    ensures result.Ok? ==> result.value.items <= inbox
  {
    var calls;
    ghost var pages;
    result, calls, pages := ListPages(id, r);
    if result.Ok? {
      UncappedIsWhole(id, r, inbox, at, pages, calls);
    }
  }

  lemma DistinctPrefix<T>(id: T -> string, items: seq<T>, n: nat)
    requires DistinctIds(id, items) && n <= |items|
    ensures DistinctIds(id, items[..n])
  {
  }

  lemma UncappedIsWhole<T(!new)>(id: T -> string, r: Relay<T>, inbox: seq<T>, at: map<string, nat>,
                          pages: seq<Page<T>>, calls: nat)
    requires Faithful(r, inbox, at) && DistinctIds(id, inbox) && Collected(r, pages, calls)
    ensures Fresh(id, {}, Flatten(pages)) <= inbox
    ensures !More(pages[|pages| - 1]) ==> Fresh(id, {}, Flatten(pages)) == inbox
  {
    var firstCall := calls - |pages|;
    PagesCoverInbox(r, inbox, at, pages, firstCall, |pages|);
    assert pages[..|pages|] == pages;
    DistinctPrefix(id, inbox, |Flatten(pages)|);
    FreshKeepsDistinct(id, Flatten(pages));
  }
}
