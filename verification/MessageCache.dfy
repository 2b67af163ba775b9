/**
 The per-conversation message cache: bounded windows that must agree with the log of
 everything that was ever remembered, whichever windows the sweep picks.
 */
module MessageCache {
  import opened Wrappers
  import opened Recent

  const PER_CONVERSATION: nat := 200
  const MAX_CONVERSATIONS: nat := 1024

  datatype Entry = Entry(id: string, ts: int, self: bool, status: int)

  /** One call of rememberMessage. */
  datatype Remembered = Remembered(conversation: string, entry: Entry)

  /** What was last remembered about a message, if anything. */
  function Latest(log: seq<Remembered>, conversation: string, id: string): Option<Entry> {
    if log == [] then None
    else
      var r := log[|log| - 1];
      if r.conversation == conversation && r.entry.id == id then Some(r.entry)
          else Latest(log[..|log| - 1], conversation, id)
  }

  function IDs(entries: seq<Entry>): seq<string> {
    seq(|entries|, i requires 0 <= i < |entries| => entries[i].id)
  }

  predicate Unique(entries: seq<Entry>) {
    forall i, j :: 0 <= i < j < |entries| ==> entries[i].id != entries[j].id
  }

  /** Position of a message in its window, or the window's length. */
  function Find(entries: seq<Entry>, id: string): (i: nat)
    ensures i <= |entries| && (i < |entries| ==> entries[i].id == id)
    ensures forall j :: 0 <= j < i ==> entries[j].id != id
  {
    if entries == [] || entries[0].id == id then 0 else
      var i := Find(entries[1..], id);
      assert forall j :: 1 <= j <= i ==> entries[j].id == entries[1..][j - 1].id || j > |entries[1..]|;
      i + 1
  }

  /** A window after one message: replaced in place, or appended with the oldest dropped. */
  function Window(entries: seq<Entry>, entry: Entry): seq<Entry> {
    var at := Find(entries, entry.id);
    if at < |entries| then entries[at := entry] else Last(entries + [entry], PER_CONVERSATION)
  }

  /**
   A window agrees with the log: its ids are the last 200 inserted, all different, and each
   entry is the latest of its id.
   */
  ghost predicate Agrees(log: seq<Remembered>, conversation: string, entries: seq<Entry>, inserted: seq<string>) {
    && Unique(entries)
    && IDs(entries) == Last(inserted, 200)
    && forall i :: 0 <= i < |entries| ==> Latest(log, conversation, entries[i].id) == Some(entries[i])
  }

  lemma OtherWindowsAgree(log: seq<Remembered>, r: Remembered, conversation: string, entries: seq<Entry>,
                          inserted: seq<string>)
    requires Agrees(log, conversation, entries, inserted) && r.conversation != conversation
    ensures Agrees(log + [r], conversation, entries, inserted)
  {
    assert (log + [r])[..|log|] == log;
  }

  lemma LatestAppend(log: seq<Remembered>, r: Remembered, conversation: string, id: string)
    ensures Latest(log + [r], conversation, id) ==
            if r.conversation == conversation && r.entry.id == id then Some(r.entry) else Latest(log, conversation, id)
  {
    assert (log + [r])[..|log|] == log;
  }

  lemma ReplaceAgrees(log: seq<Remembered>, conversation: string, entries: seq<Entry>, inserted: seq<string>,
                      entry: Entry, at: nat)
    requires Agrees(log, conversation, entries, inserted) && at < |entries| && entries[at].id == entry.id
    ensures Agrees(log + [Remembered(conversation, entry)], conversation, entries[at := entry], inserted)
  {
    assert IDs(entries[at := entry]) == IDs(entries);
    forall i | 0 <= i < |entries|
      ensures Latest(log + [Remembered(conversation, entry)], conversation, entries[i].id)
              == Some(entries[at := entry][i])
    {
      LatestAppend(log, Remembered(conversation, entry), conversation, entries[i].id);
    }
  }

  lemma GrowAgrees(log: seq<Remembered>, conversation: string, entries: seq<Entry>, inserted: seq<string>, entry: Entry)
    requires Agrees(log, conversation, entries, inserted) && forall i :: 0 <= i < |entries| ==>
            entries[i].id != entry.id
    ensures Agrees(log + [Remembered(conversation, entry)], conversation, Last(entries + [entry], PER_CONVERSATION),
            inserted + [entry.id])
  {
    var all := entries + [entry];
    forall i | 0 <= i < |all|
      ensures Latest(log + [Remembered(conversation, entry)], conversation, all[i].id) == Some(all[i])
    {
      LatestAppend(log, Remembered(conversation, entry), conversation, all[i].id);
    }
    assert IDs(Last(all, PER_CONVERSATION)) == Last(IDs(entries) + [entry.id], PER_CONVERSATION);
    LastAppend(inserted, PER_CONVERSATION, entry.id);
  }

  /** What one message does to its own window. */
  lemma WindowAgrees(log: seq<Remembered>, conversation: string, entries: seq<Entry>, inserted: seq<string>,
                     entry: Entry)
    requires Agrees(log, conversation, entries, inserted)
    ensures Agrees(log + [Remembered(conversation, entry)], conversation, Window(entries, entry),
                   if Find(entries, entry.id) < |entries| then inserted else inserted + [entry.id])
  {
    var at := Find(entries, entry.id);
    if at < |entries| {
      ReplaceAgrees(log, conversation, entries, inserted, entry, at);
    } else {
      GrowAgrees(log, conversation, entries, inserted, entry);
    }
  }

  /** Every window agrees with the log. */
  ghost predicate AllAgree(log: seq<Remembered>, windows: map<string, seq<Entry>>, inserted: map<string, seq<string>>) {
    && windows.Keys == inserted.Keys
    && forall c :: c in windows ==> Agrees(log, c, windows[c], inserted[c])
  }

  function Entries(windows: map<string, seq<Entry>>, conversation: string): seq<Entry> {
    if conversation in windows then windows[conversation] else []
  }

  /** The insertions into a window after one message. */
  function Insertions(windows: map<string, seq<Entry>>, inserted: map<string, seq<string>>, conversation: string,
                      id: string): seq<string> {
    var ids := if conversation in inserted then inserted[conversation] else [];
    if Find(Entries(windows, conversation), id) < |Entries(windows, conversation)| then ids else ids + [id]
  }

  lemma RememberAgrees(log: seq<Remembered>, windows: map<string, seq<Entry>>, inserted: map<string, seq<string>>,
                       conversation: string, entry: Entry)
    requires AllAgree(log, windows, inserted)
    ensures AllAgree(log + [Remembered(conversation, entry)],
            windows[conversation := Window(Entries(windows, conversation), entry)],
                     inserted[conversation := Insertions(windows, inserted, conversation, entry.id)])
  {
    var r := Remembered(conversation, entry);
    var ids := if conversation in inserted then inserted[conversation] else [];
    WindowAgrees(log, conversation, Entries(windows, conversation), ids, entry);
    forall c | c in windows && c != conversation
      ensures Agrees(log + [r], c, windows[c], inserted[c])
    {
      OtherWindowsAgree(log, r, c, windows[c], inserted[c]);
    }
  }

  lemma SameSize<K, V>(a: map<K, V>, b: map<K, V>)
    requires a.Keys == b.Keys
    ensures |a| == |b|
  {
    assert |a| == |a.Keys| && |b| == |b.Keys|;
  }

  lemma OneLess<K, V>(m: map<K, V>, k: K)
    requires k in m
    ensures |m - {k}| == |m| - 1
  {
    assert (m - {k}).Keys == m.Keys - {k};
    assert |m - {k}| == |(m - {k}).Keys| && |m| == |m.Keys|;
  }

  lemma OneMore<K, V>(m: map<K, V>, k: K, v: V)
    ensures |m[k := v]| <= |m| + 1
  {
    assert m[k := v].Keys == m.Keys + {k};
    assert |m[k := v]| == |m[k := v].Keys| && |m| == |m.Keys|;
  }

  lemma DropMore<K, V>(m: map<K, V>, keys: set<K>, k: K)
    ensures m - keys - {k} == m - (keys + {k})
  {
  }

  lemma EvictionAgrees(log: seq<Remembered>, windows: map<string, seq<Entry>>, inserted: map<string, seq<string>>,
                       victim: string)
    requires AllAgree(log, windows, inserted)
    ensures AllAgree(log, windows - {victim}, inserted - {victim})
  {
  }

  /** How many windows are too many. */
  function Excess(n: nat): nat {
    if n > 1024 then n - 1024 else 0
  }

  /** The victims, as many as there were too many, are gone whole; everything else is as before. */
  ghost predicate Swept(before: map<string, seq<Entry>>, insertedBefore: map<string, seq<string>>,
                        windows: map<string, seq<Entry>>, inserted: map<string, seq<string>>, victims: set<string>)
  {
    && victims <= before.Keys && |victims| == Excess(|before|)
    && windows == before - victims
    && inserted == insertedBefore - victims
  }

  ghost predicate SweptSome(before: map<string, seq<Entry>>, insertedBefore: map<string, seq<string>>,
                            windows: map<string, seq<Entry>>, inserted: map<string, seq<string>>)
  {
    exists victims :: Swept(before, insertedBefore, windows, inserted, victims)
  }

  /** A sweep under way: the victims so far are gone, and not too many. */
  ghost predicate Sweeping(log: seq<Remembered>, before: map<string, seq<Entry>>,
                           insertedBefore: map<string, seq<string>>, windows: map<string, seq<Entry>>,
                           inserted: map<string, seq<string>>, victims: set<string>)
  {
    && AllAgree(log, windows, inserted)
    && victims <= before.Keys && windows == before - victims && inserted == insertedBefore - victims
    && |windows| + |victims| == |before| && |victims| <= Excess(|before|)
  }

  lemma SweepBegins(log: seq<Remembered>, windows: map<string, seq<Entry>>, inserted: map<string, seq<string>>)
    requires AllAgree(log, windows, inserted)
    ensures Sweeping(log, windows, inserted, windows, inserted, {})
  {
  }

  lemma SweepGoesOn(log: seq<Remembered>, before: map<string, seq<Entry>>, insertedBefore: map<string, seq<string>>,
                    windows: map<string, seq<Entry>>, inserted: map<string, seq<string>>, victims: set<string>,
                    victim: string)
    requires Sweeping(log, before, insertedBefore, windows, inserted, victims)
    requires |windows| > MAX_CONVERSATIONS && victim in windows
    ensures Sweeping(log, before, insertedBefore, windows - {victim}, inserted - {victim}, victims + {victim})
    ensures |windows - {victim}| == |windows| - 1
  {
    OneLess(windows, victim);
    EvictionAgrees(log, windows, inserted, victim);
    DropMore(before, victims, victim);
    DropMore(insertedBefore, victims, victim);
  }

  lemma SweepEnds(log: seq<Remembered>, before: map<string, seq<Entry>>, insertedBefore: map<string, seq<string>>,
                  windows: map<string, seq<Entry>>, inserted: map<string, seq<string>>, victims: set<string>)
    requires Sweeping(log, before, insertedBefore, windows, inserted, victims) && |windows| <= MAX_CONVERSATIONS
    ensures SweptSome(before, insertedBefore, windows, inserted)
  {
    assert Swept(before, insertedBefore, windows, inserted, victims);
  }

  lemma NothingSwept(windows: map<string, seq<Entry>>, inserted: map<string, seq<string>>)
    requires |windows| <= MAX_CONVERSATIONS
    ensures SweptSome(windows, inserted, windows, inserted)
  {
    assert Swept(windows, inserted, windows, inserted, {});
  }

  /** What one message makes of the windows, before the sweep. */
  function WindowsAfter(windows: map<string, seq<Entry>>, conversation: string, entry: Entry): map<string, seq<Entry>> {
    windows[conversation := Window(Entries(windows, conversation), entry)]
  }

  /** And of the insertions. */
  function InsertedAfter(windows: map<string, seq<Entry>>, inserted: map<string, seq<string>>, conversation: string,
                         entry: Entry): map<string, seq<string>> {
    inserted[conversation := Insertions(windows, inserted, conversation, entry.id)]
  }

  /** A window in which the message is replaced is not a new one. */
  lemma ReplacedIsNotSwept(windows: map<string, seq<Entry>>, inserted: map<string, seq<string>>, conversation: string,
                           entry: Entry)
    requires |windows| <= MAX_CONVERSATIONS
    requires Find(Entries(windows, conversation), entry.id) < |Entries(windows, conversation)|
    ensures var before := WindowsAfter(windows, conversation, entry);
            var ids := InsertedAfter(windows, inserted, conversation, entry);
            |before| <= MAX_CONVERSATIONS && SweptSome(before, ids, before, ids)
  {
    var before := WindowsAfter(windows, conversation, entry);
    SameSize(windows, before);
    NothingSwept(before, InsertedAfter(windows, inserted, conversation, entry));
  }

  class Cache {
    var windows: map<string, seq<Entry>>

    /** Every message ever remembered. */
    ghost var log: seq<Remembered>

    /** The ids inserted into a window since its conversation was last evicted. */
    ghost var inserted: map<string, seq<string>>

    ghost predicate Valid()
      reads this
    {
      |windows| <= 1024 && AllAgree(log, windows, inserted)
    }

    constructor ()
      ensures Valid() && windows == map[] && log == []
    {
      windows, log, inserted := map[], [], map[];
    }

    /** A time other than zero is the time of the latest message of that id; an id in the window is found. */
    method CachedTS(conversation: string, id: string) returns (ts: int)
      requires Valid()
      ensures ts != 0 ==> Latest(log, conversation, id).Some? && ts == Latest(log, conversation, id).value.ts
      ensures conversation in windows && id in IDs(windows[conversation]) ==>
              Latest(log, conversation, id).Some? && ts == Latest(log, conversation, id).value.ts
    {
      var entries := if conversation in windows then windows[conversation] else [];
      for i := 0 to |entries|
        invariant forall j :: 0 <= j < i ==> entries[j].id != id
      {
        if entries[i].id == id {
          return entries[i].ts;
        }
      }
      ts := 0;
    }

    /**
     rememberMessage: the message's window and its insertions are updated; every other
     window is kept or, beyond the cap, one is evicted whole with its insertions.
     */
    method Remember(conversation: string, entry: Entry)
      requires Valid()
      modifies this
      ensures Valid()
      ensures log == old(log) + [Remembered(conversation, entry)]
      ensures SweptSome(WindowsAfter(old(windows), conversation, entry),
                        InsertedAfter(old(windows), old(inserted), conversation, entry), windows, inserted)
      ensures |WindowsAfter(old(windows), conversation, entry)| <= 1025
    {
      var entries := if conversation in windows then windows[conversation] else [];
      var at := IndexOf(entries, entry.id);
      RememberAgrees(log, windows, inserted, conversation, entry);
      OneMore(windows, conversation, Window(entries, entry));
      log := log + [Remembered(conversation, entry)];
      if at < |entries| {
        ReplacedIsNotSwept(windows, inserted, conversation, entry);
        inserted := InsertedAfter(windows, inserted, conversation, entry);
        windows := windows[conversation := entries[at := entry]];
        return;
      }
      var grown := Trim(entries + [entry]);
      inserted := InsertedAfter(windows, inserted, conversation, entry);
      windows := windows[conversation := grown];
      Sweep();
    }

    /** The range loop that looks for an entry to replace. */
    static method IndexOf(entries: seq<Entry>, id: string) returns (at: nat)
      ensures at == Find(entries, id)
    {
      at := 0;
      while at < |entries| && entries[at].id != id
        invariant at <= |entries|
        invariant forall j :: 0 <= j < at ==> entries[j].id != id
      {
        at := at + 1;
      }
    }

    /** The loop that drops the oldest entries. */
    static method Trim(entries: seq<Entry>) returns (kept: seq<Entry>)
      ensures kept == Last(entries, 200)
    {
      kept := entries;
      while |kept| > PER_CONVERSATION
        invariant |kept| <= |entries| && kept == entries[|entries| - |kept|..]
        invariant |kept| >= PER_CONVERSATION || kept == entries
      {
        kept := kept[1..];
      }
    }

    /** The first window a range over the map gives, whichever that is. */
    static method AnyWindow(windows: map<string, seq<Entry>>) returns (victim: string)
      requires |windows| > 0
      ensures victim in windows
    {
      assert windows.Keys != {} by {
        assert |windows.Keys| == |windows|;
      }
      victim :| victim in windows.Keys;
    }

    /** Its loop: the excess goes, window by window; the victims are arbitrary. */
    static method DropExcess(windows: map<string, seq<Entry>>, ghost log: seq<Remembered>,
                             ghost inserted: map<string, seq<string>>)
      returns (kept: map<string, seq<Entry>>, ghost ids: map<string, seq<string>>)
      requires AllAgree(log, windows, inserted)
      ensures |kept| <= 1024 && AllAgree(log, kept, ids) && SweptSome(windows, inserted, kept, ids)
    {
      kept, ids := windows, inserted;
      ghost var victims: set<string> := {};
      SweepBegins(log, windows, inserted);
      while |kept| > MAX_CONVERSATIONS
        invariant Sweeping(log, windows, inserted, kept, ids, victims)
        decreases |kept|
      {
        var victim := AnyWindow(kept);
        SweepGoesOn(log, windows, inserted, kept, ids, victims, victim);
        kept, ids, victims := kept - {victim}, ids - {victim}, victims + {victim};
      }
      SweepEnds(log, windows, inserted, kept, ids, victims);
    }

    /** sweepCaches: however many windows there are, exactly the excess goes. */
    method Sweep()
      requires AllAgree(log, windows, inserted)
      modifies this`windows, this`inserted
      ensures Valid()
      ensures SweptSome(old(windows), old(inserted), windows, inserted)
    {
      windows, inserted := DropExcess(windows, log, inserted);
    }
  }
}
