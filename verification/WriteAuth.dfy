/**
 Crash consistency of the session files.  Any number of WriteAuth calls run at once,
 each a sequence of disk calls that may fail; files may be deleted and temp files swept
 in between.  A file's bytes are durable once the file was synced, a directory entry
 once the directory was; until then a crash may expose any state the entry went through,
 and any bytes at all.  Temp names are never reused.
 */
module WriteAuth {
  import opened Wrappers

  datatype Name = SessionFile(account: string) | TempFile(inode: nat)

  datatype File = File(bytes: string, synced: bool)

  /** Every state a directory entry has had, the last one current; a crash may expose those from `durable` on. */
  datatype Entry = Entry(states: seq<Option<nat>>, durable: nat)

  datatype Stage =
    | Creating
    | Writing(inode: nat)
    | Chmodding(inode: nat)
    | Syncing(inode: nat)
    | Closing(inode: nat)
    | FirstDirSync(inode: nat)
    | Renaming(inode: nat)
    | LastDirSync(inode: nat, at: nat)          // renamed: the session entry's state number `at`
    | Cleaning(inode: nat, ok: bool, at: nat)   // the deferred removal of the temp file

  datatype Call = Call(account: string, raw: string, stage: Stage)

  /** A call that returned nil, and the state of the session entry it created. */
  datatype Return = Return(account: string, raw: string, at: nat)

  datatype World = World(
    files: map<nat, File>,
    entries: map<Name, Entry>,
    nextInode: nat,
    asked: set<(string, string)>,    // account and bytes of every write so far
    returned: seq<Return>,
    calls: map<nat, Call>)

  datatype Action =
    | Start(c: nat, account: string, raw: string)
    | Advance(c: nat, ok: bool, part: string)   // the outcome of the disk call, and what a failed write left
    | Delete(account: string)
    | Sweep(inode: nat)
    | DirSync

  const ABSENT := Entry([None], 0)

  function Look(w: World, n: Name): Entry {
    if n in w.entries then w.entries[n] else ABSENT
  }

  function Current(e: Entry): Option<nat> {
    if e.states == [] then None else e.states[|e.states| - 1]
  }

  function Put(w: World, n: Name, state: Option<nat>): World {
    var e := Look(w, n);
    w.(entries := w.entries[n := e.(states := e.states + [state])])
  }

  function Unlink(w: World, n: Name): World {
    if Current(Look(w, n)).Some? then Put(w, n, None) else w
  }

  function Synced(e: Entry): Entry {
    if e.states == [] then e else e.(durable := |e.states| - 1)
  }

  /** syncDir: of every entry only the current state can survive. */
  function Flushed(w: World): World {
    w.(entries := map n | n in w.entries :: Synced(w.entries[n]))
  }

  predicate Enabled(w: World, a: Action) {
    match a
    case Start(c, _, _) => c !in w.calls
    case Advance(c, _, _) => c in w.calls
    case _ => true
  }

  /** The next disk call of one WriteAuth; the world comes back without the call's own record updated. */
  function Disk(w: World, call: Call, ok: bool, part: string): (World, Stage)
    requires !call.stage.Cleaning? && (call.stage.Creating? ==> ok)
  {
    var s := call.stage;
    match s
    case Creating =>
      var i := w.nextInode;
      (Put(w.(files := w.files[i := File("", false)], nextInode := i + 1), TempFile(i), Some(i)), Writing(i))
    case Writing(i) =>
      if ok then (w.(files := w.files[i := File(call.raw, false)]), Chmodding(i))
      else (w.(files := w.files[i := File(part, false)]), Cleaning(i, false, 0))
    case Chmodding(i) => (w, if ok then Syncing(i) else Cleaning(i, false, 0))
    case Syncing(i) =>
      if ok && i in w.files then (w.(files := w.files[i := w.files[i].(synced := true)]), Closing(i))
          else (w, Cleaning(i, false, 0))
    case Closing(i) => (w, if ok then FirstDirSync(i) else Cleaning(i, false, 0))
    case FirstDirSync(i) => if ok then (Flushed(w), Renaming(i)) else (w, Cleaning(i, false, 0))
    case Renaming(i) =>
      var path := SessionFile(call.account);
      if ok && Current(Look(w, TempFile(i))) == Some(i)
      then (Put(Put(w, path, Some(i)), TempFile(i), None), LastDirSync(i, |Look(w, path).states|))
      else (w, Cleaning(i, false, 0))
    case LastDirSync(i, at) => if ok then (Flushed(w), Cleaning(i, true, at)) else (w, Cleaning(i, false, at))
  }

  function Advanced(w: World, c: nat, ok: bool, part: string): World
    requires c in w.calls
  {
    var call := w.calls[c];
    if call.stage.Creating? && !ok then w.(calls := w.calls - {c})
    else if call.stage.Cleaning? then
      var w' := Unlink(w, TempFile(call.stage.inode));
      w'.(calls := w.calls - {c},
          returned := if call.stage.ok then w.returned + [Return(call.account, call.raw, call.stage.at)]
              else w.returned)
    else
      var (w', stage) := Disk(w, call, ok, part);
      w'.(calls := w.calls[c := call.(stage := stage)])
  }

  function Step(w: World, a: Action): World
    requires Enabled(w, a)
  {
    match a
    case Start(c, account, raw) => w.(asked := w.asked
        + {(account, raw)}, calls := w.calls[c := Call(account, raw, Creating)])
    case Advance(c, ok, part) => Advanced(w, c, ok, part)
    case Delete(account) => Unlink(w, SessionFile(account))
    case Sweep(inode) => Unlink(w, TempFile(inode))
    case DirSync => Flushed(w)
  }

  // ---------- what a crash exposes ----------

  /** After a crash the session file of an account may hold these bytes (or be absent). */
  ghost predicate CrashMayExpose(w: World, account: string, content: Option<string>) {
    var e := Look(w, SessionFile(account));
    exists k :: e.durable <= k < |e.states| &&
      if e.states[k].None? then content.None?
      else content.Some? && (e.states[k].value in w.files && w.files[e.states[k].value].synced
                             ==> content.value == w.files[e.states[k].value].bytes)
  }

  // ---------- the invariant ----------

  /** A finished file: synced, and holding all the bytes of some write to this account. */
  predicate Complete(w: World, account: string, inode: nat) {
    inode in w.files && w.files[inode].synced && (account, w.files[inode].bytes) in w.asked
  }

  /** An entry always has a state; a session entry has never pointed at anything but a finished file. */
  ghost predicate Sound(w: World, n: Name) {
    var e := Look(w, n);
    && e.durable < |e.states|
    && (n.SessionFile? ==> forall k :: 0 <= k < |e.states| && e.states[k].Some? ==>
        Complete(w, n.account, e.states[k].value))
  }

  ghost predicate Entries(w: World) {
    forall n :: Sound(w, n)
  }

  predicate HasInode(s: Stage) {
    !s.Creating?
  }

  /** How far a call's own temp file is. */
  predicate Progress(w: World, call: Call) {
    (call.account, call.raw) in w.asked &&
    match call.stage
    case Creating => true
    case Writing(i) => i in w.files && !w.files[i].synced
    case Chmodding(i) => i in w.files && w.files[i] == File(call.raw, false)
    case Syncing(i) => i in w.files && w.files[i] == File(call.raw, false)
    case Closing(i) => i in w.files && w.files[i] == File(call.raw, true)
    case FirstDirSync(i) => i in w.files && w.files[i] == File(call.raw, true)
    case Renaming(i) => i in w.files && w.files[i] == File(call.raw, true)
    case LastDirSync(i, at) => Renamed(w, call.account, call.raw, at)
    case Cleaning(i, ok, at) => ok ==>
        Renamed(w, call.account, call.raw, at) && at <= Look(w, SessionFile(call.account)).durable
  }

  /** State `at` of the session entry is a file with exactly these bytes. */
  predicate Renamed(w: World, account: string, raw: string, at: nat) {
    var e := Look(w, SessionFile(account));
    at < |e.states| && e.states[at].Some? && e.states[at].value in w.files
        && w.files[e.states[at].value] == File(raw, true)
  }

  ghost predicate Calls(w: World) {
    && (forall i :: i in w.files ==> i < w.nextInode)
    && (forall c :: c in w.calls ==> Progress(w, w.calls[c]))
    && (forall c :: c in w.calls && HasInode(w.calls[c].stage) ==> w.calls[c].stage.inode < w.nextInode)
    && (forall c, d ::
          c in w.calls && d in w.calls && c != d && HasInode(w.calls[c].stage) && HasInode(w.calls[d].stage) ==>
            w.calls[c].stage.inode != w.calls[d].stage.inode)
  }

  ghost predicate Returns(w: World) {
    forall r :: 0 <= r < |w.returned| ==>
      && Renamed(w, w.returned[r].account, w.returned[r].raw, w.returned[r].at)
      && w.returned[r].at <= Look(w, SessionFile(w.returned[r].account)).durable
  }

  ghost predicate Inv(w: World) {
    Entries(w) && Calls(w) && Returns(w)
  }

  // ---------- growth: what no step undoes ----------

  /** Finished files stay, entries only gain states, durability only advances. */
  ghost predicate Grows(w: World, v: World) {
    && w.asked <= v.asked
    && (forall i :: i in w.files && w.files[i].synced ==> i in v.files && v.files[i] == w.files[i])
    && (forall n :: Look(w, n).states <= Look(v, n).states && Look(w, n).durable <= Look(v, n).durable)
  }

  lemma GrowsKeepsRenamed(w: World, v: World, account: string, raw: string, at: nat)
    requires Grows(w, v) && Renamed(w, account, raw, at)
    ensures Renamed(v, account, raw, at)
    ensures Look(w, SessionFile(account)).durable <= Look(v, SessionFile(account)).durable
  {
  }

  lemma PutGrows(w: World, n: Name, state: Option<nat>)
    ensures Grows(w, Put(w, n, state))
  {
  }

  lemma FlushedGrows(w: World)
    requires Entries(w)
    ensures Grows(w, Flushed(w))
  {
    assert forall n :: Sound(w, n) ==> Look(w, n).durable < |Look(w, n).states|;
  }

  lemma GrowsTransitive(u: World, v: World, w: World)
    requires Grows(u, v) && Grows(v, w)
    ensures Grows(u, w)
  {
  }

  lemma DiskGrows(w: World, call: Call, ok: bool, part: string)
    requires Entries(w) && Progress(w, call) && (forall i :: i in w.files ==> i < w.nextInode)
    requires !call.stage.Cleaning? && (call.stage.Creating? ==> ok)
    ensures Grows(w, Disk(w, call, ok, part).0)
  {
    match call.stage
    case Creating =>
      var v := w.(files := w.files[w.nextInode := File("", false)], nextInode := w.nextInode + 1);
      PutGrows(v, TempFile(w.nextInode), Some(w.nextInode));
      GrowsTransitive(w, v, Disk(w, call, ok, part).0);
    case Renaming(i) =>
      var v := Put(w, SessionFile(call.account), Some(i));
      PutGrows(w, SessionFile(call.account), Some(i));
      PutGrows(v, TempFile(i), None);
      GrowsTransitive(w, v, Put(v, TempFile(i), None));
    case FirstDirSync(_) => FlushedGrows(w);
    case LastDirSync(_, _) => FlushedGrows(w);
    case _ =>
  }

  lemma AdvanceGrows(w: World, c: nat, ok: bool, part: string)
    requires Inv(w) && c in w.calls
    ensures Grows(w, Advanced(w, c, ok, part))
  {
    var call := w.calls[c];
    assert Progress(w, call);
    if call.stage.Creating? && !ok {
    } else if call.stage.Cleaning? {
      PutGrows(w, TempFile(call.stage.inode), None);
    } else {
      DiskGrows(w, call, ok, part);
      var v := Disk(w, call, ok, part).0;
      SameDisk(w, v, Advanced(w, c, ok, part));
    }
  }

  lemma SameDisk(w: World, v: World, u: World)
    requires Grows(w, v) && u.files == v.files && u.entries == v.entries && u.asked == v.asked
    ensures Grows(w, u)
  {
  }

  lemma StepGrows(w: World, a: Action)
    requires Inv(w) && Enabled(w, a)
    ensures Grows(w, Step(w, a))
  {
    match a
    case Advance(c, ok, part) => AdvanceGrows(w, c, ok, part);
    case Delete(account) => PutGrows(w, SessionFile(account), None);
    case Sweep(inode) => PutGrows(w, TempFile(inode), None);
    case DirSync => FlushedGrows(w);
    case Start(_, _, _) =>
  }

  // ---------- one step ----------

  lemma SameEntriesStaySound(w: World, v: World)
    requires Entries(w) && Grows(w, v) && v.entries == w.entries
    ensures Entries(v)
  {
    forall n
      ensures Sound(v, n)
    {
      assert Sound(w, n) && Look(v, n) == Look(w, n);
    }
  }

  lemma PutStaysSound(w: World, n: Name, state: Option<nat>)
    requires Entries(w) && (n.SessionFile? && state.Some? ==> Complete(w, n.account, state.value))
    ensures Entries(Put(w, n, state))
  {
    forall m
      ensures Sound(Put(w, n, state), m)
    {
      assert Sound(w, m);
    }
  }

  lemma FlushedStaysSound(w: World)
    requires Entries(w)
    ensures Entries(Flushed(w))
  {
    forall n
      ensures Sound(Flushed(w), n)
    {
      assert Sound(w, n);
    }
  }

  lemma DiskStaysSound(w: World, call: Call, ok: bool, part: string)
    requires Entries(w) && Progress(w, call) && (forall i :: i in w.files ==> i < w.nextInode)
    requires !call.stage.Cleaning? && (call.stage.Creating? ==> ok)
    ensures Entries(Disk(w, call, ok, part).0)
  {
    DiskGrows(w, call, ok, part);
    var after := Disk(w, call, ok, part).0;
    match call.stage
    case Creating =>
      var v := w.(files := w.files[w.nextInode := File("", false)], nextInode := w.nextInode + 1);
      SameEntriesStaySound(w, v);
      PutStaysSound(v, TempFile(w.nextInode), Some(w.nextInode));
    case Renaming(i) =>
      PutStaysSound(w, SessionFile(call.account), Some(i));
      PutStaysSound(Put(w, SessionFile(call.account), Some(i)), TempFile(i), None);
    case FirstDirSync(_) => FlushedStaysSound(w);
    case LastDirSync(_, _) => FlushedStaysSound(w);
    case _ => SameEntriesStaySound(w, after);
  }

  lemma StepKeepsEntries(w: World, a: Action)
    requires Inv(w) && Enabled(w, a)
    ensures Entries(Step(w, a))
  {
    StepGrows(w, a);
    match a
    case Advance(c, ok, part) =>
      var call := w.calls[c];
      if call.stage.Cleaning? {
        PutStaysSound(w, TempFile(call.stage.inode), None);
        SameEntriesStaySound(Unlink(w, TempFile(call.stage.inode)), Step(w, a));
      } else if call.stage.Creating? && !ok {
        SameEntriesStaySound(w, Step(w, a));
      } else {
        DiskStaysSound(w, call, ok, part);
        SameEntriesStaySound(Disk(w, call, ok, part).0, Step(w, a));
      }
    case Delete(account) => PutStaysSound(w, SessionFile(account), None);
    case Sweep(inode) => PutStaysSound(w, TempFile(inode), None);
    case DirSync => FlushedStaysSound(w);
    case Start(_, _, _) => SameEntriesStaySound(w, Step(w, a));
  }

  /** A call's progress survives any step that grows the disk and leaves its own temp file alone. */
  lemma ProgressCarries(w: World, v: World, call: Call)
    requires Grows(w, v) && Progress(w, call)
    requires HasInode(call.stage) && call.stage.inode in w.files ==>
            call.stage.inode in v.files && v.files[call.stage.inode] == w.files[call.stage.inode]
    ensures Progress(v, call)
  {
    match call.stage
    case LastDirSync(_, at) => GrowsKeepsRenamed(w, v, call.account, call.raw, at);
    case Cleaning(_, ok, at) =>
      if ok {
        GrowsKeepsRenamed(w, v, call.account, call.raw, at);
      }
    case _ =>
  }

  /** The disk call moves its own call on, and touches no other call's temp file. */
  lemma DiskProgress(w: World, call: Call, ok: bool, part: string)
    requires Entries(w) && Progress(w, call) && (forall i :: i in w.files ==> i < w.nextInode)
    requires !call.stage.Cleaning? && (call.stage.Creating? ==> ok)
    requires HasInode(call.stage) ==> call.stage.inode < w.nextInode
    ensures var (v, stage) := Disk(w, call, ok, part);
            && Progress(v, call.(stage := stage)) && HasInode(stage)
            && (if call.stage.Creating? then stage.inode == w.nextInode && v.nextInode == w.nextInode + 1
                else stage.inode == call.stage.inode && v.nextInode == w.nextInode)
            && (forall i :: i in v.files ==> i < v.nextInode)
            && (forall i :: i in w.files && (HasInode(call.stage) ==> i != call.stage.inode) ==>
                i in v.files && v.files[i] == w.files[i])
  {
    assert Sound(w, SessionFile(call.account));
    DiskGrows(w, call, ok, part);
    match call.stage
    case LastDirSync(_, at) =>
      GrowsKeepsRenamed(w, Disk(w, call, ok, part).0, call.account, call.raw, at);
    case _ =>
  }

  lemma AdvanceKeepsCalls(w: World, c: nat, ok: bool, part: string)
    requires Inv(w) && c in w.calls
    ensures Calls(Advanced(w, c, ok, part))
  {
    var call, v := w.calls[c], Advanced(w, c, ok, part);
    AdvanceGrows(w, c, ok, part);
    if !call.stage.Cleaning? && !(call.stage.Creating? && !ok) {
      DiskProgress(w, call, ok, part);
      var u := Disk(w, call, ok, part).0;
      DiskGrows(w, call, ok, part);
      SameProgress(u, v, v.calls[c]);
    }
    forall d | d in v.calls && d != c
      ensures Progress(v, v.calls[d])
    {
      ProgressCarries(w, v, w.calls[d]);
    }
  }

  lemma SameProgress(u: World, v: World, call: Call)
    requires Progress(u, call) && u.files == v.files && u.entries == v.entries && u.asked == v.asked
    ensures Progress(v, call)
  {
  }

  lemma StepKeepsCalls(w: World, a: Action)
    requires Inv(w) && Enabled(w, a)
    ensures Calls(Step(w, a))
  {
    StepGrows(w, a);
    match a
    case Advance(c, ok, part) => AdvanceKeepsCalls(w, c, ok, part);
    case _ =>
      var v := Step(w, a);
      forall d | d in v.calls
        ensures Progress(v, v.calls[d])
      {
        if d in w.calls {
          ProgressCarries(w, v, w.calls[d]);
        }
      }
  }

  lemma StepKeepsReturns(w: World, a: Action)
    requires Inv(w) && Enabled(w, a)
    ensures Returns(Step(w, a))
  {
    var v := Step(w, a);
    StepGrows(w, a);
    forall r | 0 <= r < |v.returned|
      ensures Renamed(v, v.returned[r].account, v.returned[r].raw, v.returned[r].at)
      ensures v.returned[r].at <= Look(v, SessionFile(v.returned[r].account)).durable
    {
      if r < |w.returned| {
        assert v.returned[r] == w.returned[r];
        GrowsKeepsRenamed(w, v, w.returned[r].account, w.returned[r].raw, w.returned[r].at);
      } else {
        var call := w.calls[a.c];
        GrowsKeepsRenamed(w, v, call.account, call.raw, call.stage.at);
      }
    }
  }

  // ---------- every run ----------

  predicate Follows(states: seq<World>, actions: seq<Action>, k: nat)
    requires k < |actions| < |states|
  {
    Enabled(states[k], actions[k]) && states[k + 1] == Step(states[k], actions[k])
  }

  /** A run may start on any disk whose session files are finished. */
  ghost predicate IsRun(states: seq<World>, actions: seq<Action>) {
    && |states| == |actions| + 1
    && Inv(states[0]) && states[0].calls == map[] && states[0].returned == []
    && forall k {:trigger Follows(states, actions, k)} :: 0 <= k < |actions| ==> Follows(states, actions, k)
  }

  lemma {:induction false} InvInEveryRun(states: seq<World>, actions: seq<Action>, i: nat)
    requires IsRun(states, actions) && i < |states|
    ensures Inv(states[i])
  {
    if i > 0 {
      assert Follows(states, actions, i - 1);
      InvInEveryRun(states, actions, i - 1);
      StepKeepsEntries(states[i - 1], actions[i - 1]);
      StepKeepsCalls(states[i - 1], actions[i - 1]);
      StepKeepsReturns(states[i - 1], actions[i - 1]);
    }
  }

  /**
   A crash at any point of any run leaves each session file absent, or with all the bytes of one
   write to that account.
   */
  lemma NeverPartial(states: seq<World>, actions: seq<Action>, i: nat, account: string, content: Option<string>)
    requires IsRun(states, actions) && i < |states|
    requires CrashMayExpose(states[i], account, content)
    ensures content.Some? ==> (account, content.value) in states[i].asked
  {
    InvInEveryRun(states, actions, i);
    assert Sound(states[i], SessionFile(account));
  }

  /** Without a crash a reader sees no less: the current file is finished too. */
  lemma ReadersSeeFinishedFiles(states: seq<World>, actions: seq<Action>, i: nat, account: string)
    requires IsRun(states, actions) && i < |states|
    ensures var current := Current(Look(states[i], SessionFile(account)));
            current.Some? ==> Complete(states[i], account, current.value)
  {
    InvInEveryRun(states, actions, i);
    assert Sound(states[i], SessionFile(account));
  }

  /**
   Once a call has returned nil, a crash exposes only the state its rename created or a
   later write or delete; and as long as there is no later one, exactly its bytes.
   */
  lemma ReturnedIsDurable(states: seq<World>, actions: seq<Action>, i: nat, r: nat)
    requires IsRun(states, actions) && i < |states| && r < |states[i].returned|
    ensures var w, ret := states[i], states[i].returned[r];
            var e := Look(w, SessionFile(ret.account));
            && ret.at <= e.durable < |e.states|
            && Renamed(w, ret.account, ret.raw, ret.at)
            && (|e.states| == ret.at + 1 ==>
                  forall content :: CrashMayExpose(w, ret.account, content) ==> content == Some(ret.raw))
  {
    InvInEveryRun(states, actions, i);
    assert Sound(states[i], SessionFile(states[i].returned[r].account));
  }

  // ---------- what changes a session file ----------

  /** This step installs a finished file under the account. */
  predicate Renames(w: World, a: Action, account: string) {
    && a.Advance? && a.c in w.calls && a.ok
    && w.calls[a.c].account == account && w.calls[a.c].stage.Renaming?
    && Current(Look(w, TempFile(w.calls[a.c].stage.inode))) == Some(w.calls[a.c].stage.inode)
  }

  /** This step syncs the directory. */
  predicate SyncsDirectory(w: World, a: Action) {
    || a.DirSync?
    || (a.Advance? && a.c in w.calls && a.ok
        && (w.calls[a.c].stage.FirstDirSync? || w.calls[a.c].stage.LastDirSync?))
  }

  /**
   An account's file comes to be by a rename to it and ends by a deletion of it; no other
   step, whichever account it is for, changes the entry's states.
   */
  lemma OnlyRenameAndDelete(w: World, a: Action, account: string)
    requires Enabled(w, a)
    ensures var before, after := Look(w, SessionFile(account)), Look(Step(w, a), SessionFile(account));
            after.states == before.states +
              if a == Delete(account) && Current(before).Some? then [None]
              else if Renames(w, a, account) then [Some(w.calls[a.c].stage.inode)]
              else []
  {
    if a.Advance? {
      match w.calls[a.c].stage
      case Renaming(_) =>
      case _ =>
    }
  }

  /** From a deletion on, until the next rename to the account, there is no file. */
  lemma {:induction false} DeletionHolds(states: seq<World>, actions: seq<Action>, i: nat, j: nat, account: string)
    requires IsRun(states, actions) && i < j <= |actions| && actions[i] == Delete(account)
    requires forall k :: i < k < j ==> !Renames(states[k], actions[k], account)
    ensures var e := Look(states[j], SessionFile(account));
            Current(e).None? && e.states == Look(states[i + 1], SessionFile(account)).states
  {
    assert Follows(states, actions, j - 1);
    OnlyRenameAndDelete(states[j - 1], actions[j - 1], account);
    if j > i + 1 {
      DeletionHolds(states, actions, i, j - 1, account);
    }
  }

  predicate Settled(e: Entry) {
    e.durable == |e.states| - 1
  }

  /** An entry that a step leaves as it is stays settled, and a directory sync settles it. */
  lemma StaysSettled(w: World, a: Action, n: Name)
    requires Inv(w) && Enabled(w, a) && Look(Step(w, a), n).states == Look(w, n).states
    requires SyncsDirectory(w, a) || Settled(Look(w, n))
    ensures Settled(Look(Step(w, a), n))
  {
    StepKeepsEntries(w, a);
    assert Sound(w, n) && Sound(Step(w, a), n);
    if !SyncsDirectory(w, a) {
      StepGrows(w, a);
    }
  }

  predicate SameStates(states: seq<World>, s: nat, k: nat, n: Name)
    requires s < |states| && k < |states|
  {
    Look(states[k], n).states == Look(states[s], n).states
  }

  /** What stays as it is from a directory sync on is settled. */
  lemma {:induction false} SyncSettles(states: seq<World>, actions: seq<Action>, s: nat, j: nat, n: Name)
    requires IsRun(states, actions) && s < j <= |actions| && SyncsDirectory(states[s], actions[s])
    requires forall k {:trigger SameStates(states, s, k, n)} :: s <= k <= j ==> SameStates(states, s, k, n)
    ensures Settled(Look(states[j], n))
  {
    if s < j - 1 {
      SyncSettles(states, actions, s, j - 1, n);
    }
    InvInEveryRun(states, actions, j - 1);
    assert Follows(states, actions, j - 1);
    assert SameStates(states, s, j - 1, n) && SameStates(states, s, j, n);
    StaysSettled(states[j - 1], actions[j - 1], n);
  }

  /** Once the directory was synced after the deletion, a crash exposes no file either. */
  lemma DeletionIsDurable(states: seq<World>, actions: seq<Action>, i: nat, s: nat, j: nat,
                          account: string, content: Option<string>)
    requires IsRun(states, actions) && i < s < j <= |actions| && actions[i] == Delete(account)
    requires SyncsDirectory(states[s], actions[s])
    requires forall k :: i < k < j ==> !Renames(states[k], actions[k], account)
    requires CrashMayExpose(states[j], account, content)
    ensures content.None?
  {
    forall k | s <= k <= j
      ensures SameStates(states, s, k, SessionFile(account))
    {
      DeletionHolds(states, actions, i, k, account);
      DeletionHolds(states, actions, i, s, account);
    }
    SyncSettles(states, actions, s, j, SessionFile(account));
    DeletionHolds(states, actions, i, j, account);
  }

  // ---------- what changes a temp file ----------

  /** The stage of the call that takes this step. */
  function StageOf(w: World, a: Action): Option<Stage>
    requires Enabled(w, a)
  {
    if a.Advance? then Some(w.calls[a.c].stage) else None
  }

  /**
   A temp name comes to be with its call's creation of it, and ends by that call's rename or
   its deferred removal, or by a sweep; no other step changes it.
   */
  lemma TempNamesExactly(w: World, a: Action, i: nat)
    requires Enabled(w, a)
    ensures var before, after, s := Look(w, TempFile(i)), Look(Step(w, a), TempFile(i)), StageOf(w, a);
            after.states == before.states +
              if s == Some(Creating) && a.ok && i == w.nextInode then [Some(i)]
              else if s == Some(Renaming(i)) && a.ok && Current(before) == Some(i) then [None]
              else if s.Some? && s.value.Cleaning? && s.value.inode == i && Current(before).Some? then [None]
              else if a == Sweep(i) && Current(before).Some? then [None]
              else []
  {
    if a.Advance? {
      match w.calls[a.c].stage
      case Creating =>
      case Renaming(_) =>
      case Cleaning(_, _, _) =>
      case _ =>
    }
  }

  /**
   A file's bytes are written by its own call, all of them or, when the write fails, any;
   they are durable from that call's sync on.
   */
  lemma FilesExactly(w: World, a: Action, i: nat)
    requires Enabled(w, a)
    ensures var v, s := Step(w, a), StageOf(w, a);
            if s == Some(Creating) && a.ok && i == w.nextInode then
              i in v.files && v.files[i] == File("", false) && v.nextInode == i + 1
            else if s == Some(Writing(i)) then
              i in v.files && v.files[i] == File(if a.ok then w.calls[a.c].raw else a.part, false)
            else
              && (i in v.files <==> i in w.files)
              && (i in v.files ==> v.files[i].bytes == w.files[i].bytes
                                   && (v.files[i].synced <==> w.files[i].synced || (s == Some(Syncing(i)) && a.ok)))
  {
  }

  /** Deletions, sweeps and directory syncs may come at any time; a call starts under a number that is free. */
  lemma EnabledExactly(w: World, c: nat, account: string, raw: string, inode: nat, ok: bool, part: string)
    ensures Enabled(w, Delete(account)) && Enabled(w, Sweep(inode)) && Enabled(w, DirSync)
    ensures Enabled(w, Start(c, account, raw)) <==> c !in w.calls
    ensures Enabled(w, Advance(c, ok, part)) <==> c in w.calls
  {
  }
}
