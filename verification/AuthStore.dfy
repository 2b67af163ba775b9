/**
 The session store as code: the disk calls of WriteAuth, DeleteAuth and the temp-file
 removal, each proved to be the step of the crash model it stands for, and one whole
 WriteAuth call with its early returns and its deferred cleanup.
 */
module AuthStore {
  import opened Wrappers
  import opened WriteAuth
  import Accounts

  /**
   Position of a stage in an undisturbed call; `ok(k)` is the outcome of its disk call.
   The first stands for preparing the directory and creating the temp file.
   */
  function Rank(s: Stage): nat {
    match s
    case Creating => 0
    case Writing(_) => 1
    case Chmodding(_) => 2
    case Syncing(_) => 3
    case Closing(_) => 4
    case FirstDirSync(_) => 5
    case Renaming(_) => 6
    case LastDirSync(_, _) => 7
    case Cleaning(_, _, _) => 8
  }

  /** Call c carried on to its end with nothing in between. */
  function Alone(w: World, c: nat, ok: nat -> bool, part: string): World
    decreases if c in w.calls then 9 - Rank(w.calls[c].stage) else 0
  {
    if c in w.calls then Alone(Advanced(w, c, ok(Rank(w.calls[c].stage)), part), c, ok, part) else w
  }

  lemma AloneStep(w: World, c: nat, ok: nat -> bool, part: string)
    requires c in w.calls
    ensures Alone(w, c, ok, part) == Alone(Advanced(w, c, ok(Rank(w.calls[c].stage)), part), c, ok, part)
  {
  }

  class Store {
    var files: map<nat, File>
    var entries: map<Name, Entry>
    var nextInode: nat

    ghost var asked: set<(string, string)>
    ghost var returned: seq<Return>
    ghost var calls: map<nat, Call>

    ghost function View(): World
      reads this
    {
      World(files, entries, nextInode, asked, returned, calls)
    }

    ghost predicate At(c: nat, call: Call)
      reads this
    {
      c in calls && calls[c] == call
    }

    method SetEntry(n: Name, state: Option<nat>)
      modifies this`entries
      ensures View() == Put(old(View()), n, state)
    {
      var e := if n in entries then entries[n] else ABSENT;
      entries := entries[n := e.(states := e.states + [state])];
    }

    /** os.Remove, which fails harmlessly on a missing name. */
    method Remove(n: Name)
      modifies this`entries
      ensures View() == Unlink(old(View()), n)
    {
      if n in entries && Current(entries[n]).Some? {
        SetEntry(n, None);
      }
    }

    method SyncDir()
      modifies this`entries
      ensures View() == Flushed(old(View()))
    {
      entries := map n | n in entries :: Synced(entries[n]);
    }

    /** os.CreateTemp: a name never used before. */
    method CreateTemp(ghost c: nat, ghost call: Call, ghost part: string) returns (inode: nat)
      requires At(c, call) && call.stage.Creating?
      modifies this
      ensures View() == Advanced(old(View()), c, true, part) && At(c, call.(stage := Writing(inode)))
    {
      inode := nextInode;
      files, nextInode := files[inode := File("", false)], nextInode + 1;
      SetEntry(TempFile(inode), Some(inode));
      calls := calls[c := call.(stage := Writing(inode))];
    }

    method Write(inode: nat, raw: string, ok: bool, part: string, ghost c: nat, ghost call: Call)
      requires At(c, call) && call.stage == Writing(inode) && call.raw == raw
      modifies this`files, this`calls
      ensures View() == Advanced(old(View()), c, ok, part)
      ensures At(c, call.(stage := if ok then Chmodding(inode) else Cleaning(inode, false, 0)))
    {
      files := files[inode := File(if ok then raw else part, false)];
      calls := calls[c := call.(stage := if ok then Chmodding(inode) else Cleaning(inode, false, 0))];
    }

    /** Chmod and Close change no bytes. */
    ghost method Pass(ok: bool, part: string, c: nat, call: Call, next: Stage)
      requires At(c, call) && HasInode(call.stage)
      requires (call.stage.Chmodding? && next == Syncing(call.stage.inode))
              || (call.stage.Closing? && next == FirstDirSync(call.stage.inode))
      modifies this`calls
      ensures View() == Advanced(old(View()), c, ok, part)
      ensures At(c, call.(stage := if ok then next else Cleaning(call.stage.inode, false, 0)))
    {
      calls := calls[c := call.(stage := if ok then next else Cleaning(call.stage.inode, false, 0))];
    }

    method Sync(inode: nat, ok: bool, ghost part: string, ghost c: nat, ghost call: Call) returns (done: bool)
      requires At(c, call) && call.stage == Syncing(inode)
      modifies this`files, this`calls
      ensures View() == Advanced(old(View()), c, ok, part)
      ensures At(c, call.(stage := if done then Closing(inode) else Cleaning(inode, false, 0)))
    {
      done := ok && inode in files;
      if done {
        files := files[inode := files[inode].(synced := true)];
      }
      calls := calls[c := call.(stage := if done then Closing(inode) else Cleaning(inode, false, 0))];
    }

    method FirstSync(inode: nat, ok: bool, ghost part: string, ghost c: nat, ghost call: Call)
      requires At(c, call) && call.stage == FirstDirSync(inode)
      modifies this`entries, this`calls
      ensures View() == Advanced(old(View()), c, ok, part)
      ensures At(c, call.(stage := if ok then Renaming(inode) else Cleaning(inode, false, 0)))
    {
      if ok {
        SyncDir();
      }
      calls := calls[c := call.(stage := if ok then Renaming(inode) else Cleaning(inode, false, 0))];
    }

    /** os.Rename: fails when the temp name is gone. */
    method Rename(inode: nat, account: string, ok: bool, ghost part: string, ghost c: nat, ghost call: Call)
      returns (done: bool, ghost at: nat)
      requires At(c, call) && call.stage == Renaming(inode) && call.account == account
      modifies this`entries, this`calls
      ensures View() == Advanced(old(View()), c, ok, part)
      ensures At(c, call.(stage := if done then LastDirSync(inode, at) else Cleaning(inode, false, 0)))
    {
      var temp := if TempFile(inode) in entries then Current(entries[TempFile(inode)]) else None;
      done := ok && temp == Some(inode);
      at := |Look(View(), SessionFile(account)).states|;
      if done {
        SetEntry(SessionFile(account), Some(inode));
        SetEntry(TempFile(inode), None);
      }
      calls := calls[c := call.(stage := if done then LastDirSync(inode, at) else Cleaning(inode, false, 0))];
    }

    method LastSync(inode: nat, ok: bool, ghost part: string, ghost c: nat, ghost call: Call)
      requires At(c, call) && call.stage.LastDirSync? && call.stage.inode == inode
      modifies this`entries, this`calls
      ensures View() == Advanced(old(View()), c, ok, part)
      ensures At(c, call.(stage := Cleaning(inode, ok, call.stage.at)))
    {
      if ok {
        SyncDir();
      }
      calls := calls[c := call.(stage := Cleaning(inode, ok, call.stage.at))];
    }

    /** The body between the temp file's creation and the deferred removal. */
    method Publish(inode: nat, account: string, raw: string, ok: nat -> bool, part: string, ghost c: nat)
      returns (nil: bool)
      requires At(c, Call(account, raw, Writing(inode)))
      modifies this
      ensures Alone(View(), c, ok, part) == Alone(old(View()), c, ok, part)
      ensures c in calls && calls[c].stage.Cleaning? && calls[c].stage.inode == inode && calls[c].stage.ok == nil
      ensures returned == old(returned)
    {
      AloneStep(View(), c, ok, part);
      Write(inode, raw, ok(1), part, c, calls[c]);
      if !ok(1) {
        return false;
      }
      AloneStep(View(), c, ok, part);
      Pass(ok(2), part, c, calls[c], Syncing(inode));
      if !ok(2) {
        return false;
      }
      nil := Flush(inode, account, raw, ok, part, c);
    }

    /** File sync, close, and on to the directory. */
    method Flush(inode: nat, account: string, raw: string, ok: nat -> bool, part: string, ghost c: nat)
      returns (nil: bool)
      requires At(c, Call(account, raw, Syncing(inode)))
      modifies this
      ensures Alone(View(), c, ok, part) == Alone(old(View()), c, ok, part)
      ensures c in calls && calls[c].stage.Cleaning? && calls[c].stage.inode == inode && calls[c].stage.ok == nil
      ensures returned == old(returned)
    {
      AloneStep(View(), c, ok, part);
      var synced := Sync(inode, ok(3), part, c, calls[c]);
      if !synced {
        return false;
      }
      AloneStep(View(), c, ok, part);
      Pass(ok(4), part, c, calls[c], FirstDirSync(inode));
      if !ok(4) {
        return false;
      }
      nil := Install(inode, account, raw, ok, part, c);
    }

    /** Directory sync, rename, directory sync. */
    method Install(inode: nat, account: string, raw: string, ok: nat -> bool, part: string, ghost c: nat)
      returns (nil: bool)
      requires At(c, Call(account, raw, FirstDirSync(inode)))
      modifies this
      ensures Alone(View(), c, ok, part) == Alone(old(View()), c, ok, part)
      ensures c in calls && calls[c].stage.Cleaning? && calls[c].stage.inode == inode && calls[c].stage.ok == nil
      ensures returned == old(returned)
    {
      AloneStep(View(), c, ok, part);
      FirstSync(inode, ok(5), part, c, calls[c]);
      if !ok(5) {
        return false;
      }
      AloneStep(View(), c, ok, part);
      var renamed, at := Rename(inode, account, ok(6), part, c, calls[c]);
      if !renamed {
        return false;
      }
      AloneStep(View(), c, ok, part);
      LastSync(inode, ok(7), part, c, calls[c]);
      nil := ok(7);
    }

    /** One whole call, run with nothing in between; a name the store refuses touches nothing. */
    method WriteAuth(account: string, raw: string, ok: nat -> bool, part: string, ghost c: nat) returns (nil: bool)
      requires c !in calls
      modifies this
      ensures View() == if Accounts.AccountFile(account).None? then old(View())
                        else Alone(Step(old(View()), Start(c, account, raw)), c, ok, part)
      ensures |returned| == |old(returned)| + if nil then 1 else 0
    {
      if Accounts.AccountFile(account).None? {
        return false;
      }
      asked, calls := asked + {(account, raw)}, calls[c := Call(account, raw, Creating)];
      AloneStep(View(), c, ok, part);
      if !ok(0) {
        calls := calls - {c};
        return false;
      }
      var inode := CreateTemp(c, calls[c], part);
      nil := Publish(inode, account, raw, ok, part, c);
      AloneStep(View(), c, ok, part);
      Clean(inode, nil, ok(8), part, c, calls[c]);
    }

    /** The deferred removal. */
    method Clean(inode: nat, nil: bool, ghost ok: bool, ghost part: string, ghost c: nat, ghost call: Call)
      requires At(c, call) && call.stage.Cleaning? && call.stage.inode == inode && call.stage.ok == nil
      modifies this
      ensures View() == Advanced(old(View()), c, ok, part)
      ensures c !in calls && |returned| == |old(returned)| + if nil then 1 else 0
    {
      Remove(TempFile(inode));
      calls := calls - {c};
      if nil {
        returned := returned + [Return(call.account, call.raw, call.stage.at)];
      }
    }

    /** DeleteAuth: a missing file is fine, any other failure to remove ends the call before the directory sync. */
    method DeleteAuth(account: string, removable: bool, syncs: bool) returns (nil: bool)
      modifies this`entries
      ensures View() == if Accounts.AccountFile(account).None? || !removable then old(View())
                        else if syncs then Step(Step(old(View()), Delete(account)), DirSync)
                        else Step(old(View()), Delete(account))
      ensures nil == (Accounts.AccountFile(account).Some? && removable && syncs)
      ensures nil ==> Current(Look(View(), SessionFile(account))).None?
      ensures nil ==> forall content :: CrashMayExpose(View(), account, content) ==> content.None?
      ensures forall n :: n != SessionFile(account) ==> Look(View(), n).states == Look(old(View()), n).states
      ensures !removable ==> entries == old(entries)
    {
      if Accounts.AccountFile(account).None? || !removable {
        return false;
      }
      Remove(SessionFile(account));
      if syncs {
        SyncDir();
      }
      nil := syncs;
    }
  }

  // ---------- what one call comes to ----------

  predicate AllGood(ok: nat -> bool, from: nat, to: nat) {
    forall k :: from <= k <= to ==> ok(k)
  }

  /** The call returns nil. */
  predicate Succeeds(ok: nat -> bool, s: Stage) {
    if s.Cleaning? then s.ok else AllGood(ok, Rank(s), 7)
  }

  /** The rename is still to come, and it happens. */
  predicate Installs(ok: nat -> bool, s: Stage) {
    Rank(s) <= 6 && AllGood(ok, Rank(s), 6)
  }

  function Inode(w: World, s: Stage): nat {
    if s.Creating? then w.nextInode else s.inode
  }

  function States(w: World, account: string): seq<Option<nat>> {
    Look(w, SessionFile(account)).states
  }

  /** An undisturbed call finds its temp file, and the session entry as it left it. */
  predicate Ready(w: World, call: Call) {
    match call.stage
    case Creating => true
    case LastDirSync(_, at) => |States(w, call.account)| == at + 1
    case Cleaning(_, ok, at) => ok ==> |States(w, call.account)| == at + 1
    case _ => Current(Look(w, TempFile(call.stage.inode))) == Some(call.stage.inode)
  }

  /** What one step of an undisturbed call, not its last, leads to. */
  predicate Stepped(w: World, call: Call, o: bool, v: World, next: Call) {
    && next == call.(stage := next.stage) && Ready(v, next)
    && Inode(v, next.stage) == Inode(w, call.stage) && !next.stage.Creating?
    && (if o then Rank(next.stage) == Rank(call.stage) + 1 && (call.stage.LastDirSync? ==> next.stage.ok)
        else next.stage.Cleaning? && !next.stage.ok)
    && v.returned == w.returned
    && States(v, call.account) == States(w, call.account)
        + (if o && call.stage.Renaming? then [Some(call.stage.inode)] else [])
  }

  lemma ReadyStep(w: World, c: nat, o: bool, part: string)
    requires Inv(w) && c in w.calls && Ready(w, w.calls[c]) && !w.calls[c].stage.Cleaning?
            && (w.calls[c].stage.Creating? ==> o)
    ensures var v := Advanced(w, c, o, part);
            && c in v.calls && Stepped(w, w.calls[c], o, v, v.calls[c])
            && forall a :: a != w.calls[c].account ==> States(v, a) == States(w, a)
  {
    assert Progress(w, w.calls[c]);
  }

  lemma AdvancedKeepsInv(w: World, c: nat, o: bool, part: string)
    requires Inv(w) && c in w.calls
    ensures Inv(Advanced(w, c, o, part))
  {
    StepKeepsEntries(w, Advance(c, o, part));
    StepKeepsCalls(w, Advance(c, o, part));
    StepKeepsReturns(w, Advance(c, o, part));
  }

  /** The call has returned nil, and the state its rename created is the current one. */
  predicate Returned(w: World, call: Call, v: World) {
    && States(v, call.account) != []
    && v.returned == w.returned + [Return(call.account, call.raw, |States(v, call.account)| - 1)]
  }

  /** What a call at this stage comes to. */
  predicate Outcome(w: World, call: Call, ok: nat -> bool, v: World) {
    && States(v, call.account) == States(w, call.account)
        + (if Installs(ok, call.stage) then [Some(Inode(w, call.stage))] else [])
    && (if Succeeds(ok, call.stage) then Returned(w, call, v) else v.returned == w.returned)
    && (!call.stage.Creating? || ok(0) ==> Current(Look(v, TempFile(Inode(w, call.stage)))).None?)
  }

  lemma OutcomeCarries(w: World, call: Call, ok: nat -> bool, u: World, next: Call, v: World)
    requires !call.stage.Cleaning? && Stepped(w, call, ok(Rank(call.stage)), u, next) && Outcome(u, next, ok, v)
    ensures Outcome(w, call, ok, v)
  {
    var r := Rank(call.stage);
    assert AllGood(ok, r, 6) <==> r > 6 || (ok(r) && AllGood(ok, r + 1, 6));
    assert AllGood(ok, r, 7) <==> ok(r) && AllGood(ok, r + 1, 7);
    assert r == 7 ==> AllGood(ok, r + 1, 7);
  }

  lemma LastStep(w: World, c: nat, ok: nat -> bool, part: string)
    requires c in w.calls && Ready(w, w.calls[c])
    requires w.calls[c].stage.Cleaning? || (w.calls[c].stage.Creating? && !ok(0))
    ensures var v := Advanced(w, c, ok(Rank(w.calls[c].stage)), part);
            c !in v.calls && Outcome(w, w.calls[c], ok, v) && forall a :: a != w.calls[c].account ==>
                States(v, a) == States(w, a)
  {
  }

  lemma {:induction false} AloneOutcome(w: World, c: nat, ok: nat -> bool, part: string)
    requires Inv(w) && c in w.calls && Ready(w, w.calls[c])
    ensures var v := Alone(w, c, ok, part);
            && Inv(v) && c !in v.calls && Outcome(w, w.calls[c], ok, v)
            && forall a :: a != w.calls[c].account ==> States(v, a) == States(w, a)
    decreases 9 - Rank(w.calls[c].stage)
  {
    var call, o := w.calls[c], ok(Rank(w.calls[c].stage));
    var u := Advanced(w, c, o, part);
    AloneStep(w, c, ok, part);
    AdvancedKeepsInv(w, c, o, part);
    if call.stage.Cleaning? || (call.stage.Creating? && !o) {
      LastStep(w, c, ok, part);
      assert Alone(u, c, ok, part) == u;
    } else {
      ReadyStep(w, c, o, part);
      AloneOutcome(u, c, ok, part);
      OutcomeCarries(w, call, ok, u, u.calls[c], Alone(u, c, ok, part));
    }
  }

  /**
   One WriteAuth from its start to its end: it returns nil exactly when all eight disk
   calls succeed, and then its bytes are what a crash exposes; the session entry changes
   exactly when the first seven succeed, and no other account's entry ever does; its temp
   file is gone.
   */
  lemma WriteAuthOutcome(w: World, c: nat, account: string, raw: string, ok: nat -> bool, part: string,
                         content: Option<string>)
    requires Inv(w) && c !in w.calls
    ensures var v := Alone(Step(w, Start(c, account, raw)), c, ok, part);
            && Inv(v)
            && States(v, account) == States(w, account) + (if AllGood(ok, 0, 6) then [Some(w.nextInode)] else [])
            && (forall a :: a != account ==> States(v, a) == States(w, a))
            && (ok(0) ==> Current(Look(v, TempFile(w.nextInode))).None?)
            && |v.returned| == |w.returned| + (if AllGood(ok, 0, 7) then 1 else 0)
            && (AllGood(ok, 0, 7) && CrashMayExpose(v, account, content) ==> content == Some(raw))
  {
    var started := Step(w, Start(c, account, raw));
    StepKeepsEntries(w, Start(c, account, raw));
    StepKeepsCalls(w, Start(c, account, raw));
    StepKeepsReturns(w, Start(c, account, raw));
    AloneOutcome(started, c, ok, part);
    var v := Alone(started, c, ok, part);
    if AllGood(ok, 0, 7) {
      assert v.returned[|w.returned|] == Return(account, raw, |States(v, account)| - 1);
      assert Sound(v, SessionFile(account));
    }
  }
}
