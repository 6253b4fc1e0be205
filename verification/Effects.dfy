/** What each request does to the stores, told on files, owners and dirty bits. */
module Effects {
  import opened Optional
  import opened Datastore
  import opened Engine
  import opened Session
  import opened Locks
  import opened Transaction
  import opened ConfirmedCommit

  predicate FreeFor(e: Entry, sid: nat) { e.owner == 0 || e.owner == sid }

  /** All is as it was but the store `d`, one of those a request may name. */
  ghost predicate OnlyStore(s: State, r: State, d: Db) {
    && r.(dbs := s.dbs) == s
    && (d != Candidate ==> r.dbs.candidate == s.dbs.candidate)
    && (d != Running ==> r.dbs.running == s.dbs.running)
    && (d != Startup ==> r.dbs.startup == s.dbs.startup)
    && r.dbs.rollback == s.dbs.rollback && r.dbs.failsafe == s.dbs.failsafe && r.dbs.tmp == s.dbs.tmp
  }

  /** A file opens, if it is there; but the candidate cannot be read once it has been emptied. */
  predicate Readable(s: State, d: Db) { s.dbs.Get(d).file.Holds? || (s.dbs.Get(d).file.Truncated? && d != Candidate) }

  /** What it reads as. */
  function Seen(s: State, d: Db): Config
    requires Readable(s, d)
  {
    if s.dbs.Get(d).file.Holds? then s.dbs.Get(d).file.config else Config(0, s.opts.emptyValid)
  }

  lemma ReadMeans(s: State, d: Db)
    ensures Read(s.dbs, d, s.opts) == if Readable(s, d) then Some(Seen(s, d)) else None
  {
  }

  // ----- locks

  /** A lock goes to the requester of a free store, unless it is a dirty candidate, or running with a session on record
  for a pending commit. A plugin that refuses does not give it back. */
  lemma LockEffect(s: State, sid: nat, d: Db, lockOk: bool)
    requires Enabled(s, Rpc(sid, RLock(d, lockOk)))
    ensures var r, e := Next(s, Rpc(sid, RLock(d, lockOk))), s.dbs.Get(d);
      var granted := e.owner == 0
        && !(d == Candidate && e.file.Holds? && e.modified)
        && !(d == Running && s.cc.state != Inactive && s.cc.sessionId != 0);
      OnlyStore(s, r, d) && r.dbs.Get(d) == if granted then Entry(e.file, sid, e.modified) else e
  {
    hide Unlock, EditConfig, CopyConfig, DeleteConfig, Commit, DiscardChanges, CancelCommit, KillSession, ReleaseAll;
  }

  /** The holder, and no other, frees the store. */
  lemma UnlockEffect(s: State, sid: nat, d: Db)
    requires Enabled(s, Rpc(sid, RUnlock(d)))
    ensures var r, e := Next(s, Rpc(sid, RUnlock(d))), s.dbs.Get(d);
      OnlyStore(s, r, d) && r.dbs.Get(d) == if e.owner == sid then Entry(e.file, 0, e.modified) else e
  {
    hide Lock, EditConfig, CopyConfig, DeleteConfig, Commit, DiscardChanges, CancelCommit, KillSession, ReleaseAll;
  }

  // ----- copy and delete

  lemma CopyIs(s: State, src: Db, d: Db)
    requires Nameable(d)
    ensures var r := CopyInto(s, src, d);
      && OnlyStore(s, r, d) && r.dbs.Get(d).owner == s.dbs.Get(d).owner
      && if Readable(s, src)
         then && Readable(r, d) && Seen(r, d) == Seen(s, src)
              && r.dbs.Get(d).modified == (s.dbs.Get(d).modified || d == Candidate)
         else r == s
  {
  }

  /** With automatic locking a request that writes a free candidate takes its lock first. */
  predicate LocksFirst(s: State, d: Db) { d == Candidate && s.opts.autolock && s.dbs.candidate.owner == 0 }

  predicate DirtyCandidate(s: State) { s.dbs.candidate.file.Holds? && s.dbs.candidate.modified }

  /** That fails on a dirty candidate, and if a plugin refuses. */
  predicate LockPasses(s: State, d: Db, lockOk: bool) { LocksFirst(s, d) ==> !DirtyCandidate(s) && lockOk }

  /** The owner it leaves, also if a plugin refuses. */
  function OwnerAfter(s: State, sid: nat, d: Db): nat {
    if LocksFirst(s, d) && !DirtyCandidate(s) then sid else s.dbs.Get(d).owner
  }

  lemma AutoLockIs(s: State, sid: nat, d: Db, lockOk: bool)
    requires Nameable(d)
    ensures var (r, ret) := AutoLock(s, sid, d, lockOk);
      && OnlyStore(s, r, d) && (ret == Ok <==> LockPasses(s, d, lockOk))
      && r.dbs.Get(d) == Entry(s.dbs.Get(d).file, OwnerAfter(s, sid, d), s.dbs.Get(d).modified)
      && (ret == Error <==> LocksFirst(s, d) && !DirtyCandidate(s) && !lockOk)
  {
  }

  /** A copy that is let through gives the target what the source reads, and makes a candidate dirty. No other changes
  any file. */
  lemma CopyEffect(s: State, sid: nat, src: Db, d: Db, lockOk: bool)
    requires Enabled(s, Rpc(sid, RCopy(src, d, lockOk)))
    ensures var r := Next(s, Rpc(sid, RCopy(src, d, lockOk)));
      && OnlyStore(s, r, d)
      && r.dbs.Get(d).owner == (if FreeFor(s.dbs.Get(d), sid) then OwnerAfter(s, sid, d) else s.dbs.Get(d).owner)
      && if FreeFor(s.dbs.Get(d), sid) && LockPasses(s, d, lockOk) && Readable(s, src)
         then && Readable(r, d) && Seen(r, d) == Seen(s, src)
              && r.dbs.Get(d).modified == (s.dbs.Get(d).modified || d == Candidate)
         else r.dbs.Get(d).file == s.dbs.Get(d).file && r.dbs.Get(d).modified == s.dbs.Get(d).modified
  {
    hide Lock, Unlock, EditConfig, DeleteConfig, Commit, DiscardChanges, CancelCommit, KillSession, ReleaseAll;
    hide CopyInto, AutoLock;
    AutoLockIs(s, sid, d, lockOk);
    CopyIs(AutoLock(s, sid, d, lockOk).0, src, d);
  }

  /** A deleted store is empty, free and dirty; running is never deleted. */
  lemma DeleteEffect(s: State, sid: nat, d: Db)
    requires Enabled(s, Rpc(sid, RDelete(d)))
    ensures var r := Next(s, Rpc(sid, RDelete(d)));
      && OnlyStore(s, r, d)
      && r.dbs.Get(d) ==
        if d != Running && FreeFor(s.dbs.Get(d), sid) then Entry(Truncated, 0, true) else s.dbs.Get(d)
  {
    hide Lock, Unlock, EditConfig, CopyConfig, Commit, DiscardChanges, CancelCommit, KillSession, ReleaseAll;
  }

  // ----- edits

  predicate EditWrites(s: State, sid: nat, d: Db, put: Option<Config>, lockOk: bool) {
    FreeFor(s.dbs.Get(d), sid) && LockPasses(s, d, lockOk) && put.Some?
  }

  /** The owner of a store that an edit does not write. A lock that a plugin refused stays. */
  function EditOwner(s: State, sid: nat, d: Db, lockOk: bool): nat {
    var id := if FreeFor(s.dbs.Get(d), sid) then OwnerAfter(s, sid, d) else s.dbs.Get(d).owner;
    if LocksFirst(s, d) && !DirtyCandidate(s) && !lockOk then id
    else if !s.dbs.Get(d).modified && s.opts.autolock && id == sid then 0
    else id
  }

  /** An edit that is let through leaves the edited configuration in its store, and the store dirty. Any other leaves it
  with its file and its dirty bit; an automatic lock is given back if nothing was changed. */
  lemma EditEffect(s: State, sid: nat, d: Db, put: Option<Config>, cb: Callbacks, lockOk: bool)
    requires Inv(s) && Enabled(s, Rpc(sid, REdit(d, put, false, cb, lockOk)))
    ensures var r, e := Next(s, Rpc(sid, REdit(d, put, false, cb, lockOk))), s.dbs.Get(d);
      && OnlyStore(s, r, d)
      && if EditWrites(s, sid, d, put, lockOk) then r.dbs.Get(d) == Entry(Holds(put.value), OwnerAfter(s, sid, d), true)
         else && r.dbs.Get(d).file == e.file && r.dbs.Get(d).modified == e.modified
              && r.dbs.Get(d).owner == EditOwner(s, sid, d, lockOk)
  {
    hide Lock, Unlock, CopyConfig, DeleteConfig, Commit, DiscardChanges, CancelCommit, KillSession, ReleaseAll;
    hide AutoCommit, UnwindAutoLock, AutoLock, Inv;
    AutoLockIs(s, sid, d, lockOk);
    var l := AutoLock(s, sid, d, lockOk);
    UnwindIs(s, sid, d);
    UnwindIs(l.0, sid, d);
    if put.Some? { UnwindIs(Session.Put(l.0, d, put.value), sid, d); }
  }

  lemma UnwindIs(s: State, sid: nat, d: Db)
    requires Nameable(d)
    ensures var r, e := UnwindAutoLock(s, sid, d), s.dbs.Get(d);
      && OnlyStore(s, r, d)
      && r.dbs.Get(d) == e.(owner := if !e.modified && s.opts.autolock && e.owner == sid then 0 else e.owner)
  {
  }

  lemma SamePasses(s: State, t: State, d: Db, cb: Callbacks)
    requires s.opts == t.opts && s.dbs.running == t.dbs.running && s.dbs.Get(d).file == t.dbs.Get(d).file
    ensures Passes(s, d, cb) == Passes(t, d, cb)
  {
  }

  lemma AutoCommitIs(s: State, sid: nat, d: Db, c: Config, cb: Callbacks)
    requires !s.dbs.running.file.Absent? && Nameable(d) && d != Running
    requires s.dbs.Get(d).file == Holds(c) && s.dbs.Get(d).modified
    ensures var r := AutoCommit(s, sid, d, cb);
      && r.dbs.Get(d).owner == s.dbs.Get(d).owner && r.opts == s.opts
      && if s.cc.state == Persistent then r == s
         else
           && r.cc.state == Inactive && Exists(r.dbs, Rollback) == (s.cc.state == Inactive && Exists(s.dbs, Rollback))
           && if Passes(s, d, cb) && PluginsAgree(cb)
              then r.dbs.Get(d).file == Holds(c) && r.dbs.running.file == Holds(c) && !r.dbs.Get(d).modified
              else && r.dbs.running == s.dbs.running && r.dbs.Get(d).modified
                   && Readable(r, d) && Seen(r, d) == Seen(s, Running)
  {
    hide CandidateCommit, Passes;
    if s.cc.state != Persistent {
      var s1 := AutoCommitStart(s);
      SamePasses(s1, s, d, cb);
      CommitFrame(s1, None, d, sid, cb);
      CommitOutcome(s1, None, d, sid, cb);
      CommitClears(s1, d, sid, cb);
    }
  }

  lemma CommitClears(s: State, d: Db, sid: nat, cb: Callbacks)
    requires d != Running
    ensures var r := CandidateCommit(s, None, d, sid, cb); r.ret == Ok ==> !r.st.dbs.Get(d).modified
  {
    hide ValidateCommon;
  }

  /** One that commits at once, and not under a persistent confirmed commit, ends a pending one. It leaves its store and
  running alike: with the edited configuration if the commit succeeds, and with what running held if not. */
  lemma AutoCommitEffect(s: State, sid: nat, d: Db, c: Config, cb: Callbacks, lockOk: bool)
    requires Inv(s) && Enabled(s, Rpc(sid, REdit(d, Some(c), true, cb, lockOk))) && d != Running
    requires EditWrites(s, sid, d, Some(c), lockOk)
    ensures var r := Next(s, Rpc(sid, REdit(d, Some(c), true, cb, lockOk)));
      var p := Session.Put(s, d, c);
      if s.cc.state == Persistent then r.cc == s.cc && r.dbs.Get(d).file == Holds(c) && r.dbs.running == s.dbs.running
      else
        && r.cc.state == Inactive && Exists(r.dbs, Rollback) == (s.cc.state == Inactive && Exists(s.dbs, Rollback))
        && (if Passes(p, d, cb) && PluginsAgree(cb)
            then && r.dbs.Get(d).file == Holds(c) && r.dbs.running.file == Holds(c)
                 && !r.dbs.Get(d).modified
                 && var id := OwnerAfter(s, sid, d);
                    r.dbs.Get(d).owner == if s.opts.autolock && id == sid then 0 else id
            else && r.dbs.running.file == s.dbs.running.file && r.dbs.Get(d).modified
                 && Readable(r, d) && Seen(r, d) == Seen(s, Running))
  {
    hide Lock, Unlock, CopyConfig, DeleteConfig, Commit, DiscardChanges, CancelCommit, KillSession, ReleaseAll;
    hide AutoCommit, UnwindAutoLock, Passes, Inv, AutoLock;
    InvParts(s);
    AutoLockIs(s, sid, d, lockOk);
    var l := AutoLock(s, sid, d, lockOk);
    var q := Session.Put(l.0, d, c);
    SamePasses(q, Session.Put(s, d, c), d, cb);
    AutoCommitIs(q, sid, d, c, cb);
    UnwindIs(AutoCommit(q, sid, d, cb), sid, d);
  }

  /** An edit of running itself is in place before it is committed, and stays if the commit fails. */
  lemma AutoCommitRunning(s: State, sid: nat, c: Config, cb: Callbacks, lockOk: bool)
    requires Inv(s) && Enabled(s, Rpc(sid, REdit(Running, Some(c), true, cb, lockOk))) && FreeFor(s.dbs.running, sid)
    ensures var r := Next(s, Rpc(sid, REdit(Running, Some(c), true, cb, lockOk)));
      && r.dbs.running.file == Holds(c)
      && (r.cc.state == if s.cc.state == Persistent then Persistent else Inactive)
  {
    hide Lock, Unlock, CopyConfig, DeleteConfig, Commit, DiscardChanges, CancelCommit, KillSession, ReleaseAll;
    hide AutoCommit, UnwindAutoLock;
    var q := Session.Put(s, Running, c);
    UnwindIs(AutoCommit(q, sid, Running, cb), sid, Running);
    RunningOverItself(q, sid, c, cb);
  }

  lemma RunningOverItself(s: State, sid: nat, c: Config, cb: Callbacks)
    requires s.dbs.running.file == Holds(c)
    ensures var r := AutoCommit(s, sid, Running, cb);
      r.dbs.running.file == Holds(c) && r.cc.state == if s.cc.state == Persistent then Persistent else Inactive
  {
    hide CandidateCommit;
    CommitFrame(AutoCommitStart(s), None, Running, sid, cb);
  }

  // ----- commit, discard and cancel

  lemma PassesReads(s: State, cb: Callbacks)
    ensures Passes(s, Candidate, cb) ==> s.dbs.candidate.file.Holds?
  {
  }

  /** Discarding gives the candidate what running reads, clean, and free with automatic locking. */
  lemma DiscardEffect(s: State, sid: nat)
    requires Inv(s) && Enabled(s, Rpc(sid, RDiscard))
    ensures var r, e := Next(s, Rpc(sid, RDiscard)), s.dbs.candidate;
      && OnlyStore(s, r, Candidate)
      && r.dbs.candidate ==
        if FreeFor(e, sid) then Entry(Holds(Seen(s, Running)), if s.opts.autolock then 0 else e.owner, false) else e
  {
    hide Lock, Unlock, EditConfig, CopyConfig, DeleteConfig, Commit, CancelCommit, KillSession, ReleaseAll;
  }

  /** Cancelling is for the session on record of an ephemeral commit, without a persist-id, and for anyone who has the
  persist-id of a persistent one. From any other nothing changes. */
  lemma CancelEnds(s: State, sid: nat, pid: Option<Option<string>>, rb: Callbacks, fs: Callbacks)
    requires Inv(s) && Enabled(s, Rpc(sid, RCancel(pid, rb, fs)))
    ensures var r := Next(s, Rpc(sid, RCancel(pid, rb, fs)));
      if (s.cc.state == Ephemeral && pid == None && sid == s.cc.sessionId)
         || (s.cc.state == Persistent && pid == Some(s.cc.persistId))
      then && r.cc == Confirm(Inactive, if s.cc.state == Persistent then None else s.cc.persistId, s.cc.sessionId)
           && !Exists(r.dbs, Rollback) && r.timers == (if s.timers == 0 then 0 else s.timers - 1)
      else r == s
  {
    hide DoRollback, RollbackCommit, Inv;
    InvParts(s);
    RollbackFrame(s.(timers := CancelTimer(s.timers)), rb, fs);
  }

  // ----- confirming

  /** Who may confirm: the session on record of an ephemeral commit, and anyone who has the persist-id of a persistent
  one. */
  predicate MayConfirm(s: State, sid: nat, a: CommitArgs) {
    || (s.cc.state == Ephemeral && sid == s.cc.sessionId)
    || (s.cc.state == Persistent && a.persistId == Some(s.cc.persistId))
  }

  /** A commit that asks for no confirmation ends the pending one exactly if it may confirm it; then only the timer, the
  rollback store and the record change. */
  lemma ConfirmEnds(s: State, sid: nat, a: CommitArgs, cb: Callbacks)
    requires Inv(s) && Machine(s) && Pending(s) && Enabled(s, Rpc(sid, RCommit(a, cb))) && !a.confirmed
    ensures var r := Next(s, Rpc(sid, RCommit(a, cb)));
      && (r.cc.state == Inactive <==> MayConfirm(s, sid, a))
      && (if MayConfirm(s, sid, a)
          then && r.cc == Confirm(Inactive, if s.cc.state == Persistent then None else s.cc.persistId, s.cc.sessionId)
               && r.timers == 0 && !Exists(r.dbs, Rollback)
               && r.dbs == s.dbs.(rollback := r.dbs.rollback)
          else r.cc == s.cc && r.timers == s.timers)
  {
    hide CandidateCommit, ValidateCommon, Inv;
    InvParts(s);
    CommitFrame(s, Some(a), Candidate, sid, cb);
  }

  /** A commit that does not just confirm: running becomes the candidate, which is then clean, if that passes and the
  plugins agree, and both stay as they are if not. */
  lemma CommitEffect(s: State, sid: nat, a: CommitArgs, cb: Callbacks)
    requires Inv(s) && Enabled(s, Rpc(sid, RCommit(a, cb))) && (a.confirmed || !MayConfirm(s, sid, a))
    ensures var r := Next(s, Rpc(sid, RCommit(a, cb)));
      && r.clients == s.clients && r.dbs.startup.file == s.dbs.startup.file
      && (s.cc.state == Inactive && !a.confirmed ==> r.cc == s.cc && r.timers == s.timers)
      && if FreeFor(s.dbs.candidate, sid) && FreeFor(s.dbs.running, sid) && Passes(s, Candidate, cb) && PluginsAgree(cb)
         then && r.dbs.running.file == s.dbs.candidate.file && r.dbs.candidate.file == s.dbs.candidate.file
              && !r.dbs.candidate.modified
              && r.dbs.candidate.owner == (if s.opts.autolock then 0 else s.dbs.candidate.owner)
         else r.dbs.running == s.dbs.running && r.dbs.candidate == s.dbs.candidate
  {
    hide Lock, Unlock, EditConfig, CopyConfig, DeleteConfig, DiscardChanges, CancelCommit, KillSession, ReleaseAll;
    hide CandidateCommit, Passes, ValidateCommon;
    PhaseTwoFrame(s, Some(a), sid);
    CommitFrame(s, Some(a), Candidate, sid, cb);
    CommitOutcome(s, Some(a), Candidate, sid, cb);
    PassesReads(s, cb);
  }

  /** A commit that asks for confirmation and reaches the second phase is on record from then on, for the session, or
  for the persist-id it brings. Running is saved if no rollback store exists, and its timer is one more, in place of the
  one it may confirm. */
  lemma ConfirmedEffect(s: State, sid: nat, a: CommitArgs, cb: Callbacks)
    requires Inv(s) && Enabled(s, Rpc(sid, RCommit(a, cb))) && a.confirmed && ReachesPhaseTwo(s, sid, a, cb)
    ensures var r := Next(s, Rpc(sid, RCommit(a, cb)));
      && (if a.persist.Some? then r.cc.state == Persistent && r.cc.persistId == a.persist.value
          else r.cc.state == Ephemeral && r.cc.sessionId == sid)
      && r.timers == (if MayConfirm(s, sid, a) && s.timers > 0 then s.timers else s.timers + 1)
      && r.dbs.rollback.file == (if s.dbs.rollback.file.Holds? then s.dbs.rollback.file else s.dbs.running.file)
  {
    hide CandidateCommit, ValidateCommon;
    CommitFrame(s, Some(a), Candidate, sid, cb);
  }

  // ----- end of session

  /** A listed store of the session is unlocked unless a plugin refused for one listed before it. */
  ghost predicate SweptAt(t: Table, keys: seq<Db>, id: nat, bad: set<Db>, d: Db, i: nat) {
    && i < |keys| && keys[i] == d && t.Get(d).owner == id
    && forall j :: 0 <= j < i ==> !(keys[j] in bad && t.Get(keys[j]).owner == id)
  }

  lemma {:induction false} SweepExact(t: Table, keys: seq<Db>, id: nat, bad: set<Db>, d: Db)
    requires id != 0
    ensures Sweep(t, keys, id, bad).Get(d) ==
      if exists i: nat :: SweptAt(t, keys, id, bad, d, i) then t.Get(d).(owner := 0) else t.Get(d)
    decreases |keys|
  {
    if keys != [] {
      var k := keys[0];
      var hit := t.Get(k).owner == id;
      var t1 := if hit then SetOwner(t, k, 0) else t;
      if !(hit && k in bad) { SweepExact(t1, keys[1..], id, bad, d); }
      SweptNext(t, keys, id, bad, d);
    }
  }

  lemma SweptNext(t: Table, keys: seq<Db>, id: nat, bad: set<Db>, d: Db)
    requires id != 0 && keys != []
    ensures var k := keys[0]; var hit := t.Get(k).owner == id; var t1 := if hit then SetOwner(t, k, 0) else t;
      (exists i: nat :: SweptAt(t, keys, id, bad, d, i)) <==>
        (hit && k == d) || (!(hit && k in bad) && exists i: nat :: SweptAt(t1, keys[1..], id, bad, d, i))
  {
    var k := keys[0];
    var hit := t.Get(k).owner == id;
    var t1 := if hit then SetOwner(t, k, 0) else t;
    if hit && k == d { assert SweptAt(t, keys, id, bad, d, 0); }
    if i: nat :| SweptAt(t, keys, id, bad, d, i) {
      if i > 0 && !(hit && k == d) { assert SweptAt(t1, keys[1..], id, bad, d, i - 1); }
    }
    if !(hit && k in bad) {
      if i: nat :| SweptAt(t1, keys[1..], id, bad, d, i) {
        assert forall j :: 0 < j < i + 1 ==> keys[j] == keys[1..][j - 1];
        assert SweptAt(t, keys, id, bad, d, i + 1);
      }
    }
  }

  /** With automatic locking a session that ends while it holds the candidate takes its changes with it. */
  lemma CloseDiscards(s: State, sid: nat, keys: seq<Db>, bad: set<Db>)
    requires Inv(s) && Enabled(s, Rpc(sid, RClose(keys, bad)))
    ensures var r := Next(s, Rpc(sid, RClose(keys, bad)));
      if s.opts.autolock && s.dbs.candidate.owner == sid
      then r.dbs.candidate.file == Holds(Seen(s, Running)) && !r.dbs.candidate.modified
      else r.dbs.candidate.file == s.dbs.candidate.file && r.dbs.candidate.modified == s.dbs.candidate.modified
  {
    var c := Copy(s.dbs, Running, Candidate, s.opts);
    var t := if c.None? then s.dbs else SetModified(c.value, Candidate, false);
    SweepEffect(if s.opts.autolock && s.dbs.candidate.owner == sid then t else s.dbs, keys, sid, bad, Candidate);
  }
}
