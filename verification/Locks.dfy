/** What every step of the backend keeps, with no assumption on the run: session order, confirmed-commit
ownership, and how lock ownership may move. */
module Locks {
  import opened Optional
  import opened Datastore
  import opened Engine
  import opened Session

  ghost predicate NewestFirst(clients: seq<nat>, nextId: nat) {
    && (forall i :: 0 <= i < |clients| ==> 1 <= clients[i] < nextId)
    && (forall i, j :: 0 <= i < j < |clients| ==> clients[i] > clients[j])
  }

  ghost predicate Inv(s: State) {
    && NewestFirst(s.clients, s.nextId)
    && 1 <= s.nextId
    && !s.dbs.running.file.Absent?
    && s.cc.state != RollingBack
    && s.cc.sessionId < s.nextId
    && (forall d: Db :: s.dbs.Get(d).owner < s.nextId)
    && (s.cc.state == Ephemeral ==> s.cc.sessionId in s.clients)
    && (s.cc.state == Ephemeral ==> s.dbs.running.owner == 0 || s.dbs.running.owner == s.cc.sessionId)
  }

  lemma InvParts(s: State)
    requires Inv(s)
    ensures NewestFirst(s.clients, s.nextId) && !s.dbs.running.file.Absent?
  {
  }

  // ----- frames of the larger operations

  ghost predicate SameLock(a: Entry, b: Entry) { a.owner == b.owner && a.file == b.file }

  lemma PhaseTwoFrame(s: State, xe: Option<CommitArgs>, sid: nat)
    requires !s.dbs.running.file.Absent?
    ensures PhaseTwo(s, xe, sid).Some?
    ensures var r := PhaseTwo(s, xe, sid).value;
      && r.(dbs := s.dbs, cc := s.cc, timers := s.timers) == s
      && r.dbs.(rollback := s.dbs.rollback) == s.dbs
      && (r.dbs.rollback.owner == 0 || r.dbs.rollback.owner == s.dbs.rollback.owner)
  {
  }

  lemma CommitPhasesFrame(s: State, db: Db, cb: Callbacks)
    requires !s.dbs.running.file.Absent?
    ensures var r := CommitPhases(s, db, cb);
      && r.st.(dbs := s.dbs) == s
      && SameLock(r.st.dbs.candidate, s.dbs.candidate) && SameLock(r.st.dbs.startup, s.dbs.startup)
      && r.st.dbs.candidate.modified == (s.dbs.candidate.modified && !(db == Candidate && r.ret == Ok))
      && SameLock(r.st.dbs.failsafe, s.dbs.failsafe) && SameLock(r.st.dbs.tmp, s.dbs.tmp)
      && SameLock(r.st.dbs.rollback, s.dbs.rollback)
      && r.st.dbs.running.owner == s.dbs.running.owner
      && !r.st.dbs.running.file.Absent?
      && (r.ret != Ok ==> r.st == s)
      && (r.ret == Ok ==> r.st.dbs.running.file == s.dbs.Get(db).file)
  {
  }

  /** What a commit transaction leaves alone, and that it writes running exactly when it succeeds. */
  lemma CommitFrame(s: State, xe: Option<CommitArgs>, db: Db, sid: nat, cb: Callbacks)
    requires !s.dbs.running.file.Absent?
    ensures var r := CandidateCommit(s, xe, db, sid, cb);
      && PhaseTwo(s, xe, sid).Some?
      && var h := if ValidateCommon(s, db, cb).0 == Error then s else PhaseTwo(s, xe, sid).value;
      && r.st.(dbs := h.dbs) == h
      && SameLock(r.st.dbs.candidate, s.dbs.candidate) && SameLock(r.st.dbs.startup, s.dbs.startup)
      && r.st.dbs.candidate.modified == (s.dbs.candidate.modified && !(db == Candidate && r.ret == Ok))
      && SameLock(r.st.dbs.failsafe, s.dbs.failsafe) && SameLock(r.st.dbs.tmp, s.dbs.tmp)
      && SameLock(r.st.dbs.rollback, h.dbs.rollback)
      && r.st.dbs.running.owner == s.dbs.running.owner
      && !r.st.dbs.running.file.Absent?
      && (r.ret != Ok ==> r.st.dbs == h.dbs)
      && (r.ret == Ok ==> r.st.dbs.running.file == h.dbs.Get(db).file)
  {
    hide CommitPhases, PhaseTwo, ValidateCommon;
    PhaseTwoFrame(s, xe, sid);
    CommitPhasesFrame(PhaseTwo(s, xe, sid).value, db, cb);
  }

  /** Failsafe replaces running or running is as before; either way a running store that existed loses
  its lock, because emptying it drops its entry. */
  lemma FailsafeFrame(s: State, cb: Callbacks)
    requires !s.dbs.running.file.Absent?
    ensures var (r, ok) := LoadFailsafe(s, cb);
      && r.(dbs := s.dbs) == s
      && r.dbs.candidate == s.dbs.candidate && SameLock(r.dbs.startup, s.dbs.startup)
      && SameLock(r.dbs.failsafe, s.dbs.failsafe) && SameLock(r.dbs.rollback, s.dbs.rollback)
      && r.dbs.running.owner == (if Exists(s.dbs, Failsafe) && Exists(s.dbs, Running) then 0 else s.dbs.running.owner)
      && r.dbs.tmp.owner == s.dbs.tmp.owner
      && r.dbs.tmp.file == (if Exists(s.dbs, Failsafe) then s.dbs.running.file else s.dbs.tmp.file)
      && (ok ==> Exists(s.dbs, Failsafe) && r.dbs.running.file == s.dbs.failsafe.file)
      && (!ok ==> r.dbs.running.file == s.dbs.running.file)
  {
    hide CandidateCommit, ValidateCommon;
    if !Exists(s.dbs, Failsafe) { return; }
    var s1 := EmptiedRunning(s);
    var c := CandidateCommit(s1, None, Failsafe, 0, cb);
    CommitFrame(s1, None, Failsafe, 0, cb);
    if c.ret == Ok {
      assert LoadFailsafe(s, cb) == (c.st, true);
    } else {
      var back := c.st.dbs.running.(file := c.st.dbs.tmp.file);
      assert LoadFailsafe(s, cb) == (c.st.(dbs := c.st.dbs.(running := back)), false);
    }
  }

  /** The state in which failsafe is committed. */
  lemma EmptiedRunning(s: State) returns (s1: State)
    requires !s.dbs.running.file.Absent?
    ensures s1 == s.(dbs := Reset(CopyFile(s.dbs, Running, Tmp).value, Running))
    ensures var emptied := if Exists(s.dbs, Running) then Entry(Truncated, 0, false) else s.dbs.running;
      s1 == s.(dbs := s.dbs.(tmp := s.dbs.tmp.(file := s.dbs.running.file), running := emptied))
  {
    s1 := s.(dbs := Reset(CopyFile(s.dbs, Running, Tmp).value, Running));
  }

  /** A rollback whose commit is an error resets running, on the way to failsafe. */
  predicate FallsToFailsafe(s: State, rb: Callbacks) {
    RollbackCommit(s, rb).ret == Error && Exists(s.dbs, Failsafe) && Exists(s.dbs, Running)
  }

  lemma RollbackFrame(s: State, rb: Callbacks, fs: Callbacks)
    requires !s.dbs.running.file.Absent?
    ensures var r := DoRollback(s, rb, fs);
      && r.(dbs := s.dbs, cc := s.cc, up := s.up) == s
      && r.cc == DropPersist(s.cc).(state := Inactive)
      && !Exists(r.dbs, Rollback)
      && r.dbs.candidate == s.dbs.candidate && SameLock(r.dbs.startup, s.dbs.startup)
      && SameLock(r.dbs.failsafe, s.dbs.failsafe)
      && r.dbs.tmp.owner == s.dbs.tmp.owner
      && (r.dbs.rollback.owner == 0 || r.dbs.rollback.owner == s.dbs.rollback.owner)
      && r.dbs.running.owner == (if FallsToFailsafe(s, rb) then 0 else s.dbs.running.owner)
      && !r.dbs.running.file.Absent?
  {
    var s1 := s.(cc := DropPersist(s.cc).(state := RollingBack));
    CommitFrame(s1, None, Rollback, 0, rb);
    var c := RollbackCommit(s, rb);
    assert c.st.cc == s1.cc && c.st.timers == s.timers;
    if c.ret == Error {
      var s2 := c.st.(dbs := RenameAway(c.st.dbs, Rollback));
      assert s2.dbs == c.st.dbs.(rollback := c.st.dbs.rollback.(file := Absent));
      FailsafeFrame(s2, fs);
    } else {
      assert Delete(c.st.dbs, Rollback).(rollback := c.st.dbs.rollback) == c.st.dbs;
    }
  }

  // ----- releasing the locks of a session

  /** The sweep only unlocks, and only stores locked by `id`. */
  lemma {:induction false} SweepEffect(t: Table, keys: seq<Db>, id: nat, bad: set<Db>, d: Db)
    ensures var r := Sweep(t, keys, id, bad).Get(d);
      && r == t.Get(d).(owner := r.owner)
      && (r.owner == t.Get(d).owner || (t.Get(d).owner == id && r.owner == 0))
    decreases |keys|
  {
    if keys != [] {
      if t.Get(keys[0]).owner != id { SweepEffect(t, keys[1..], id, bad, d); }
      else if keys[0] !in bad { SweepEffect(SetOwner(t, keys[0], 0), keys[1..], id, bad, d); }
    }
  }

  /** If no plugin refuses, every listed store locked by `id` is unlocked. */
  lemma {:induction false} SweepComplete(t: Table, keys: seq<Db>, id: nat, d: Db)
    requires d in keys && id != 0
    ensures Sweep(t, keys, id, {}).Get(d).owner != id
    decreases |keys|
  {
    var t1 := if t.Get(keys[0]).owner != id then t else SetOwner(t, keys[0], 0);
    if d == keys[0] { SweepEffect(t1, keys[1..], id, {}, d); }
    else { SweepComplete(t1, keys[1..], id, d); }
  }

  predicate Freed(o: nat, o': nat, who: nat) { o' == o || (o == who && o' == 0) }

  /** Only `who` loses locks, except that a reset frees running. */
  ghost predicate Ends(t: Table, t': Table, who: nat, reset: bool) {
    && Freed(t.candidate.owner, t'.candidate.owner, who)
    && (if reset then t'.running.owner == 0 else Freed(t.running.owner, t'.running.owner, who))
    && Freed(t.startup.owner, t'.startup.owner, who)
  }

  lemma ReleaseFrame(s: State, id: nat, keys: seq<Db>, bad: set<Db>)
    requires !s.dbs.running.file.Absent?
    ensures var r := ReleaseAll(s, id, keys, bad);
      && r.(dbs := s.dbs) == s
      && (forall d: Db :: Freed(s.dbs.Get(d).owner, r.dbs.Get(d).owner, id))
      && Ends(s.dbs, r.dbs, id, false)
      && r.dbs.running.file == s.dbs.running.file && r.dbs.rollback.file == s.dbs.rollback.file
      && r.dbs.failsafe.file == s.dbs.failsafe.file
      && r.dbs.rollback.modified == s.dbs.rollback.modified && r.dbs.running.modified == s.dbs.running.modified
      && (s.dbs.candidate.owner != id ==> r.dbs.candidate == s.dbs.candidate)
  {
    var t := if s.dbs.candidate.owner == id && s.opts.autolock
             then SetModified(Copy(s.dbs, Running, Candidate, s.opts).value, Candidate, false) else s.dbs;
    assert t.(candidate := s.dbs.candidate) == s.dbs && t.candidate.owner == s.dbs.candidate.owner;
    forall d: Db ensures var r := Sweep(t, keys, id, bad).Get(d);
        r == t.Get(d).(owner := r.owner) && (r.owner == t.Get(d).owner || (t.Get(d).owner == id && r.owner == 0)) {
      SweepEffect(t, keys, id, bad, d);
    }
    forall d: Db ensures t.Get(d).owner == s.dbs.Get(d).owner { }
    assert Sweep(t, keys, id, bad).Get(Running).file == t.running.file;
    assert Sweep(t, keys, id, bad).Get(Startup).file == t.startup.file;
    assert Sweep(t, keys, id, bad).Get(Rollback).file == t.rollback.file;
    assert Sweep(t, keys, id, bad).Get(Failsafe).file == t.failsafe.file;
    assert Sweep(t, keys, id, bad).Get(Candidate) == t.candidate.(owner := Sweep(t, keys, id, bad).candidate.owner);
  }

  // ----- session list

  lemma {:induction false} WithoutOrdered(clients: seq<nat>, id: nat, nextId: nat)
    requires NewestFirst(clients, nextId)
    ensures NewestFirst(Without(clients, id), nextId)
    ensures forall c :: c in Without(clients, id) <==> c in clients && c != id
  {
    if clients != [] {
      var rest := clients[1..];
      assert NewestFirst(rest, nextId);
      WithoutOrdered(rest, id, nextId);
      forall c ensures c in clients <==> c == clients[0] || c in rest { }
      if clients[0] == id { assert id !in rest; }
    }
  }

  // ----- the invariant

  /** How a request by `sid` may move the lock of a nameable store: free to `sid`, or `sid` to free. */
  predicate Move(o: nat, o': nat, sid: nat) { o' == o || ((o == 0 || o == sid) && (o' == 0 || o' == sid)) }

  ghost predicate Moves(t: Table, t': Table, sid: nat) {
    && Move(t.candidate.owner, t'.candidate.owner, sid)
    && Move(t.running.owner, t'.running.owner, sid)
    && Move(t.startup.owner, t'.startup.owner, sid)
  }

  lemma HandleKeepsInv(s: State, a: CommitArgs, sid: nat)
    requires Inv(s) && sid in s.clients && !LockedByOther(s, Running, sid)
    ensures PhaseTwo(s, Some(a), sid).Some? && Inv(PhaseTwo(s, Some(a), sid).value)
  {
    PhaseTwoFrame(s, Some(a), sid);
    OwnersBelow(s, PhaseTwo(s, Some(a), sid).value);
  }

  lemma CommitKeepsInv(s: State, sid: nat, a: CommitArgs, cb: Callbacks)
    requires Inv(s) && sid in s.clients
    ensures Inv(Commit(s, sid, a, cb)) && Moves(s.dbs, Commit(s, sid, a, cb).dbs, sid)
  {
    hide CandidateCommit, PhaseTwo, ValidateCommon;
    if !a.confirmed && ValidConfirming(s.cc, a, sid) {
      assert CancelConfirmed(s).dbs.(rollback := s.dbs.rollback) == s.dbs;
      OwnersBelow(s, CancelConfirmed(s));
    } else if !LockedByOther(s, Candidate, sid) && !LockedByOther(s, Running, sid) {
      var c := CandidateCommit(s, Some(a), Candidate, sid, cb);
      HandleKeepsInv(s, a, sid);
      var h := if ValidateCommon(s, Candidate, cb).0 == Error then s else PhaseTwo(s, Some(a), sid).value;
      assert Inv(c.st) && Moves(s.dbs, c.st.dbs, sid) by {
        CommitFrame(s, Some(a), Candidate, sid, cb);
        PhaseTwoFrame(s, Some(a), sid);
        StoresKeepInv(h, c.st);
      }
      StoresKeepInv(c.st, Commit(s, sid, a, cb));
    }
  }

  /** Owners stay below the next session id if no store gets a new one. */
  lemma OwnersBelow(s: State, r: State)
    requires forall d: Db :: s.dbs.Get(d).owner < s.nextId
    requires r.nextId == s.nextId && 1 <= s.nextId
    requires r.dbs.candidate.owner == s.dbs.candidate.owner || r.dbs.candidate.owner == 0
    requires r.dbs.running.owner == s.dbs.running.owner || r.dbs.running.owner == 0
    requires r.dbs.startup.owner == s.dbs.startup.owner || r.dbs.startup.owner == 0
    requires r.dbs.rollback.owner == s.dbs.rollback.owner || r.dbs.rollback.owner == 0
    requires r.dbs.failsafe.owner == s.dbs.failsafe.owner || r.dbs.failsafe.owner == 0
    requires r.dbs.tmp.owner == s.dbs.tmp.owner || r.dbs.tmp.owner == 0
    ensures forall d: Db :: r.dbs.Get(d).owner < r.nextId
  {
    forall d: Db ensures r.dbs.Get(d).owner < r.nextId {
      assert s.dbs.Get(d).owner < s.nextId;
    }
  }

  ghost predicate OwnerKeptOrFreed(a: Entry, b: Entry) { b.owner == a.owner || b.owner == 0 }

  /** A step that changes stores but no session state, and gives no store a new owner. */
  lemma StoresKeepInv(s: State, r: State)
    requires Inv(s) && r.(dbs := s.dbs) == s && !r.dbs.running.file.Absent?
    requires OwnerKeptOrFreed(s.dbs.candidate, r.dbs.candidate) && OwnerKeptOrFreed(s.dbs.running, r.dbs.running)
    requires OwnerKeptOrFreed(s.dbs.startup, r.dbs.startup) && OwnerKeptOrFreed(s.dbs.rollback, r.dbs.rollback)
    requires OwnerKeptOrFreed(s.dbs.failsafe, r.dbs.failsafe) && OwnerKeptOrFreed(s.dbs.tmp, r.dbs.tmp)
    ensures Inv(r)
  {
    OwnersBelow(s, r);
  }

  lemma RollbackKeepsInv(s: State, rb: Callbacks, fs: Callbacks)
    requires Inv(s)
    ensures Inv(DoRollback(s, rb, fs))
  {
    RollbackFrame(s, rb, fs);
    OwnersBelow(s, DoRollback(s, rb, fs));
  }

  lemma ClientRmKeepsInv(s: State, id: nat, rb: Callbacks, fs: Callbacks)
    requires Inv(s)
    ensures Inv(ClientRm(s, id, rb, fs))
  {
    var s0 := s.(timers := CancelTimer(s.timers));
    assert Inv(s0);
    var hit := s.cc.state == Ephemeral && id == s.cc.sessionId;
    var s1 := if hit then DoRollback(s0, rb, fs) else s;
    assert Inv(s1) && s1.clients == s.clients && s1.nextId == s.nextId && (hit ==> s1.cc.state == Inactive) by {
      if hit {
        RollbackKeepsInv(s0, rb, fs);
        RollbackFrame(s0, rb, fs);
      }
    }
    WithoutOrdered(s1.clients, id, s.nextId);
  }

  lemma ReleaseKeepsInv(s: State, id: nat, keys: seq<Db>, bad: set<Db>)
    requires Inv(s)
    ensures Inv(ReleaseAll(s, id, keys, bad))
  {
    ReleaseFrame(s, id, keys, bad);
    var r := ReleaseAll(s, id, keys, bad);
    assert r.dbs.running.owner == r.dbs.Get(Running).owner;
  }

  lemma LockKeepsInv(s: State, sid: nat, d: Db, lockOk: bool)
    requires Inv(s) && sid in s.clients && s.dbs.Get(d).owner == 0
    ensures Inv(DoLock(s, sid, d, lockOk).0)
  {
    var r := DoLock(s, sid, d, lockOk).0;
    forall e: Db ensures r.dbs.Get(e).owner < r.nextId && (e != d ==> r.dbs.Get(e) == s.dbs.Get(e))
                      && r.dbs.Get(e).file == s.dbs.Get(e).file {
      assert s.dbs.Get(e).owner < s.nextId;
    }
    assert r.dbs.running.file == r.dbs.Get(Running).file;
    assert r.dbs.running.owner == r.dbs.Get(Running).owner;
  }

  /** A step that only changes files and dirty bits, and leaves running readable. */
  lemma FilesKeepInv(s: State, r: State)
    requires Inv(s)
    requires r.(dbs := s.dbs) == s && !r.dbs.running.file.Absent?
    requires forall d: Db :: r.dbs.Get(d).owner == s.dbs.Get(d).owner || r.dbs.Get(d).owner == 0
    ensures Inv(r)
  {
    assert r.dbs.running.owner == r.dbs.Get(Running).owner;
  }

  lemma AutoCommitStartKeepsInv(s: State)
    requires Inv(s)
    ensures Inv(AutoCommitStart(s)) && AutoCommitStart(s).dbs.(rollback := s.dbs.rollback) == s.dbs
    ensures AutoCommitStart(s).(dbs := s.dbs, cc := s.cc, timers := s.timers) == s
  {
    var s1 := AutoCommitStart(s);
    assert s1.dbs.(rollback := s.dbs.rollback) == s.dbs;
    OwnersBelow(s, s1);
  }

  lemma AutoCommitEndKeepsInv(c: Outcome, d: Db, sid: nat)
    requires Inv(c.st)
    ensures Inv(AutoCommitEnd(c, d))
    ensures Moves(c.st.dbs, AutoCommitEnd(c, d).dbs, sid)
  {
    var r := AutoCommitEnd(c, d);
    assert forall e: Db :: r.dbs.Get(e).owner == c.st.dbs.Get(e).owner;
    assert !r.dbs.running.file.Absent?;
    FilesKeepInv(c.st, r);
    assert r.dbs.Get(Candidate).owner == r.dbs.candidate.owner && r.dbs.Get(Startup).owner == r.dbs.startup.owner;
  }

  /** A commit with no request attached does not touch the confirmed-commit state. */
  lemma BareCommitKeepsInv(s: State, d: Db, sid: nat, cb: Callbacks)
    requires Inv(s)
    ensures var c := CandidateCommit(s, None, d, sid, cb).st;
      && Inv(c) && c.(dbs := s.dbs) == s && Moves(s.dbs, c.dbs, sid)
  {
    CommitFrame(s, None, d, sid, cb);
    var c := CandidateCommit(s, None, d, sid, cb).st;
    assert c.cc == s.cc && c.timers == s.timers;
    OwnersBelow(s, c);
  }

  lemma AutoCommitKeepsInv(s: State, sid: nat, d: Db, cb: Callbacks)
    requires Inv(s)
    ensures Inv(AutoCommit(s, sid, d, cb))
    ensures Moves(s.dbs, AutoCommit(s, sid, d, cb).dbs, sid)
  {
    if s.cc.state != Persistent {
      AutoCommitStartKeepsInv(s);
      BareCommitKeepsInv(AutoCommitStart(s), d, sid, cb);
      AutoCommitEndKeepsInv(CandidateCommit(AutoCommitStart(s), None, d, sid, cb), d, sid);
    }
  }

  lemma AutoLockKeepsInv(s: State, sid: nat, d: Db, lockOk: bool)
    requires Inv(s) && sid in s.clients
    ensures var r := AutoLock(s, sid, d, lockOk).0; Inv(r) && Moves(s.dbs, r.dbs, sid) && r.clients == s.clients
  {
    if s.dbs.Get(d).owner == 0 { LockKeepsInv(s, sid, d, lockOk); }
  }

  lemma UnwindKeepsInv(s: State, sid: nat, d: Db)
    requires Inv(s)
    ensures Inv(UnwindAutoLock(s, sid, d)) && Moves(s.dbs, UnwindAutoLock(s, sid, d).dbs, sid)
  {
    var r := UnwindAutoLock(s, sid, d);
    assert r.dbs.running.file == s.dbs.running.file;
    FilesKeepInv(s, r);
  }

  lemma PutKeepsInv(s: State, d: Db, c: Config, sid: nat)
    requires Inv(s)
    ensures Inv(Put(s, d, c)) && Moves(s.dbs, Put(s, d, c).dbs, sid)
  {
    assert !Put(s, d, c).dbs.running.file.Absent?;
    FilesKeepInv(s, Put(s, d, c));
  }

  lemma MovesTrans(t: Table, t1: Table, t2: Table, sid: nat)
    requires Moves(t, t1, sid) && Moves(t1, t2, sid)
    ensures Moves(t, t2, sid)
  {
  }

  lemma WriteKeepsInv(s: State, sid: nat, d: Db, c: Config, auto: bool, cb: Callbacks)
    requires Inv(s)
    ensures var r := Write(s, sid, d, c, auto, cb); Inv(r) && Moves(s.dbs, r.dbs, sid)
  {
    PutKeepsInv(s, d, c, sid);
    if auto {
      AutoCommitKeepsInv(Put(s, d, c), sid, d, cb);
      MovesTrans(s.dbs, Put(s, d, c).dbs, Write(s, sid, d, c, auto, cb).dbs, sid);
    }
  }

  lemma EditKeepsInv(s: State, sid: nat, d: Db, put: Option<Config>, auto: bool, cb: Callbacks, lockOk: bool)
    requires Inv(s) && sid in s.clients
    ensures var r := EditConfig(s, sid, d, put, auto, cb, lockOk); Inv(r) && Moves(s.dbs, r.dbs, sid)
  {
    var r := EditConfig(s, sid, d, put, auto, cb, lockOk);
    if LockedByOther(s, d, sid) {
      UnwindKeepsInv(s, sid, d);
      assert r == UnwindAutoLock(s, sid, d);
      return;
    }
    AutoLockKeepsInv(s, sid, d, lockOk);
    var l := AutoLock(s, sid, d, lockOk);
    if l.1 == Error { assert r == l.0; return; }
    var s2 := if l.1 == Ok && put.Some? then Write(l.0, sid, d, put.value, auto, cb) else l.0;
    assert Inv(s2) && Moves(l.0.dbs, s2.dbs, sid) by {
      if l.1 == Ok && put.Some? { WriteKeepsInv(l.0, sid, d, put.value, auto, cb); }
    }
    assert r == UnwindAutoLock(s2, sid, d);
    MovesTrans(s.dbs, l.0.dbs, s2.dbs, sid);
    UnwindKeepsInv(s2, sid, d);
    MovesTrans(s.dbs, s2.dbs, r.dbs, sid);
  }

  lemma CopyIntoKeepsInv(s: State, src: Db, d: Db, sid: nat)
    requires Inv(s)
    ensures var r := CopyInto(s, src, d); Inv(r) && Moves(s.dbs, r.dbs, sid)
  {
    var r := CopyInto(s, src, d);
    assert !r.dbs.running.file.Absent?;
    FilesKeepInv(s, r);
  }

  lemma CopyKeepsInv(s: State, sid: nat, src: Db, d: Db, lockOk: bool)
    requires Inv(s) && sid in s.clients
    ensures var r := CopyConfig(s, sid, src, d, lockOk); Inv(r) && Moves(s.dbs, r.dbs, sid)
  {
    if !LockedByOther(s, d, sid) {
      AutoLockKeepsInv(s, sid, d, lockOk);
      var l := AutoLock(s, sid, d, lockOk);
      if l.1 == Ok {
        CopyIntoKeepsInv(l.0, src, d, sid);
        MovesTrans(s.dbs, l.0.dbs, CopyInto(l.0, src, d).dbs, sid);
      }
    }
  }

  lemma DeleteKeepsInv(s: State, sid: nat, d: Db)
    requires Inv(s)
    ensures var r := DeleteConfig(s, sid, d); Inv(r) && Moves(s.dbs, r.dbs, sid)
  {
    var r := DeleteConfig(s, sid, d);
    assert r.dbs.running == s.dbs.running;
    FilesKeepInv(s, r);
  }

  lemma DiscardKeepsInv(s: State, sid: nat)
    requires Inv(s)
    ensures var r := DiscardChanges(s, sid); Inv(r) && Moves(s.dbs, r.dbs, sid)
  {
    var r := DiscardChanges(s, sid);
    assert r.dbs.(candidate := s.dbs.candidate) == s.dbs;
    OwnersBelow(s, r);
  }

  // ----- every step

  /** Who takes the step: the requesting or disconnecting session, if any. */
  function Actor(step: Step): nat {
    match step case Rpc(sid, _) => sid case Eof(sid, _, _, _, _) => sid case _ => 0
  }

  /** The session a step names for termination. */
  function Victim(step: Step): nat {
    match step case Rpc(_, RKill(v, _, _, _, _)) => v case _ => 0
  }

  /** A step that rolls back, finds the rollback store refused, and resets running for failsafe. */
  predicate ResetsRunning(s: State, step: Step) {
    match step
    case Expire(rb, _) => FallsToFailsafe(s, rb)
    case Rpc(sid, RCancel(pid, rb, _)) => CancelAccepted(s.cc, sid, pid) && FallsToFailsafe(s, rb)
    case Rpc(_, RKill(v, rb, _, _, _)) => v in s.clients && OwnsEphemeral(s.cc, v) && FallsToFailsafe(s, rb)
    case Eof(sid, rb, _, _, _) => OwnsEphemeral(s.cc, sid) && FallsToFailsafe(s, rb)
    case StreamEnd(sid, rb, _) => OwnsEphemeral(s.cc, sid) && FallsToFailsafe(s, rb)
    case _ => false
  }

  lemma RequestKeepsInv(s: State, sid: nat, req: Request)
    requires Inv(s) && s.up && sid in s.clients && Wellformed(sid, req) && !req.RCancel? && !req.RKill? && !req.RClose?
    ensures Inv(Serve(s, sid, req)) && Moves(s.dbs, Serve(s, sid, req).dbs, sid)
  {
    match req
    case RLock(d, lockOk) => if s.dbs.Get(d).owner == 0 { LockKeepsInv(s, sid, d, lockOk); }
    case RUnlock(d) => FilesKeepInv(s, Unlock(s, sid, d));
    case REdit(d, put, auto, cb, lockOk) => EditKeepsInv(s, sid, d, put, auto, cb, lockOk);
    case RCopy(src, d, lockOk) => CopyKeepsInv(s, sid, src, d, lockOk);
    case RDelete(d) => DeleteKeepsInv(s, sid, d);
    case RCommit(a, cb) => CommitKeepsInv(s, sid, a, cb);
    case RDiscard => DiscardKeepsInv(s, sid);
  }

  /** Every step keeps the invariant, from any state that has it. */
  lemma StepKeepsInv(s: State, step: Step)
    requires Inv(s) && Enabled(s, step)
    ensures Inv(Next(s, step))
  {
    hide DoRollback, ReleaseAll, ClientRm, EditConfig, CopyConfig, Commit, DeleteConfig, DiscardChanges, Lock, Unlock;
    match step
    case Join =>
      assert forall d: Db :: Connect(s).dbs.Get(d).owner < s.nextId;
    case Rpc(sid, req) =>
      match req {
        case RCancel(pid, rb, fs) =>
          var s0 := s.(timers := CancelTimer(s.timers));
          assert Inv(s0);
          RollbackKeepsInv(s0, rb, fs);
        case RKill(v, rb, fs, keys, bad) =>
          var s1 := if v in s.clients then ClientRm(s, v, rb, fs) else s;
          ClientRmKeepsInv(s, v, rb, fs);
          ReleaseKeepsInv(s1, v, keys, bad);
        case RClose(keys, bad) => ReleaseKeepsInv(s, sid, keys, bad);
        case _ => RequestKeepsInv(s, sid, req);
      }
    case Eof(sid, rb, fs, keys, bad) =>
      ReleaseKeepsInv(s, sid, keys, bad);
      ClientRmKeepsInv(ReleaseAll(s, sid, keys, bad), sid, rb, fs);
    case StreamEnd(sid, rb, fs) => ClientRmKeepsInv(s, sid, rb, fs);
    case Expire(rb, fs) =>
      var s0 := s.(timers := s.timers - 1);
      assert Inv(s0);
      RollbackKeepsInv(s0, rb, fs);
  }

  /** Over every run from a fresh backend: sessions stay ordered, an ephemeral confirmed commit belongs to
  a connected session, and only that session can be holding the lock on running. */
  lemma {:induction false} RunKeepsInv(s: State, steps: seq<Step>)
    requires Inv(s) && Run(s, steps)
    ensures Inv(After(s, steps))
    decreases |steps|
  {
    if steps != [] {
      StepKeepsInv(s, steps[0]);
      RunKeepsInv(Next(s, steps[0]), steps[1..]);
    }
  }

  lemma FreshHasInv(s: State)
    requires Initial(s)
    ensures Inv(s)
  {
  }

  // ----- lock ownership

  /** Whether a rollback falls to failsafe depends on the stores alone. */
  lemma FallsToFailsafeFrame(s: State, s': State, rb: Callbacks)
    requires s.opts == s'.opts && s.dbs.running.file == s'.dbs.running.file
    requires s.dbs.rollback.file == s'.dbs.rollback.file && s.dbs.failsafe.file == s'.dbs.failsafe.file
    ensures FallsToFailsafe(s, rb) == FallsToFailsafe(s', rb)
  {
  }

  lemma ClientRmFrame(s: State, id: nat, rb: Callbacks, fs: Callbacks)
    requires Inv(s)
    ensures var r := ClientRm(s, id, rb, fs);
      && r.opts == s.opts && r.clients == Without(s.clients, id)
      && r.dbs.candidate.owner == s.dbs.candidate.owner && r.dbs.startup.owner == s.dbs.startup.owner
      && r.dbs.running.owner == (if OwnsEphemeral(s.cc, id) && FallsToFailsafe(s, rb) then 0 else s.dbs.running.owner)
  {
    var s0 := s.(timers := CancelTimer(s.timers));
    FallsToFailsafeFrame(s, s0, rb);
    RollbackFrame(s0, rb, fs);
  }

  /** The owners of nameable stores after a step that may end a session or roll back. */
  lemma EndMoves(s: State, step: Step)
    requires Inv(s) && Enabled(s, step)
    requires step.Eof? || (step.Rpc? && (step.req.RKill? || step.req.RClose?))
    ensures var who := if step.Rpc? && step.req.RKill? then step.req.victim else Actor(step);
      Ends(s.dbs, Next(s, step).dbs, who, ResetsRunning(s, step))
  {
    match step
    case Rpc(sid, RKill(v, rb, fs, keys, bad)) =>
      var s1 := if v in s.clients then ClientRm(s, v, rb, fs) else s;
      ClientRmKeepsInv(s, v, rb, fs);
      ClientRmFrame(s, v, rb, fs);
      ReleaseFrame(s1, v, keys, bad);
      assert Ends(s1.dbs, Next(s, step).dbs, v, false);
    case Rpc(sid, RClose(keys, bad)) =>
      ReleaseFrame(s, sid, keys, bad);
    case Eof(sid, rb, fs, keys, bad) =>
      var s1 := ReleaseAll(s, sid, keys, bad);
      ReleaseKeepsInv(s, sid, keys, bad);
      ReleaseFrame(s, sid, keys, bad);
      assert Ends(s.dbs, s1.dbs, sid, false);
      FallsToFailsafeFrame(s, s1, rb);
      ClientRmFrame(s1, sid, rb, fs);
  }

  /** Lock ownership over every step: a lock goes from free to the requesting session or from its holder to
  free. A step that is neither taken by the holder nor names it for termination frees a lock in one case
  only, and then always: it resets running on the way to failsafe. */
  lemma LockMoves(s: State, step: Step, d: Db)
    requires Inv(s) && Enabled(s, step) && Nameable(d)
    ensures var o, o' := s.dbs.Get(d).owner, Next(s, step).dbs.Get(d).owner;
      && (o' == o || (o == 0 && o' == Actor(step)) || o' == 0)
      && (o != 0 && o != Actor(step) && o != Victim(step) ==>
            o' == if d == Running && ResetsRunning(s, step) then 0 else o)
  {
    hide DoRollback, ReleaseAll, ClientRm, EditConfig, CopyConfig, Commit, DeleteConfig, DiscardChanges, Lock, Unlock;
    hide FallsToFailsafe;
    match step
    case Join =>
    case Rpc(sid, req) =>
      match req {
        case RCancel(pid, rb, fs) =>
          var s0 := s.(timers := CancelTimer(s.timers));
          FallsToFailsafeFrame(s, s0, rb);
          RollbackFrame(s0, rb, fs);
        case RKill(_, _, _, _, _) => EndMoves(s, step);
        case RClose(_, _) => EndMoves(s, step);
        case _ => RequestKeepsInv(s, sid, req);
      }
    case Eof(_, _, _, _, _) => EndMoves(s, step);
    case StreamEnd(sid, rb, fs) => ClientRmFrame(s, sid, rb, fs);
    case Expire(rb, fs) =>
      var s0 := s.(timers := s.timers - 1);
      FallsToFailsafeFrame(s, s0, rb);
      RollbackFrame(s0, rb, fs);
  }

  // ----- end of session

  /** After a disconnect, or a kill-session by another session, the ended session holds no lock and is gone,
  provided no plugin refuses an unlock. */
  lemma SessionEndReleases(s: State, step: Step, id: nat, d: Db)
    requires Inv(s) && Enabled(s, step) && id in s.clients
    requires (step.Eof? && step.sid == id && step.bad == {})
          || (step.Rpc? && step.req.RKill? && step.req.victim == id && step.req.bad == {})
    ensures Nameable(d) ==> Next(s, step).dbs.Get(d).owner != id
    ensures id !in Next(s, step).clients
  {
    if step.Eof? {
      var s1 := ReleaseAll(s, id, step.keys, {});
      ReleaseKeepsInv(s, id, step.keys, {});
      ReleaseFrame(s, id, step.keys, {});
      ReleaseComplete(s, id, step.keys, d);
      ClientRmFrame(s1, id, step.rb, step.fs);
      WithoutOrdered(s1.clients, id, s.nextId);
    } else {
      var req := step.req;
      var s1 := ClientRm(s, id, req.rb, req.fs);
      ClientRmKeepsInv(s, id, req.rb, req.fs);
      ClientRmFrame(s, id, req.rb, req.fs);
      WithoutOrdered(s.clients, id, s.nextId);
      ReleaseFrame(s1, id, req.keys, {});
      ReleaseComplete(s1, id, req.keys, d);
    }
  }

  lemma ReleaseComplete(s: State, id: nat, keys: seq<Db>, d: Db)
    requires AllKeys(keys) && id != 0 && !s.dbs.running.file.Absent?
    ensures ReleaseAll(s, id, keys, {}).dbs.Get(d).owner != id
  {
    var t := if s.dbs.candidate.owner == id && s.opts.autolock
             then SetModified(Copy(s.dbs, Running, Candidate, s.opts).value, Candidate, false) else s.dbs;
    SweepComplete(t, keys, id, d);
  }

  /** Removal by the notification stream releases nothing: the ended session keeps every lock it held,
  except the one on running when its rollback falls to failsafe. */
  lemma StreamEndKeepsLocks(s: State, id: nat, rb: Callbacks, fs: Callbacks)
    requires Inv(s) && s.up && id in s.clients
    ensures var r := Next(s, StreamEnd(id, rb, fs));
      && id !in r.clients
      && (s.dbs.candidate.owner == id ==> r.dbs.candidate.owner == id)
      && (s.dbs.running.owner == id ==>
            (r.dbs.running.owner == id <==> !(OwnsEphemeral(s.cc, id) && FallsToFailsafe(s, rb))))
  {
    ClientRmFrame(s, id, rb, fs);
    WithoutOrdered(s.clients, id, s.nextId);
  }

  // ----- options and clients

  ghost predicate SameRest(s: State, r: State) { r.opts == s.opts && r.clients == s.clients }

  lemma CommitKeepsRest(s: State, xe: Option<CommitArgs>, db: Db, sid: nat, cb: Callbacks)
    ensures SameRest(s, CandidateCommit(s, xe, db, sid, cb).st)
  {
    hide ValidateCommon, PhaseTwo, CommitPhases;
    PhasesKeepRest(s, xe, db, sid, cb);
    if PhaseTwo(s, xe, sid).Some? { PhasesKeepRest(PhaseTwo(s, xe, sid).value, xe, db, sid, cb); }
  }

  lemma PhasesKeepRest(s: State, xe: Option<CommitArgs>, db: Db, sid: nat, cb: Callbacks)
    ensures PhaseTwo(s, xe, sid).Some? ==> SameRest(s, PhaseTwo(s, xe, sid).value)
    ensures SameRest(s, CommitPhases(s, db, cb).st)
  {
    hide Copy, CancelTimer, SetModified;
  }

  lemma WriteKeepsRest(s: State, sid: nat, d: Db, c: Config, auto: bool, cb: Callbacks)
    ensures SameRest(s, Write(s, sid, d, c, auto, cb))
  {
    hide CandidateCommit;
    CommitKeepsRest(AutoCommitStart(Put(s, d, c)), None, d, sid, cb);
  }

  lemma EditKeepsRest(s: State, sid: nat, d: Db, put: Option<Config>, auto: bool, cb: Callbacks, lockOk: bool)
    ensures SameRest(s, EditConfig(s, sid, d, put, auto, cb, lockOk))
  {
    hide Write;
    if put.Some? { WriteKeepsRest(AutoLock(s, sid, d, lockOk).0, sid, d, put.value, auto, cb); }
  }

  /** The clients a step leaves. */
  function ClientsAfter(s: State, step: Step): seq<nat> {
    match step
    case Join => [s.nextId] + s.clients
    case Rpc(_, RKill(v, _, _, _, _)) => if v in s.clients then Without(s.clients, v) else s.clients
    case Rpc(_, _) => s.clients
    case Eof(sid, _, _, _, _) => Without(s.clients, sid)
    case StreamEnd(sid, _, _) => Without(s.clients, sid)
    case Expire(_, _) => s.clients
  }

  /** The options are fixed for the life of the backend, and clients come and go only as they should. */
  lemma StepKeepsRest(s: State, step: Step)
    requires Inv(s) && Enabled(s, step)
    ensures Next(s, step).opts == s.opts && Next(s, step).clients == ClientsAfter(s, step)
  {
    hide CandidateCommit, DoRollback, Sweep, EditConfig, Inv;
    match step
    case Rpc(sid, REdit(d, put, auto, cb, lockOk)) => EditKeepsRest(s, sid, d, put, auto, cb, lockOk);
    case Rpc(sid, RCommit(a, cb)) => CommitKeepsRest(s, Some(a), Candidate, sid, cb);
    case Rpc(sid, RCancel(_, rb, fs)) => RollbackKeepsRest(s.(timers := CancelTimer(s.timers)), rb, fs);
    case Rpc(_, RKill(v, rb, fs, _, _)) => RollbackKeepsRest(s.(timers := CancelTimer(s.timers)), rb, fs);
    case Rpc(_, _) =>
    case Eof(sid, rb, fs, keys, bad) =>
      var s1 := ReleaseAll(s, sid, keys, bad);
      RollbackKeepsRest(s1.(timers := CancelTimer(s1.timers)), rb, fs);
    case StreamEnd(_, rb, fs) => RollbackKeepsRest(s.(timers := CancelTimer(s.timers)), rb, fs);
    case Expire(rb, fs) => RollbackKeepsRest(s.(timers := s.timers - 1), rb, fs);
    case Join =>
  }

  lemma RollbackKeepsRest(s: State, rb: Callbacks, fs: Callbacks)
    ensures SameRest(s, DoRollback(s, rb, fs))
  {
    hide CandidateCommit;
    var s1 := s.(cc := DropPersist(s.cc).(state := RollingBack));
    var c := CandidateCommit(s1, None, Rollback, 0, rb);
    CommitKeepsRest(s1, None, Rollback, 0, rb);
    var s2 := c.st.(dbs := RenameAway(c.st.dbs, Rollback));
    if Exists(s2.dbs, Failsafe) && CopyFile(s2.dbs, Running, Tmp).Some? {
      CommitKeepsRest(s2.(dbs := Reset(CopyFile(s2.dbs, Running, Tmp).value, Running)), None, Failsafe, 0, fs);
    }
  }

  // ----- lock owners are connected

  ghost predicate OwnersLive(s: State) {
    forall d: Db :: Nameable(d) ==> s.dbs.Get(d).owner == 0 || s.dbs.Get(d).owner in s.clients
  }

  /** Sessions end by disconnect or kill-session, with no plugin refusing an unlock. */
  predicate Orderly(step: Step) {
    match step
    case Rpc(_, RKill(_, _, _, _, bad)) => bad == {}
    case Eof(_, _, _, _, bad) => bad == {}
    case StreamEnd(_, _, _) => false
    case _ => true
  }

  function Ended(step: Step): nat {
    match step
    case Rpc(_, RKill(v, _, _, _, _)) => v
    case Eof(sid, _, _, _, _) => sid
    case _ => 0
  }

  lemma StepOwnersLive(s: State, step: Step)
    requires Inv(s) && OwnersLive(s) && Enabled(s, step) && Orderly(step)
    ensures OwnersLive(Next(s, step))
  {
    hide Next, Inv;
    StepKeepsRest(s, step);
    assert NewestFirst(s.clients, s.nextId) by { InvOrders(s); }
    WithoutOrdered(s.clients, Ended(step), s.nextId);
    forall d: Db | Nameable(d)
      ensures Next(s, step).dbs.Get(d).owner == 0 || Next(s, step).dbs.Get(d).owner in Next(s, step).clients
    {
      LockMoves(s, step, d);
      if Ended(step) in s.clients { SessionEndReleases(s, step, Ended(step), d); }
    }
  }

  lemma InvOrders(s: State)
    requires Inv(s)
    ensures NewestFirst(s.clients, s.nextId)
  {
  }

  /** Over every such run, whoever holds a lock is a connected session: none stays locked by one that has ended. */
  lemma {:induction false} RunOwnersLive(s: State, steps: seq<Step>)
    requires Inv(s) && OwnersLive(s) && Run(s, steps) && forall i :: 0 <= i < |steps| ==> Orderly(steps[i])
    ensures OwnersLive(After(s, steps))
    decreases |steps|
  {
    if steps != [] {
      StepKeepsInv(s, steps[0]);
      StepOwnersLive(s, steps[0]);
      RunOwnersLive(Next(s, steps[0]), steps[1..]);
    }
  }
}
