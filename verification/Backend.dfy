/** The backend as it runs: stores and confirmed-commit fields updated step by step, a linked list of clients, a list of
registered timers, and plugins whose commit callbacks act on a state of their own. Every turn of it is a step of the
specification, in which the plugins' part is the verdict their callbacks gave. */
module Backend {
  import opened Optional
  import opened Datastore
  import opened Engine
  import opened Session
  import opened Locks
  import opened Timers
  import opened Clients
  import opened Plugins

  lemma PhaseTwoDefined(s: State, xe: Option<CommitArgs>, sid: nat)
    requires !s.dbs.running.file.Absent?
    ensures PhaseTwo(s, xe, sid).Some?
  {
    PhaseTwoFrame(s, xe, sid);
  }

  lemma CommitLeavesRunning(s: State, xe: Option<CommitArgs>, db: Db, sid: nat, cb: Callbacks)
    requires !s.dbs.running.file.Absent?
    ensures var r := CandidateCommit(s, xe, db, sid, cb);
      && !r.st.dbs.running.file.Absent? && r.st.clients == s.clients && r.st.nextId == s.nextId
      && (r.ret != Ok ==> r.st.dbs.running == s.dbs.running)
  {
    CommitFrame(s, xe, db, sid, cb);
    PhaseTwoFrame(s, xe, sid);
  }

  /** A validated transaction goes on with the commit phases. */
  lemma OpenedInOrder(s: State, db: Db, cb: Callbacks)
    ensures var v := ValidateCommon(s, db, cb); v.0 == Ok ==> v.1 == Completing
    ensures forall commit: bool :: ValidateCommon(s, db, cb.(commit := commit)) == ValidateCommon(s, db, cb)
  {
  }

  // ----- the plugins' part in a transaction

  /** The same outcomes but for the commit phase, which the plugins decide. */
  ghost predicate Resolves(cb: Callbacks, cb': Callbacks) { cb'.(commit := cb.commit) == cb }

  /** What a commit phase makes of the plugins' state. */
  function AllCommitted<S>(ps: seq<Plugin<S>>, s: S): S {
    match FirstFailure(ps, 0, s)
    case None => CommitTo(ps, |ps|, s)
    case Some(k) => AfterFailure(ps, k, s)
  }

  predicate ReachedCommit(r: Reach) { r == Committing || r == Finishing }

  /** And a whole transaction that got as far as `reach`. */
  function PluginState<S>(ps: seq<Plugin<S>>, s: S, reach: Reach): S {
    if ReachedCommit(reach) then AllCommitted(ps, s) else s
  }

  /** The plugins' verdict on a commit from their present state. */
  function Verdict<S>(ps: seq<Plugin<S>>, s: S, cb: Callbacks): Callbacks {
    cb.(commit := FirstFailure(ps, 0, s).None?)
  }

  /** Every plugin's revert undoes its commit, and its failure callback a commit that failed. */
  ghost predicate AllReversible<S(!new)>(ps: seq<Plugin<S>>) {
    forall i :: 0 <= i < |ps| ==> Reversible(ps[i]) && Recovers(ps[i])
  }

  /** What such plugins are left with by a transaction that failed. Before the commit phase they were not asked. In it,
  they are as they were unless the first of them failed and its revert changes something. After it, when the commit-done
  phase or the copy to running failed, all have committed and nothing is reverted. */
  ghost predicate Compensated<S(!new)>(ps: seq<Plugin<S>>, before: S, after: S, reach: Reach, ret: Ret) {
    ret != Ok && AllReversible(ps) ==>
      match reach
      case Committing =>
        after == before <==> FirstFailure(ps, 0, before) != Some(0) || Act(ps[0].revert, before) == before
      case Finishing => after == CommitTo(ps, |ps|, before)
      case _ => after == before
  }

  lemma FailedCommitState<S(!new)>(ps: seq<Plugin<S>>, s: S, reach: Reach, ret: Ret)
    requires ReachedCommit(reach) ==> (reach == Finishing <==> FirstFailure(ps, 0, s).None?)
    ensures Compensated(ps, s, PluginState(ps, s, reach), reach, ret)
  {
    var k := FirstFailure(ps, 0, s);
    if k.Some? && AllReversible(ps) {
      assert Reversible(ps[k.value]) && Recovers(ps[k.value]);
      Compensation(ps, k.value, s);
    }
  }

  /** The transaction gets past the commit phase exactly if the plugins agree in it. */
  lemma ReachTells(s: State, xe: Option<CommitArgs>, db: Db, sid: nat, cb: Callbacks)
    ensures var r := CandidateCommit(s, xe, db, sid, cb);
      ReachedCommit(r.reach) ==> (r.reach == Finishing <==> cb.commit)
  {
    hide PhaseTwo;
  }

  /** The commit phase comes after the complete phase, and the commit-done phase after that. */
  lemma OpenedOn(before: seq<Phase>)
    ensures before + Opened(Completing) + [CommitAll] == before + Opened(Committing)
    ensures before + Opened(Committing) + [CommitDoneAll] == before + Opened(Finishing)
  {
  }

  lemma TraceClosed(before: seq<Phase>, reach: Reach, ok: bool)
    ensures before + Opened(reach) + [if ok then EndAll else AbortAll] == before + Phases(reach, ok)
  {
  }

  lemma PhasesOf(s: State, db: Db, cb: Callbacks)
    ensures !cb.commit ==> CommitPhases(s, db, cb) == Outcome(s, Error, Committing)
    ensures var t := if cb.done then Copy(s.dbs, db, Running, s.opts) else None;
      && (cb.commit && t.None? ==> CommitPhases(s, db, cb) == Outcome(s, Error, Finishing))
      && (cb.commit && t.Some? ==>
            CommitPhases(s, db, cb) == Outcome(s.(dbs := SetModified(t.value, db, false)), Ok, Finishing))
  {
  }

  /** A rollback that failed: the store is renamed away, and failsafe loaded or the daemon left. */
  function Fallback(s: State, fs: Callbacks): State {
    var (r, ok) := LoadFailsafe(s.(dbs := RenameAway(s.dbs, Rollback)), fs);
    r.(up := r.up && ok)
  }

  lemma RollbackParts(s: State, rb: Callbacks, fs: Callbacks)
    ensures var r := RollbackCommit(s, rb);
      var s2 := if r.ret == Error then Fallback(r.st, fs) else r.st.(dbs := Delete(r.st.dbs, Rollback));
      DoRollback(s, rb, fs) == s2.(cc := s2.cc.(state := Inactive))
  {
    hide CandidateCommit, LoadFailsafe;
  }

  lemma CommitState<S(!new)>(ps: seq<Plugin<S>>, p: S, s: State, xe: Option<CommitArgs>, db: Db, sid: nat,
                             cb: Callbacks)
    ensures var r := CandidateCommit(s, xe, db, sid, Verdict(ps, p, cb));
      Compensated(ps, p, PluginState(ps, p, r.reach), r.reach, r.ret)
  {
    hide CandidateCommit, PluginState, Compensated;
    var r := CandidateCommit(s, xe, db, sid, Verdict(ps, p, cb));
    ReachTells(s, xe, db, sid, Verdict(ps, p, cb));
    FailedCommitState(ps, p, r.reach, r.ret);
  }

  lemma VerdictResolves<S>(ps: seq<Plugin<S>>, s: S, cb: Callbacks)
    ensures Resolves(cb, Verdict(ps, s, cb))
    ensures forall st, db :: ValidateCommon(st, db, Verdict(ps, s, cb)) == ValidateCommon(st, db, cb)
  {
  }

  lemma {:induction false} WithoutAbsent(ids: seq<nat>, id: nat)
    requires id !in ids
    ensures Without(ids, id) == ids
  {
    if ids != [] { WithoutAbsent(ids[1..], id); }
  }

  class Server<S(!new)> {
    const opts: Options
    const clients: ClientList
    const host: Host<S>
    var dbs: Table
    var ccState: ConfirmState
    var ccPersistId: Option<string>
    var ccSessionId: nat
    var timers: seq<Timer>
    var up: bool
    var trace: seq<Phase>  // plugin phases called so far

    ghost predicate Valid()
      reads this, clients, clients.spine
    {
      clients.Valid() && Sorted(timers)
    }

    ghost function Abs(): State
      reads this, clients
    {
      State(opts, dbs, Confirm(ccState, ccPersistId, ccSessionId),
            Rollbacks(timers), Ids(clients.spine), clients.nextId, up)
    }

    constructor (opts: Options, dbs: Table, plugins: seq<Plugin<S>>, state: S)
      ensures Valid() && fresh(clients) && fresh(host) && host.plugins == plugins && host.state == state && trace == []
      ensures Abs() == State(opts, dbs, Confirm(Inactive, None, 0), 0, [], 1, true)
    {
      this.opts, this.dbs := opts, dbs;
      ccState, ccPersistId, ccSessionId, timers := Inactive, None, 0, [];
      up, trace := true, [];
      clients := new ClientList();
      host := new Host(plugins, state);
    }

    // ----- confirmed commit

    /** The earliest rollback timer is removed, if there is one. */
    method CancelRollbackEvent() returns (found: bool)
      requires Sorted(timers)
      modifies this`timers
      ensures Sorted(timers) && found == (Rollbacks(old(timers)) > 0)
      ensures Rollbacks(timers) == CancelTimer(Rollbacks(old(timers)))
    {
      timers, found := Unregister(timers);
    }

    method CancelConfirmedCommit()
      requires Valid()
      modifies this`timers, this`ccState, this`ccPersistId, this`dbs
      ensures Valid() && Abs() == CancelConfirmed(old(Abs()))
    {
      var _ := CancelRollbackEvent();
      if ccState == Persistent { ccPersistId := None; }
      ccState := Inactive;
      dbs := Delete(dbs, Rollback);
    }

    method CheckValidConfirmingCommit(a: CommitArgs, sid: nat) returns (valid: bool)
      ensures valid == ValidConfirming(Abs().cc, a, sid)
    {
      if sid == 0 { return false; }
      match ccState {
        case Persistent => valid := a.persistId.Some? && a.persistId.value == ccPersistId;
        case Ephemeral => valid := sid == ccSessionId;
        case _ => valid := false;
      }
    }

    method HandleConfirmedCommit(a: CommitArgs, sid: nat, at: nat) returns (ok: bool)
      requires Valid()
      modifies this`timers, this`ccState, this`ccPersistId, this`ccSessionId, this`dbs
      ensures Valid()
      ensures var r := HandleConfirmed(old(Abs()), a, sid); ok == r.Some? && (ok ==> Abs() == r.value)
      ensures ok && a.confirmed && sid != 0 ==> Timer(at, true) in timers
    {
      hide Arm;
      if sid == 0 { return true; }
      var valid := CheckValidConfirmingCommit(a, sid);
      if valid {
        var _ := CancelRollbackEvent();
        if ccState == Persistent { ccPersistId := None; }
        ccState := Inactive;
      }
      if a.confirmed {
        ok := ArmConfirmed(a, sid, at);
      } else {
        dbs := Delete(dbs, Rollback);
        ok := true;
      }
    }

    method ArmConfirmed(a: CommitArgs, sid: nat, at: nat) returns (ok: bool)
      requires Valid()
      modifies this`timers, this`ccState, this`ccPersistId, this`ccSessionId, this`dbs
      ensures Valid()
      ensures var r := Arm(old(Abs()), a, sid); ok == r.Some? && (ok ==> Abs() == r.value)
      ensures ok ==> exists i ::
        0 <= i <= |old(timers)| && timers == old(timers)[..i] + [Timer(at, true)] + old(timers)[i..]
    {
      if a.persist.Some? {
        ccPersistId := a.persist.value;
        ccState := Persistent;
      } else {
        ccSessionId := sid;
        ccState := Ephemeral;
      }
      if !Exists(dbs, Rollback) {
        var copied := Copy(dbs, Running, Rollback, opts);
        if copied.None? { return false; }
        dbs := copied.value;
      }
      ghost var i;
      timers, i := Register(timers, Timer(at, true));
      ok := true;
    }

    // ----- transactions

    method Validate(db: Db, cb: Callbacks) returns (ret: Ret, ghost reach: Reach)
      modifies this`trace
      ensures (ret, reach) == ValidateCommon(Abs(), db, cb)
      ensures trace == old(trace) + Opened(reach)
    {
      var tgt := Read(dbs, db, opts);
      var src := Read(dbs, Running, opts);
      if tgt.None? { return Error, Reading; }
      if !tgt.value.valid && cb.unbound { return Invalid, Reading; }
      if src.None? { return Error, Reading; }
      trace := trace + [BeginAll];
      if !cb.begin { return Error, Beginning; }
      if !GenericOk(src.value, tgt.value, opts, cb) { return Invalid, Checking; }
      trace := trace + [ValidateAll];
      if !cb.validate { return Error, Validating; }
      trace := trace + [CompleteAll];
      if !cb.complete { return Error, Completing; }
      return Ok, Completing;
    }

    /** A validate request: the plugins are told of its end or of its abort, never both. */
    method ValidateDb(db: Db, cb: Callbacks) returns (ret: Ret)
      modifies this`trace
      ensures var v := CandidateValidate(Abs(), db, cb); ret == v.0 && trace == old(trace) + Phases(v.1, ret == Ok)
    {
      ghost var reach;
      ret, reach := Validate(db, cb);
      if ret != Ok { trace := trace + [AbortAll]; return Invalid; }
      trace := trace + [EndAll];
    }

    /** One commit transaction from start to finish. When it fails, running is as it was; and so are the plugins, if
    their reverts undo what they committed, exactly in the cases told by `Compensated`. */
    method CommitDb(xe: Option<CommitArgs>, db: Db, sid: nat, cb: Callbacks, at: nat)
      returns (ret: Ret, ghost cb': Callbacks, ghost reach: Reach)
      requires Valid() && !dbs.running.file.Absent?
      modifies this, host
      ensures Valid() && Resolves(cb, cb') && cb' == Verdict(host.plugins, old(host.state), cb)
      ensures CandidateCommit(old(Abs()), xe, db, sid, cb') == Outcome(Abs(), ret, reach)
      ensures trace == old(trace) + Phases(reach, ret == Ok)
      ensures host.state == PluginState(host.plugins, old(host.state), reach)
      ensures Compensated(host.plugins, old(host.state), host.state, reach, ret)
      ensures !dbs.running.file.Absent? && (ret != Ok ==> dbs.running == old(dbs.running))
      ensures ret == Ok && xe.Some? && xe.value.confirmed && sid != 0 && old(ccState) != RollingBack ==>
        Timer(at, true) in timers
    {
      hide HandleConfirmed, ValidateCommon, Opened, CommitPhases, Compensated, AllCommitted, Rollbacks, Verdict, Ids;
      hide FirstFailure;
      cb' := Verdict(host.plugins, host.state, cb);
      VerdictResolves(host.plugins, host.state, cb);
      ghost var s := Abs();
      ghost var r := CandidateCommit(s, xe, db, sid, cb');
      PhaseTwoDefined(s, xe, sid);
      OpenedInOrder(s, db, cb);
      CommitLeavesRunning(s, xe, db, sid, cb');
      CommitState(host.plugins, host.state, s, xe, db, sid, cb);
      ret, reach := Validate(db, cb);
      BeforeCommit(s, db, cb);
      if ret == Error {
        trace := trace + [AbortAll];
        return;
      }
      if ccState != RollingBack && xe.Some? {
        var ok := HandleConfirmedCommit(xe.value, sid, at);
      }
      if ret == Invalid {
        trace := trace + [AbortAll];
        return;
      }
      ret, reach := FinishCommit(db, cb, old(trace));
    }

    /** The plugins' commit callbacks, and what they make of the plugins' state. */
    method CommitPlugins() returns (ok: bool)
      modifies host
      ensures ok == FirstFailure(host.plugins, 0, old(host.state)).None?
      ensures host.state == AllCommitted(host.plugins, old(host.state))
    {
      var failed := host.CommitAll();
      ok := failed.None?;
    }

    /** The commit and commit-done phases, and then running. */
    method FinishCommit(db: Db, cb: Callbacks, ghost before: seq<Phase>) returns (ret: Ret, ghost reach: Reach)
      requires trace == before + Opened(Completing)
      modifies this`dbs, this`trace, host
      ensures ReachedCommit(reach) && trace == before + Phases(reach, ret == Ok)
      ensures CommitPhases(old(Abs()), db, Verdict(host.plugins, old(host.state), cb)) == Outcome(Abs(), ret, reach)
      ensures host.state == AllCommitted(host.plugins, old(host.state))
    {
      hide AllCommitted, FirstFailure, Rollbacks, Ids, Opened, Phases, Copy, SetModified, CommitPhases;
      OpenedOn(before);
      ghost var s := Abs();
      ghost var cb' := Verdict(host.plugins, host.state, cb);
      PhasesOf(s, db, cb');
      trace := trace + [CommitAll];
      var ok := CommitPlugins();
      assert Abs() == s && ok == cb'.commit;
      if !ok {
        reach := Committing;
      } else {
        reach := Finishing;
        trace := trace + [CommitDoneAll];
        var copied := if cb.done then Copy(dbs, db, Running, opts) else None;
        ok := copied.Some?;
        if ok { dbs := SetModified(copied.value, db, false); }
      }
      TraceClosed(before, reach, ok);
      trace := trace + [if ok then EndAll else AbortAll];
      ret := if ok then Ok else Error;
    }

    method LoadFailsafeDb(cb: Callbacks) returns (ok: bool, ghost cb': Callbacks)
      requires Valid() && !dbs.running.file.Absent?
      modifies this, host
      ensures Valid() && Resolves(cb, cb') && (Abs(), ok) == LoadFailsafe(old(Abs()), cb')
    {
      hide CandidateCommit, Verdict, PluginState, Compensated, Rollbacks, Ids, Phases;
      cb' := cb;
      if !Exists(dbs, Failsafe) { return false, cb; }
      dbs := CopyFile(dbs, Running, Tmp).value;
      dbs := Reset(dbs, Running);
      var ret;
      ghost var reach;
      ret, cb', reach := CommitDb(None, Failsafe, 0, cb, 0);
      if ret != Ok {
        var back := Copy(dbs, Tmp, Running, opts);
        if back.Some? { dbs := back.value; }
      }
      ok := ret == Ok;
    }

    method RollBack(rb: Callbacks, fs: Callbacks) returns (ok: bool, ghost rb': Callbacks, ghost fs': Callbacks)
      requires Valid() && !dbs.running.file.Absent?
      modifies this, host
      ensures Valid() && Resolves(rb, rb') && Resolves(fs, fs') && Abs() == DoRollback(old(Abs()), rb', fs')
      ensures ok == (RollbackCommit(old(Abs()), rb').ret != Error)
    {
      hide CandidateCommit, Fallback, Verdict, PluginState, Compensated, Rollbacks, Ids, Phases, DoRollback, Delete;
      if ccState == Persistent { ccPersistId := None; }
      ccState := RollingBack;
      fs' := fs;
      var ret;
      ghost var reach;
      ret, rb', reach := CommitDb(None, Rollback, 0, rb, 0);
      RollbackParts(old(Abs()), rb', fs);
      ok := ret != Error;
      if !ok {
        fs' := FallBack(fs);
        RollbackParts(old(Abs()), rb', fs');
      } else {
        dbs := Delete(dbs, Rollback);
      }
      ccState := Inactive;
    }

    method FallBack(fs: Callbacks) returns (ghost fs': Callbacks)
      requires Valid() && !dbs.running.file.Absent?
      modifies this, host
      ensures Valid() && Resolves(fs, fs') && Abs() == Fallback(old(Abs()), fs')
    {
      hide LoadFailsafe, Rollbacks, Ids;
      dbs := RenameAway(dbs, Rollback);
      var ok;
      ok, fs' := LoadFailsafeDb(fs);
      if !ok { up := false; }
    }

    // ----- requests about commits

    method FromClientCommit(sid: nat, a: CommitArgs, cb: Callbacks, at: nat) returns (ghost cb': Callbacks)
      requires Valid() && !dbs.running.file.Absent?
      modifies this, host
      ensures Valid() && Resolves(cb, cb') && Abs() == Commit(old(Abs()), sid, a, cb')
    {
      hide CandidateCommit, Verdict, PluginState, Compensated, Rollbacks, Ids, Phases;
      cb' := cb;
      var valid := CheckValidConfirmingCommit(a, sid);
      if !a.confirmed && valid { CancelConfirmedCommit(); return; }
      var owner := dbs.Get(Candidate).owner;
      if owner != 0 && owner != sid { return; }
      owner := dbs.Get(Running).owner;
      if owner != 0 && owner != sid { return; }
      var ret;
      ghost var reach;
      ret, cb', reach := CommitDb(Some(a), Candidate, sid, cb, at);
      if ret == Ok && opts.autolock { dbs := SetOwner(dbs, Candidate, 0); }
    }

    method FromClientCancelCommit(sid: nat, persistId: Option<Option<string>>, rb: Callbacks, fs: Callbacks)
      returns (accepted: bool, ghost rb': Callbacks, ghost fs': Callbacks)
      requires Valid() && !dbs.running.file.Absent?
      modifies this, host
      ensures Valid() && Resolves(rb, rb') && Resolves(fs, fs')
      ensures Abs() == CancelCommit(old(Abs()), sid, persistId, rb', fs')
      ensures accepted == CancelAccepted(old(Abs()).cc, sid, persistId)
    {
      hide DoRollback, Rollbacks;
      rb', fs' := rb, fs;
      match ccState {
        case Ephemeral => accepted := persistId.None? && sid == ccSessionId;
        case Persistent => accepted := persistId.Some? && persistId.value == ccPersistId;
        case _ => accepted := false;
      }
      if accepted {
        var _ := CancelRollbackEvent();
        var ok;
        ok, rb', fs' := RollBack(rb, fs);
      }
    }

    method FromClientDiscardChanges(sid: nat)
      modifies this`dbs
      ensures Abs() == DiscardChanges(old(Abs()), sid)
    {
      var owner := dbs.Get(Candidate).owner;
      if owner != 0 && owner != sid { return; }
      var copied := Copy(dbs, Running, Candidate, opts);
      if copied.None? { return; }
      dbs := copied.value;
      dbs := SetModified(dbs, Candidate, false);
      if opts.autolock { dbs := SetOwner(dbs, Candidate, 0); }
    }

    /** The timer that fires is the earliest, and is off the list before its function runs. The loop ends if that
    fails. */
    method RollbackTimer(rb: Callbacks, fs: Callbacks) returns (ghost rb': Callbacks, ghost fs': Callbacks)
      requires Valid() && !dbs.running.file.Absent? && Rollbacks(timers) > 0
      modifies this, host
      ensures Valid() && Resolves(rb, rb') && Resolves(fs, fs') && Abs() == Timeout(old(Abs()), rb', fs')
    {
      hide DoRollback, Rollbacks, RollbackCommit;
      var _ := CancelRollbackEvent();
      var ok;
      ok, rb', fs' := RollBack(rb, fs);
      if !ok { up := false; }
    }

    // ----- locks and edits

    method LockDb(sid: nat, d: Db, lockOk: bool) returns (ret: Ret)
      modifies this`dbs
      ensures (Abs(), ret) == DoLock(old(Abs()), sid, d, lockOk)
    {
      if d == Candidate && Exists(dbs, d) && dbs.Get(d).modified { return Invalid; }
      if d == Running && ccState != Inactive && ccSessionId != 0 { return Invalid; }
      dbs := SetOwner(dbs, d, sid);
      ret := if lockOk then Ok else Error;
    }

    method FromClientLock(sid: nat, d: Db, lockOk: bool) returns (granted: bool)
      modifies this`dbs
      ensures Abs() == Lock(old(Abs()), sid, d, lockOk)
      ensures granted ==> old(dbs).Get(d).owner == 0 && dbs.Get(d).owner == sid
    {
      if dbs.Get(d).owner != 0 { return false; }
      var ret := LockDb(sid, d, lockOk);
      granted := ret == Ok;
    }

    method FromClientUnlock(sid: nat, d: Db) returns (ok: bool)
      modifies this`dbs
      ensures Abs() == Unlock(old(Abs()), sid, d)
      ensures ok == (sid != 0 && old(dbs).Get(d).owner == sid)
    {
      var owner := dbs.Get(d).owner;
      if owner == 0 || owner != sid { return false; }
      dbs := SetOwner(dbs, d, 0);
      ok := true;
    }

    method AutoCommitDb(sid: nat, d: Db, cb: Callbacks) returns (ghost cb': Callbacks)
      requires Valid() && !dbs.running.file.Absent?
      modifies this, host
      ensures Valid() && Resolves(cb, cb') && Abs() == AutoCommit(old(Abs()), sid, d, cb')
    {
      hide CandidateCommit, Verdict, PluginState, Compensated, Rollbacks, Ids, Phases;
      cb' := cb;
      if ccState == Persistent { return; }
      if ccState != Inactive { CancelConfirmedCommit(); }
      var ret;
      ghost var reach;
      ret, cb', reach := CommitDb(None, d, sid, cb, 0);
      if ret != Ok {
        var copied := Copy(dbs, Running, d, opts);
        if copied.Some? { dbs := copied.value; }
      }
    }

    method UnwindAutoLockDb(sid: nat, d: Db)
      modifies this`dbs
      ensures Abs() == UnwindAutoLock(old(Abs()), sid, d)
    {
      if !dbs.Get(d).modified && opts.autolock && dbs.Get(d).owner == sid { dbs := SetOwner(dbs, d, 0); }
    }

    method FromClientEditConfig(sid: nat, d: Db, put: Option<Config>, auto: bool, cb: Callbacks, lockOk: bool)
      returns (ghost cb': Callbacks)
      requires Valid() && !dbs.running.file.Absent?
      modifies this, host
      ensures Valid() && Resolves(cb, cb') && Abs() == EditConfig(old(Abs()), sid, d, put, auto, cb', lockOk)
    {
      hide Write, UnwindAutoLock, Rollbacks, Ids, DoLock;
      cb' := cb;
      var owner := dbs.Get(d).owner;
      if owner != 0 && owner != sid { UnwindAutoLockDb(sid, d); return; }
      var ret := Ok;
      if owner == 0 && opts.autolock && d == Candidate {
        LockKeepsRunning(Abs(), sid, lockOk);
        ret := LockDb(sid, d, lockOk);
      }
      if ret == Error { return; }
      if ret == Ok && put.Some? { cb' := WriteDb(sid, d, put.value, auto, cb); }
      UnwindAutoLockDb(sid, d);
    }

    method WriteDb(sid: nat, d: Db, c: Config, auto: bool, cb: Callbacks) returns (ghost cb': Callbacks)
      requires Valid() && !dbs.running.file.Absent?
      modifies this, host
      ensures Valid() && Resolves(cb, cb') && Abs() == Write(old(Abs()), sid, d, c, auto, cb')
    {
      hide AutoCommit, Rollbacks, Ids;
      cb' := cb;
      dbs := dbs.Set(d, dbs.Get(d).(file := Holds(c), modified := true));
      if auto { cb' := AutoCommitDb(sid, d, cb); }
    }

    method FromClientCopyConfig(sid: nat, src: Db, d: Db, lockOk: bool)
      modifies this`dbs
      ensures Abs() == CopyConfig(old(Abs()), sid, src, d, lockOk)
    {
      hide DoLock, CopyInto;
      var owner := dbs.Get(d).owner;
      if owner != 0 && owner != sid { return; }
      if owner == 0 && opts.autolock && d == Candidate {
        var ret := LockDb(sid, d, lockOk);
        if ret != Ok { return; }
      }
      CopyIntoDb(src, d);
    }

    method CopyIntoDb(src: Db, d: Db)
      modifies this`dbs
      ensures Abs() == CopyInto(old(Abs()), src, d)
    {
      var copied := Copy(dbs, src, d, opts);
      if copied.None? { return; }
      dbs := copied.value;
      if d == Candidate { dbs := SetModified(dbs, d, true); }
    }

    method FromClientDeleteConfig(sid: nat, d: Db)
      modifies this`dbs
      ensures Abs() == DeleteConfig(old(Abs()), sid, d)
    {
      if d == Running { return; }
      var owner := dbs.Get(d).owner;
      if owner != 0 && owner != sid { return; }
      dbs := Delete(dbs, d);
      dbs := Create(dbs, d);
      dbs := SetModified(dbs, d, true);
    }

    // ----- sessions

    method ReleaseAllDbs(id: nat, keys: seq<Db>, bad: set<Db>)
      modifies this`dbs
      ensures Abs() == ReleaseAll(old(Abs()), id, keys, bad)
    {
      if dbs.Get(Candidate).owner == id && opts.autolock {
        var copied := Copy(dbs, Running, Candidate, opts);
        if copied.None? { return; }
        dbs := copied.value;
        dbs := SetModified(dbs, Candidate, false);
      }
      ghost var t := dbs;
      for i := 0 to |keys|
        invariant Sweep(dbs, keys[i..], id, bad) == Sweep(t, keys, id, bad)
      {
        assert keys[i..][1..] == keys[i + 1..];
        if dbs.Get(keys[i]).owner == id {
          dbs := SetOwner(dbs, keys[i], 0);
          if keys[i] in bad { return; }
        }
      }
    }

    /** Looks the entry up in the list, rolls back if it owns the pending commit, and unlinks it. */
    method ClientRemove(id: nat, rb: Callbacks, fs: Callbacks) returns (ghost rb': Callbacks, ghost fs': Callbacks)
      requires Valid() && !dbs.running.file.Absent? && NewestFirst(Abs().clients, Abs().nextId)
      modifies this, host, clients, clients.spine
      ensures Valid() && Resolves(rb, rb') && Resolves(fs, fs') && Abs() == ClientRm(old(Abs()), id, rb', fs')
    {
      hide DoRollback, Rollbacks, NewestFirst, Ids, Without;
      rb', fs' := rb, fs;
      if ccState == Ephemeral && id == ccSessionId {
        var _ := CancelRollbackEvent();
        ghost var s := Abs();
        var ok;
        ok, rb', fs' := RollBack(rb, fs);
        RollbackKeepsClients(s, rb', fs');
      }
      var ce := clients.Find(id);
      if ce != null { clients.Delete(ce); } else { WithoutAbsent(Ids(clients.spine), id); }
    }

    method FromClientKillSession(victim: nat, rb: Callbacks, fs: Callbacks, keys: seq<Db>, bad: set<Db>)
      returns (ghost rb': Callbacks, ghost fs': Callbacks)
      requires Valid() && !dbs.running.file.Absent? && NewestFirst(Abs().clients, Abs().nextId)
      modifies this, host, clients, clients.spine
      ensures Valid() && Resolves(rb, rb') && Resolves(fs, fs')
      ensures Abs() == KillSession(old(Abs()), victim, rb', fs', keys, bad)
    {
      hide ClientRm, ReleaseAll, Rollbacks, NewestFirst, Ids;
      rb', fs' := rb, fs;
      var ce := clients.Find(victim);
      if ce != null { rb', fs' := ClientRemove(victim, rb, fs); }
      ReleaseAllDbs(victim, keys, bad);
    }

    method ClientEof(id: nat, rb: Callbacks, fs: Callbacks, keys: seq<Db>, bad: set<Db>)
      returns (ghost rb': Callbacks, ghost fs': Callbacks)
      requires Valid() && !dbs.running.file.Absent? && NewestFirst(Abs().clients, Abs().nextId)
      modifies this, host, clients, clients.spine
      ensures Valid() && Resolves(rb, rb') && Resolves(fs, fs')
      ensures Abs() == Disconnect(old(Abs()), id, rb', fs', keys, bad)
    {
      hide ClientRm, ReleaseAll, Rollbacks, NewestFirst, Ids;
      ReleaseFrame(Abs(), id, keys, bad);
      ReleaseAllDbs(id, keys, bad);
      rb', fs' := ClientRemove(id, rb, fs);
    }

    /** One request, from a connected session. */
    method Serve(sid: nat, req: Request, at: nat) returns (ghost req': Request)
      requires Valid() && !dbs.running.file.Absent? && NewestFirst(Abs().clients, Abs().nextId)
      modifies this, host, clients, clients.spine
      ensures Valid() && ResolvesRequest(req, req') && Abs() == Session.Serve(old(Abs()), sid, req')
    {
      hide Lock, Unlock, EditConfig, CopyConfig, DeleteConfig, Commit, DiscardChanges, CancelCommit, KillSession;
      hide ReleaseAll, Rollbacks, NewestFirst, Ids;
      req' := req;
      match req {
        case RLock(d, lockOk) => var _ := FromClientLock(sid, d, lockOk);
        case RUnlock(d) => var _ := FromClientUnlock(sid, d);
        case REdit(d, put, auto, cb, lockOk) =>
          ghost var cb' := FromClientEditConfig(sid, d, put, auto, cb, lockOk);
          req' := REdit(d, put, auto, cb', lockOk);
        case RCopy(src, d, lockOk) => FromClientCopyConfig(sid, src, d, lockOk);
        case RDelete(d) => FromClientDeleteConfig(sid, d);
        case RCommit(a, cb) =>
          ghost var cb' := FromClientCommit(sid, a, cb, at);
          req' := RCommit(a, cb');
        case RDiscard => FromClientDiscardChanges(sid);
        case RCancel(pid, rb, fs) =>
          ghost var rb', fs';
          var accepted;
          accepted, rb', fs' := FromClientCancelCommit(sid, pid, rb, fs);
          req' := RCancel(pid, rb', fs');
        case RKill(v, rb, fs, keys, bad) =>
          ghost var rb', fs' := FromClientKillSession(v, rb, fs, keys, bad);
          req' := RKill(v, rb', fs', keys, bad);
        case RClose(keys, bad) => ReleaseAllDbs(sid, keys, bad);
      }
    }

    /** One turn of the event loop is one step of the specification, with the verdicts the plugins gave, and keeps the
    invariant; unless it is a connection that makes the session counter wrap. */
    method Turn(step: Step, at: nat) returns (ghost step': Step)
      requires Valid() && Inv(Abs()) && Enabled(Abs(), step)
      modifies this, host, clients, clients.spine
      ensures Valid() && ResolvesStep(step, step')
      ensures (step.Join? ==> old(clients.nextId) + 1 < ID_LIMIT) ==>
        Enabled(old(Abs()), step') && Abs() == Next(old(Abs()), step') && Inv(Abs())
    {
      hide Session.Serve, Disconnect, ClientRm, Timeout, Inv, Rollbacks, NewestFirst, Ids;
      ghost var s := Abs();
      InvParts(s);
      step' := step;
      match step {
        case Join =>
          var ce := clients.Add();
          ConnectedIds(ce, old(clients.spine));
        case Rpc(sid, req) =>
          ghost var req' := Serve(sid, req, at);
          step' := Rpc(sid, req');
        case Eof(sid, rb, fs, keys, bad) =>
          ghost var rb', fs' := ClientEof(sid, rb, fs, keys, bad);
          step' := Eof(sid, rb', fs', keys, bad);
        case StreamEnd(sid, rb, fs) =>
          ghost var rb', fs' := ClientRemove(sid, rb, fs);
          step' := StreamEnd(sid, rb', fs');
        case Expire(rb, fs) =>
          ghost var rb', fs' := RollbackTimer(rb, fs);
          step' := Expire(rb', fs');
      }
      EnabledResolved(s, step, step');
      StepKeepsInv(s, step');
    }
  }

  // ----- what the turns rest on

  lemma ConnectedIds(ce: Client, was: seq<Client>)
    ensures Ids([ce] + was) == [ce.id] + Ids(was)
  {
  }

  lemma LockKeepsRunning(s: State, sid: nat, lockOk: bool)
    ensures DoLock(s, sid, Candidate, lockOk).0.dbs.running == s.dbs.running
  {
  }

  lemma RollbackKeepsClients(s: State, rb: Callbacks, fs: Callbacks)
    requires !s.dbs.running.file.Absent?
    ensures var r := DoRollback(s, rb, fs); r.clients == s.clients && r.nextId == s.nextId
  {
    RollbackFrame(s, rb, fs);
  }

  /** Nothing after a failure before the commit phases depends on the plugins' verdict. */
  lemma BeforeCommit(s: State, db: Db, cb: Callbacks)
    ensures var v := ValidateCommon(s, db, cb); v.0 != Ok ==> !ReachedCommit(v.1)
  {
  }

  ghost predicate ResolvesRequest(r: Request, r': Request) {
    match r
    case REdit(d, put, auto, cb, lockOk) => r'.REdit? && Resolves(cb, r'.cb) && r' == REdit(d, put, auto, r'.cb, lockOk)
    case RCommit(a, cb) => r'.RCommit? && Resolves(cb, r'.cb) && r' == RCommit(a, r'.cb)
    case RCancel(pid, rb, fs) =>
      r'.RCancel? && Resolves(rb, r'.rb) && Resolves(fs, r'.fs) && r' == RCancel(pid, r'.rb, r'.fs)
    case RKill(v, rb, fs, keys, bad) =>
      r'.RKill? && Resolves(rb, r'.rb) && Resolves(fs, r'.fs) && r' == RKill(v, r'.rb, r'.fs, keys, bad)
    case _ => r' == r
  }

  /** The same step, with commit verdicts of the plugins' own. */
  ghost predicate ResolvesStep(t: Step, t': Step) {
    match t
    case Join => t' == t
    case Rpc(sid, r) => t'.Rpc? && t'.sid == sid && ResolvesRequest(r, t'.req)
    case Eof(sid, rb, fs, keys, bad) =>
      t'.Eof? && Resolves(rb, t'.rb) && Resolves(fs, t'.fs) && t' == Eof(sid, t'.rb, t'.fs, keys, bad)
    case StreamEnd(sid, rb, fs) =>
      t'.StreamEnd? && Resolves(rb, t'.rb) && Resolves(fs, t'.fs) && t' == StreamEnd(sid, t'.rb, t'.fs)
    case Expire(rb, fs) => t'.Expire? && Resolves(rb, t'.rb) && Resolves(fs, t'.fs)
  }

  lemma EnabledResolved(s: State, t: Step, t': Step)
    requires Enabled(s, t) && ResolvesStep(t, t')
    ensures Enabled(s, t')
  {
  }
}
