/** The confirmed-commit machine: when the timer and the rollback store agree with the state, and what a
sequence of overlapping confirmed commits restores. */
module ConfirmedCommit {
  import opened Optional
  import opened Datastore
  import opened Engine
  import opened Session
  import opened Locks
  import opened Transaction

  predicate Pending(s: State) { s.cc.state == Persistent || s.cc.state == Ephemeral }

  /** One timer and a rollback store while a confirmed commit is pending, neither otherwise. */
  ghost predicate Machine(s: State) {
    && s.timers == (if Pending(s) then 1 else 0)
    && (Exists(s.dbs, Rollback) <==> Pending(s))
  }

  /** The commit is neither concluded in the first phase nor refused for a lock nor failed before the second. */
  predicate ReachesPhaseTwo(s: State, sid: nat, a: CommitArgs, cb: Callbacks) {
    && !(!a.confirmed && ValidConfirming(s.cc, a, sid))
    && !LockedByOther(s, Candidate, sid) && !LockedByOther(s, Running, sid)
    && ValidateCommon(s, Candidate, cb).0 != Error
  }

  /** A commit that cannot confirm the pending one, or a first confirmed commit over a running store that is a
  zero-length file. */
  predicate Breaks(s: State, step: Step) {
    match step
    case Rpc(sid, RCommit(a, cb)) =>
      && ReachesPhaseTwo(s, sid, a, cb)
      && (if Pending(s) then !ValidConfirming(s.cc, a, sid) else a.confirmed && !Exists(s.dbs, Running))
    case _ => false
  }

  // ----- the machine invariant

  /** The second phase arms a pending commit again, arms a first one, or drops the rollback store. */
  lemma PhaseTwoMachine(s: State, sid: nat, a: CommitArgs)
    requires Inv(s) && Machine(s) && sid in s.clients && (a.confirmed || !ValidConfirming(s.cc, a, sid))
    ensures PhaseTwo(s, Some(a), sid).Some?
    ensures var h := PhaseTwo(s, Some(a), sid).value;
      && (Machine(h) <==> if Pending(s) then ValidConfirming(s.cc, a, sid) else !a.confirmed || Exists(s.dbs, Running))
      && (Machine(h) && Pending(s) ==> Pending(h) && h.dbs.rollback.file == s.dbs.rollback.file)
  {
  }

  /** A commit keeps the machine consistent if and only if it is not a breaking one; and then a pending
  sequence goes on with the same rollback store, or ends confirmed with running as it is. */
  lemma CommitMachine(s: State, sid: nat, a: CommitArgs, cb: Callbacks)
    requires Inv(s) && Machine(s) && sid in s.clients
    ensures var r := Commit(s, sid, a, cb);
      && (Machine(r) <==> !Breaks(s, Rpc(sid, RCommit(a, cb))))
      && (Machine(r) && Pending(s) ==>
            if Pending(r) then r.dbs.rollback.file == s.dbs.rollback.file
            else r.dbs.running.file == s.dbs.running.file && !a.confirmed && ValidConfirming(s.cc, a, sid))
  {
    hide CandidateCommit, ValidateCommon, PhaseTwo, Inv;
    InvParts(s);
    if !a.confirmed && ValidConfirming(s.cc, a, sid) {
    } else if !LockedByOther(s, Candidate, sid) && !LockedByOther(s, Running, sid) {
      CommitFrame(s, Some(a), Candidate, sid, cb);
      PhaseTwoMachine(s, sid, a);
    }
  }

  /** The parts of the state that make up the machine. */
  ghost predicate SameMachine(s: State, r: State) {
    r.cc == s.cc && r.timers == s.timers && r.dbs.rollback.file == s.dbs.rollback.file
  }

  lemma AutoCommitMachine(s: State, sid: nat, d: Db, cb: Callbacks)
    requires Inv(s) && Nameable(d)
    ensures SameMachine(if s.cc.state == Persistent then s else AutoCommitStart(s), AutoCommit(s, sid, d, cb))
  {
    hide CandidateCommit;
    if s.cc.state != Persistent {
      AutoCommitStartKeepsInv(s);
      CommitFrame(AutoCommitStart(s), None, d, sid, cb);
    }
  }

  /** An edit that commits at once ends an ephemeral sequence; no other request but commit and cancel touches
  the machine. */
  lemma EditMachine(s: State, sid: nat, d: Db, put: Option<Config>, auto: bool, cb: Callbacks, lockOk: bool)
    requires Inv(s) && Nameable(d) && sid in s.clients
    ensures var r := EditConfig(s, sid, d, put, auto, cb, lockOk);
      || SameMachine(s, r)
      || (auto && s.cc.state == Ephemeral && SameMachine(CancelConfirmed(s), r))
  {
    hide Write, AutoLock, UnwindAutoLock;
    var r := EditConfig(s, sid, d, put, auto, cb, lockOk);
    UnwindMachine(s, sid, d);
    if LockedByOther(s, d, sid) { return; }
    var l := AutoLock(s, sid, d, lockOk);
    AutoLockMachine(s, sid, d, lockOk);
    if l.1 == Error { return; }
    var s2 := if l.1 == Ok && put.Some? then Write(l.0, sid, d, put.value, auto, cb) else l.0;
    AutoLockKeepsInv(s, sid, d, lockOk);
    if l.1 == Ok && put.Some? { WriteMachine(l.0, sid, d, put.value, auto, cb); }
    UnwindMachine(s2, sid, d);
  }

  lemma UnwindMachine(s: State, sid: nat, d: Db)
    requires Nameable(d)
    ensures SameMachine(s, UnwindAutoLock(s, sid, d))
  {
  }

  lemma AutoLockMachine(s: State, sid: nat, d: Db, lockOk: bool)
    ensures SameMachine(s, AutoLock(s, sid, d, lockOk).0)
  {
  }

  lemma WriteMachine(s: State, sid: nat, d: Db, c: Config, auto: bool, cb: Callbacks)
    requires Inv(s) && Nameable(d)
    ensures var r := Write(s, sid, d, c, auto, cb);
      SameMachine(s, r) || (auto && s.cc.state == Ephemeral && SameMachine(CancelConfirmed(s), r))
  {
    hide AutoCommit;
    PutKeepsInv(s, d, c, sid);
    assert SameMachine(s, Put(s, d, c));
    AutoCommitMachine(Put(s, d, c), sid, d, cb);
  }

  predicate Plain(req: Request) {
    req.RLock? || req.RUnlock? || req.RCopy? || req.RDelete? || req.RDiscard?
  }

  lemma PlainMachine(s: State, sid: nat, req: Request)
    requires Wellformed(sid, req) && Plain(req)
    ensures SameMachine(s, Serve(s, sid, req))
  {
  }

  lemma ReleaseMachine(s: State, id: nat, keys: seq<Db>, bad: set<Db>)
    requires Inv(s)
    ensures SameMachine(s, ReleaseAll(s, id, keys, bad))
  {
    ReleaseFrame(s, id, keys, bad);
  }

  /** Every exit of a rollback leaves the machine inactive with no rollback store and no new timer. */
  lemma RollbackEndsInactive(s: State, rb: Callbacks, fs: Callbacks)
    requires Inv(s)
    ensures var r := DoRollback(s, rb, fs); r.cc.state == Inactive && r.timers == s.timers && !Exists(r.dbs, Rollback)
  {
    RollbackFrame(s, rb, fs);
  }

  lemma ClientRmMachine(s: State, id: nat, rb: Callbacks, fs: Callbacks)
    requires Inv(s) && Machine(s)
    ensures var r := ClientRm(s, id, rb, fs);
      Machine(r) && (if OwnsEphemeral(s.cc, id) then r.cc.state == Inactive else SameMachine(s, r))
  {
    hide DoRollback;
    var s0 := s.(timers := CancelTimer(s.timers));
    if OwnsEphemeral(s.cc, id) { RollbackEndsInactive(s0, rb, fs); }
  }

  /** The machine invariant, exactly: a step keeps it if and only if it is not a breaking commit. While a
  sequence lasts, such a step does not change the rollback store. */
  lemma StepMachine(s: State, step: Step)
    requires Inv(s) && Machine(s) && Enabled(s, step)
    ensures Machine(Next(s, step)) <==> !Breaks(s, step)
    ensures Pending(s) && Pending(Next(s, step)) && !Breaks(s, step) ==>
              Next(s, step).dbs.rollback.file == s.dbs.rollback.file
  {
    hide DoRollback, ReleaseAll, ClientRm, EditConfig, CopyConfig, Commit, DeleteConfig, DiscardChanges, Lock, Unlock;
    hide ReachesPhaseTwo, Inv;
    match step
    case Join =>
    case Rpc(sid, req) =>
      match req {
        case REdit(d, put, auto, cb, lockOk) => EditMachine(s, sid, d, put, auto, cb, lockOk);
        case RCommit(a, cb) => CommitMachine(s, sid, a, cb);
        case RCancel(pid, rb, fs) =>
          var s0 := s.(timers := CancelTimer(s.timers));
          InvIgnoresTimers(s, s0);
          RollbackEndsInactive(s0, rb, fs);
        case RKill(v, rb, fs, keys, bad) =>
          var s1 := if v in s.clients then ClientRm(s, v, rb, fs) else s;
          ClientRmKeepsInv(s, v, rb, fs);
          ClientRmMachine(s, v, rb, fs);
          ReleaseMachine(s1, v, keys, bad);
        case RClose(keys, bad) => ReleaseMachine(s, sid, keys, bad);
        case _ => PlainMachine(s, sid, req);
      }
    case Eof(sid, rb, fs, keys, bad) =>
      var s1 := ReleaseAll(s, sid, keys, bad);
      ReleaseKeepsInv(s, sid, keys, bad);
      ReleaseMachine(s, sid, keys, bad);
      ClientRmMachine(s1, sid, rb, fs);
    case StreamEnd(sid, rb, fs) => ClientRmMachine(s, sid, rb, fs);
    case Expire(rb, fs) =>
      var s0 := s.(timers := s.timers - 1);
      InvIgnoresTimers(s, s0);
      RollbackEndsInactive(s0, rb, fs);
  }

  lemma InvIgnoresTimers(s: State, s0: State)
    requires s0 == s.(timers := s0.timers)
    ensures Inv(s) == Inv(s0)
  {
  }

  ghost predicate Undisturbed(s: State, steps: seq<Step>)
    requires Run(s, steps)
    decreases |steps|
  {
    steps == [] || (!Breaks(s, steps[0]) && Undisturbed(Next(s, steps[0]), steps[1..]))
  }

  /** Over every run in which each commit that gets as far as the second phase is a valid one: exactly one timer
  is pending and the rollback store exists while a confirmed commit is pending, and neither otherwise. */
  lemma {:induction false} RunMachine(s: State, steps: seq<Step>)
    requires Inv(s) && Machine(s) && Run(s, steps) && Undisturbed(s, steps)
    ensures Inv(After(s, steps)) && Machine(After(s, steps))
    decreases |steps|
  {
    if steps != [] {
      StepKeepsInv(s, steps[0]);
      StepMachine(s, steps[0]);
      RunMachine(Next(s, steps[0]), steps[1..]);
    }
  }

  // ----- restoration

  /** The first confirmed commit of a sequence saves running as it was before it. */
  lemma {:induction false} FirstConfirmedSaves(s: State, sid: nat, a: CommitArgs, cb: Callbacks)
    requires Inv(s) && Machine(s) && !Pending(s) && sid in s.clients
    requires a.confirmed && ReachesPhaseTwo(s, sid, a, cb)
    ensures var r := Commit(s, sid, a, cb);
      Pending(r) && r.dbs.rollback.file == s.dbs.running.file
  {
    hide CandidateCommit, ValidateCommon;
    CommitFrame(s, Some(a), Candidate, sid, cb);
  }

  ghost predicate PendingThroughout(s: State, steps: seq<Step>)
    requires Run(s, steps)
    decreases |steps|
  {
    Pending(s) && (steps == [] || PendingThroughout(Next(s, steps[0]), steps[1..]))
  }

  /** Any number of overlapping confirmed commits, edits, locks and session ends leave the rollback store as
  the first confirmed commit made it. */
  lemma {:induction false} SequenceKeepsRollback(s: State, steps: seq<Step>)
    requires Inv(s) && Machine(s) && Run(s, steps) && Undisturbed(s, steps) && PendingThroughout(s, steps)
    ensures Inv(After(s, steps)) && Machine(After(s, steps)) && Pending(After(s, steps))
    ensures After(s, steps).dbs.rollback.file == s.dbs.rollback.file
    decreases |steps|
  {
    if steps != [] {
      StepKeepsInv(s, steps[0]);
      StepMachine(s, steps[0]);
      SequenceKeepsRollback(Next(s, steps[0]), steps[1..]);
    }
  }

  /** How a rollback ends: with the rollback store's content in running if its commit succeeds; with failsafe's, or
  with running as it was and the backend going down, if the commit is an error; and with nothing restored if the store
  is invalid. */
  lemma RollbackOutcome(s: State, rb: Callbacks, fs: Callbacks)
    requires Inv(s) && s.up
    ensures var r := DoRollback(s, rb, fs);
      match RollbackCommit(s, rb).ret
      case Ok => r.up && r.dbs.running.file == s.dbs.rollback.file
      case Invalid => r.up && r.dbs.running.file == s.dbs.running.file
      case Error =>
        && (r.up <==> FailsafeLoads(s, fs))
        && r.dbs.running.file == (if FailsafeLoads(s, fs) then s.dbs.failsafe.file else s.dbs.running.file)
  {
    hide LoadFailsafe, ValidateCommon;
    var s1 := s.(cc := DropPersist(s.cc).(state := RollingBack));
    CommitFrame(s1, None, Rollback, 0, rb);
    var c := RollbackCommit(s, rb);
    if c.ret == Error {
      var s2 := c.st.(dbs := RenameAway(c.st.dbs, Rollback));
      assert s2.dbs == c.st.dbs.(rollback := c.st.dbs.rollback.(file := Absent));
      FailsafeFrame(s2, fs);
      FailsafeOutcome(s2, fs);
    }
  }

  /** A cancel-commit takes the running lock from whoever holds it exactly when its rollback falls to failsafe, and the
  backend goes on if failsafe loads. */
  lemma LockLostToCancel(s: State, sid: nat, pid: Option<Option<string>>, rb: Callbacks, fs: Callbacks)
    requires Inv(s) && s.up && sid in s.clients && CancelAccepted(s.cc, sid, pid) && s.dbs.running.owner != 0
    ensures var s0, r := s.(timers := CancelTimer(s.timers)), Next(s, Rpc(sid, RCancel(pid, rb, fs)));
      && (r.dbs.running.owner == 0 <==> FallsToFailsafe(s0, rb))
      && (r.dbs.running.owner != 0 ==> r.dbs.running.owner == s.dbs.running.owner)
      && (r.up <==> RollbackCommit(s0, rb).ret != Error || FailsafeLoads(s, fs))
  {
    hide DoRollback, RollbackCommit, Inv;
    var s0 := s.(timers := CancelTimer(s.timers));
    InvParts(s);
    InvIgnoresTimers(s, s0);
    RollbackFrame(s0, rb, fs);
    RollbackOutcome(s0, rb, fs);
  }

  /** A second confirmed commit by the valid confirmer keeps the saved configuration if and only if the running
  store existed before the first; saving a zero-length running store is not remembered as saved. */
  lemma {:induction false} OverlapKeepsBase(s: State, sid: nat, a: CommitArgs, cb: Callbacks,
                                            a': CommitArgs, cb': Callbacks)
    requires Inv(s) && !Pending(s) && !Exists(s.dbs, Rollback) && sid in s.clients
    requires a.confirmed && a.persist.None? && ReachesPhaseTwo(s, sid, a, cb)
    requires CandidateCommit(s, Some(a), Candidate, sid, cb).ret == Ok
    requires a'.confirmed && ReachesPhaseTwo(Commit(s, sid, a, cb), sid, a', cb')
    ensures var s1 := Commit(s, sid, a, cb);
      && ValidConfirming(s1.cc, a', sid)
      && (Commit(s1, sid, a', cb').dbs.rollback.file == s.dbs.running.file <==> Exists(s.dbs, Running))
  {
    hide ValidateCommon, CandidateCommit;
    var s1 := Commit(s, sid, a, cb);
    CommitFrame(s, Some(a), Candidate, sid, cb);
    CommitSucceeds(s, Some(a), Candidate, sid, cb);
    CommitKeepsInv(s, sid, a, cb);
    CommitFrame(s1, Some(a'), Candidate, sid, cb');
  }

  lemma CommitSucceeds(s: State, xe: Option<CommitArgs>, db: Db, sid: nat, cb: Callbacks)
    requires CandidateCommit(s, xe, db, sid, cb).ret == Ok
    ensures Read(s.dbs, db, s.opts).Some?
  {
  }

  // ----- locking while a confirmed commit is pending

  /** A lock is granted exactly on a free store that is not a dirty candidate, and not running while a confirmed
  commit is pending and a session is on record for it. */
  lemma LockGranted(s: State, sid: nat, d: Db, lockOk: bool)
    requires Inv(s) && s.up && sid in s.clients && Nameable(d)
    ensures Next(s, Rpc(sid, RLock(d, lockOk))).dbs.Get(d).owner == sid <==>
      (s.dbs.Get(d).owner == sid ||
       (s.dbs.Get(d).owner == 0
        && !(d == Candidate && Exists(s.dbs, Candidate) && s.dbs.candidate.modified)
        && !(d == Running && Pending(s) && s.cc.sessionId != 0)))
  {
  }

  /** Only an ephemeral confirmed commit puts its session on record. So running cannot be locked while one is pending,
  but it can while a persistent one is, as long as there has been no ephemeral one. */
  lemma PendingLock(s: State, sid: nat, a: CommitArgs, cb: Callbacks, other: nat, lockOk: bool)
    requires Inv(s) && Machine(s) && !Pending(s) && s.up && sid in s.clients && other in s.clients
    requires a.confirmed && ReachesPhaseTwo(s, sid, a, cb) && s.dbs.running.owner == 0
    ensures var s1 := Next(s, Rpc(sid, RCommit(a, cb)));
      && Pending(s1)
      && (Next(s1, Rpc(other, RLock(Running, lockOk))).dbs.running.owner == other
          <==> a.persist.Some? && s.cc.sessionId == 0)
  {
    hide CandidateCommit, ValidateCommon;
    var s1 := Next(s, Rpc(sid, RCommit(a, cb)));
    StepKeepsInv(s, Rpc(sid, RCommit(a, cb)));
    CommitFrame(s, Some(a), Candidate, sid, cb);
    LockGranted(s1, other, Running, lockOk);
  }
}
