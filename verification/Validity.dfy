/** Validity of running and of the rollback store over runs in which running is changed only by commits, and the
restoration theorem that rests on it. */
module Validity {
  import opened Optional
  import opened Datastore
  import opened Engine
  import opened Session
  import opened Locks
  import opened Transaction
  import opened ConfirmedCommit

  ghost predicate ValidIn(t: Table, d: Db, o: Options) {
    Read(t, d, o).Some? && Read(t, d, o).value.valid
  }

  /** Running holds a valid configuration and so does the rollback store, if it exists. */
  ghost predicate Sound(s: State) {
    && ValidIn(s.dbs, Running, s.opts)
    && (Exists(s.dbs, Rollback) ==> s.dbs.rollback.file.config.valid)
  }

  /** A request that writes running directly, without a commit. */
  predicate WritesRunning(step: Step) {
    match step
    case Rpc(_, REdit(d, _, _, _, _)) => d == Running
    case Rpc(_, RCopy(_, d, _)) => d == Running
    case _ => false
  }

  ghost predicate CommitsOnly(steps: seq<Step>) { forall i :: 0 <= i < |steps| ==> !WritesRunning(steps[i]) }

  // ----- commits

  /** Committing the store lets an invalid configuration through from a valid one: the plugins agree, and the place of a
  deletion is not found. */
  predicate Slips(t: Table, o: Options, db: Db, cb: Callbacks) {
    && Read(t, db, o).Some? && !Read(t, db, o).value.valid
    && Read(t, Running, o) != Some(EmptyConfig(o))
    && cb.missed && !cb.unbound && PluginsAgree(cb)
  }

  lemma PhaseTwoSound(s: State, xe: Option<CommitArgs>, sid: nat)
    requires Sound(s)
    ensures PhaseTwo(s, xe, sid).Some? && Sound(PhaseTwo(s, xe, sid).value)
  {
  }

  lemma CommitSound(s: State, xe: Option<CommitArgs>, db: Db, sid: nat, cb: Callbacks)
    requires Sound(s) && (xe.None? || db != Rollback)
    ensures Sound(CandidateCommit(s, xe, db, sid, cb).st) <==> !Slips(s.dbs, s.opts, db, cb)
  {
    hide ValidateCommon, CandidateCommit, PhaseTwo;
    PhaseTwoSound(s, xe, sid);
    PhaseTwoFrame(s, xe, sid);
    CommitFrame(s, xe, db, sid, cb);
    CommitOutcome(s, xe, db, sid, cb);
  }

  lemma FailsafeSound(s: State, cb: Callbacks)
    requires Sound(s)
    ensures Sound(LoadFailsafe(s, cb).0)
  {
    hide LoadFailsafe;
    FailsafeFrame(s, cb);
    FailsafeOutcome(s, cb);
  }

  lemma RollbackSound(s: State, rb: Callbacks, fs: Callbacks)
    requires Sound(s)
    ensures Sound(DoRollback(s, rb, fs)) <==> !Slips(s.dbs, s.opts, Rollback, rb)
  {
    hide ValidateCommon, CandidateCommit, LoadFailsafe;
    var s1 := s.(cc := DropPersist(s.cc).(state := RollingBack));
    CommitSound(s1, None, Rollback, 0, rb);
    CommitOutcome(s1, None, Rollback, 0, rb);
    CommitFrame(s1, None, Rollback, 0, rb);
    var c := CandidateCommit(s1, None, Rollback, 0, rb);
    if c.ret == Error {
      FailsafeSound(c.st.(dbs := RenameAway(c.st.dbs, Rollback)), fs);
    } else {
      assert ValidIn(c.st.dbs, Running, s.opts) <==> !Slips(s.dbs, s.opts, Rollback, rb);
    }
  }

  /** The rollback store was once running, so committing it never fails validation. */
  lemma {:induction false} RollbackNeverInvalid(s: State, rb: Callbacks)
    requires ValidIn(s.dbs, Rollback, s.opts) && !s.dbs.running.file.Absent?
    ensures RollbackCommit(s, rb).ret != Invalid
    ensures RollbackCommit(s, rb).ret == Ok <==> PluginsAgree(rb)
  {
  }

  // ----- steps

  /** The plugin answers of the rollback a step performs: on timeout, on an accepted cancel-commit, or when the
  owner of an ephemeral commit goes away. */
  function RollbackOf(s: State, step: Step): Option<(Callbacks, Callbacks)> {
    match step
    case Expire(rb, fs) => Some((rb, fs))
    case Rpc(sid, RCancel(pid, rb, fs)) => if CancelAccepted(s.cc, sid, pid) then Some((rb, fs)) else None
    case Rpc(_, RKill(v, rb, fs, _, _)) => if v in s.clients && OwnsEphemeral(s.cc, v) then Some((rb, fs)) else None
    case Eof(sid, rb, fs, _, _) => if OwnsEphemeral(s.cc, sid) then Some((rb, fs)) else None
    case StreamEnd(sid, rb, fs) => if OwnsEphemeral(s.cc, sid) then Some((rb, fs)) else None
    case _ => None
  }

  lemma AutoCommitSound(s: State, sid: nat, d: Db, cb: Callbacks)
    requires Sound(s) && Nameable(d) && d != Running
    ensures Sound(AutoCommit(s, sid, d, cb)) <==> !(s.cc.state != Persistent && Slips(s.dbs, s.opts, d, cb))
  {
    hide CandidateCommit;
    if s.cc.state != Persistent {
      assert Sound(AutoCommitStart(s));
      CommitSound(AutoCommitStart(s), None, d, sid, cb);
    }
  }

  /** The edit gets as far as committing, and what it commits slips through. */
  ghost predicate EditSlips(s: State, sid: nat, d: Db, put: Option<Config>, auto: bool, cb: Callbacks, lockOk: bool) {
    && auto && put.Some? && s.cc.state != Persistent
    && !LockedByOther(s, d, sid) && AutoLock(s, sid, d, lockOk).1 == Ok
    && Slips(Put(s, d, put.value).dbs, s.opts, d, cb)
  }

  lemma EditSound(s: State, sid: nat, d: Db, put: Option<Config>, auto: bool, cb: Callbacks, lockOk: bool)
    requires Sound(s) && Nameable(d) && d != Running
    ensures Sound(EditConfig(s, sid, d, put, auto, cb, lockOk)) <==> !EditSlips(s, sid, d, put, auto, cb, lockOk)
  {
    hide AutoCommit, UnwindAutoLock;
    var l := AutoLock(s, sid, d, lockOk);
    UnwindSound(s, sid, d);
    if !LockedByOther(s, d, sid) && l.1 == Ok && put.Some? {
      var p := Put(l.0, d, put.value);
      AutoCommitSound(p, sid, d, cb);
      UnwindSound(Write(l.0, sid, d, put.value, auto, cb), sid, d);
    } else {
      UnwindSound(l.0, sid, d);
    }
  }

  lemma UnwindSound(s: State, sid: nat, d: Db)
    ensures Sound(UnwindAutoLock(s, sid, d)) <==> Sound(s)
  {
  }

  lemma PlainSound(s: State, sid: nat, req: Request)
    requires Sound(s) && Wellformed(sid, req) && Plain(req) && !WritesRunning(Rpc(sid, req))
    ensures Sound(Serve(s, sid, req))
  {
  }

  lemma ClientRmSound(s: State, id: nat, rb: Callbacks, fs: Callbacks)
    requires Sound(s)
    ensures Sound(ClientRm(s, id, rb, fs)) <==> !(OwnsEphemeral(s.cc, id) && Slips(s.dbs, s.opts, Rollback, rb))
    ensures !ClientRm(s, id, rb, fs).dbs.running.file.Absent?
  {
    hide DoRollback;
    RollbackSound(s.(timers := CancelTimer(s.timers)), rb, fs);
    RollbackFrame(s.(timers := CancelTimer(s.timers)), rb, fs);
  }

  lemma ReleaseSound(s: State, id: nat, keys: seq<Db>, bad: set<Db>)
    requires !s.dbs.running.file.Absent?
    ensures Sound(ReleaseAll(s, id, keys, bad)) <==> Sound(s)
    ensures var r := ReleaseAll(s, id, keys, bad);
      r.cc == s.cc && forall rb :: Slips(r.dbs, r.opts, Rollback, rb) == Slips(s.dbs, s.opts, Rollback, rb)
  {
    ReleaseFrame(s, id, keys, bad);
  }

  /** The step makes a commit, and what it commits slips through. */
  ghost predicate LetsThrough(s: State, step: Step) {
    match step
    case Rpc(sid, RCommit(a, cb)) =>
      && !(!a.confirmed && ValidConfirming(s.cc, a, sid))
      && !LockedByOther(s, Candidate, sid) && !LockedByOther(s, Running, sid) && Slips(s.dbs, s.opts, Candidate, cb)
    case Rpc(sid, REdit(d, put, auto, cb, lockOk)) => EditSlips(s, sid, d, put, auto, cb, lockOk)
    case _ => RollbackOf(s, step).Some? && Slips(s.dbs, s.opts, Rollback, RollbackOf(s, step).value.0)
  }

  /** Validity is kept by every step that does not write running directly, exactly unless it lets an invalid
  configuration through. */
  lemma StepSound(s: State, step: Step)
    requires Sound(s) && Enabled(s, step) && !WritesRunning(step)
    ensures Sound(Next(s, step)) <==> !LetsThrough(s, step)
  {
    hide DoRollback, ReleaseAll, ClientRm, EditConfig, CopyConfig, CandidateCommit, DeleteConfig, DiscardChanges;
    hide Lock, Unlock, Slips;
    match step
    case Join =>
    case Rpc(sid, req) =>
      match req {
        case REdit(d, put, auto, cb, lockOk) => EditSound(s, sid, d, put, auto, cb, lockOk);
        case RCommit(a, cb) => CommitSound(s, Some(a), Candidate, sid, cb);
        case RCancel(pid, rb, fs) => RollbackSound(s.(timers := CancelTimer(s.timers)), rb, fs);
        case RKill(v, rb, fs, keys, bad) =>
          ClientRmSound(s, v, rb, fs);
          ReleaseSound(if v in s.clients then ClientRm(s, v, rb, fs) else s, v, keys, bad);
        case RClose(keys, bad) => ReleaseSound(s, sid, keys, bad);
        case _ => PlainSound(s, sid, req);
      }
    case Eof(sid, rb, fs, keys, bad) =>
      ReleaseSound(s, sid, keys, bad);
      ClientRmSound(ReleaseAll(s, sid, keys, bad), sid, rb, fs);
    case StreamEnd(sid, rb, fs) => ClientRmSound(s, sid, rb, fs);
    case Expire(rb, fs) => RollbackSound(s.(timers := s.timers - 1), rb, fs);
  }

  /** Some step of the run lets an invalid configuration through. */
  ghost predicate SomeLetsThrough(s: State, steps: seq<Step>)
    requires Run(s, steps)
    decreases |steps|
  {
    steps != [] && (LetsThrough(s, steps[0]) || SomeLetsThrough(Next(s, steps[0]), steps[1..]))
  }

  /** Over every run with no direct write of running in which nothing invalid is let through, running is valid and so is
  the rollback store whenever it exists. */
  lemma {:induction false} RunSound(s: State, steps: seq<Step>)
    requires Sound(s) && Run(s, steps) && CommitsOnly(steps) && !SomeLetsThrough(s, steps)
    ensures Sound(After(s, steps))
    decreases |steps|
  {
    if steps != [] {
      StepSound(s, steps[0]);
      RunSound(Next(s, steps[0]), steps[1..]);
    }
  }

  // ----- restoration

  /** Running is `saved` if the plugins agree, and otherwise failsafe if that loads. The backend goes down if it does
  not, and in any case if the failed rollback was that of a timer. */
  predicate RolledBack(answers: (Callbacks, Callbacks), s: State, saved: File, onTimer: bool, r: State) {
    var (rb, fs) := answers;
    if PluginsAgree(rb) then r.up && r.dbs.running.file == saved
    else if FailsafeLoads(s, fs) then (r.up <==> !onTimer) && r.dbs.running.file == s.dbs.failsafe.file
    else !r.up && r.dbs.running.file == s.dbs.running.file
  }

  lemma RollbackStep(s: State, step: Step)
    requires Inv(s) && ValidIn(s.dbs, Rollback, s.opts) && Enabled(s, step) && RollbackOf(s, step).Some?
    ensures var r := Next(s, step);
      && r.cc.state == Inactive
      && RolledBack(RollbackOf(s, step).value, s, s.dbs.rollback.file, step.Expire?, r)
  {
    hide DoRollback, ReleaseAll;
    var (rb, fs) := RollbackOf(s, step).value;
    match step
    case Rpc(sid, RCancel(_, _, _)) => Restores(s, s.(timers := CancelTimer(s.timers)), rb, fs);
    case Rpc(_, RKill(v, _, _, keys, bad)) =>
      Restores(s, s.(timers := CancelTimer(s.timers)), rb, fs);
      ClientRmKeepsInv(s, v, rb, fs);
      ReleaseFrame(ClientRm(s, v, rb, fs), v, keys, bad);
    case Eof(sid, _, _, keys, bad) =>
      var s1 := ReleaseAll(s, sid, keys, bad);
      ReleaseKeepsInv(s, sid, keys, bad);
      ReleaseFrame(s, sid, keys, bad);
      Restores(s, s1.(timers := CancelTimer(s1.timers)), rb, fs);
    case StreamEnd(_, _, _) => Restores(s, s.(timers := CancelTimer(s.timers)), rb, fs);
    case Expire(_, _) => Restores(s, s.(timers := s.timers - 1), rb, fs);
  }

  lemma Restores(s: State, s0: State, rb: Callbacks, fs: Callbacks)
    requires ValidIn(s.dbs, Rollback, s.opts) && Inv(s) && Inv(s0.(timers := s.timers)) && s0.up
    requires s0.opts == s.opts && s0.dbs.running.file == s.dbs.running.file
    requires s0.dbs.rollback.file == s.dbs.rollback.file && s0.dbs.failsafe.file == s.dbs.failsafe.file
    ensures var r := DoRollback(s0, rb, fs);
      && r.cc.state == Inactive
      && RolledBack((rb, fs), s, s.dbs.rollback.file, false, r)
      && (RollbackCommit(s0, rb).ret == Error <==> !PluginsAgree(rb))
  {
    hide DoRollback, RollbackCommit;
    InvIgnoresTimers(s0.(timers := s.timers), s0);
    RollbackNeverInvalid(s0, rb);
    RollbackOutcome(s0, rb, fs);
    RollbackFrame(s0, rb, fs);
  }

  /** Restoration: after a first confirmed commit over an existing, valid running store, however many confirmed
  commits, edits (also of running itself) and session ends follow while the sequence is pending, the step that rolls
  back ends with running as it was before the first commit; or, if a plugin refuses, with failsafe, or with the backend
  stopping, or both. */
  lemma Restoration(s: State, sid: nat, a: CommitArgs, cb: Callbacks, steps: seq<Step>, last: Step)
    requires Inv(s) && Machine(s) && ValidIn(s.dbs, Running, s.opts) && !Pending(s) && s.up && sid in s.clients
    requires Exists(s.dbs, Running) && a.confirmed && ReachesPhaseTwo(s, sid, a, cb)
    requires var s1 := Next(s, Rpc(sid, RCommit(a, cb)));
      && Run(s1, steps) && Undisturbed(s1, steps) && PendingThroughout(s1, steps)
      && Enabled(After(s1, steps), last) && RollbackOf(After(s1, steps), last).Some?
    ensures var s2 := After(Next(s, Rpc(sid, RCommit(a, cb))), steps);
      var r := Next(s2, last);
      && r.cc.state == Inactive
      && RolledBack(RollbackOf(s2, last).value, s2, s.dbs.running.file, last.Expire?, r)
  {
    hide Commit, ReachesPhaseTwo, Inv;
    var first := Rpc(sid, RCommit(a, cb));
    var s1 := Next(s, first);
    StepKeepsInv(s, first);
    StepMachine(s, first);
    FirstConfirmedSaves(s, sid, a, cb);
    SequenceKeepsRollback(s1, steps);
    RollbackStep(After(s1, steps), last);
  }
}
