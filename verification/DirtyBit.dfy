/** The candidate's dirty bit: what a clear bit says about its content, and what a set bit says about its lock. */
module DirtyBit {
  import opened Optional
  import opened Datastore
  import opened Engine
  import opened Session
  import opened Locks
  import opened ConfirmedCommit

  // ----- a clear bit

  /** A clear bit means that candidate and running hold the same configuration. */
  ghost predicate ClearMeansSame(s: State) {
    !s.dbs.candidate.modified ==> Read(s.dbs, Candidate, s.opts) == Read(s.dbs, Running, s.opts)
  }

  predicate CommitsCandidate(step: Step) {
    match step
    case Rpc(_, RCommit(_, _)) => true
    case Rpc(_, REdit(d, _, auto, _, _)) => d == Candidate && auto
    case _ => false
  }

  ghost predicate RunningKept(s: State, r: State) {
    Read(r.dbs, Running, s.opts) == Read(s.dbs, Running, s.opts)
  }

  lemma CommitClear(s: State, sid: nat, a: CommitArgs, cb: Callbacks)
    requires Inv(s) && ClearMeansSame(s)
    ensures ClearMeansSame(Commit(s, sid, a, cb))
  {
    hide ValidateCommon, HandleConfirmed, CandidateCommit;
    CommitFrame(s, Some(a), Candidate, sid, cb);
    PhaseTwoFrame(s, Some(a), sid);
    if CandidateCommit(s, Some(a), Candidate, sid, cb).ret == Ok {
      CommitSucceeds(s, Some(a), Candidate, sid, cb);
    }
  }

  lemma WriteClear(s: State, sid: nat, c: Config, auto: bool, cb: Callbacks)
    requires Inv(s)
    ensures ClearMeansSame(Write(s, sid, Candidate, c, auto, cb))
  {
    hide CandidateCommit;
    var p := Put(s, Candidate, c);
    PutKeepsInv(s, Candidate, c, sid);
    AutoCommitStartKeepsInv(p);
    CommitFrame(AutoCommitStart(p), None, Candidate, sid, cb);
  }

  lemma EditClear(s: State, sid: nat, put: Option<Config>, auto: bool, cb: Callbacks, lockOk: bool)
    requires Inv(s) && ClearMeansSame(s) && sid in s.clients
    ensures ClearMeansSame(EditConfig(s, sid, Candidate, put, auto, cb, lockOk))
  {
    hide Write;
    AutoLockKeepsInv(s, sid, Candidate, lockOk);
    if put.Some? { WriteClear(AutoLock(s, sid, Candidate, lockOk).0, sid, put.value, auto, cb); }
  }

  /** A rollback does not touch the candidate. */
  lemma ClientRmCandidate(s: State, id: nat, rb: Callbacks, fs: Callbacks)
    requires Inv(s)
    ensures ClientRm(s, id, rb, fs).dbs.candidate == s.dbs.candidate && ClientRm(s, id, rb, fs).opts == s.opts
  {
    hide DoRollback;
    RollbackFrame(s.(timers := CancelTimer(s.timers)), rb, fs);
  }

  /** What the release of a session's locks does to the candidate. */
  lemma ReleaseCandidate(s: State, id: nat, keys: seq<Db>, bad: set<Db>)
    requires Inv(s)
    ensures var r := ReleaseAll(s, id, keys, bad);
      && r.dbs.running.file == s.dbs.running.file
      && Freed(s.dbs.candidate.owner, r.dbs.candidate.owner, id)
      && (if s.dbs.candidate.owner == id && s.opts.autolock
          then !r.dbs.candidate.modified && Read(r.dbs, Candidate, s.opts) == Read(s.dbs, Running, s.opts)
          else r.dbs.candidate == s.dbs.candidate.(owner := r.dbs.candidate.owner))
  {
    ReleaseFrame(s, id, keys, bad);
    var t := if s.dbs.candidate.owner == id && s.opts.autolock
             then SetModified(Copy(s.dbs, Running, Candidate, s.opts).value, Candidate, false) else s.dbs;
    SweepEffect(t, keys, id, bad, Candidate);
  }

  lemma WriteOther(s: State, sid: nat, d: Db, c: Config, auto: bool, cb: Callbacks)
    requires Inv(s) && Nameable(d) && d != Candidate
    ensures Write(s, sid, d, c, auto, cb).dbs.candidate == s.dbs.candidate
  {
    hide CandidateCommit;
    var p := Put(s, d, c);
    PutKeepsInv(s, d, c, sid);
    AutoCommitStartKeepsInv(p);
    CommitFrame(AutoCommitStart(p), None, d, sid, cb);
  }

  lemma EditOther(s: State, sid: nat, d: Db, put: Option<Config>, auto: bool, cb: Callbacks, lockOk: bool)
    requires Inv(s) && Nameable(d) && d != Candidate
    ensures EditConfig(s, sid, d, put, auto, cb, lockOk).dbs.candidate == s.dbs.candidate
  {
    hide Write;
    if put.Some? { WriteOther(s, sid, d, put.value, auto, cb); }
  }

  lemma CopyClear(s: State, sid: nat, src: Db, d: Db, lockOk: bool)
    requires Nameable(src) && Nameable(d) && ClearMeansSame(s) && RunningKept(s, CopyConfig(s, sid, src, d, lockOk))
    ensures ClearMeansSame(CopyConfig(s, sid, src, d, lockOk))
  {
    if d == Candidate { return; }
    var r := CopyConfig(s, sid, src, d, lockOk);
    assert r.dbs.candidate == s.dbs.candidate && r.opts == s.opts;
  }

  lemma PlainClear(s: State, sid: nat, req: Request)
    requires Wellformed(sid, req) && Plain(req) && ClearMeansSame(s) && RunningKept(s, Serve(s, sid, req))
    ensures ClearMeansSame(Serve(s, sid, req))
  {
    if req.RCopy? { CopyClear(s, sid, req.src, req.d, req.lockOk); }
  }

  /** In a step that changes running in no other way than by committing the candidate, a clear bit goes on meaning
  that candidate and running agree. */
  lemma StepClear(s: State, step: Step)
    requires Inv(s) && ClearMeansSame(s) && Enabled(s, step)
    requires CommitsCandidate(step) || RunningKept(s, Next(s, step))
    ensures ClearMeansSame(Next(s, step))
  {
    hide DoRollback, ReleaseAll, ClientRm, EditConfig, CopyConfig, Commit, DeleteConfig, DiscardChanges, Lock, Unlock;
    StepKeepsRest(s, step);
    match step
    case Join =>
    case Rpc(sid, req) =>
      match req {
        case REdit(d, put, auto, cb, lockOk) =>
          if d == Candidate { EditClear(s, sid, put, auto, cb, lockOk); }
          else { EditOther(s, sid, d, put, auto, cb, lockOk); }
        case RCommit(a, cb) => CommitClear(s, sid, a, cb);
        case RCancel(pid, rb, fs) => RollbackFrame(s.(timers := CancelTimer(s.timers)), rb, fs);
        case RKill(v, rb, fs, keys, bad) =>
          var s1 := if v in s.clients then ClientRm(s, v, rb, fs) else s;
          ClientRmKeepsInv(s, v, rb, fs);
          ClientRmCandidate(s, v, rb, fs);
          ReleaseCandidate(s1, v, keys, bad);
        case RClose(keys, bad) => ReleaseCandidate(s, sid, keys, bad);
        case _ => PlainClear(s, sid, req);
      }
    case Eof(sid, rb, fs, keys, bad) =>
      ReleaseKeepsInv(s, sid, keys, bad);
      ReleaseCandidate(s, sid, keys, bad);
      ClientRmCandidate(ReleaseAll(s, sid, keys, bad), sid, rb, fs);
    case StreamEnd(sid, rb, fs) => ClientRmCandidate(s, sid, rb, fs);
    case Expire(rb, fs) => RollbackFrame(s.(timers := s.timers - 1), rb, fs);
  }

  ghost predicate OnlyByCommit(s: State, steps: seq<Step>)
    requires Run(s, steps)
    decreases |steps|
  {
    steps == [] || ((CommitsCandidate(steps[0]) || RunningKept(s, Next(s, steps[0])))
                    && OnlyByCommit(Next(s, steps[0]), steps[1..]))
  }

  /** In every run where running changes only by committing the candidate, a clear bit means they agree. */
  lemma {:induction false} RunClear(s: State, steps: seq<Step>)
    requires Inv(s) && ClearMeansSame(s) && Run(s, steps) && OnlyByCommit(s, steps)
    ensures ClearMeansSame(After(s, steps))
    decreases |steps|
  {
    if steps != [] {
      StepKeepsInv(s, steps[0]);
      StepClear(s, steps[0]);
      RunClear(Next(s, steps[0]), steps[1..]);
    }
  }

  /** A rollback on timeout moves running under a clean candidate: the clear bit stays truthful if and only if the
  candidate already holds what is restored. */
  lemma {:induction false} TimeoutClear(s: State, rb: Callbacks, fs: Callbacks)
    requires Inv(s) && s.up && s.timers > 0 && !s.dbs.candidate.modified
    requires RollbackCommit(s.(timers := s.timers - 1), rb).ret == Ok
    ensures ClearMeansSame(Next(s, Expire(rb, fs)))
       <==> Read(s.dbs, Candidate, s.opts) == Read(s.dbs, Rollback, s.opts)
  {
    hide RollbackCommit, DoRollback;
    var s0 := s.(timers := s.timers - 1);
    RollbackFrame(s0, rb, fs);
    InvIgnoresTimers(s, s0);
    RollbackOutcome(s0, rb, fs);
  }

  // ----- a set bit

  /** A set bit means that some session holds the candidate. */
  ghost predicate SetMeansLocked(s: State) { s.dbs.candidate.modified ==> s.dbs.candidate.owner != 0 }

  /** An unlock of the dirty candidate by its holder, or its deletion. */
  predicate LetsGo(s: State, step: Step) {
    match step
    case Rpc(sid, RUnlock(d)) => d == Candidate && s.dbs.candidate.modified && s.dbs.candidate.owner == sid
    case Rpc(sid, RDelete(d)) => d == Candidate && !LockedByOther(s, Candidate, sid)
    case _ => false
  }

  lemma PlainLocked(s: State, sid: nat, req: Request)
    requires sid != 0 && Wellformed(sid, req) && Plain(req) && s.opts.autolock && SetMeansLocked(s)
    ensures SetMeansLocked(Serve(s, sid, req)) <==> !LetsGo(s, Rpc(sid, req))
  {
  }

  lemma EditLocked(s: State, sid: nat, put: Option<Config>, auto: bool, cb: Callbacks, lockOk: bool)
    requires Inv(s) && s.opts.autolock && SetMeansLocked(s) && sid in s.clients
    ensures SetMeansLocked(EditConfig(s, sid, Candidate, put, auto, cb, lockOk))
  {
    hide Write;
    var l := AutoLock(s, sid, Candidate, lockOk);
    AutoLockKeepsInv(s, sid, Candidate, lockOk);
    if put.Some? && l.1 == Ok && !LockedByOther(s, Candidate, sid) {
      WriteLocked(l.0, sid, put.value, auto, cb);
      assert l.0.dbs.candidate.owner == sid;
    }
  }

  lemma WriteLocked(s: State, sid: nat, c: Config, auto: bool, cb: Callbacks)
    requires Inv(s)
    ensures Write(s, sid, Candidate, c, auto, cb).dbs.candidate.owner == s.dbs.candidate.owner
  {
    hide CandidateCommit;
    var p := Put(s, Candidate, c);
    PutKeepsInv(s, Candidate, c, sid);
    AutoCommitStartKeepsInv(p);
    CommitFrame(AutoCommitStart(p), None, Candidate, sid, cb);
  }

  lemma CommitLocked(s: State, sid: nat, a: CommitArgs, cb: Callbacks)
    requires Inv(s) && SetMeansLocked(s)
    ensures SetMeansLocked(Commit(s, sid, a, cb))
  {
    hide ValidateCommon, HandleConfirmed, CandidateCommit;
    CommitFrame(s, Some(a), Candidate, sid, cb);
  }

  /** With autolock, a step keeps a dirty candidate locked if and only if it is not a session letting go of it. */
  lemma StepLocked(s: State, step: Step)
    requires Inv(s) && s.opts.autolock && SetMeansLocked(s) && Enabled(s, step)
    ensures SetMeansLocked(Next(s, step)) <==> !LetsGo(s, step)
  {
    hide DoRollback, ReleaseAll, ClientRm, EditConfig, CopyConfig, Commit, DeleteConfig, DiscardChanges, Lock, Unlock;
    match step
    case Join =>
    case Rpc(sid, req) =>
      match req {
        case REdit(d, put, auto, cb, lockOk) =>
          if d == Candidate { EditLocked(s, sid, put, auto, cb, lockOk); }
          else { EditOther(s, sid, d, put, auto, cb, lockOk); }
        case RCommit(a, cb) => CommitLocked(s, sid, a, cb);
        case RCancel(pid, rb, fs) => RollbackFrame(s.(timers := CancelTimer(s.timers)), rb, fs);
        case RKill(v, rb, fs, keys, bad) =>
          var s1 := if v in s.clients then ClientRm(s, v, rb, fs) else s;
          ClientRmKeepsInv(s, v, rb, fs);
          ClientRmCandidate(s, v, rb, fs);
          ReleaseCandidate(s1, v, keys, bad);
        case RClose(keys, bad) => ReleaseCandidate(s, sid, keys, bad);
        case _ => PlainLocked(s, sid, req);
      }
    case Eof(sid, rb, fs, keys, bad) =>
      ReleaseKeepsInv(s, sid, keys, bad);
      ReleaseCandidate(s, sid, keys, bad);
      ClientRmCandidate(ReleaseAll(s, sid, keys, bad), sid, rb, fs);
    case StreamEnd(sid, rb, fs) => ClientRmCandidate(s, sid, rb, fs);
    case Expire(rb, fs) => RollbackFrame(s.(timers := s.timers - 1), rb, fs);
  }

  ghost predicate KeptLocked(s: State, steps: seq<Step>)
    requires Run(s, steps)
    decreases |steps|
  {
    steps == [] || (!LetsGo(s, steps[0]) && KeptLocked(Next(s, steps[0]), steps[1..]))
  }

  /** Over every run with automatic locking in which no dirty candidate is unlocked and none is deleted, a dirty
  candidate is locked. */
  lemma {:induction false} RunLocked(s: State, steps: seq<Step>)
    requires Inv(s) && s.opts.autolock && SetMeansLocked(s) && Run(s, steps) && KeptLocked(s, steps)
    ensures SetMeansLocked(After(s, steps))
    decreases |steps|
  {
    if steps != [] {
      StepKeepsInv(s, steps[0]);
      StepKeepsRest(s, steps[0]);
      StepLocked(s, steps[0]);
      RunLocked(Next(s, steps[0]), steps[1..]);
    }
  }

  // ----- drafts

  /** Work on stores other than running, without a commit. */
  predicate Drafting(step: Step) {
    match step
    case Join => true
    case Rpc(_, RLock(_, _)) => true
    case Rpc(_, RUnlock(_)) => true
    case Rpc(_, REdit(d, _, auto, _, _)) => d != Running && !auto
    case Rpc(_, RCopy(_, d, _)) => d != Running
    case Rpc(_, RDelete(_)) => true
    case Rpc(_, RDiscard) => true
    case Rpc(_, RClose(_, _)) => true
    case _ => false
  }

  lemma DraftKeepsRunning(s: State, step: Step)
    requires Inv(s) && Enabled(s, step) && Drafting(step)
    ensures Next(s, step).dbs.running.file == s.dbs.running.file
  {
    hide ReleaseAll, CandidateCommit, Inv;
    match step
    case Rpc(sid, RClose(keys, bad)) => ReleaseKeepsRunning(s, sid, keys, bad);
    case _ =>
  }

  lemma ReleaseKeepsRunning(s: State, sid: nat, keys: seq<Db>, bad: set<Db>)
    requires Inv(s)
    ensures ReleaseAll(s, sid, keys, bad).dbs.running.file == s.dbs.running.file
  {
    ReleaseFrame(s, sid, keys, bad);
  }

  lemma {:induction false} DraftsKeepRunning(s: State, steps: seq<Step>)
    requires Inv(s) && Run(s, steps) && forall i :: 0 <= i < |steps| ==> Drafting(steps[i])
    ensures Inv(After(s, steps)) && After(s, steps).dbs.running.file == s.dbs.running.file
    ensures After(s, steps).opts == s.opts
    decreases |steps|
  {
    if steps != [] {
      StepKeepsInv(s, steps[0]);
      StepKeepsRest(s, steps[0]);
      DraftKeepsRunning(s, steps[0]);
      DraftsKeepRunning(Next(s, steps[0]), steps[1..]);
    }
  }

  /** Discarding undoes: from a clean candidate, whatever any sessions then edit, copy, delete or lock, the session that
  discards at the end gets back the candidate of the start, clean again. */
  lemma DiscardUndoes(s: State, steps: seq<Step>, sid: nat)
    requires Inv(s) && ClearMeansSame(s) && !s.dbs.candidate.modified && Run(s, steps)
    requires forall i :: 0 <= i < |steps| ==> Drafting(steps[i])
    requires sid in After(s, steps).clients && After(s, steps).up && !LockedByOther(After(s, steps), Candidate, sid)
    ensures var r := Next(After(s, steps), Rpc(sid, RDiscard));
      Read(r.dbs, Candidate, s.opts) == Read(s.dbs, Candidate, s.opts) && !r.dbs.candidate.modified && ClearMeansSame(r)
  {
    DraftsKeepRunning(s, steps);
  }
}
