/** Runs from a freshly started backend on which the code does not do what is promised of it, and one that reaches the
state isolation is about. */
module FailingRuns {
  import opened Optional
  import opened Datastore
  import opened Engine
  import opened Session
  import opened Locks
  import opened Isolation
  import opened ConfirmedCommit
  import opened DirtyBit
  import opened Validity
  import Recovery
  import CrashSafety

  const OLD := Config(1, true)
  const NEW := Config(2, true)
  const BROKEN := Config(3, false)
  const SAFE := Config(9, true)

  const PLAIN := CommitArgs(false, None, None)

  function Clean(f: File): Entry { Entry(f, 0, false) }

  /** A backend just started, with running and candidate alike and failsafe in place. */
  function Fresh(running: File): State {
    State(Options(false, true),
          Table(Clean(Holds(OLD)), Clean(running), Clean(Absent), Clean(Absent), Clean(Holds(SAFE)), Clean(Absent)),
          Confirm(Inactive, None, 0), 0, [], 1, true)
  }

  function Agree(): Callbacks { Callbacks(true, true, true, true, true, false, false, false) }

  function Refuse(): Callbacks { Agree().(commit := false) }

  /** All agree, and the place of a deletion is not found. */
  function Slip(): Callbacks { Agree().(missed := true) }

  /** A commit request for confirmation, by session or by persist-id, and a plain one. */
  function Confirmed(persist: Option<string>): Request {
    RCommit(CommitArgs(true, if persist.Some? then Some(persist) else None, None), Agree())
  }

  function Plainly(): Request { RCommit(PLAIN, Agree()) }

  /** The steps lead from one state to the other. */
  ghost predicate Leads(s: State, steps: seq<Step>, t: State) { Run(s, steps) && After(s, steps) == t }

  lemma {:induction false} Extend(s: State, steps: seq<Step>, t: State, step: Step)
    requires Leads(s, steps, t) && Enabled(t, step)
    ensures Leads(s, steps + [step], Next(t, step))
    decreases |steps|
  {
    if steps == [] {
      assert [step][1..] == [];
    } else {
      Extend(Next(s, steps[0]), steps[1..], t, step);
      assert (steps + [step])[1..] == steps[1..] + [step];
    }
  }

  /** Sessions 1 and 2 have joined. */
  lemma TwoJoined(running: File) returns (steps: seq<Step>, t: State)
    requires !running.Absent?
    ensures var s := Fresh(running);
      Initial(s) && t == s.(clients := [2, 1], nextId := 3) && Leads(s, steps, t) && CommitsOnly(steps)
  {
    var s := Fresh(running);
    assert Leads(s, [], s);
    Extend(s, [], s, Join);
    var s1 := s.(clients := [1], nextId := 2);
    assert Next(s, Join) == s1;
    Extend(s, [] + [Join], s1, Join);
    assert [2] + [1] == [2, 1];
    steps, t := [] + [Join] + [Join], Next(s1, Join);
  }

  /** A confirmed commit by session 1 on top of that. */
  lemma AfterConfirmed(s: State, steps: seq<Step>, t: State, persist: Option<string>) returns (r: State)
    requires Leads(s, steps, t) && 1 in t.clients && t.up && t.cc == Confirm(Inactive, None, 0) && !t.opts.autolock
    requires t.dbs.candidate.file == Holds(NEW) || t.dbs.candidate.file == Holds(OLD)
    requires !t.dbs.running.file.Absent? && !Exists(t.dbs, Rollback)
    requires !LockedByOther(t, Candidate, 1) && !LockedByOther(t, Running, 1)
    ensures Leads(s, steps + [Rpc(1, Confirmed(persist))], r)
    ensures r == t.(timers := t.timers + 1,
                    cc := if persist.Some? then Confirm(Persistent, persist, 0) else Confirm(Ephemeral, None, 1),
                    dbs := t.dbs.(rollback := t.dbs.rollback.(file := t.dbs.running.file),
                                  running := t.dbs.running.(file := t.dbs.candidate.file),
                                  candidate := t.dbs.candidate.(modified := false)))
  {
    Extend(s, steps, t, Rpc(1, Confirmed(persist)));
    r := Next(t, Rpc(1, Confirmed(persist)));
  }

  /** A commit by a session that cannot confirm deletes the rollback store under the pending commit of another. */
  lemma OtherCommitBreaks()
    ensures exists s, steps :: Initial(s) && Machine(s) && Run(s, steps) && !Machine(After(s, steps))
  {
    var steps, t := TwoJoined(Holds(OLD));
    var s := Fresh(Holds(OLD));
    var r := AfterConfirmed(s, steps, t, None);
    var last := Rpc(2, Plainly());
    Extend(s, steps + [Rpc(1, Confirmed(None))], r, last);
    var e := Next(r, last);
    assert Pending(e) && !Exists(e.dbs, Rollback);
  }

  /** A zero-length running store is saved, but not so that it counts as saved. */
  lemma EmptyRunningBreaks()
    ensures exists s, steps :: Initial(s) && !Exists(s.dbs, Running) && Machine(s) && Run(s, steps)
                               && !Machine(After(s, steps))
  {
    var steps, t := TwoJoined(Truncated);
    var s := Fresh(Truncated);
    var r := AfterConfirmed(s, steps, t, None);
    assert Pending(r) && !Exists(r.dbs, Rollback);
    var run := steps + [Rpc(1, Confirmed(None))];
    assert !Machine(After(s, run));
  }

  /** Session 2 has locked running under the persistent confirmed commit of session 1. */
  lemma PersistentLocked() returns (steps: seq<Step>, e: State)
    ensures Initial(Fresh(Holds(OLD))) && Leads(Fresh(Holds(OLD)), steps, e)
    ensures e.cc == Confirm(Persistent, Some("id"), 0) && e.dbs.running == Entry(Holds(OLD), 2, false)
    ensures e.up && e.clients == [2, 1] && e.opts == Options(false, true) && e.dbs.rollback == Clean(Holds(OLD))
    ensures e.dbs.failsafe == Clean(Holds(SAFE))
  {
    var joined, t := TwoJoined(Holds(OLD));
    var s := Fresh(Holds(OLD));
    var r := AfterConfirmed(s, joined, t, Some("id"));
    var last := Rpc(2, RLock(Running, true));
    Extend(s, joined + [Rpc(1, Confirmed(Some("id")))], r, last);
    steps, e := joined + [Rpc(1, Confirmed(Some("id")))] + [last], Next(r, last);
  }

  /** Running is locked by another session while a persistent confirmed commit is pending. */
  lemma LockedUnderPersistent()
    ensures exists s, steps :: Initial(s) && Run(s, steps)
                               && After(s, steps).cc.state == Persistent && After(s, steps).dbs.running.owner == 2
  {
    var steps, e := PersistentLocked();
    assert Run(Fresh(Holds(OLD)), steps);
  }

  /** Session 1 holds both locks and owns an ephemeral confirmed commit. */
  lemma GuardedReached() returns (steps: seq<Step>, r: State)
    ensures Initial(Fresh(Holds(OLD))) && Leads(Fresh(Holds(OLD)), steps, r) && Guarded(r, 1) && r.up && 2 in r.clients
    ensures r.dbs.startup.owner == 0
  {
    var joined, t := TwoJoined(Holds(OLD));
    var s := Fresh(Holds(OLD));
    var a, b := Rpc(1, RLock(Running, true)), Rpc(1, RLock(Candidate, true));
    Extend(s, joined, t, a);
    var t1 := t.(dbs := t.dbs.(running := t.dbs.running.(owner := 1)));
    assert Next(t, a) == t1;
    Extend(s, joined + [a], t1, b);
    var t2 := t1.(dbs := t1.dbs.(candidate := t1.dbs.candidate.(owner := 1)));
    assert Next(t1, b) == t2;
    r := AfterConfirmed(s, joined + [a] + [b], t2, None);
    steps := joined + [a] + [b] + [Rpc(1, Confirmed(None))];
    FreshHasInv(s);
    RunKeepsInv(s, steps);
  }

  /** A cancel-commit whose rollback the plugins refuse takes the running lock from another session, and both go on. */
  lemma LockLost()
    ensures exists s, steps, t, last: Step :: Initial(s) && Leads(s, steps, t) && Enabled(t, last) && Actor(last) == 1
              && t.dbs.running.owner == 2 && Next(t, last).dbs.running.owner == 0
              && Next(t, last).up && 2 in Next(t, last).clients
  {
    hide DoRollback, RollbackCommit;
    var steps, t := PersistentLocked();
    FreshHasInv(Fresh(Holds(OLD)));
    RunKeepsInv(Fresh(Holds(OLD)), steps);
    var last := Rpc(1, RCancel(Some(Some("id")), Refuse(), Agree()));
    Refused(t.(timers := CancelTimer(t.timers)));
    LockLostToCancel(t, 1, Some(Some("id")), Refuse(), Agree());
    StepKeepsRest(t, last);
    assert Enabled(t, last) && Actor(last) == 1;
  }

  lemma Refused(s: State)
    requires s.dbs.rollback.file == Holds(OLD) && Exists(s.dbs, Running)
    ensures RollbackCommit(s, Refuse()).ret == Error
  {
  }

  /** An edit of startup that commits at once ends the confirmed commit of the session that holds both locks. */
  lemma AutoCommitEnds()
    ensures exists s, steps, t, last: Step :: Initial(s) && Leads(s, steps, t) && Guarded(t, 1) && Enabled(t, last)
              && Actor(last) == 2 && Next(t, last).cc.state == Inactive
  {
    var steps, t := GuardedReached();
    var last := Rpc(2, REdit(Startup, Some(NEW), true, Agree(), true));
    EditedStartupCommits(t);
    assert Enabled(t, last) && Next(t, last).cc.state == Inactive && Actor(last) == 2;
  }

  lemma EditedStartupCommits(t: State)
    requires Guarded(t, 1) && t.up && t.dbs.startup.owner == 0
    ensures EditConfig(t, 2, Startup, Some(NEW), true, Agree(), true).cc.state == Inactive
  {
    hide CandidateCommit;
    var p := Put(t, Startup, NEW);
    PutKeepsInv(t, Startup, NEW, 2);
    AutoCommitStartKeepsInv(p);
    CommitFrame(AutoCommitStart(p), None, Startup, 2, Agree());
  }

  /** Session 1 has committed `NEW` over `OLD`, to be confirmed. */
  lemma NewPending() returns (steps: seq<Step>, r: State)
    ensures Initial(Fresh(Holds(OLD))) && Leads(Fresh(Holds(OLD)), steps, r)
    ensures r.up && r.timers == 1 && r.cc == Confirm(Ephemeral, None, 1) && r.opts == Options(false, true)
    ensures r.dbs.rollback == Clean(Holds(OLD)) && r.dbs.running == Clean(Holds(NEW))
    ensures r.dbs.candidate == Clean(Holds(NEW))
  {
    hide CandidateCommit;
    var joined, t := TwoJoined(Holds(OLD));
    var s := Fresh(Holds(OLD));
    var edit := Rpc(1, REdit(Candidate, Some(NEW), false, Agree(), true));
    Extend(s, joined, t, edit);
    var t1 := t.(dbs := t.dbs.(candidate := Entry(Holds(NEW), 0, true)));
    assert Next(t, edit) == t1;
    r := AfterConfirmed(s, joined + [edit], t1, None);
    steps := joined + [edit] + [Rpc(1, Confirmed(None))];
  }

  const ACCEPTED :=
    Recovery.Verdicts(Recovery.Accepted, Recovery.Accepted, Recovery.Accepted, Recovery.Accepted)

  /** The timer fires, and the backend crashes in the first write of the rollback. A start from running, in which every
  commit is accepted, keeps what was never confirmed. */
  lemma SavedLost()
    ensures exists s, steps, t :: Initial(s) && Leads(s, steps, t) && Pending(t) && t.timers == 1
              && t.dbs.rollback.file == Holds(OLD) && KeepsUnconfirmed(t.(timers := 0), NEW)
  {
    hide CandidateCommit;
    var steps, t := NewPending();
    CrashSafety.RollbackLost(t.(timers := 0), Agree(), Agree(), CrashSafety.Caches(true, false), ACCEPTED, NEW);
    assert KeepsUnconfirmed(t.(timers := 0), NEW);
  }

  ghost predicate KeepsUnconfirmed(s: State, u: Config) {
    var log := CrashSafety.RollbackLog(s, Agree(), Agree(), CrashSafety.Caches(true, false));
    var crash := Recovery.Crash(Recovery.FromRunning, ACCEPTED, 0, true, Truncated);
    var e := Recovery.Left(CrashSafety.DiskOf(s.dbs), log, crash);
    Recovery.ApplyAll(e, Recovery.StartWrites(e, Recovery.FromRunning, ACCEPTED, s.opts)).running == Holds(u)
  }

  /** After a rollback the candidate holds what was committed, and its dirty bit is clear. */
  lemma ClearAfterRollback()
    ensures exists s, steps :: Initial(s) && ClearMeansSame(s) && Run(s, steps) && !ClearMeansSame(After(s, steps))
  {
    hide CandidateCommit, DoRollback, RollbackCommit;
    var steps, r := NewPending();
    Extend(Fresh(Holds(OLD)), steps, r, Expire(Agree(), Agree()));
    TimedOut(r);
    assert Read(r.dbs, Candidate, r.opts) == Some(NEW);
  }

  lemma TimedOut(r: State)
    requires r.up && r.timers > 0 && r.cc.state == Ephemeral && r.dbs.rollback.file == Holds(OLD)
    requires r.dbs.running.file == Holds(NEW)
    ensures Next(r, Expire(Agree(), Agree())).dbs.running.file == Holds(OLD)
    ensures Next(r, Expire(Agree(), Agree())).dbs.candidate == r.dbs.candidate
    ensures Next(r, Expire(Agree(), Agree())).opts == r.opts
  {
  }

  /** A commit that leaves a deletion unchecked puts an invalid configuration in running. */
  lemma AfterSlip() returns (steps: seq<Step>, r: State)
    ensures var s, bad := Fresh(Holds(OLD)), Clean(Holds(BROKEN));
      && Initial(s) && Leads(s, steps, r) && CommitsOnly(steps)
      && r == s.(clients := [2, 1], nextId := 3, dbs := s.dbs.(candidate := bad, running := bad))
  {
    var joined, t := TwoJoined(Holds(OLD));
    var s := Fresh(Holds(OLD));
    var edit, slip := Rpc(1, REdit(Candidate, Some(BROKEN), false, Agree(), true)), Rpc(1, RCommit(PLAIN, Slip()));
    Extend(s, joined, t, edit);
    var t1 := t.(dbs := t.dbs.(candidate := Entry(Holds(BROKEN), 0, true)));
    assert Next(t, edit) == t1;
    Extend(s, joined + [edit], t1, slip);
    steps, r := joined + [edit] + [slip], Next(t1, slip);
  }

  /** So over commits alone running can become invalid. */
  lemma InvalidCommitted()
    ensures exists s, steps :: Initial(s) && Sound(s) && Run(s, steps) && CommitsOnly(steps)
                               && !ValidIn(After(s, steps).dbs, Running, s.opts)
  {
    var steps, r := AfterSlip();
    assert Sound(Fresh(Holds(OLD))) && Run(Fresh(Holds(OLD)), steps);
  }

  /** And a confirmed commit on top of that is not rolled back when it times out. */
  lemma InvalidNotRestored()
    ensures exists s, steps, t, last: Step :: Initial(s) && Sound(s) && Leads(s, steps, t) && CommitsOnly(steps)
              && Enabled(t, last) && last.Expire? && Exists(t.dbs, Rollback) && !Exists(Next(t, last).dbs, Rollback)
              && Next(t, last).dbs.running.file == t.dbs.running.file != t.dbs.rollback.file
  {
    hide CandidateCommit, DoRollback, RollbackCommit;
    var slipped, t := AfterSlip();
    var s := Fresh(Holds(OLD));
    var edit, last := Rpc(1, REdit(Candidate, Some(NEW), false, Agree(), true)), Expire(Agree(), Agree());
    Extend(s, slipped, t, edit);
    var t1 := t.(dbs := t.dbs.(candidate := Entry(Holds(NEW), 0, true)));
    assert Next(t, edit) == t1;
    var r := AfterConfirmed(s, slipped + [edit], t1, None);
    NotRolledBack(r);
    assert Enabled(r, last) && CommitsOnly(slipped + [edit] + [Rpc(1, Confirmed(None))]);
  }

  lemma NotRolledBack(r: State)
    requires r.up && r.timers > 0 && r.cc.state == Ephemeral && r.dbs.rollback.file == Holds(BROKEN)
    requires r.dbs.running.file == Holds(NEW)
    ensures Next(r, Expire(Agree(), Agree())).dbs.running.file == Holds(NEW)
    ensures !Exists(Next(r, Expire(Agree(), Agree())).dbs, Rollback)
  {
  }

  /** A zero-length running store saved by the first confirmed commit is overwritten by the second. */
  lemma EmptyRunningOverwritten()
    ensures exists s, steps, t, last: Step :: Initial(s) && Leads(s, steps, t) && Enabled(t, last) && Pending(t)
              && t.dbs.rollback.file == s.dbs.running.file && Next(t, last).dbs.rollback.file != s.dbs.running.file
  {
    var steps, t := TwoJoined(Truncated);
    var s := Fresh(Truncated);
    var r := AfterConfirmed(s, steps, t, None);
    var last := Rpc(1, Confirmed(None));
    SavedAgain(r);
    assert Enabled(r, last);
  }

  lemma SavedAgain(r: State)
    requires r.up && r.cc == Confirm(Ephemeral, None, 1) && !Exists(r.dbs, Rollback) && r.dbs.running.file == Holds(OLD)
    requires r.dbs.candidate.file == Holds(OLD) && r.dbs.candidate.owner == 0 && r.dbs.running.owner == 0
    ensures Serve(r, 1, Confirmed(None)).dbs.rollback.file == Holds(OLD)
  {
    hide CommitPhases;
    var p := HandleConfirmed(r, CommitArgs(true, None, None), 1);
    assert p.Some? && p.value.dbs.rollback.file == Holds(OLD);
    assert CommitPhases(p.value, Candidate, Agree()).st.dbs.rollback == p.value.dbs.rollback by { Spared(p.value); }
  }

  lemma Spared(s: State)
    ensures CommitPhases(s, Candidate, Agree()).st.dbs.rollback == s.dbs.rollback
  {
  }

  /** A session removed by its notification stream still holds its lock. */
  lemma LockLeftBehind()
    ensures exists s, steps :: Initial(s) && Run(s, steps) && !OwnersLive(After(s, steps))
  {
    var joined, t := TwoJoined(Holds(OLD));
    var s := Fresh(Holds(OLD));
    var a, last := Rpc(1, RLock(Candidate, true)), StreamEnd(1, Agree(), Agree());
    Extend(s, joined, t, a);
    var t1 := t.(dbs := t.dbs.(candidate := t.dbs.candidate.(owner := 1)));
    assert Next(t, a) == t1;
    Extend(s, joined + [a], t1, last);
    assert Without([2, 1], 1) == [2] by { assert [2, 1][1..] == [1] && [1][1..] == []; }
    var e := Next(t1, last);
    assert e.dbs.Get(Candidate).owner == 1 && e.clients == [2] && Nameable(Candidate);
  }
}
