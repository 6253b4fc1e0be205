/** The store writes of a confirmed-commit sequence, and what a restart makes of a crash in the middle of them. */
module CrashSafety {
  import opened Optional
  import opened Datastore
  import opened Engine
  import opened Session
  import opened Locks
  import opened ConfirmedCommit
  import opened Recovery

  function DiskOf(t: Table): Disk { Disk(t.running.file, t.startup.file, t.rollback.file, t.failsafe.file, t.tmp.file) }

  /** What a start goes for: the rollback store if there is one, otherwise what its mode names. */
  function Goal(d: Disk, mode: Mode): File {
    if d.rollback.Holds? then d.rollback else if mode == FromRunning then d.running else d.startup
  }

  // ----- commit

  predicate Confirms(s: State, sid: nat, a: CommitArgs) { !a.confirmed && ValidConfirming(s.cc, a, sid) }

  /** The files a commit request writes, in order. */
  function CommitLog(s: State, sid: nat, a: CommitArgs, cb: Callbacks): seq<Write> {
    if Confirms(s, sid, a) then [Truncate(NRollback)]
    else if !ReachesPhaseTwo(s, sid, a, cb) then []
    else
      (if !a.confirmed then [Truncate(NRollback)]
       else if Exists(s.dbs, Rollback) then [] else [Put(NRollback, s.dbs.running.file)])
      + (if CandidateCommit(s, Some(a), Candidate, sid, cb).ret != Ok then []
         else [Put(NRunning, s.dbs.candidate.file)])
  }

  lemma ApplyOne(d: Disk, w: Write)
    ensures ApplyAll(d, [w]) == Apply(d, w) && ApplyAll(d, []) == d
  {
    assert [w][..0] == [];
  }

  lemma ApplyTwo(d: Disk, w: Write, x: Write)
    ensures ApplyAll(d, [w, x]) == Apply(Apply(d, w), x)
  {
    assert [w, x][..1] == [w];
    ApplyOne(d, w);
  }

  lemma NoCommitAfterError(s: State, a: CommitArgs, sid: nat, cb: Callbacks)
    ensures ValidateCommon(s, Candidate, cb).0 == Error ==> CandidateCommit(s, Some(a), Candidate, sid, cb).ret == Error
  {
  }

  /** The log is complete: its writes lead to the stores the commit leaves. */
  lemma CommitLogExact(s: State, sid: nat, a: CommitArgs, cb: Callbacks)
    requires Inv(s) && sid in s.clients
    ensures ApplyAll(DiskOf(s.dbs), CommitLog(s, sid, a, cb)) == DiskOf(Commit(s, sid, a, cb).dbs)
  {
    hide CandidateCommit, ValidateCommon, ApplyAll;
    var d, log := DiskOf(s.dbs), CommitLog(s, sid, a, cb);
    if !Confirms(s, sid, a) && !LockedByOther(s, Candidate, sid) && !LockedByOther(s, Running, sid) {
      CommitFrame(s, Some(a), Candidate, sid, cb);
    }
    NoCommitAfterError(s, a, sid, cb);
    if |log| <= 1 {
      ApplyOne(d, if log == [] then Truncate(NRollback) else log[0]);
      assert log == [] || log == [log[0]];
    } else {
      ApplyTwo(d, log[0], log[1]);
      assert log == [log[0], log[1]];
    }
  }

  /** The crash is inside the copy that saves running, at the start of a sequence. */
  predicate TornSave(s: State, sid: nat, a: CommitArgs, cb: Callbacks, crash: Crash) {
    crash.torn && crash.k == 0 && !Pending(s) && ReachesPhaseTwo(s, sid, a, cb)
  }

  /** A crash anywhere inside the commits of a sequence leaves the saved configuration for a restart to go for, until
  the one write that confirms it, the deletion of the rollback store. Before running is saved nothing has changed, and
  a torn save counts for what it left, if that is anything. */
  lemma CommitCrash(s: State, sid: nat, a: CommitArgs, cb: Callbacks, crash: Crash, mode: Mode)
    requires Inv(s) && Machine(s) && sid in s.clients && !Breaks(s, Rpc(sid, RCommit(a, cb)))
    requires a.confirmed || Pending(s)
    ensures var d, log := DiskOf(s.dbs), CommitLog(s, sid, a, cb); var e := Left(d, log, crash);
      Goal(e, mode) ==
        if Confirms(s, sid, a) && crash.k > 0 then
          if mode == FromRunning then s.dbs.running.file else s.dbs.startup.file
        else if Pending(s) then s.dbs.rollback.file
        else if TornSave(s, sid, a, cb, crash) && crash.rubbish.Holds? then crash.rubbish
        else if log == [] || crash.k == 0 then Goal(d, mode)
        else s.dbs.running.file
  {
    hide CandidateCommit, ValidateCommon, ApplyAll;
    var d, log := DiskOf(s.dbs), CommitLog(s, sid, a, cb);
    var k := if crash.k <= |log| then crash.k else |log|;
    if k == 0 {
      ApplyOne(d, Truncate(NRollback));
      assert log[..k] == [];
    } else if k == 1 {
      ApplyOne(d, log[0]);
      assert log[..k] == [log[0]];
    } else {
      ApplyTwo(d, log[0], log[1]);
      assert log[..k] == [log[0], log[1]];
    }
  }

  // ----- rollback

  /** Which of the two stores are held in memory. The copy that saves running leaves the rollback store there; failsafe
  is there once it has been read. */
  datatype Caches = Caches(rollback: bool, failsafe: bool)

  /** Before it is validated, a store that is held in memory is written to its file, where it already is. */
  function Rewrite(n: Name, f: File, cached: bool): seq<Write> { if cached then [Put(n, f)] else [] }

  /** The files a rollback writes, in order. A rollback store that is refused is renamed before failsafe is loaded. */
  function RollbackLog(s: State, rb: Callbacks, fs: Callbacks, m: Caches): seq<Write> {
    Rewrite(NRollback, s.dbs.rollback.file, m.rollback) +
    match RollbackCommit(s, rb).ret
    case Ok => [Put(NRunning, s.dbs.rollback.file), Truncate(NRollback)]
    case Invalid => [Truncate(NRollback)]
    case Error => if Exists(s.dbs, Failsafe) then FailsafeLog(s, rb, fs, m) else [Remove(NRollback)]
  }

  function FailsafeLog(s: State, rb: Callbacks, fs: Callbacks, m: Caches): seq<Write> {
    [Remove(NRollback), Put(NTmp, s.dbs.running.file), Truncate(NRunning)]
    + Rewrite(NFailsafe, s.dbs.failsafe.file, m.failsafe)
    + [Put(NRunning, DoRollback(s, rb, fs).dbs.running.file)]
  }

  lemma RewriteKeeps(d: Disk, n: Name, cached: bool)
    ensures ApplyAll(d, Rewrite(n, Get(d, n), cached)) == d
  {
    ApplyOne(d, Put(n, Get(d, n)));
  }

  lemma ApplyThree(d: Disk, w: Write, x: Write, y: Write)
    ensures ApplyAll(d, [w, x, y]) == Apply(Apply(Apply(d, w), x), y)
  {
    assert [w, x, y][..2] == [w, x];
    ApplyTwo(d, w, x);
  }

  /** A crash in the second of two logs is one after the first. */
  lemma LeftSplit(d: Disk, a: seq<Write>, b: seq<Write>, crash: Crash)
    ensures Left(d, a + b, crash) ==
      if crash.k < |a| then Left(d, a, crash) else Left(ApplyAll(d, a), b, crash.(k := crash.k - |a|))
  {
    hide ApplyAll;
    var ws := a + b;
    var k := if crash.k <= |ws| then crash.k else |ws|;
    if crash.k < |a| {
      assert ws[..k] == a[..k];
    } else {
      assert ws[..k] == a + b[..k - |a|];
      ApplySplit(d, a, b[..k - |a|]);
    }
  }

  lemma LeftOne(d: Disk, w: Write, crash: Crash)
    ensures Left(d, [w], crash) ==
      if crash.k > 0 then Apply(d, w) else if crash.torn && w.Put? then Set(d, w.n, crash.rubbish) else d
  {
    ApplyOne(d, w);
    assert [w][..1] == [w] && [w][..0] == [];
  }

  /** The log is complete for every outcome. */
  lemma RollbackLogExact(s: State, rb: Callbacks, fs: Callbacks, m: Caches)
    requires Inv(s) && Exists(s.dbs, Rollback)
    ensures ApplyAll(DiskOf(s.dbs), RollbackLog(s, rb, fs, m)) == DiskOf(DoRollback(s, rb, fs).dbs)
  {
    hide LoadFailsafe, ValidateCommon, ApplyAll, Rewrite, Inv, FailsafeLog;
    var d, log, s1 := DiskOf(s.dbs), RollbackLog(s, rb, fs, m), s.(cc := DropPersist(s.cc).(state := RollingBack));
    InvParts(s);
    CommitFrame(s1, None, Rollback, 0, rb);
    var c, first := RollbackCommit(s, rb), Rewrite(NRollback, s.dbs.rollback.file, m.rollback);
    RewriteKeeps(d, NRollback, m.rollback);
    if c.ret == Ok {
      ApplySplit(d, first, [Put(NRunning, s.dbs.rollback.file), Truncate(NRollback)]);
      ApplyTwo(d, Put(NRunning, s.dbs.rollback.file), Truncate(NRollback));
    } else if c.ret == Invalid {
      ApplySplit(d, first, [Truncate(NRollback)]);
      ApplyOne(d, Truncate(NRollback));
    } else {
      ApplySplit(d, first, if Exists(s.dbs, Failsafe) then FailsafeLog(s, rb, fs, m) else [Remove(NRollback)]);
      RefusedLogExact(s, rb, fs, m);
    }
  }

  lemma RefusedLogExact(s: State, rb: Callbacks, fs: Callbacks, m: Caches)
    requires !s.dbs.running.file.Absent? && RollbackCommit(s, rb).ret == Error
    ensures ApplyAll(DiskOf(s.dbs), if Exists(s.dbs, Failsafe) then FailsafeLog(s, rb, fs, m) else [Remove(NRollback)])
         == DiskOf(DoRollback(s, rb, fs).dbs)
  {
    hide LoadFailsafe, CandidateCommit, ApplyAll, Rewrite;
    var d, s1 := DiskOf(s.dbs), s.(cc := DropPersist(s.cc).(state := RollingBack));
    CommitFrame(s1, None, Rollback, 0, rb);
    var c := RollbackCommit(s, rb);
    var s2 := c.st.(dbs := RenameAway(c.st.dbs, Rollback));
    assert s2.dbs == s.dbs.(rollback := c.st.dbs.rollback.(file := Absent));
    FailsafeFrame(s2, fs);
    ApplyOne(d, Remove(NRollback));
    if Exists(s.dbs, Failsafe) { FailsafeApplied(d, s, rb, fs, m); }
  }

  /** What the way to failsafe leaves, all of it written. */
  lemma FailsafeApplied(d: Disk, s: State, rb: Callbacks, fs: Callbacks, m: Caches)
    requires d == DiskOf(s.dbs)
    ensures ApplyAll(d, FailsafeLog(s, rb, fs, m))
         == d.(rollback := Absent, tmp := d.running, running := DoRollback(s, rb, fs).dbs.running.file)
  {
    hide ApplyAll, Rewrite, DoRollback;
    var head := [Remove(NRollback), Put(NTmp, s.dbs.running.file), Truncate(NRunning)];
    var mid := Rewrite(NFailsafe, s.dbs.failsafe.file, m.failsafe);
    var last := Put(NRunning, DoRollback(s, rb, fs).dbs.running.file);
    var d1 := ApplyAll(d, head);
    ApplyThree(d, head[0], head[1], head[2]);
    ApplySplit(d, head, mid);
    RewriteKeeps(d1, NFailsafe, m.failsafe);
    ApplySplit(d, head + mid, [last]);
    ApplyOne(d1, last);
  }

  /** The crash is inside the write that brings the file of the rollback store up to date. */
  predicate TornRewrite(m: Caches, crash: Crash) { m.rollback && crash.torn && crash.k == 0 }

  /** A rollback that crashes half-way is finished by the restart, as long as the starts find the rollback store, and
  once it is gone by a start from running; exactly unless the crash tears the rollback store itself, and what is left of
  it, or if nothing is left what running held unconfirmed, is another configuration. */
  lemma RollbackCrash(s: State, rb: Callbacks, fs: Callbacks, m: Caches, crash: Crash,
                      cs: seq<Crash>, mode: Mode, v: Verdicts, c: Config)
    requires s.dbs.rollback.file == Holds(c) && RollbackCommit(s, rb).ret == Ok
    requires v.rollback == Accepted && v.own == Accepted
    requires var d := Left(DiskOf(s.dbs), RollbackLog(s, rb, fs, m), crash);
      if d.rollback.Holds? then forall i :: 0 <= i <= |cs| ==> AfterCrashes(d, cs[..i], s.opts).rollback.Holds?
      else cs == [] && mode == FromRunning
    ensures var e := AfterCrashes(Left(DiskOf(s.dbs), RollbackLog(s, rb, fs, m), crash), cs, s.opts);
      ApplyAll(e, StartWrites(e, mode, v, s.opts)).running == Holds(c) <==>
        (TornRewrite(m, crash) ==>
           if crash.rubbish.Holds? then crash.rubbish.config == c else Content(s.dbs.running.file, s.opts) == Some(c))
  {
    hide StartWrites, ApplyAll, RollbackCommit, Left;
    var d := Left(DiskOf(s.dbs), RollbackLog(s, rb, fs, m), crash);
    RollbackLeaves(s, rb, fs, m, crash, c);
    if d.rollback.Holds? {
      RecoveryRestores(d, cs, mode, v, s.opts, d.rollback.config);
    } else {
      OrdinaryStart(d, v, s.opts);
    }
  }

  lemma RollbackLeaves(s: State, rb: Callbacks, fs: Callbacks, m: Caches, crash: Crash, c: Config)
    requires s.dbs.rollback.file == Holds(c) && RollbackCommit(s, rb).ret == Ok
    ensures var d := DiskOf(s.dbs); var e := Left(d, RollbackLog(s, rb, fs, m), crash);
      && !s.dbs.running.file.Absent?
      && if TornRewrite(m, crash) then e == d.(rollback := crash.rubbish) else Saved(e, c)
  {
    hide ApplyAll, Left;
    var d, first := DiskOf(s.dbs), Rewrite(NRollback, s.dbs.rollback.file, m.rollback);
    var rest := [Put(NRunning, Holds(c)), Truncate(NRollback)];
    assert RestoringAt(rest, c, 1);
    LeftSplit(d, first, rest, crash);
    RewriteKeeps(d, NRollback, m.rollback);
    LeftOne(d, Put(NRollback, Holds(c)), crash);
    if crash.k >= |first| { LeftSaved(d, rest, c, crash.(k := crash.k - |first|)); }
  }

  /** The crash that loses the saved configuration: the rollback store is emptied to be written again, and a start from
  running then has the unconfirmed configuration, with no rollback store to go for. */
  lemma RollbackLost(s: State, rb: Callbacks, fs: Callbacks, m: Caches, v: Verdicts, u: Config)
    requires Exists(s.dbs, Rollback) && s.dbs.running.file == Holds(u) && m.rollback && v.own == Accepted
    ensures var e := Left(DiskOf(s.dbs), RollbackLog(s, rb, fs, m), Crash(FromRunning, v, 0, true, Truncated));
      !e.rollback.Holds? && ApplyAll(e, StartWrites(e, FromRunning, v, s.opts)).running == Holds(u)
  {
    hide ApplyAll, StartWrites, RollbackCommit, FailsafeLog;
    var d, log, crash := DiskOf(s.dbs), RollbackLog(s, rb, fs, m), Crash(FromRunning, v, 0, true, Truncated);
    var w := Put(NRollback, s.dbs.rollback.file);
    assert log == [w] + log[1..];
    LeftSplit(d, [w], log[1..], crash);
    LeftOne(d, w, crash);
    OrdinaryStart(Left(d, log, crash), v, s.opts);
  }

  /** A refused rollback has no such luck: a crash once the rollback store is renamed, and before failsafe is in
  place, leaves a restart from running with the unconfirmed configuration, with nothing, or with a torn one. */
  lemma RefusedRollbackCrash(s: State, rb: Callbacks, fs: Callbacks, m: Caches, crash: Crash, mode: Mode)
    requires Inv(s) && Exists(s.dbs, Rollback) && RollbackCommit(s, rb).ret == Error
    ensures var d, log := DiskOf(s.dbs), RollbackLog(s, rb, fs, m);
      var k := if m.rollback then crash.k - 1 else crash.k;
      Goal(Left(d, log, crash), mode) ==
        if TornRewrite(m, crash) then Goal(d.(rollback := crash.rubbish), mode)
        else if k <= 0 then s.dbs.rollback.file
        else if mode == FromStartup then s.dbs.startup.file
        else if k <= 2 || !Exists(s.dbs, Failsafe) then s.dbs.running.file
        else if crash.k >= |log| then DoRollback(s, rb, fs).dbs.running.file
        else if crash.torn && crash.k == |log| - 1 then crash.rubbish
        else Truncated
  {
    hide DoRollback, ApplyAll, RollbackCommit, Left, Inv, FailsafeLog;
    var d, log, first := DiskOf(s.dbs), RollbackLog(s, rb, fs, m), Rewrite(NRollback, s.dbs.rollback.file, m.rollback);
    var rest := if Exists(s.dbs, Failsafe) then FailsafeLog(s, rb, fs, m) else [Remove(NRollback)];
    assert log == first + rest;
    InvParts(s);
    LeftSplit(d, first, rest, crash);
    RewriteKeeps(d, NRollback, m.rollback);
    LeftOne(d, Put(NRollback, s.dbs.rollback.file), crash);
    if crash.k >= |first| {
      var late := crash.(k := crash.k - |first|);
      if Exists(s.dbs, Failsafe) { FailsafeLeaves(s, rb, fs, m, late); } else { LeftOne(d, Remove(NRollback), late); }
    }
  }

  /** What a crash on the way to failsafe leaves. */
  lemma FailsafeLeaves(s: State, rb: Callbacks, fs: Callbacks, m: Caches, crash: Crash)
    requires !s.dbs.running.file.Absent?
    ensures var d, log := DiskOf(s.dbs), FailsafeLog(s, rb, fs, m); var e := Left(d, log, crash);
      && e.startup == d.startup && e.rollback == (if crash.k == 0 then d.rollback else Absent)
      && e.running == (
        if crash.k <= 2 then d.running
        else if crash.k >= |log| then DoRollback(s, rb, fs).dbs.running.file
        else if crash.torn && crash.k == |log| - 1 then crash.rubbish
        else Truncated)
  {
    hide ApplyAll, Left, DoRollback;
    var d := DiskOf(s.dbs);
    var a, b, c := Remove(NRollback), Put(NTmp, s.dbs.running.file), Truncate(NRunning);
    var mid := Rewrite(NFailsafe, s.dbs.failsafe.file, m.failsafe);
    var last := Put(NRunning, DoRollback(s, rb, fs).dbs.running.file);
    var d1 := Apply(Apply(Apply(d, a), b), c);
    var log := FailsafeLog(s, rb, fs, m);
    assert log == ([a] + ([b] + ([c] + (mid + [last]))));
    LeftSplit(d, [a], [b] + ([c] + (mid + [last])), crash);
    LeftOne(d, a, crash);
    ApplyOne(d, a);
    if crash.k > 0 {
      var c1 := crash.(k := crash.k - 1);
      LeftSplit(Apply(d, a), [b], [c] + (mid + [last]), c1);
      LeftOne(Apply(d, a), b, c1);
      ApplyOne(Apply(d, a), b);
      if crash.k > 1 {
        var c2 := crash.(k := crash.k - 2);
        LeftSplit(Apply(Apply(d, a), b), [c], mid + [last], c2);
        LeftOne(Apply(Apply(d, a), b), c, c2);
        ApplyOne(Apply(Apply(d, a), b), c);
        if crash.k > 2 {
          var c3 := crash.(k := crash.k - 3);
          LeftSplit(d1, mid, [last], c3);
          LeftOne(d1, Put(NFailsafe, s.dbs.failsafe.file), c3);
          RewriteKeeps(d1, NFailsafe, m.failsafe);
          if c3.k >= |mid| { LeftOne(d1, last, c3.(k := c3.k - |mid|)); }
        }
      }
    }
  }

  // ----- edits

  /** Writing a store that an edit names. The candidate is not kept in a file. */
  function StoreWrite(d: Db, f: File): seq<Write> {
    match d
    case Startup => [Put(NStartup, f)]
    case Running => [Put(NRunning, f)]
    case _ => []
  }

  /** The files an edit writes, in order. One that commits at once first drops the rollback store. */
  function EditLog(s: State, sid: nat, d: Db, put: Option<Config>, auto: bool, cb: Callbacks, lockOk: bool): seq<Write>
  {
    var l := AutoLock(s, sid, d, lockOk);
    if put.None? || LockedByOther(s, d, sid) || l.1 != Ok then []
    else
      StoreWrite(d, Holds(put.value))
      + if auto then AutoCommitLog(Session.Put(l.0, d, put.value), sid, d, cb) else []
  }

  function AutoCommitLog(s: State, sid: nat, d: Db, cb: Callbacks): seq<Write> {
    if s.cc.state == Persistent then [] else
    var f := s.dbs.Get(d).file;
    DropLog(s) + StoreWrite(d, f) +
    if CandidateCommit(AutoCommitStart(s), None, d, sid, cb).ret == Ok then [Put(NRunning, f)]
    else StoreWrite(d, s.dbs.running.file)
  }

  function DropLog(s: State): seq<Write> { if s.cc.state == Inactive then [] else [Truncate(NRollback)] }

  /** The file of a store that an edit may name. */
  function SetFile(d: Disk, db: Db, f: File): Disk {
    match db
    case Startup => d.(startup := f)
    case Running => d.(running := f)
    case _ => d
  }

  lemma StoreWritten(d: Disk, db: Db, f: File)
    ensures ApplyAll(d, StoreWrite(db, f)) == SetFile(d, db, f)
  {
    if db == Startup { ApplyOne(d, Put(NStartup, f)); }
    if db == Running { ApplyOne(d, Put(NRunning, f)); }
  }

  lemma AutoCommitLogExact(s: State, sid: nat, d: Db, cb: Callbacks)
    requires !s.dbs.running.file.Absent? && Nameable(d) && s.dbs.Get(d).file.Holds?
    ensures ApplyAll(DiskOf(s.dbs), AutoCommitLog(s, sid, d, cb)) == DiskOf(AutoCommit(s, sid, d, cb).dbs)
  {
    hide CandidateCommit, ApplyAll, StoreWrite;
    var disk := DiskOf(s.dbs);
    ApplyOne(disk, Truncate(NRollback));
    if s.cc.state != Persistent {
      var s1, f := AutoCommitStart(s), s.dbs.Get(d).file;
      CommitFrame(s1, None, d, sid, cb);
      var c := CandidateCommit(s1, None, d, sid, cb);
      StoreWritten(DiskOf(s1.dbs), d, f);
      ApplySplit(disk, DropLog(s), StoreWrite(d, f));
      assert ApplyAll(disk, DropLog(s) + StoreWrite(d, f)) == DiskOf(s1.dbs);
      var last := if c.ret == Ok then [Put(NRunning, f)] else StoreWrite(d, s.dbs.running.file);
      assert AutoCommitLog(s, sid, d, cb) == DropLog(s) + StoreWrite(d, f) + last;
      ApplySplit(disk, DropLog(s) + StoreWrite(d, f), last);
      ApplyOne(DiskOf(s1.dbs), Put(NRunning, f));
      StoreWritten(DiskOf(s1.dbs), d, s.dbs.running.file);
    }
  }

  lemma EditLogExact(s: State, sid: nat, d: Db, put: Option<Config>, auto: bool, cb: Callbacks, lockOk: bool)
    requires Inv(s) && Nameable(d)
    ensures ApplyAll(DiskOf(s.dbs), EditLog(s, sid, d, put, auto, cb, lockOk))
         == DiskOf(EditConfig(s, sid, d, put, auto, cb, lockOk).dbs)
  {
    hide ApplyAll, StoreWrite, AutoCommit, AutoCommitLog, Inv;
    InvParts(s);
    var disk, l := DiskOf(s.dbs), AutoLock(s, sid, d, lockOk);
    ApplyOne(disk, Truncate(NRollback));
    if put.Some? && !LockedByOther(s, d, sid) && l.1 == Ok {
      var p := Session.Put(l.0, d, put.value);
      StoreWritten(disk, d, Holds(put.value));
      AutoCommitLogExact(p, sid, d, cb);
      ApplySplit(disk, StoreWrite(d, Holds(put.value)), if auto then AutoCommitLog(p, sid, d, cb) else []);
      ApplyOne(DiskOf(p.dbs), Truncate(NRollback));
      UnwindFiles(if auto then AutoCommit(p, sid, d, cb) else p, sid, d);
    } else {
      UnwindFiles(l.0, sid, d);
      UnwindFiles(s, sid, d);
    }
  }

  lemma UnwindFiles(s: State, sid: nat, d: Db)
    ensures DiskOf(UnwindAutoLock(s, sid, d).dbs) == DiskOf(s.dbs)
  {
  }

  /** The edit commits at once, and ends an ephemeral sequence by it. */
  predicate EditDrops(s: State, sid: nat, d: Db, put: Option<Config>, auto: bool, lockOk: bool) {
    && put.Some? && auto && !LockedByOther(s, d, sid) && AutoLock(s, sid, d, lockOk).1 == Ok
    && s.cc.state != Persistent && s.cc.state != Inactive
  }

  /** What a crash inside an edit leaves in the rollback store: all of it until it is dropped, and then nothing. */
  lemma EditCrash(s: State, sid: nat, d: Db, put: Option<Config>, auto: bool, cb: Callbacks, lockOk: bool, crash: Crash)
    requires Nameable(d)
    ensures var log := EditLog(s, sid, d, put, auto, cb, lockOk);
      Left(DiskOf(s.dbs), log, crash).rollback ==
        if EditDrops(s, sid, d, put, auto, lockOk) && crash.k > |StoreWrite(d, Holds(put.value))|
        then Apply(DiskOf(s.dbs), Truncate(NRollback)).rollback
        else s.dbs.rollback.file
  {
    hide CandidateCommit, ApplyAll, Left, AutoLock;
    var l := AutoLock(s, sid, d, lockOk);
    var disk, log := DiskOf(s.dbs), EditLog(s, sid, d, put, auto, cb, lockOk);
    LeftAvoids(disk, [], NRollback, crash);
    if put.Some? && !LockedByOther(s, d, sid) && l.1 == Ok {
      var first := StoreWrite(d, Holds(put.value));
      var rest := if auto then AutoCommitLog(Session.Put(l.0, d, put.value), sid, d, cb) else [];
      LeftSplit(disk, first, rest, crash);
      LeftAvoids(disk, first, NRollback, crash);
      AvoidsKeeps(disk, first, NRollback);
      AutoLockKeeps(s, sid, d, lockOk);
      if crash.k >= |first| {
        var late := crash.(k := crash.k - |first|);
        LeftAvoids(ApplyAll(disk, first), [], NRollback, late);
        AutoCommitCrash(Session.Put(l.0, d, put.value), sid, d, cb, ApplyAll(disk, first), late);
      }
    }
  }

  lemma AutoLockKeeps(s: State, sid: nat, d: Db, lockOk: bool)
    ensures AutoLock(s, sid, d, lockOk).0.cc == s.cc
  {
  }

  lemma AutoCommitCrash(s: State, sid: nat, d: Db, cb: Callbacks, disk: Disk, crash: Crash)
    ensures Left(disk, AutoCommitLog(s, sid, d, cb), crash).rollback ==
      if s.cc.state == Persistent || s.cc.state == Inactive || crash.k == 0 then disk.rollback
      else Apply(disk, Truncate(NRollback)).rollback
  {
    hide CandidateCommit, ApplyAll, Left;
    LeftAvoids(disk, [], NRollback, crash);
    if s.cc.state != Persistent {
      var a, log := DropLog(s), AutoCommitLog(s, sid, d, cb);
      var b := log[|a|..];
      assert log == a + b && Avoids(b, NRollback);
      LeftSplit(disk, a, b, crash);
      LeftOne(disk, Truncate(NRollback), crash);
      ApplyOne(disk, Truncate(NRollback));
      LeftAvoids(ApplyAll(disk, a), b, NRollback, crash.(k := if crash.k < |a| then 0 else crash.k - |a|));
    }
  }

  lemma LeftAvoids(d: Disk, ws: seq<Write>, n: Name, crash: Crash)
    requires Avoids(ws, n)
    ensures Get(Left(d, ws, crash), n) == Get(d, n)
  {
    var k := if crash.k <= |ws| then crash.k else |ws|;
    assert Avoids(ws[..k], n);
    AvoidsKeeps(d, ws[..k], n);
  }

  // ----- whole sequences

  /** What a crash inside a commit of a pending sequence leaves in the rollback store. */
  lemma CommitCrashKeeps(s: State, sid: nat, a: CommitArgs, cb: Callbacks, crash: Crash)
    requires Inv(s) && Machine(s) && Pending(s) && sid in s.clients && !Breaks(s, Rpc(sid, RCommit(a, cb)))
    ensures var e := Left(DiskOf(s.dbs), CommitLog(s, sid, a, cb), crash);
      e.rollback.Holds? ==> e.rollback == s.dbs.rollback.file
  {
    CommitCrash(s, sid, a, cb, crash, FromRunning);
    var log := CommitLog(s, sid, a, cb);
    if Confirms(s, sid, a) {
      ApplyOne(DiskOf(s.dbs), log[0]);
      assert log[..1] == log && log[..0] == [];
    }
  }

  /** Any run of a pending sequence, then a crash inside a commit of it, then any number of crashed starts in either
  mode: as long as each start finds the rollback store, the start that comes to its end restores the configuration
  running had before the sequence. */
  lemma {:induction false} SequenceCrashSafe(s: State, steps: seq<Step>, sid: nat, a: CommitArgs, cb: Callbacks,
                                             crash: Crash, cs: seq<Crash>, mode: Mode, v: Verdicts, c: Config)
    requires Inv(s) && Machine(s) && Run(s, steps) && Undisturbed(s, steps) && PendingThroughout(s, steps)
    requires s.dbs.rollback.file == Holds(c) && v.rollback == Accepted
    requires sid in After(s, steps).clients && !Breaks(After(s, steps), Rpc(sid, RCommit(a, cb)))
    requires var d := Left(DiskOf(After(s, steps).dbs), CommitLog(After(s, steps), sid, a, cb), crash);
      forall i :: 0 <= i <= |cs| ==> AfterCrashes(d, cs[..i], s.opts).rollback.Holds?
    ensures var d := Left(DiskOf(After(s, steps).dbs), CommitLog(After(s, steps), sid, a, cb), crash);
      var e := AfterCrashes(d, cs, s.opts); var r := ApplyAll(e, StartWrites(e, mode, v, s.opts));
      r.running == Holds(c) && r.rollback == Truncated
  {
    hide CommitLog, Left, StartWrites, ApplyAll, Breaks, Machine, Run, Undisturbed, PendingThroughout;
    SequenceKeepsRollback(s, steps);
    var t := After(s, steps);
    var d := Left(DiskOf(t.dbs), CommitLog(t, sid, a, cb), crash);
    assert AfterCrashes(d, cs[..0], s.opts) == d;
    CommitCrashKeeps(t, sid, a, cb, crash);
    RecoveryRestores(d, cs, mode, v, s.opts, c);
  }

  /** So it is after a crash inside an edit, which ends the sequence only if it commits at once. */
  lemma {:induction false} SequenceEditCrash(s: State, steps: seq<Step>, sid: nat, d: Db, put: Option<Config>,
                                             auto: bool, cb: Callbacks, lockOk: bool, crash: Crash, cs: seq<Crash>,
                                             mode: Mode, v: Verdicts, c: Config)
    requires Inv(s) && Machine(s) && Run(s, steps) && Undisturbed(s, steps) && PendingThroughout(s, steps)
    requires s.dbs.rollback.file == Holds(c) && v.rollback == Accepted && Nameable(d)
    requires var t := After(s, steps); var e := Left(DiskOf(t.dbs), EditLog(t, sid, d, put, auto, cb, lockOk), crash);
      forall i :: 0 < i <= |cs| ==> AfterCrashes(e, cs[..i], s.opts).rollback.Holds?
    requires EditDrops(After(s, steps), sid, d, put, auto, lockOk) ==> crash.k <= |StoreWrite(d, Holds(put.value))|
    ensures var t := After(s, steps); var e := Left(DiskOf(t.dbs), EditLog(t, sid, d, put, auto, cb, lockOk), crash);
      var r := AfterCrashes(e, cs, s.opts); ApplyAll(r, StartWrites(r, mode, v, s.opts)).running == Holds(c)
  {
    hide EditLog, Left, StartWrites, ApplyAll, Machine, Run, Undisturbed, PendingThroughout;
    SequenceKeepsRollback(s, steps);
    var t := After(s, steps);
    var e := Left(DiskOf(t.dbs), EditLog(t, sid, d, put, auto, cb, lockOk), crash);
    assert AfterCrashes(e, cs[..0], s.opts) == e;
    EditCrash(t, sid, d, put, auto, cb, lockOk, crash);
    RecoveryRestores(e, cs, mode, v, s.opts, c);
  }

  /** So does a crash inside the rollback that ends the sequence, exactly but for the crash that tears the rollback
  store. */
  lemma {:induction false} SequenceRollbackCrash(s: State, steps: seq<Step>, n: nat, rb: Callbacks, fs: Callbacks,
                                                 m: Caches, crash: Crash, cs: seq<Crash>, mode: Mode, v: Verdicts,
                                                 c: Config)
    requires Inv(s) && Machine(s) && Run(s, steps) && Undisturbed(s, steps) && PendingThroughout(s, steps)
    requires s.dbs.rollback.file == Holds(c) && v.rollback == Accepted && v.own == Accepted
    requires RollbackCommit(After(s, steps).(timers := n), rb).ret == Ok
    requires var t := After(s, steps).(timers := n);
      var d := Left(DiskOf(t.dbs), RollbackLog(t, rb, fs, m), crash);
      if d.rollback.Holds? then forall i :: 0 <= i <= |cs| ==> AfterCrashes(d, cs[..i], t.opts).rollback.Holds?
      else cs == [] && mode == FromRunning
    ensures var t := After(s, steps).(timers := n);
      var e := AfterCrashes(Left(DiskOf(t.dbs), RollbackLog(t, rb, fs, m), crash), cs, t.opts);
      ApplyAll(e, StartWrites(e, mode, v, t.opts)).running == Holds(c) <==>
        (TornRewrite(m, crash) ==>
           if crash.rubbish.Holds? then crash.rubbish.config == c else Content(t.dbs.running.file, t.opts) == Some(c))
  {
    hide Left, StartWrites, ApplyAll, Machine, Run, Undisturbed, PendingThroughout, RollbackLog, RollbackCommit;
    SequenceKeepsRollback(s, steps);
    RollbackCrash(After(s, steps).(timers := n), rb, fs, m, crash, cs, mode, v, c);
  }

  /** And so does a crash inside the first confirmed commit, once it has saved running. */
  lemma {:induction false} FirstCommitCrashSafe(s: State, sid: nat, a: CommitArgs, cb: Callbacks, crash: Crash,
                                                cs: seq<Crash>, mode: Mode, v: Verdicts, c: Config)
    requires Inv(s) && Machine(s) && !Pending(s) && sid in s.clients && a.confirmed && ReachesPhaseTwo(s, sid, a, cb)
    requires s.dbs.running.file == Holds(c) && v.rollback == Accepted && crash.k > 0
    requires var d := Left(DiskOf(s.dbs), CommitLog(s, sid, a, cb), crash);
      forall i :: 0 <= i <= |cs| ==> AfterCrashes(d, cs[..i], s.opts).rollback.Holds?
    ensures var e := AfterCrashes(Left(DiskOf(s.dbs), CommitLog(s, sid, a, cb), crash), cs, s.opts);
      ApplyAll(e, StartWrites(e, mode, v, s.opts)).running == Holds(c)
  {
    hide StartWrites, ApplyAll, Left, ValidateCommon, CandidateCommit;
    var d := Left(DiskOf(s.dbs), CommitLog(s, sid, a, cb), crash);
    assert AfterCrashes(d, cs[..0], s.opts) == d;
    CommitCrash(s, sid, a, cb, crash, FromRunning);
    RecoveryRestores(d, cs, mode, v, s.opts, c);
  }

  // ----- starts without a rollback store

  /** An ordinary start from running loses running exactly when it crashes between emptying it and writing it: the next
  start takes the emptied store for the configuration, and overwrites the backup with it. */
  lemma RestartLoses(d: Disk, v: Verdicts, k: nat, w: Verdicts, o: Options, c: Config)
    requires !d.rollback.Holds? && d.running == Holds(c) && c != EmptyConfig(o)
    requires v.own == Accepted && w.own == Accepted && k <= 4
    ensures |StartWrites(d, FromRunning, v, o)| == 4
    ensures var e := ApplyAll(d, StartWrites(d, FromRunning, v, o)[..k]);
      ApplyAll(e, StartWrites(e, FromRunning, w, o)).running == Holds(c) <==> k != 2
  {
    hide StartWrites;
    OrdinaryStart(d, v, o);
    var ws := StartWrites(d, FromRunning, v, o);
    var d1, d2 := Apply(d, ws[0]), Apply(Apply(d, ws[0]), ws[1]);
    ApplyOne(d, ws[0]);
    ApplyTwo(d, ws[0], ws[1]);
    assert ws[..0] == [] && ws[..1] == [ws[0]] && ws[..2] == [ws[0], ws[1]];
    assert ws[..3] == [ws[0], ws[1]] + [ws[2]] && ws[..4] == ws[..3] + [ws[3]];
    ApplySplit(d, [ws[0], ws[1]], [ws[2]]);
    ApplyOne(d2, ws[2]);
    ApplySplit(d, ws[..3], [ws[3]]);
    ApplyOne(Apply(d2, ws[2]), ws[3]);
    OrdinaryStart(ApplyAll(d, ws[..k]), w, o);
  }

  lemma OrdinaryStart(d: Disk, v: Verdicts, o: Options)
    requires !d.rollback.Holds? && !d.running.Absent? && v.own == Accepted
    ensures var ws := StartWrites(d, FromRunning, v, o); var c := Content(d.running, o).value;
      && ApplyAll(d, ws).running == Holds(c)
      && (d.running.Holds? ==>
            ws == [Put(NTmp, d.running), Truncate(NRunning), Put(NRunning, Holds(c)), Truncate(NTmp)])
  {
    hide ApplyAll;
    var p, t, c := Put(NTmp, d.running), Truncate(NTmp), Content(d.running, o).value;
    var q, ws := Put(NRunning, Holds(c)), StartWrites(d, FromRunning, v, o);
    ApplyOne(d, p);
    assert PrepareWrites(d, FromRunning) == [p] by { assert [] + [p] + [] == [p]; }
    if d.running.Holds? {
      var e := Truncate(NRunning);
      assert ws == [p, e, q, t] == [p, e] + [q, t];
      ApplySplit(d, [p, e], [q, t]);
      ApplyTwo(d, p, e);
      ApplyTwo(Apply(Apply(d, p), e), q, t);
    } else {
      assert ws == [p, q] + [t];
      ApplySplit(d, [p, q], [t]);
      ApplyTwo(d, p, q);
      ApplyOne(Apply(Apply(d, p), q), t);
    }
  }
}
