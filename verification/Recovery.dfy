/** What a backend finds on disk when it starts, the store writes it makes to recover, and what is left when it
crashes between or inside any of them. */
module Recovery {
  import opened Optional
  import opened Datastore
  import opened Engine

  /** The files that outlive the backend. */
  datatype Disk = Disk(running: File, startup: File, rollback: File, failsafe: File, tmp: File)

  datatype Name = NRunning | NStartup | NRollback | NFailsafe | NTmp

  /** Truncating a file and renaming it away are atomic; writing one is not. */
  datatype Write = Put(n: Name, file: File) | Truncate(n: Name) | Remove(n: Name)

  function Get(d: Disk, n: Name): File {
    match n
    case NRunning => d.running
    case NStartup => d.startup
    case NRollback => d.rollback
    case NFailsafe => d.failsafe
    case NTmp => d.tmp
  }

  function Set(d: Disk, n: Name, f: File): Disk {
    match n
    case NRunning => d.(running := f)
    case NStartup => d.(startup := f)
    case NRollback => d.(rollback := f)
    case NFailsafe => d.(failsafe := f)
    case NTmp => d.(tmp := f)
  }

  function Apply(d: Disk, w: Write): Disk {
    match w
    case Put(n, f) => Set(d, n, f)
    case Truncate(n) => Set(d, n, if Get(d, n).Absent? then Absent else Truncated)
    case Remove(n) => Set(d, n, Absent)
  }

  function ApplyAll(d: Disk, ws: seq<Write>): Disk
    decreases |ws|
  {
    if ws == [] then d else Apply(ApplyAll(d, ws[..|ws| - 1]), ws[|ws| - 1])
  }

  lemma {:induction false} ApplySplit(d: Disk, a: seq<Write>, b: seq<Write>)
    ensures ApplyAll(d, a + b) == ApplyAll(ApplyAll(d, a), b)
    decreases |b|
  {
    if b == [] {
      assert a + b == a;
    } else {
      assert (a + b)[..|a + b| - 1] == a + b[..|b| - 1];
      ApplySplit(d, a, b[..|b| - 1]);
    }
  }

  predicate Avoids(ws: seq<Write>, n: Name) { forall i :: 0 <= i < |ws| ==> ws[i].n != n }

  lemma {:induction false} AvoidsKeeps(d: Disk, ws: seq<Write>, n: Name)
    requires Avoids(ws, n)
    ensures Get(ApplyAll(d, ws), n) == Get(d, n)
    decreases |ws|
  {
    if ws != [] {
      AvoidsKeeps(d, ws[..|ws| - 1], n);
    }
  }

  // ----- the writes of a start

  datatype Mode = FromRunning | FromStartup

  datatype Verdict = Accepted | Rejected | Failed

  /** How the commits of one start turn out: of the rollback store, of failsafe in its stead, of the store the
  mode names, and of failsafe as a last resort. */
  datatype Verdicts = Verdicts(rollback: Verdict, instead: Verdict, own: Verdict, lastResort: Verdict)

  /** A file that opens gives a configuration; an empty one the empty configuration. */
  function Content(f: File, o: Options): Option<Config> {
    match f
    case Absent => None
    case Truncated => Some(EmptyConfig(o))
    case Holds(c) => Some(c)
  }

  function CreateWrites(d: Disk, n: Name): seq<Write> { if Get(d, n).Absent? then [Put(n, Truncated)] else [] }

  /** Running is emptied before it is written. */
  function CommitWrites(d: Disk, n: Name, v: Verdict, o: Options): seq<Write> {
    var c := Content(Get(d, n), o);
    if v != Accepted || c.None? then []
    else
      (if d.running.Holds? then [Truncate(NRunning)] else CreateWrites(d, NRunning)) + [Put(NRunning, Holds(c.value))]
  }

  function Commits(d: Disk, n: Name, v: Verdict, o: Options): Verdict {
    if v == Accepted && Content(Get(d, n), o).None? then Failed else v
  }

  /** The name of the store a mode starts from. */
  function Own(mode: Mode): Name { if mode == FromRunning then NTmp else NStartup }

  /** Running is created if there is none, and backed up. */
  function PrepareWrites(d: Disk, mode: Mode): seq<Write> {
    var a := CreateWrites(d, NRunning);
    var d1 := ApplyAll(d, a);
    var b := [Put(NTmp, d1.running)];
    a + b + CreateWrites(ApplyAll(d1, b), Own(mode))
  }

  /** A rollback store means that the backend went down with a confirmed commit pending. */
  function LoadWrites(d: Disk, mode: Mode, v: Verdicts, o: Options): (seq<Write>, Verdict) {
    if !d.rollback.Holds? then (CommitWrites(d, Own(mode), v.own, o), Commits(d, Own(mode), v.own, o))
    else if v.rollback == Accepted then (CommitWrites(d, NRollback, Accepted, o) + [Truncate(NRollback)], Accepted)
    else if Commits(d, NFailsafe, v.instead, o) == Failed then ([], Rejected)
    else (CommitWrites(d, NFailsafe, v.instead, o) + [Remove(Own(mode))], Accepted)
  }

  /** After a failure running is restored from the backup; in running mode the backup is then dropped. */
  function FinishWrites(d: Disk, mode: Mode, ret: Verdict): seq<Write> {
    (if ret == Accepted then [] else [Put(NRunning, d.tmp)]) + (if mode == FromRunning then [Truncate(NTmp)] else [])
  }

  /** Failsafe is committed over an emptied running store, which is restored if that fails. */
  function LastResortWrites(d: Disk, v: Verdict): seq<Write> {
    if !d.failsafe.Holds? then [] else
    [Put(NTmp, d.running), Truncate(NRunning), Put(NRunning, if v == Accepted then d.failsafe else d.running)]
  }

  function StartWrites(d: Disk, mode: Mode, v: Verdicts, o: Options): seq<Write> {
    var a := PrepareWrites(d, mode);
    var d1 := ApplyAll(d, a);
    var (b, ret) := LoadWrites(d1, mode, v, o);
    var d2 := ApplyAll(d1, b);
    var c := FinishWrites(d2, mode, ret);
    a + b + c + if ret == Accepted then [] else LastResortWrites(ApplyAll(d2, c), v.lastResort)
  }

  /** The directory of stores as a starting backend changes it, write by write. */
  class StoreDir {
    const o: Options
    var disk: Disk
    var log: seq<Write>
    var closings: seq<Phase>  // how transactions were closed towards the plugins

    constructor (o: Options, disk: Disk)
      ensures this.o == o && this.disk == disk && log == [] && closings == []
    {
      this.o, this.disk, log, closings := o, disk, [], [];
    }

    /** The stores are the result of the logged writes. */
    ghost predicate From(d: Disk, ws: seq<Write>)
      reads this
    {
      log == ws && disk == ApplyAll(d, ws)
    }

    method Perform(w: Write, ghost d: Disk)
      requires From(d, log)
      modifies this`disk, this`log
      ensures From(d, old(log) + [w])
    {
      assert (log + [w])[..|log|] == log;
      disk, log := Apply(disk, w), log + [w];
    }

    method CreateStore(n: Name, ghost d: Disk)
      requires From(d, log)
      modifies this`disk, this`log
      ensures From(d, old(log) + CreateWrites(old(disk), n))
    {
      if Get(disk, n).Absent? { Perform(Put(n, Truncated), d); }
      else { assert log + [] == log; }
    }

    /** A transaction with only a target; it is closed once, by end if running was written and by abort if not. */
    method StartupCommit(n: Name, v: Verdict, ghost d: Disk) returns (ret: Verdict)
      requires From(d, log)
      modifies this
      ensures From(d, old(log) + CommitWrites(old(disk), n, v, o)) && ret == Commits(old(disk), n, v, o)
      ensures closings == old(closings) + [if ret == Accepted then EndAll else AbortAll]
      ensures ret != Accepted ==> disk == old(disk)
    {
      ghost var l := log;
      var c := Content(Get(disk, n), o);
      if v != Accepted || c.None? {
        assert log + [] == log;
        closings := closings + [AbortAll];
        return if v == Accepted then Failed else v;
      }
      if disk.running.Holds? { Perform(Truncate(NRunning), d); } else { CreateStore(NRunning, d); }
      ghost var a := log[|l|..];
      Perform(Put(NRunning, Holds(c.value)), d);
      assert log == l + (a + [Put(NRunning, Holds(c.value))]);
      closings := closings + [EndAll];
      return Accepted;
    }

    method StartupModeStartup(mode: Mode, v: Verdicts, ghost d: Disk) returns (ret: Verdict)
      requires From(d, log)
      modifies this
      ensures var b := LoadWrites(old(disk), mode, v, o); From(d, old(log) + b.0) && ret == b.1
    {
      ghost var l := log;
      if !disk.rollback.Holds? {
        ret := StartupCommit(Own(mode), v.own, d);
        return;
      }
      ret := StartupCommit(NRollback, v.rollback, d);
      if ret == Accepted {
        ghost var a := log[|l|..];
        Perform(Truncate(NRollback), d);
        assert log == l + (a + [Truncate(NRollback)]);
        return;
      }
      assert log == l;
      ret := StartupCommit(NFailsafe, v.instead, d);
      if ret == Failed { return Rejected; }
      ghost var a := log[|l|..];
      Perform(Remove(Own(mode)), d);
      assert log == l + (a + [Remove(Own(mode))]);
      return Accepted;
    }

    method Prepare(mode: Mode)
      requires log == []
      modifies this
      ensures From(old(disk), PrepareWrites(old(disk), mode))
    {
      ghost var d := disk;
      CreateStore(NRunning, d);
      ghost var a, d1 := log, disk;
      var b := Put(NTmp, disk.running);
      Perform(b, d);
      ApplySplit(d, a, [b]);
      CreateStore(Own(mode), d);
    }

    method Finish(mode: Mode, ret: Verdict, ghost d: Disk)
      requires From(d, log)
      modifies this
      ensures From(d, old(log) + FinishWrites(old(disk), mode, ret))
    {
      ghost var l := log;
      if ret != Accepted { Perform(Put(NRunning, disk.tmp), d); }
      if mode == FromRunning { Perform(Truncate(NTmp), d); }
      assert log == l + log[|l|..];
    }

    method LastResort(v: Verdict, ghost d: Disk)
      requires From(d, log)
      modifies this
      ensures From(d, old(log) + LastResortWrites(old(disk), v))
    {
      ghost var l := log;
      if disk.failsafe.Holds? {
        Perform(Put(NTmp, disk.running), d);
        Perform(Truncate(NRunning), d);
        Perform(Put(NRunning, if v == Accepted then disk.failsafe else disk.tmp), d);
      }
      assert log == l + log[|l|..];
    }

    /** A whole start makes the specified writes, one by one and in that order. */
    method Start(mode: Mode, v: Verdicts)
      requires log == []
      modifies this
      ensures From(old(disk), StartWrites(old(disk), mode, v, o))
    {
      hide PrepareWrites, LoadWrites, FinishWrites, LastResortWrites, ApplyAll;
      ghost var d := disk;
      Prepare(mode);
      ghost var a, d1 := log, disk;
      var ret := StartupModeStartup(mode, v, d);
      ghost var b, d2 := LoadWrites(d1, mode, v, o).0, disk;
      ApplySplit(d, a, b);
      Finish(mode, ret, d);
      ghost var c := FinishWrites(d2, mode, ret);
      ApplySplit(d, a + b, c);
      if ret != Accepted { LastResort(v.lastResort, d); }
      else { assert a + b + c + [] == a + b + c; }
    }
  }

  // ----- crashes

  /** A crash after the first `k` writes; if `torn`, inside the next one, leaving anything in that file. */
  datatype Crash = Crash(mode: Mode, verdicts: Verdicts, k: nat, torn: bool, rubbish: File)

  function Left(d: Disk, ws: seq<Write>, c: Crash): Disk {
    var k := if c.k <= |ws| then c.k else |ws|;
    var d1 := ApplyAll(d, ws[..k]);
    if c.torn && k < |ws| && ws[k].Put? then Set(d1, ws[k].n, c.rubbish) else d1
  }

  function AfterCrashes(d: Disk, cs: seq<Crash>, o: Options): Disk
    decreases |cs|
  {
    if cs == [] then d
    else AfterCrashes(Left(d, StartWrites(d, cs[0].mode, cs[0].verdicts, o), cs[0]), cs[1..], o)
  }

  /** Either the saved configuration is still to be restored, or it is in place. */
  predicate Saved(d: Disk, c: Config) {
    d.rollback == Holds(c) || (!d.rollback.Holds? && d.running == Holds(c))
  }

  /** Writes that restore a saved configuration first put it in place and then drop the saved copy, at one point. */
  ghost predicate Restoring(ws: seq<Write>, c: Config) {
    exists m: nat :: RestoringAt(ws, c, m)
  }

  predicate RestoringAt(ws: seq<Write>, c: Config, m: nat) {
    && 0 < m < |ws|
    && ws[m - 1] == Put(NRunning, Holds(c)) && ws[m] == Truncate(NRollback)
    && Avoids(ws[..m], NRollback) && Avoids(ws[m + 1..], NRollback) && Avoids(ws[m + 1..], NRunning)
  }

  lemma LeftSaved(d: Disk, ws: seq<Write>, c: Config, crash: Crash)
    requires d.rollback == Holds(c) && (Restoring(ws, c) || Avoids(ws, NRollback))
    ensures Saved(Left(d, ws, crash), c)
  {
    var k := if crash.k <= |ws| then crash.k else |ws|;
    if Avoids(ws, NRollback) {
      AvoidsKeeps(d, ws[..k], NRollback);
      return;
    }
    var m: nat :| RestoringAt(ws, c, m);
    if k <= m {
      assert ws[..k] == ws[..m][..k];
      AvoidsKeeps(d, ws[..k], NRollback);
      if k < m { assert ws[k] == ws[..m][k]; }
    } else {
      RestoredAfter(d, ws, c, m, k);
      if k < |ws| { assert ws[k] == ws[m + 1..][k - m - 1]; }
    }
  }

  lemma RestoredAfter(d: Disk, ws: seq<Write>, c: Config, m: nat, k: nat)
    requires d.rollback == Holds(c) && RestoringAt(ws, c, m) && m < k <= |ws|
    ensures var r := ApplyAll(d, ws[..k]); r.running == Holds(c) && r.rollback == Truncated
  {
    var rest := ws[m + 1..k];
    assert ws[..m] == ws[..m - 1] + [ws[m - 1]];
    assert ws[..m + 1] == ws[..m] + [ws[m]];
    assert ws[..k] == ws[..m + 1] + rest;
    AvoidsKeeps(d, ws[..m], NRollback);
    ApplySplit(d, ws[..m + 1], rest);
    assert forall i :: 0 <= i < |rest| ==> rest[i] == ws[m + 1..][i];
    AvoidsKeeps(ApplyAll(d, ws[..m + 1]), rest, NRunning);
    AvoidsKeeps(ApplyAll(d, ws[..m + 1]), rest, NRollback);
  }

  lemma PrepareAvoids(d: Disk, mode: Mode)
    ensures var a := PrepareWrites(d, mode); Avoids(a, NRollback) && ApplyAll(d, a).rollback == d.rollback
  {
    AvoidsKeeps(d, PrepareWrites(d, mode), NRollback);
  }

  lemma RestoringParts(a: seq<Write>, e: seq<Write>, f: seq<Write>, c: Config)
    requires Avoids(a, NRollback) && Avoids(e, NRollback) && Avoids(f, NRollback) && Avoids(f, NRunning)
    requires e != [] && e[|e| - 1] == Put(NRunning, Holds(c))
    ensures Restoring(a + (e + [Truncate(NRollback)]) + f, c)
  {
    var ws, m := a + (e + [Truncate(NRollback)]) + f, |a + e|;
    assert ws[..m] == a + e && ws[m + 1..] == f;
    assert RestoringAt(ws, c, m);
  }

  /** What follows the preparations, besides restoring, leaves the rollback store alone. */
  lemma RestAvoids(d: Disk, mode: Mode, v: Verdicts, o: Options, ret: Verdict)
    ensures Avoids(FinishWrites(d, mode, ret), NRollback) && Avoids(LastResortWrites(d, v.lastResort), NRollback)
    ensures ret == Accepted ==> Avoids(FinishWrites(d, mode, ret), NRunning)
    ensures !(d.rollback.Holds? && v.rollback == Accepted) ==> Avoids(LoadWrites(d, mode, v, o).0, NRollback)
  {
  }

  /** A start that finds a rollback store and whose commit of it is accepted restores it; any other leaves it alone. */
  lemma StartRestores(d: Disk, mode: Mode, v: Verdicts, o: Options, c: Config)
    requires d.rollback == Holds(c)
    ensures var ws := StartWrites(d, mode, v, o);
      if v.rollback == Accepted then Restoring(ws, c) else Avoids(ws, NRollback)
  {
    hide Avoids, Restoring, PrepareWrites, FinishWrites, LastResortWrites, ApplyAll;
    var a := PrepareWrites(d, mode);
    PrepareAvoids(d, mode);
    var d1 := ApplyAll(d, a);
    var (b, ret) := LoadWrites(d1, mode, v, o);
    var d2 := ApplyAll(d1, b);
    RestAvoids(d1, mode, v, o, ret);
    RestAvoids(d2, mode, v, o, ret);
    var f := FinishWrites(d2, mode, ret);
    if v.rollback == Accepted {
      var e := CommitWrites(d1, NRollback, Accepted, o);
      CommitAvoids(d1, o);
      RestoringParts(a, e, f, c);
      assert StartWrites(d, mode, v, o) == a + (e + [Truncate(NRollback)]) + f;
    } else {
      var l := LastResortWrites(ApplyAll(d2, f), v.lastResort);
      RestAvoids(ApplyAll(d2, f), mode, v, o, ret);
      AvoidsBoth(a, b, NRollback);
      AvoidsBoth(a + b, f, NRollback);
      AvoidsBoth(a + b + f, l, NRollback);
      AvoidsBoth(a + b + f, [], NRollback);
    }
  }

  lemma CommitAvoids(d: Disk, o: Options)
    ensures Avoids(CommitWrites(d, NRollback, Accepted, o), NRollback)
  {
  }

  lemma AvoidsBoth(a: seq<Write>, b: seq<Write>, n: Name)
    ensures Avoids(a + b, n) <==> Avoids(a, n) && Avoids(b, n)
    ensures Avoids([], n)
  {
    if Avoids(a + b, n) {
      assert forall i :: 0 <= i < |a| ==> a[i] == (a + b)[i];
      assert forall i :: 0 <= i < |b| ==> b[i] == (a + b)[|a| + i];
    }
  }

  /** The rollback store survives any number of crashes, each between or inside any two writes of a start in either
  mode and whatever the commits give; the first start that drops it has the saved configuration in place. */
  lemma {:induction false} CrashesKeepSaved(d: Disk, cs: seq<Crash>, o: Options, c: Config)
    requires d.rollback == Holds(c)
    requires forall i :: 0 <= i < |cs| ==> AfterCrashes(d, cs[..i], o).rollback.Holds?
    ensures Saved(AfterCrashes(d, cs, o), c)
    decreases |cs|
  {
    if cs != [] {
      var ws := StartWrites(d, cs[0].mode, cs[0].verdicts, o);
      var d1 := Left(d, ws, cs[0]);
      StartRestores(d, cs[0].mode, cs[0].verdicts, o, c);
      LeftSaved(d, ws, c, cs[0]);
      forall i | 0 <= i < |cs| - 1 ensures AfterCrashes(d1, cs[1..][..i], o).rollback.Holds? {
        assert cs[..i + 1][0] == cs[0] && cs[..i + 1][1..] == cs[1..][..i];
        assert AfterCrashes(d, cs[..i + 1], o) == AfterCrashes(d1, cs[1..][..i], o);
      }
      if |cs| > 1 {
        assert AfterCrashes(d1, cs[1..][..0], o) == d1;
        CrashesKeepSaved(d1, cs[1..], o, c);
      }
    }
  }

  /** After any such crashes, a start that is let through to its end gives the configuration from before the
  sequence. */
  lemma RecoveryRestores(d: Disk, cs: seq<Crash>, mode: Mode, v: Verdicts, o: Options, c: Config)
    requires d.rollback == Holds(c) && v.rollback == Accepted
    requires forall i :: 0 <= i <= |cs| ==> AfterCrashes(d, cs[..i], o).rollback.Holds?
    ensures var e := AfterCrashes(d, cs, o); var r := ApplyAll(e, StartWrites(e, mode, v, o));
      r.running == Holds(c) && r.rollback == Truncated
  {
    CrashesKeepSaved(d, cs, o, c);
    assert cs[..|cs|] == cs;
    var e := AfterCrashes(d, cs, o);
    var ws := StartWrites(e, mode, v, o);
    StartRestores(e, mode, v, o, c);
    var m: nat :| RestoringAt(ws, c, m);
    RestoredAfter(e, ws, c, m, |ws|);
    assert ws[..|ws|] == ws;
  }
}
