/** What a start ends with, in either mode and however its commits turn out. */
module Starts {
  import opened Optional
  import opened Datastore
  import opened Recovery
  import opened CrashSafety

  /** A file that is created if it is not there. */
  function Created(f: File): File { if f.Absent? then Truncated else f }

  lemma PrepareIs(d: Disk, mode: Mode)
    ensures var was := Created(d.running);
      ApplyAll(d, PrepareWrites(d, mode)) ==
        d.(running := was, tmp := was, startup := if mode == FromStartup then Created(d.startup) else d.startup)
  {
    hide ApplyAll;
    var a := CreateWrites(d, NRunning);
    ApplyOne(d, Put(NRunning, Truncated));
    var d1 := ApplyAll(d, a);
    var b := [Put(NTmp, d1.running)];
    ApplyOne(d1, b[0]);
    var d2 := ApplyAll(d1, b);
    ApplySplit(d, a, b);
    ApplyOne(d2, Put(NStartup, Truncated));
    ApplySplit(d, a + b, CreateWrites(d2, Own(mode)));
  }

  lemma CommitIs(d: Disk, n: Name, o: Options)
    requires !d.running.Absent? && !Get(d, n).Absent?
    ensures ApplyAll(d, CommitWrites(d, n, Accepted, o)) == d.(running := Holds(Content(Get(d, n), o).value))
  {
    hide ApplyAll;
    var w := Put(NRunning, Holds(Content(Get(d, n), o).value));
    if d.running.Holds? {
      assert [Truncate(NRunning)] + [w] == [Truncate(NRunning), w];
      ApplyTwo(d, Truncate(NRunning), w);
    } else {
      assert [] + [w] == [w];
      ApplyOne(d, w);
    }
  }

  lemma FinishIs(d: Disk, mode: Mode, ret: Verdict)
    ensures var r := ApplyAll(d, FinishWrites(d, mode, ret));
      r == d.(running := if ret == Accepted then d.running else d.tmp,
              tmp := if mode == FromRunning && !d.tmp.Absent? then Truncated else d.tmp)
  {
    hide ApplyAll;
    var a := if ret == Accepted then [] else [Put(NRunning, d.tmp)];
    var b := if mode == FromRunning then [Truncate(NTmp)] else [];
    ApplyOne(d, Put(NRunning, d.tmp));
    ApplyOne(ApplyAll(d, a), Truncate(NTmp));
    ApplySplit(d, a, b);
  }

  lemma LastResortIs(d: Disk, v: Verdict)
    requires !d.running.Absent?
    ensures var r := ApplyAll(d, LastResortWrites(d, v));
      && r.running == (if d.failsafe.Holds? && v == Accepted then d.failsafe else d.running)
      && r.startup == d.startup && r.rollback == d.rollback && r.failsafe == d.failsafe
  {
    hide ApplyAll;
    ApplyOne(d, Truncate(NTmp));
    var last := Put(NRunning, if v == Accepted then d.failsafe else d.running);
    ApplyThree(d, Put(NTmp, d.running), Truncate(NRunning), last);
  }

  lemma RefusedWrites(d: Disk, n: Name, v: Verdict, o: Options)
    requires v != Accepted
    ensures CommitWrites(d, n, v, o) == []
  {
  }

  /** How loading turns out. A rejected failsafe passes for an accepted one; a start without one does not. */
  datatype Load = Restored | Committed | InsteadCommitted | InsteadSkipped | Refused

  function LoadOf(d: Disk, v: Verdicts): Load {
    if !d.rollback.Holds? then if v.own == Accepted then Committed else Refused
    else if v.rollback == Accepted then Restored
    else if v.instead == Accepted && !d.failsafe.Absent? then InsteadCommitted
    else if v.instead == Rejected then InsteadSkipped
    else Refused
  }

  /** The store of the mode is gone after a refused rollback store, though it was not at fault. */
  function OwnGone(d: Disk, mode: Mode): Disk {
    if mode == FromRunning then d.(tmp := Absent) else d.(startup := Absent)
  }

  lemma LoadIs(d: Disk, mode: Mode, v: Verdicts, o: Options)
    requires !d.running.Absent? && d.tmp == d.running && (mode == FromStartup ==> !d.startup.Absent?)
    ensures var (b, ret) := LoadWrites(d, mode, v, o);
      && (ret == Accepted <==> LoadOf(d, v) != Refused)
      && ApplyAll(d, b) ==
        match LoadOf(d, v)
        case Restored => d.(running := d.rollback, rollback := Truncated)
        case Committed => d.(running := Holds(Content(Goal(d, mode), o).value))
        case InsteadCommitted => OwnGone(d, mode).(running := Holds(Content(d.failsafe, o).value))
        case InsteadSkipped => OwnGone(d, mode)
        case Refused => d
  {
    hide ApplyAll, CommitWrites;
    ApplyOne(d, Truncate(NTmp));
    if !d.rollback.Holds? {
      if v.own == Accepted { CommitIs(d, Own(mode), o); } else { RefusedWrites(d, Own(mode), v.own, o); }
    } else if v.rollback == Accepted {
      var b := CommitWrites(d, NRollback, Accepted, o);
      CommitIs(d, NRollback, o);
      ApplySplit(d, b, [Truncate(NRollback)]);
      ApplyOne(ApplyAll(d, b), Truncate(NRollback));
    } else if Commits(d, NFailsafe, v.instead, o) != Failed {
      var b := CommitWrites(d, NFailsafe, v.instead, o);
      if v.instead == Accepted { CommitIs(d, NFailsafe, o); } else { RefusedWrites(d, NFailsafe, v.instead, o); }
      ApplySplit(d, b, [Remove(Own(mode))]);
      ApplyOne(ApplyAll(d, b), Remove(Own(mode)));
    }
  }

  /** What running holds after a start: the content of what the start goes for, if its commit is accepted; failsafe, if
  that is; and otherwise what it held. */
  function Ends(d: Disk, mode: Mode, v: Verdicts, o: Options): File {
    match LoadOf(d, v)
    case Restored => Goal(d, mode)
    case Committed => Holds(Content(Created(Goal(d, mode)), o).value)
    case InsteadCommitted => Holds(Content(d.failsafe, o).value)
    case InsteadSkipped => Created(d.running)
    case Refused => if d.failsafe.Holds? && v.lastResort == Accepted then d.failsafe else Created(d.running)
  }

  /** A start ends so in either mode. It leaves failsafe alone, drops the rollback store exactly if it restored it, and
  startup exactly if it is the store of the mode and failsafe was tried in place of the rollback store. */
  lemma StartEnds(d: Disk, mode: Mode, v: Verdicts, o: Options)
    ensures var r, l := ApplyAll(d, StartWrites(d, mode, v, o)), LoadOf(d, v);
      && r.running == Ends(d, mode, v, o)
      && r.failsafe == d.failsafe
      && r.rollback == (if l == Restored then Truncated else d.rollback)
      && r.startup == (if mode == FromRunning then d.startup
                       else if l == InsteadCommitted || l == InsteadSkipped then Absent
                       else Created(d.startup))
  {
    hide ApplyAll, PrepareWrites, LoadWrites, FinishWrites, LastResortWrites;
    var a := PrepareWrites(d, mode);
    PrepareIs(d, mode);
    var d1 := ApplyAll(d, a);
    LoadIs(d1, mode, v, o);
    var (b, ret) := LoadWrites(d1, mode, v, o);
    var d2 := ApplyAll(d1, b);
    var c := FinishWrites(d2, mode, ret);
    FinishIs(d2, mode, ret);
    var d3 := ApplyAll(d2, c);
    var e := if ret == Accepted then [] else LastResortWrites(d3, v.lastResort);
    ApplySplit(d, a, b);
    ApplySplit(d, a + b, c);
    ApplySplit(d, a + b + c, e);
    ApplyOne(d3, Truncate(NTmp));
    if ret != Accepted { LastResortIs(d3, v.lastResort); }
  }

  /** A start that finds no rollback store and whose commit is accepted has in running what its mode names. */
  lemma OwnLoaded(d: Disk, mode: Mode, v: Verdicts, o: Options)
    requires !d.rollback.Holds? && v.own == Accepted
    ensures var f := if mode == FromRunning then d.running else d.startup;
      ApplyAll(d, StartWrites(d, mode, v, o)).running == Holds(if f.Holds? then f.config else EmptyConfig(o))
  {
    StartEnds(d, mode, v, o);
  }
}
