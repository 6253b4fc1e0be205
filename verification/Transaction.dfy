/** What a whole transaction comes to: how the plugins see it closed, when it succeeds, what running holds. */
module Transaction {
  import opened Optional
  import opened Datastore
  import opened Engine
  import opened Locks

  predicate Closing(p: Phase) { p == EndAll || p == AbortAll }

  /** Closed once, at the very end: by end on success, by abort otherwise. */
  predicate ClosedOnce(p: seq<Phase>, ok: bool) {
    && p != []
    && p[|p| - 1] == (if ok then EndAll else AbortAll)
    && forall i :: 0 <= i < |p| - 1 ==> !Closing(p[i])
  }

  lemma PhasesClosed(reach: Reach, ok: bool)
    ensures ClosedOnce(Phases(reach, ok), ok)
  {
    assert Phases(reach, ok) == Opened(reach) + [if ok then EndAll else AbortAll];
  }

  /** The store can be read and is accepted as a successor of running. */
  predicate Passes(s: State, db: Db, cb: Callbacks) {
    var tgt, src := Read(s.dbs, db, s.opts), Read(s.dbs, Running, s.opts);
    tgt.Some? && src.Some? && (tgt.value.valid || !cb.unbound) && GenericOk(src.value, tgt.value, s.opts, cb)
  }

  /** A commit succeeds exactly when its store reads, passes validation, and every plugin agrees in every phase.
  Only then does running change, and it becomes what the store read. */
  lemma CommitOutcome(s: State, xe: Option<CommitArgs>, db: Db, sid: nat, cb: Callbacks)
    requires !s.dbs.running.file.Absent? && (xe.Some? ==> db != Rollback)
    ensures var r := CandidateCommit(s, xe, db, sid, cb);
      && ClosedOnce(Phases(r.reach, r.ret == Ok), r.ret == Ok)
      && (r.ret == Ok <==> Passes(s, db, cb) && PluginsAgree(cb))
      && Read(r.st.dbs, Running, s.opts) == Read(s.dbs, if r.ret == Ok then db else Running, s.opts)
  {
    hide Phases, ClosedOnce, HandleConfirmed;
    var r := CandidateCommit(s, xe, db, sid, cb);
    PhasesClosed(r.reach, r.ret == Ok);
    CommitFrame(s, xe, db, sid, cb);
    PhaseTwoFrame(s, xe, sid);
  }

  lemma {:induction false} ValidateOutcome(s: State, db: Db, cb: Callbacks)
    requires !s.dbs.running.file.Absent?
    ensures var r := CandidateValidate(s, db, cb);
      && ClosedOnce(Phases(r.1, r.0 == Ok), r.0 == Ok)
      && r.0 == (if Passes(s, db, cb) && cb.begin && cb.validate && cb.complete then Ok else Invalid)
  {
    var r := CandidateValidate(s, db, cb);
    PhasesClosed(r.1, r.0 == Ok);
  }

  /** The phases of a transaction in order, before it is closed. */
  const ORDER := [BeginAll, ValidateAll, CompleteAll, CommitAll, CommitDoneAll]

  /** How many of them it enters: it stops before the first if the target cannot be read, or is invalid and does not
  bind; after the first if the plugins refuse there or the target is not admitted; and after any other that is
  refused. */
  function Entered(s: State, db: Db, cb: Callbacks): nat {
    var tgt := Read(s.dbs, db, s.opts);
    if tgt.None? || (!tgt.value.valid && cb.unbound) then 0
    else if !cb.begin || !Passes(s, db, cb) then 1
    else if !cb.validate then 2
    else if !cb.complete then 3
    else if !cb.commit then 4
    else 5
  }

  /** The plugins see these phases and no others, in this order. A transaction is told invalid exactly for a target that
  does not bind or, once it has begun, is not admitted. */
  lemma PhaseOrder(s: State, xe: Option<CommitArgs>, db: Db, sid: nat, cb: Callbacks)
    requires !s.dbs.running.file.Absent? && (xe.Some? ==> db != Rollback)
    ensures var r, n := CandidateCommit(s, xe, db, sid, cb), Entered(s, db, cb);
      && Phases(r.reach, r.ret == Ok) == ORDER[..n] + [if r.ret == Ok then EndAll else AbortAll]
      && (r.ret == Invalid <==>
            && Read(s.dbs, db, s.opts).Some? && !Read(s.dbs, db, s.opts).value.valid
            && (cb.unbound || (cb.begin && !Passes(s, db, cb))))
  {
    hide HandleConfirmed;
    PhaseTwoFrame(s, xe, sid);
    OrderTaken();
  }

  lemma OrderTaken()
    ensures ORDER[..0] == [] && ORDER[..1] == [BeginAll] && ORDER[..2] == [BeginAll, ValidateAll]
    ensures ORDER[..3] == [BeginAll, ValidateAll, CompleteAll]
    ensures ORDER[..4] == [BeginAll, ValidateAll, CompleteAll, CommitAll] && ORDER[..5] == ORDER
  {
  }

  predicate FailsafeLoads(s: State, cb: Callbacks) {
    Exists(s.dbs, Failsafe) && s.dbs.failsafe.file.config.valid && PluginsAgree(cb)
  }

  /** Loading failsafe starts from an emptied running store, so incremental validation is full validation there: it
  succeeds exactly when failsafe exists, is valid and the plugins agree. Running is failsafe or what it was. */
  lemma {:induction false} FailsafeOutcome(s: State, cb: Callbacks)
    requires !s.dbs.running.file.Absent?
    ensures var (r, ok) := LoadFailsafe(s, cb);
      && (ok <==> FailsafeLoads(s, cb))
      && r.dbs.running.file == (if ok then s.dbs.failsafe.file else s.dbs.running.file)
  {
    hide CandidateCommit;
    FailsafeFrame(s, cb);
    if Exists(s.dbs, Failsafe) {
      var s1 := s.(dbs := Reset(CopyFile(s.dbs, Running, Tmp).value, Running));
      CommitOutcome(s1, None, Failsafe, 0, cb);
    }
  }
}
