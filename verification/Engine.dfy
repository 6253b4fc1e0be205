/** Specification of the commit transaction and of the confirmed-commit machine,
as functions on the backend's state. */
module Engine {
  import opened Optional
  import opened Datastore

  datatype ConfirmState = Inactive | Persistent | Ephemeral | RollingBack

  /** The session id is remembered after the sequence that set it has ended. */
  datatype Confirm = Confirm(state: ConfirmState, persistId: Option<string>, sessionId: nat)

  datatype State = State(
    opts: Options,
    dbs: Table,
    cc: Confirm,
    timers: nat,          // registered rollback timers
    clients: seq<nat>,    // session ids, newest first
    nextId: nat,
    up: bool)

  /** What a commit request carries. An element may be present with an empty body. */
  datatype CommitArgs = CommitArgs(
    confirmed: bool,
    persist: Option<Option<string>>,
    persistId: Option<Option<string>>)

  /** Outcomes of one transaction: whether every plugin accepted in each phase; whether an invalid target already fails
  to bind to the schema when it is read; and whether incremental validation would let an invalid target through, from
  a tree that is itself invalid (`lax`), or from a valid one because the place of a deletion is not found and what it
  broke there goes unchecked (`missed`). */
  datatype Callbacks = Callbacks(
    begin: bool, validate: bool, complete: bool, commit: bool, done: bool, unbound: bool, lax: bool, missed: bool)

  predicate PluginsAgree(cb: Callbacks) { cb.begin && cb.validate && cb.complete && cb.commit && cb.done }

  datatype Phase = BeginAll | ValidateAll | CompleteAll | CommitAll | CommitDoneAll | EndAll | AbortAll

  datatype Ret = Error | Invalid | Ok

  /** How far a transaction got: the last thing it tried. */
  datatype Reach = Reading | Beginning | Checking | Validating | Completing | Committing | Finishing

  datatype Outcome = Outcome(st: State, ret: Ret, reach: Reach)

  /** The plugin phases entered on the way there. */
  function Opened(reach: Reach): seq<Phase> {
    match reach
    case Reading => []
    case Beginning => [BeginAll]
    case Checking => [BeginAll]
    case Validating => [BeginAll, ValidateAll]
    case Completing => [BeginAll, ValidateAll, CompleteAll]
    case Committing => [BeginAll, ValidateAll, CompleteAll, CommitAll]
    case Finishing => [BeginAll, ValidateAll, CompleteAll, CommitAll, CommitDoneAll]
  }

  /** A whole transaction is closed by exactly one of end and abort. */
  function Phases(reach: Reach, ok: bool): seq<Phase> {
    Opened(reach) + [if ok then EndAll else AbortAll]
  }

  // ----- validation

  /** Validation looks at flagged nodes only, so an invalid target can get by. But from an empty source every node is
  new, and none is deleted. */
  predicate Admits(srcValid: bool, srcEmpty: bool, tgtValid: bool, lax: bool, missed: bool) {
    tgtValid || (!srcEmpty && if srcValid then missed else lax)
  }

  predicate GenericOk(src: Config, tgt: Config, o: Options, cb: Callbacks) {
    Admits(src.valid, src == EmptyConfig(o), tgt.valid, cb.lax, cb.missed)
  }

  function ValidateCommon(s: State, db: Db, cb: Callbacks): (Ret, Reach) {
    var tgt := Read(s.dbs, db, s.opts);
    var src := Read(s.dbs, Running, s.opts);
    if tgt.None? then (Error, Reading)
    else if !tgt.value.valid && cb.unbound then (Invalid, Reading)
    else if src.None? then (Error, Reading)
    else if !cb.begin then (Error, Beginning)
    else if !GenericOk(src.value, tgt.value, s.opts, cb) then (Invalid, Checking)
    else if !cb.validate then (Error, Validating)
    else if !cb.complete then (Error, Completing)
    else (Ok, Completing)
  }

  /** Validation alone: any failure is reported as invalid. */
  function CandidateValidate(s: State, db: Db, cb: Callbacks): (Ret, Reach) {
    var v := ValidateCommon(s, db, cb);
    (if v.0 == Ok then Ok else Invalid, v.1)
  }

  // ----- confirmed commit

  /** Unregistering removes at most one matching timer. */
  function CancelTimer(n: nat): nat { if n == 0 then 0 else n - 1 }

  function DropPersist(cc: Confirm): Confirm {
    if cc.state == Persistent then cc.(persistId := None) else cc
  }

  predicate ValidConfirming(cc: Confirm, a: CommitArgs, sid: nat) {
    sid != 0 &&
    match cc.state
    case Persistent => a.persistId.Some? && a.persistId.value == cc.persistId
    case Ephemeral => sid == cc.sessionId
    case _ => false
  }

  /** First phase: a confirming commit that does not itself ask for confirmation. */
  function CancelConfirmed(s: State): State {
    s.(timers := CancelTimer(s.timers),
       cc := DropPersist(s.cc).(state := Inactive),
       dbs := Delete(s.dbs, Rollback))
  }

  /** A confirmed commit is put on record, running is saved unless that is done already, and a timer is started. */
  function Arm(s: State, a: CommitArgs, sid: nat): Option<State> {
    var cc := if a.persist.Some? then s.cc.(state := Persistent, persistId := a.persist.value)
              else s.cc.(state := Ephemeral, sessionId := sid);
    var dbs := if Exists(s.dbs, Rollback) then Some(s.dbs) else Copy(s.dbs, Running, Rollback, s.opts);
    if dbs.None? then None else Some(s.(cc := cc, dbs := dbs.value, timers := s.timers + 1))
  }

  /** Second phase, run inside the transaction. */
  function HandleConfirmed(s: State, a: CommitArgs, sid: nat): Option<State> {
    if sid == 0 then Some(s) else
    var s1 := if ValidConfirming(s.cc, a, sid)
              then s.(timers := CancelTimer(s.timers), cc := DropPersist(s.cc).(state := Inactive))
              else s;
    if a.confirmed then Arm(s1, a, sid) else Some(s1.(dbs := Delete(s1.dbs, Rollback)))
  }

  /** A rollback, and a commit that is not the answer to a commit request, have no second phase. */
  function PhaseTwo(s: State, xe: Option<CommitArgs>, sid: nat): Option<State> {
    if s.cc.state != RollingBack && xe.Some? then HandleConfirmed(s, xe.value, sid) else Some(s)
  }

  // ----- commit transaction

  /** The phases after validation; running is written only when the plugins have committed. */
  function CommitPhases(s: State, db: Db, cb: Callbacks): Outcome {
    if !cb.commit then Outcome(s, Error, Committing)
    else if !cb.done then Outcome(s, Error, Finishing)
    else
      match Copy(s.dbs, db, Running, s.opts)
      case None => Outcome(s, Error, Finishing)
      case Some(t) => Outcome(s.(dbs := SetModified(t, db, false)), Ok, Finishing)
  }

  function CandidateCommit(s: State, xe: Option<CommitArgs>, db: Db, sid: nat, cb: Callbacks): Outcome {
    var v := ValidateCommon(s, db, cb);
    if v.0 == Error then Outcome(s, Error, v.1) else
    var s1 := PhaseTwo(s, xe, sid);
    if s1.None? then Outcome(s, Error, v.1)
    else if v.0 == Invalid then Outcome(s1.value, Invalid, v.1)
    else CommitPhases(s1.value, db, cb)
  }

  /** Backs running up, empties it, commits failsafe, and restores the backup if that fails. */
  function LoadFailsafe(s: State, cb: Callbacks): (State, bool) {
    if !Exists(s.dbs, Failsafe) then (s, false) else
    match CopyFile(s.dbs, Running, Tmp)
    case None => (s, false)
    case Some(t1) =>
      var r := CandidateCommit(s.(dbs := Reset(t1, Running)), None, Failsafe, 0, cb);
      if r.ret == Ok then (r.st, true)
      else
        match Copy(r.st.dbs, Tmp, Running, s.opts)
        case None => (r.st, false)
        case Some(t2) => (r.st.(dbs := t2), false)
  }

  /** The commit of the rollback store inside a rollback. */
  function RollbackCommit(s: State, rb: Callbacks): Outcome {
    CandidateCommit(s.(cc := DropPersist(s.cc).(state := RollingBack)), None, Rollback, 0, rb)
  }

  /** Only an error, not an invalid store, counts as a failed rollback. */
  function DoRollback(s: State, rb: Callbacks, fs: Callbacks): State {
    var r := RollbackCommit(s, rb);
    var s2 :=
      if r.ret == Error then
        var (s3, ok) := LoadFailsafe(r.st.(dbs := RenameAway(r.st.dbs, Rollback)), fs);
        s3.(up := s3.up && ok)
      else
        r.st.(dbs := Delete(r.st.dbs, Rollback));
    s2.(cc := s2.cc.(state := Inactive))
  }

  predicate LockedByOther(s: State, d: Db, sid: nat) { s.dbs.Get(d).owner != 0 && s.dbs.Get(d).owner != sid }

  // ----- commit-related requests

  function Commit(s: State, sid: nat, a: CommitArgs, cb: Callbacks): State {
    if !a.confirmed && ValidConfirming(s.cc, a, sid) then CancelConfirmed(s)
    else if LockedByOther(s, Candidate, sid) || LockedByOther(s, Running, sid) then s
    else
      var r := CandidateCommit(s, Some(a), Candidate, sid, cb);
      if r.ret == Ok && s.opts.autolock then r.st.(dbs := SetOwner(r.st.dbs, Candidate, 0)) else r.st
  }

  predicate OwnsEphemeral(cc: Confirm, sid: nat) { cc.state == Ephemeral && sid == cc.sessionId }

  predicate CancelAccepted(cc: Confirm, sid: nat, persistId: Option<Option<string>>) {
    (persistId.None? && OwnsEphemeral(cc, sid)) ||
    (cc.state == Persistent && persistId.Some? && persistId.value == cc.persistId)
  }

  function CancelCommit(s: State, sid: nat, persistId: Option<Option<string>>, rb: Callbacks, fs: Callbacks): State {
    if CancelAccepted(s.cc, sid, persistId) then DoRollback(s.(timers := CancelTimer(s.timers)), rb, fs) else s
  }

  function DiscardChanges(s: State, sid: nat): State {
    if LockedByOther(s, Candidate, sid) then s else
    match Copy(s.dbs, Running, Candidate, s.opts)
    case None => s
    case Some(t) =>
      var t1 := SetModified(t, Candidate, false);
      s.(dbs := if s.opts.autolock then SetOwner(t1, Candidate, 0) else t1)
  }

  /** The timer is unregistered before its function runs. The event loop ends when that function fails, which a failed
  rollback does even if failsafe was loaded. */
  function Timeout(s: State, rb: Callbacks, fs: Callbacks): State
    requires s.timers > 0
  {
    var s1 := s.(timers := s.timers - 1);
    var r := DoRollback(s1, rb, fs);
    if RollbackCommit(s1, rb).ret == Error then r.(up := false) else r
  }
}
