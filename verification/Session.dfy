/** Specification of the requests that lock, edit, copy and delete stores, of session end, and of one step
of the backend: the event loop handles one request, disconnect or timer at a time. */
module Session {
  import opened Optional
  import opened Datastore
  import opened Engine

  // ----- locks

  /** Conditions 2 and 3 of section 7.5 of RFC 6241. The lock is taken before the plugins are told, so
  a refusing plugin leaves it in place. */
  function DoLock(s: State, sid: nat, d: Db, lockOk: bool): (State, Ret) {
    if d == Candidate && Exists(s.dbs, d) && s.dbs.Get(d).modified then (s, Invalid)
    else if d == Running && s.cc.state != Inactive && s.cc.sessionId != 0 then (s, Invalid)
    else (s.(dbs := SetOwner(s.dbs, d, sid)), if lockOk then Ok else Error)
  }

  function Lock(s: State, sid: nat, d: Db, lockOk: bool): State {
    if s.dbs.Get(d).owner != 0 then s else DoLock(s, sid, d, lockOk).0
  }

  function Unlock(s: State, sid: nat, d: Db): State {
    if s.dbs.Get(d).owner == 0 || s.dbs.Get(d).owner != sid then s else s.(dbs := SetOwner(s.dbs, d, 0))
  }

  /** With autolock, writing an unlocked candidate first locks it. */
  function AutoLock(s: State, sid: nat, d: Db, lockOk: bool): (State, Ret) {
    if s.dbs.Get(d).owner == 0 && s.opts.autolock && d == Candidate then DoLock(s, sid, d, lockOk) else (s, Ok)
  }

  // ----- edit, copy, delete

  /** An edit that asks for an immediate commit ends an ephemeral confirmed commit, whoever owns it. */
  function AutoCommitStart(s: State): State { if s.cc.state == Inactive then s else CancelConfirmed(s) }

  /** If the commit fails, the edited store is set back to running. */
  function AutoCommitEnd(r: Outcome, d: Db): State {
    if r.ret == Ok then r.st else
    match Copy(r.st.dbs, Running, d, r.st.opts)
    case None => r.st
    case Some(t) => r.st.(dbs := t)
  }

  function AutoCommit(s: State, sid: nat, d: Db, cb: Callbacks): State {
    if s.cc.state == Persistent then s
    else AutoCommitEnd(CandidateCommit(AutoCommitStart(s), None, d, sid, cb), d)
  }

  /** Gives an automatic lock back when nothing was changed. */
  function UnwindAutoLock(s: State, sid: nat, d: Db): State {
    if !s.dbs.Get(d).modified && s.opts.autolock && s.dbs.Get(d).owner == sid
    then s.(dbs := SetOwner(s.dbs, d, 0)) else s
  }

  /** Writes the edited configuration and marks the store dirty. */
  function Put(s: State, d: Db, c: Config): State {
    s.(dbs := s.dbs.Set(d, s.dbs.Get(d).(file := Holds(c), modified := true)))
  }

  function Write(s: State, sid: nat, d: Db, c: Config, auto: bool, cb: Callbacks): State {
    if auto then AutoCommit(Put(s, d, c), sid, d, cb) else Put(s, d, c)
  }

  /** `put` is the edited store, or nothing when one of the checks on the request refuses it. */
  function EditConfig(s: State, sid: nat, d: Db, put: Option<Config>, auto: bool, cb: Callbacks, lockOk: bool): State {
    if LockedByOther(s, d, sid) then UnwindAutoLock(s, sid, d) else
    var l := AutoLock(s, sid, d, lockOk);
    if l.1 == Error then l.0
    else UnwindAutoLock(if l.1 == Ok && put.Some? then Write(l.0, sid, d, put.value, auto, cb) else l.0, sid, d)
  }

  function CopyInto(s: State, src: Db, dst: Db): State {
    match Copy(s.dbs, src, dst, s.opts)
    case None => s
    case Some(t) => s.(dbs := if dst == Candidate then SetModified(t, dst, true) else t)
  }

  function CopyConfig(s: State, sid: nat, src: Db, dst: Db, lockOk: bool): State {
    if LockedByOther(s, dst, sid) then s else
    var l := AutoLock(s, sid, dst, lockOk);
    if l.1 != Ok then l.0 else CopyInto(l.0, src, dst)
  }

  function DeleteConfig(s: State, sid: nat, d: Db): State {
    if d == Running || LockedByOther(s, d, sid) then s
    else s.(dbs := SetModified(Create(Delete(s.dbs, d), d), d, true))
  }

  // ----- end of session

  /** Unlocks, in the order the store names are listed, every store locked by `id`. A plugin that
  refuses for a store in `bad` stops the sweep after that store. */
  function Sweep(t: Table, keys: seq<Db>, id: nat, bad: set<Db>): Table
    decreases |keys|
  {
    if keys == [] then t
    else if t.Get(keys[0]).owner != id then Sweep(t, keys[1..], id, bad)
    else if keys[0] in bad then SetOwner(t, keys[0], 0)
    else Sweep(SetOwner(t, keys[0], 0), keys[1..], id, bad)
  }

  /** With autolock, the uncommitted changes of the lock holder are discarded. */
  function ReleaseAll(s: State, id: nat, keys: seq<Db>, bad: set<Db>): State {
    if s.dbs.Get(Candidate).owner == id && s.opts.autolock then
      match Copy(s.dbs, Running, Candidate, s.opts)
      case None => s
      case Some(t) => s.(dbs := Sweep(SetModified(t, Candidate, false), keys, id, bad))
    else s.(dbs := Sweep(s.dbs, keys, id, bad))
  }

  function Without(clients: seq<nat>, id: nat): seq<nat> {
    if clients == [] then []
    else if clients[0] == id then clients[1..]
    else [clients[0]] + Without(clients[1..], id)
  }

  function ClientRm(s: State, id: nat, rb: Callbacks, fs: Callbacks): State {
    var s1 := if OwnsEphemeral(s.cc, id)
              then DoRollback(s.(timers := CancelTimer(s.timers)), rb, fs) else s;
    s1.(clients := Without(s1.clients, id))
  }

  function KillSession(s: State, victim: nat, rb: Callbacks, fs: Callbacks, keys: seq<Db>, bad: set<Db>): State {
    ReleaseAll(if victim in s.clients then ClientRm(s, victim, rb, fs) else s, victim, keys, bad)
  }

  function Disconnect(s: State, id: nat, rb: Callbacks, fs: Callbacks, keys: seq<Db>, bad: set<Db>): State {
    ClientRm(ReleaseAll(s, id, keys, bad), id, rb, fs)
  }

  function Connect(s: State): State {
    s.(clients := [s.nextId] + s.clients, nextId := s.nextId + 1)
  }

  // ----- steps and runs

  datatype Request =
    | RLock(d: Db, lockOk: bool)
    | RUnlock(d: Db)
    | REdit(d: Db, put: Option<Config>, auto: bool, cb: Callbacks, lockOk: bool)
    | RCopy(src: Db, d: Db, lockOk: bool)
    | RDelete(d: Db)
    | RCommit(args: CommitArgs, cb: Callbacks)
    | RDiscard
    | RCancel(persistId: Option<Option<string>>, rb: Callbacks, fs: Callbacks)
    | RKill(victim: nat, rb: Callbacks, fs: Callbacks, keys: seq<Db>, bad: set<Db>)
    | RClose(keys: seq<Db>, bad: set<Db>)

  datatype Step =
    | Join
    | Rpc(sid: nat, req: Request)
    | Eof(sid: nat, rb: Callbacks, fs: Callbacks, keys: seq<Db>, bad: set<Db>)
    | StreamEnd(sid: nat, rb: Callbacks, fs: Callbacks)  // removal by the notification stream
    | Expire(rb: Callbacks, fs: Callbacks)

  predicate AllKeys(keys: seq<Db>) { forall d: Db :: d in keys }

  predicate Wellformed(sid: nat, r: Request) {
    match r
    case RLock(d, _) => Nameable(d)
    case RUnlock(d) => Nameable(d)
    case REdit(d, _, _, _, _) => Nameable(d)
    case RCopy(src, d, _) => Nameable(src) && Nameable(d)
    case RDelete(d) => Nameable(d)
    case RKill(v, _, _, keys, _) => v != 0 && v != sid && AllKeys(keys)
    case RClose(keys, _) => AllKeys(keys)
    case _ => true
  }

  predicate Enabled(s: State, step: Step) {
    s.up &&
    match step
    case Join => true
    case Rpc(sid, r) => sid in s.clients && Wellformed(sid, r)
    case Eof(sid, _, _, keys, _) => sid in s.clients && AllKeys(keys)
    case StreamEnd(sid, _, _) => sid in s.clients
    case Expire(_, _) => s.timers > 0
  }

  function Serve(s: State, sid: nat, r: Request): State {
    match r
    case RLock(d, lockOk) => Lock(s, sid, d, lockOk)
    case RUnlock(d) => Unlock(s, sid, d)
    case REdit(d, put, auto, cb, lockOk) => EditConfig(s, sid, d, put, auto, cb, lockOk)
    case RCopy(src, d, lockOk) => CopyConfig(s, sid, src, d, lockOk)
    case RDelete(d) => DeleteConfig(s, sid, d)
    case RCommit(a, cb) => Commit(s, sid, a, cb)
    case RDiscard => DiscardChanges(s, sid)
    case RCancel(pid, rb, fs) => CancelCommit(s, sid, pid, rb, fs)
    case RKill(v, rb, fs, keys, bad) => KillSession(s, v, rb, fs, keys, bad)
    case RClose(keys, bad) => ReleaseAll(s, sid, keys, bad)
  }

  function Next(s: State, step: Step): State
    requires Enabled(s, step)
  {
    match step
    case Join => Connect(s)
    case Rpc(sid, r) => Serve(s, sid, r)
    case Eof(sid, rb, fs, keys, bad) => Disconnect(s, sid, rb, fs, keys, bad)
    case StreamEnd(sid, rb, fs) => ClientRm(s, sid, rb, fs)
    case Expire(rb, fs) => Timeout(s, rb, fs)
  }

  /** A run: every step is enabled where it is taken. */
  predicate Run(s: State, steps: seq<Step>)
    decreases |steps|
  {
    steps == [] || (Enabled(s, steps[0]) && Run(Next(s, steps[0]), steps[1..]))
  }

  function After(s: State, steps: seq<Step>): State
    requires Run(s, steps)
    decreases |steps|
  {
    if steps == [] then s else After(Next(s, steps[0]), steps[1..])
  }

  /** A freshly started backend: nothing pending, no clients, running readable. */
  predicate Initial(s: State) {
    && s.up && s.clients == [] && s.nextId == 1
    && s.cc == Confirm(Inactive, None, 0) && s.timers == 0
    && !s.dbs.Get(Running).file.Absent? && !Exists(s.dbs, Rollback)
    && forall d: Db :: s.dbs.Get(d).owner == 0
  }
}
