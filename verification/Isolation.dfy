/** Isolation: what a session that holds both locks and owns the pending confirmed commit is protected from. */
module Isolation {
  import opened Optional
  import opened Datastore
  import opened Engine
  import opened Session
  import opened Locks

  /** Session `me` holds the candidate and running locks and owns an ephemeral confirmed commit. */
  ghost predicate Guarded(s: State, me: nat) {
    && Inv(s) && me != 0
    && s.dbs.candidate.owner == me && s.dbs.running.owner == me
    && OwnsEphemeral(s.cc, me)
  }

  /** A step of the other sessions: anything but a timer, ending session `me`, or an edit that commits at once. */
  predicate Foreign(step: Step, me: nat) {
    match step
    case Join => true
    case Rpc(sid, REdit(_, _, auto, _, _)) => sid != me && !auto
    case Rpc(sid, RKill(v, _, _, _, _)) => sid != me && v != me
    case Rpc(sid, _) => sid != me
    case Eof(sid, _, _, _, _) => sid != me
    case StreamEnd(sid, _, _) => sid != me
    case Expire(_, _) => false
  }

  /** Everything the guarded session relies on. */
  ghost predicate SameView(s: State, r: State) {
    && r.dbs.candidate == s.dbs.candidate && r.dbs.running == s.dbs.running
    && r.dbs.rollback.file == s.dbs.rollback.file
    && r.cc == s.cc && r.timers == s.timers && r.up == s.up
  }

  lemma ForeignRequest(s: State, sid: nat, req: Request, me: nat)
    requires Guarded(s, me) && sid != me && Wellformed(sid, req)
    requires req.REdit? ==> !req.auto
    requires !req.RKill? && !req.RClose?
    ensures SameView(s, Serve(s, sid, req))
  {
  }

  lemma ForeignRelease(s: State, id: nat, keys: seq<Db>, bad: set<Db>, me: nat)
    requires Guarded(s, me) && id != me && id != 0
    ensures SameView(s, ReleaseAll(s, id, keys, bad))
  {
    SweepEffect(s.dbs, keys, id, bad, Candidate);
    SweepEffect(s.dbs, keys, id, bad, Running);
    SweepEffect(s.dbs, keys, id, bad, Rollback);
  }

  /** One foreign step changes nothing the guarded session relies on, and leaves it guarded. */
  lemma ForeignStep(s: State, step: Step, me: nat)
    requires Guarded(s, me) && Enabled(s, step) && Foreign(step, me)
    ensures SameView(s, Next(s, step)) && Guarded(Next(s, step), me)
  {
    hide Lock, Unlock, EditConfig, CopyConfig, DeleteConfig, Commit, DiscardChanges, CancelCommit, ReleaseAll;
    StepKeepsInv(s, step);
    match step
    case Join =>
    case Rpc(sid, req) =>
      match req {
        case RKill(v, rb, fs, keys, bad) =>
          var s1 := if v in s.clients then ClientRm(s, v, rb, fs) else s;
          ClientRmKeepsInv(s, v, rb, fs);
          ForeignRelease(s1, v, keys, bad, me);
        case RClose(keys, bad) => ForeignRelease(s, sid, keys, bad, me);
        case _ => ForeignRequest(s, sid, req, me);
      }
    case Eof(sid, rb, fs, keys, bad) =>
      ForeignRelease(s, sid, keys, bad, me);
    case StreamEnd(sid, rb, fs) =>
  }

  /** Isolation over all runs: no sequence of steps by other sessions changes the candidate, running, the
  rollback store, the confirmed-commit state or its timer. */
  lemma {:induction false} IsolationHolds(s: State, steps: seq<Step>, me: nat)
    requires Guarded(s, me) && Run(s, steps)
    requires forall i :: 0 <= i < |steps| ==> Foreign(steps[i], me)
    ensures SameView(s, After(s, steps)) && Guarded(After(s, steps), me)
    decreases |steps|
  {
    if steps != [] {
      ForeignStep(s, steps[0], me);
      IsolationHolds(Next(s, steps[0]), steps[1..], me);
    }
  }

  /** An edit that commits at once is outside the protection, whatever store it edits and whatever the plugins
  say: it leaves the guarded session alone if and only if it is refused before it writes. */
  lemma {:induction false} AutoCommitIsolation(s: State, sid: nat, d: Db, put: Option<Config>, cb: Callbacks,
                                               lockOk: bool, me: nat)
    requires Guarded(s, me) && s.up && sid in s.clients && sid != me && Nameable(d)
    ensures SameView(s, Next(s, Rpc(sid, REdit(d, put, true, cb, lockOk))))
       <==> LockedByOther(s, d, sid) || put.None?
  {
    if !LockedByOther(s, d, sid) && put.Some? {
      var p := Put(s, Startup, put.value);
      PutKeepsInv(s, Startup, put.value, sid);
      AutoCommitStartKeepsInv(p);
      BareCommitKeepsInv(AutoCommitStart(p), Startup, sid, cb);
      assert AutoCommit(p, sid, Startup, cb).cc.state == Inactive;
    }
  }
}
