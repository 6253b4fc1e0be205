/** The commit callbacks of a transaction: called plugin by plugin, and undone in reverse when one of them fails.
All plugins act on one combined state, so that the order in which they are undone matters. */
module Plugins {
  import opened Optional

  /** What a callback does to the combined state, and whether it reports success. */
  datatype Callback<!S> = Callback(run: S -> S, ok: S -> bool)

  datatype Plugin<!S> = Plugin(commit: Option<Callback<S>>, failed: Option<Callback<S>>, revert: Option<Callback<S>>)

  datatype Event = Committed(i: nat) | CommitFailed(i: nat) | Reverted(i: nat)

  /** A missing callback does nothing, successfully. */
  function Act<S>(c: Option<Callback<S>>, s: S): S { if c.None? then s else c.value.run(s) }

  predicate Succeeds<S>(c: Option<Callback<S>>, s: S) { c.None? || c.value.ok(s) }

  // ----- specification

  /** The combined state after the commit callbacks of the first `k` plugins. */
  function CommitTo<S>(ps: seq<Plugin<S>>, k: nat, s: S): S
    requires k <= |ps|
  {
    if k == 0 then s else Act(ps[k - 1].commit, CommitTo(ps, k - 1, s))
  }

  /** The first plugin whose commit fails, from `k` on. */
  function FirstFailure<S>(ps: seq<Plugin<S>>, k: nat, s: S): (r: Option<nat>)
    requires k <= |ps|
    ensures r.Some? ==> k <= r.value < |ps| && !Succeeds(ps[r.value].commit, CommitTo(ps, r.value, s))
    ensures forall i :: k <= i < (if r.Some? then r.value else |ps|) ==> Succeeds(ps[i].commit, CommitTo(ps, i, s))
    decreases |ps| - k
  {
    if k == |ps| then None
    else if !Succeeds(ps[k].commit, CommitTo(ps, k, s)) then Some(k)
    else FirstFailure(ps, k + 1, s)
  }

  /** Reverting the first `n` plugins, last first, up to and including a revert that fails. */
  function Revert<S>(ps: seq<Plugin<S>>, n: nat, s: S): S
    requires n <= |ps|
  {
    if n == 0 then s
    else if Succeeds(ps[n - 1].revert, s) then Revert(ps, n - 1, Act(ps[n - 1].revert, s))
    else Act(ps[n - 1].revert, s)
  }

  function RevertLog<S>(ps: seq<Plugin<S>>, n: nat, s: S): seq<Event>
    requires n <= |ps|
  {
    if n == 0 then []
    else if ps[n - 1].revert.None? then RevertLog(ps, n - 1, s)
    else if ps[n - 1].revert.value.ok(s) then [Reverted(n - 1)] + RevertLog(ps, n - 1, Act(ps[n - 1].revert, s))
    else [Reverted(n - 1)]
  }

  /** The reverse iterator starts at the first plugin also when it is asked to start before it. */
  function StartCount<S>(ps: seq<Plugin<S>>, nr: nat): nat { if nr == 0 && ps != [] then 1 else nr }

  function AfterFailure<S>(ps: seq<Plugin<S>>, k: nat, s: S): S
    requires k < |ps|
  {
    Revert(ps, StartCount(ps, k), Act(ps[k].failed, CommitTo(ps, k + 1, s)))
  }

  function CommitEvents<S>(ps: seq<Plugin<S>>, k: nat): seq<Event>
    requires k <= |ps|
  {
    if k == 0 then [] else CommitEvents(ps, k - 1) + if ps[k - 1].commit.Some? then [Committed(k - 1)] else []
  }

  /** The callbacks that undo a commit which failed in plugin `k`. */
  function UndoEvents<S>(ps: seq<Plugin<S>>, k: nat, s: S): seq<Event>
    requires k < |ps|
  {
    (if ps[k].failed.Some? then [CommitFailed(k)] else []) + RevertLog(ps, StartCount(ps, k), Act(ps[k].failed, s))
  }

  // ----- as it runs

  class Host<S> {
    const plugins: seq<Plugin<S>>
    var state: S
    var log: seq<Event>

    constructor (plugins: seq<Plugin<S>>, state: S)
      ensures this.plugins == plugins && this.state == state && log == []
    {
      this.plugins, this.state, log := plugins, state, [];
    }

    method CommitOne(i: nat) returns (ok: bool)
      requires i < |plugins|
      modifies this
      ensures ok == Succeeds(plugins[i].commit, old(state)) && state == Act(plugins[i].commit, old(state))
      ensures log == old(log) + if plugins[i].commit.Some? then [Committed(i)] else []
    {
      match plugins[i].commit {
        case None => ok := true;
        case Some(c) =>
          ok := c.ok(state);
          state, log := c.run(state), log + [Committed(i)];
      }
    }

    method CommitFailedOne(i: nat)
      requires i < |plugins|
      modifies this
      ensures state == Act(plugins[i].failed, old(state))
      ensures log == old(log) + if plugins[i].failed.Some? then [CommitFailed(i)] else []
    {
      match plugins[i].failed {
        case None =>
        case Some(c) => state, log := c.run(state), log + [CommitFailed(i)];
      }
    }

    /** Walks back from the plugin before number `nr`. */
    method RevertAll(nr: nat)
      requires nr <= |plugins|
      modifies this
      ensures state == Revert(plugins, StartCount(plugins, nr), old(state))
      ensures log == old(log) + RevertLog(plugins, StartCount(plugins, nr), old(state))
    {
      ghost var s, l := state, log;
      var cp: nat := StartCount(plugins, nr);
      ghost var n := cp;
      while cp > 0
        invariant cp <= n <= |plugins|
        invariant Revert(plugins, n, s) == Revert(plugins, cp, state)
        invariant l + RevertLog(plugins, n, s) == log + RevertLog(plugins, cp, state)
      {
        cp := cp - 1;
        match plugins[cp].revert {
          case None =>
          case Some(c) =>
            var ok := c.ok(state);
            assert ok ==> RevertLog(plugins, cp + 1, state) == [Reverted(cp)] + RevertLog(plugins, cp, c.run(state));
            assert log + ([Reverted(cp)] + RevertLog(plugins, cp, c.run(state))) ==
                   log + [Reverted(cp)] + RevertLog(plugins, cp, c.run(state));
            state, log := c.run(state), log + [Reverted(cp)];
            if !ok { return; }
        }
      }
    }

    method Undo(i: nat)
      requires i < |plugins|
      modifies this
      ensures state == Revert(plugins, StartCount(plugins, i), Act(plugins[i].failed, old(state)))
      ensures log == old(log) + UndoEvents(plugins, i, old(state))
    {
      hide Revert, RevertLog, Act;
      CommitFailedOne(i);
      RevertAll(i);
    }

    method CommitAll() returns (failed: Option<nat>)
      modifies this
      ensures failed == FirstFailure(plugins, 0, old(state))
      ensures failed.None? ==> state == CommitTo(plugins, |plugins|, old(state))
      ensures failed.Some? ==> state == AfterFailure(plugins, failed.value, old(state))
      ensures failed.None? ==> log == old(log) + CommitEvents(plugins, |plugins|)
      ensures failed.Some? ==>
        var k := failed.value;
        log == old(log) + (CommitEvents(plugins, k + 1) + UndoEvents(plugins, k, CommitTo(plugins, k + 1, old(state))))
    {
      hide Revert, RevertLog, UndoEvents, Act, Succeeds;
      ghost var s, l := state, log;
      for i := 0 to |plugins|
        invariant state == CommitTo(plugins, i, s)
        invariant FirstFailure(plugins, 0, s) == FirstFailure(plugins, i, s)
        invariant log == l + CommitEvents(plugins, i)
      {
        var ok := CommitOne(i);
        if !ok {
          Undo(i);
          assert log == l + (CommitEvents(plugins, i + 1) + UndoEvents(plugins, i, CommitTo(plugins, i + 1, s)));
          return Some(i);
        }
      }
      return None;
    }
  }

  // ----- compensation

  /** The revert callback undoes the commit callback, and succeeds. */
  ghost predicate Reversible<S(!new)>(p: Plugin<S>) {
    && (forall s :: Act(p.revert, Act(p.commit, s)) == s)
    && (forall s :: Succeeds(p.revert, s))
  }

  ghost predicate Recovers<S(!new)>(p: Plugin<S>) { forall s :: Act(p.failed, Act(p.commit, s)) == s }

  lemma {:induction false} RevertUndoes<S(!new)>(ps: seq<Plugin<S>>, n: nat, s: S)
    requires n <= |ps| && forall i :: 0 <= i < n ==> Reversible(ps[i])
    ensures Revert(ps, n, CommitTo(ps, n, s)) == s
  {
    if n > 0 {
      assert Reversible(ps[n - 1]);
      var t := CommitTo(ps, n - 1, s);
      assert Act(ps[n - 1].revert, Act(ps[n - 1].commit, t)) == t;
      RevertUndoes(ps, n - 1, s);
    }
  }

  /** A failing commit of a later plugin leaves the combined state as it was. When it is the first plugin that fails,
  its revert callback is run as well, so that this holds exactly if that callback then changes nothing. */
  lemma Compensation<S(!new)>(ps: seq<Plugin<S>>, k: nat, s: S)
    requires k < |ps| && Recovers(ps[k]) && forall i :: 0 <= i < |ps| ==> Reversible(ps[i])
    ensures AfterFailure(ps, k, s) == s <==> k > 0 || Act(ps[0].revert, s) == s
  {
    var t := CommitTo(ps, k, s);
    assert Act(ps[k].failed, Act(ps[k].commit, t)) == t;
    if k > 0 {
      RevertUndoes(ps, k, s);
    } else {
      assert Revert(ps, 1, s) == Act(ps[0].revert, s);
    }
  }

  /** The plugins below `n` that have a revert callback, last first. */
  function Descending<S>(ps: seq<Plugin<S>>, n: nat): seq<Event>
    requires n <= |ps|
  {
    if n == 0 then []
    else (if ps[n - 1].revert.Some? then [Reverted(n - 1)] else []) + Descending(ps, n - 1)
  }

  lemma {:induction false} DescendingIs<S>(ps: seq<Plugin<S>>, n: nat)
    requires n <= |ps|
    ensures var d := Descending(ps, n);
      && (forall x :: x in d <==> x.Reverted? && x.i < n && ps[x.i].revert.Some?)
      && (forall a, b :: 0 <= a < b < |d| ==> d[a].i > d[b].i)
  {
    if n > 0 {
      DescendingIs(ps, n - 1);
      var d := Descending(ps, n - 1);
      assert forall a :: 0 <= a < |d| ==> d[a] in d;
    }
  }

  /** When plugin `k` fails, the plugins before it that can be reverted are, each once and last first; for the first
  plugin it is that plugin itself. */
  lemma {:induction false} RevertOrder<S(!new)>(ps: seq<Plugin<S>>, n: nat, s: S)
    requires n <= |ps| && forall i :: 0 <= i < n ==> Reversible(ps[i])
    ensures RevertLog(ps, n, s) == Descending(ps, n)
  {
    if n > 0 {
      assert Reversible(ps[n - 1]) && Succeeds(ps[n - 1].revert, s);
      RevertOrder(ps, n - 1, Act(ps[n - 1].revert, s));
    }
  }

  /** Whatever the callbacks report, reverts are made in that order, from the last plugin that has one; the walk ends
  with one that fails, whose effect stays. */
  lemma {:induction false} RevertWalk<S>(ps: seq<Plugin<S>>, n: nat, s: S)
    requires n <= |ps|
    ensures RevertLog(ps, n, s) <= Descending(ps, n)
    ensures Descending(ps, n) != [] ==> RevertLog(ps, n, s) != []
    ensures n > 0 && ps[n - 1].revert.Some? && !ps[n - 1].revert.value.ok(s) ==>
      RevertLog(ps, n, s) == [Reverted(n - 1)] && Revert(ps, n, s) == ps[n - 1].revert.value.run(s)
  {
    if n > 0 {
      RevertWalk(ps, n - 1, s);
      RevertWalk(ps, n - 1, Act(ps[n - 1].revert, s));
    }
  }

  /** The commit callbacks made up to plugin `k`: each plugin that has one, once, first to last. */
  lemma {:induction false} CommitEventsAre<S>(ps: seq<Plugin<S>>, k: nat)
    requires k <= |ps|
    ensures var c := CommitEvents(ps, k);
      && (forall x :: x in c <==> x.Committed? && x.i < k && ps[x.i].commit.Some?)
      && (forall a, b :: 0 <= a < b < |c| ==> c[a].i < c[b].i)
  {
    if k > 0 {
      CommitEventsAre(ps, k - 1);
      var c := CommitEvents(ps, k - 1);
      assert forall a :: 0 <= a < |c| ==> c[a] in c;
    }
  }

  /** A failed plugin is told first, if it can be, and then the reverts follow; for plugin 0, its own. */
  lemma UndoOrder<S>(ps: seq<Plugin<S>>, k: nat, s: S)
    requires k < |ps|
    ensures UndoEvents(ps, k, s) <=
      (if ps[k].failed.Some? then [CommitFailed(k)] else []) + Descending(ps, if k == 0 then 1 else k)
    ensures ps[k].failed.Some? ==> UndoEvents(ps, k, s) != []
  {
    RevertWalk(ps, StartCount(ps, k), Act(ps[k].failed, s));
  }

  /** The first plugin's own revert is run although none was to be: a plugin that counts up when committing. */
  lemma FirstPluginReverted()
    ensures exists p: Plugin<int> :: Reversible(p) && Recovers(p) && AfterFailure([p], 0, 0) != 0
  {
    var up := Some(Callback((s: int) => s + 1, (s: int) => false));
    var down := Some(Callback((s: int) => s - 1, (s: int) => true));
    var p := Plugin(up, down, down);
    assert Reversible(p) && Recovers(p);
    Compensation([p], 0, 0);
  }
}
