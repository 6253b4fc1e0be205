/** The event loop's list of registered timeouts, earliest first. The backend's rollback timers are on it among
others. */
module Timers {

  datatype Timer = Timer(at: nat, rollback: bool)

  predicate Sorted(ts: seq<Timer>) { forall i, j :: 0 <= i < j < |ts| ==> ts[i].at <= ts[j].at }

  /** How many rollback timers are registered. */
  function Rollbacks(ts: seq<Timer>): nat {
    if ts == [] then 0 else (if ts[0].rollback then 1 else 0) + Rollbacks(ts[1..])
  }

  lemma {:induction false} RollbacksConcat(a: seq<Timer>, b: seq<Timer>)
    ensures Rollbacks(a + b) == Rollbacks(a) + Rollbacks(b)
    decreases |a|
  {
    if a == [] {
      assert a + b == b;
    } else {
      assert (a + b)[1..] == a[1..] + b;
      RollbacksConcat(a[1..], b);
    }
  }

  lemma RollbacksOne(t: Timer)
    ensures Rollbacks([t]) == if t.rollback then 1 else 0
  {
    assert [t][1..] == [];
  }

  lemma RollbacksAt(ts: seq<Timer>, i: nat)
    requires i < |ts|
    ensures Rollbacks(ts) == Rollbacks(ts[..i]) + (if ts[i].rollback then 1 else 0) + Rollbacks(ts[i + 1..])
  {
    hide Rollbacks;
    assert ts == ts[..i] + ([ts[i]] + ts[i + 1..]);
    RollbacksConcat(ts[..i], [ts[i]] + ts[i + 1..]);
    RollbacksConcat([ts[i]], ts[i + 1..]);
    RollbacksOne(ts[i]);
  }

  lemma {:induction false} NoRollbacks(ts: seq<Timer>)
    ensures Rollbacks(ts) == 0 <==> forall i :: 0 <= i < |ts| ==> !ts[i].rollback
  {
    if ts != [] {
      NoRollbacks(ts[1..]);
      assert forall i :: 0 < i < |ts| ==> ts[i] == ts[1..][i - 1];
    }
  }

  /** Sorted into the right place, after timers of the same time. */
  method Register(ts: seq<Timer>, t: Timer) returns (r: seq<Timer>, ghost i: nat)
    requires Sorted(ts)
    ensures i <= |ts| && r == ts[..i] + [t] + ts[i..] && Sorted(r)
    ensures forall j :: 0 <= j < |ts| ==> (j < i <==> ts[j].at <= t.at)
    ensures Rollbacks(r) == Rollbacks(ts) + if t.rollback then 1 else 0
  {
    hide Rollbacks, Sorted;
    var k := 0;
    while k < |ts| && ts[k].at <= t.at
      invariant k <= |ts| && forall j :: 0 <= j < k ==> ts[j].at <= t.at
    {
      k := k + 1;
    }
    r, i := ts[..k] + [t] + ts[k..], k;
    Inserted(ts, k, t);
    LaterAfter(ts, k, t.at);
  }

  lemma LaterAfter(ts: seq<Timer>, k: nat, at: nat)
    requires Sorted(ts) && k <= |ts| && (k < |ts| ==> at < ts[k].at)
    ensures forall j :: k <= j < |ts| ==> at < ts[j].at
  {
  }

  lemma Inserted(ts: seq<Timer>, k: nat, t: Timer)
    requires Sorted(ts) && k <= |ts| && (forall j :: 0 <= j < k ==> ts[j].at <= t.at) && (k < |ts| ==> t.at < ts[k].at)
    ensures var r := ts[..k] + [t] + ts[k..]; Sorted(r) && Rollbacks(r) == Rollbacks(ts) + if t.rollback then 1 else 0
  {
    InsertedCount(ts, k, t);
    InsertedSorted(ts, k, t);
  }

  lemma InsertedCount(ts: seq<Timer>, k: nat, t: Timer)
    requires k <= |ts|
    ensures Rollbacks(ts[..k] + [t] + ts[k..]) == Rollbacks(ts) + if t.rollback then 1 else 0
  {
    var r := ts[..k] + [t] + ts[k..];
    RollbacksAt(r, k);
    assert r[..k] == ts[..k] && r[k + 1..] == ts[k..] && ts == ts[..k] + ts[k..];
    RollbacksConcat(ts[..k], ts[k..]);
  }

  lemma InsertedSorted(ts: seq<Timer>, k: nat, t: Timer)
    requires Sorted(ts) && k <= |ts| && (forall j :: 0 <= j < k ==> ts[j].at <= t.at) && (k < |ts| ==> t.at < ts[k].at)
    ensures Sorted(ts[..k] + [t] + ts[k..])
  {
    var r := ts[..k] + [t] + ts[k..];
    forall i, j | 0 <= i < j < |r| ensures r[i].at <= r[j].at {
      assert r[i] == if i < k then ts[i] else if i == k then t else ts[i - 1];
      assert r[j] == if j < k then ts[j] else if j == k then t else ts[j - 1];
      if k < j { assert ts[k].at <= ts[j - 1].at; }
    }
  }

  /** Only the first match is removed: the earliest rollback timer, however many there are. */
  method Unregister(ts: seq<Timer>) returns (r: seq<Timer>, found: bool)
    requires Sorted(ts)
    ensures found == (Rollbacks(ts) > 0) && Sorted(r)
    ensures found ==>
      exists i :: 0 <= i < |ts| && ts[i].rollback && Rollbacks(ts[..i]) == 0 && r == ts[..i] + ts[i + 1..]
    ensures !found ==> r == ts
    ensures Rollbacks(r) == Rollbacks(ts) - if found then 1 else 0
  {
    NoRollbacks(ts);
    for i := 0 to |ts|
      invariant forall j :: 0 <= j < i ==> !ts[j].rollback
    {
      if ts[i].rollback {
        RollbacksAt(ts, i);
        RollbacksConcat(ts[..i], ts[i + 1..]);
        NoRollbacks(ts[..i]);
        return ts[..i] + ts[i + 1..], true;
      }
    }
    return ts, false;
  }
}
