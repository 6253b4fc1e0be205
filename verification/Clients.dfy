/** The backend's linked list of client entries, newest first, and its 32-bit session counter. */
module Clients {
  import opened Session
  import opened Locks

  const ID_LIMIT: nat := 0x1_0000_0000

  class Client {
    const id: nat
    var next: Client?

    constructor (id: nat)
      ensures this.id == id && next == null
    {
      this.id, next := id, null;
    }
  }

  ghost function Entry(s: seq<Client>, i: nat): Client? { if i < |s| then s[i] else null }

  ghost predicate Distinct(s: seq<Client>) { forall i, j :: 0 <= i < j < |s| ==> s[i] != s[j] }

  lemma DistinctWithout(s: seq<Client>, k: nat)
    requires Distinct(s) && k < |s|
    ensures Distinct(s[..k] + s[k + 1..])
    ensures forall i :: 0 <= i < |s| && i != k ==> s[i] != s[k]
    ensures k > 0 ==> forall i :: 0 <= i < |s| && i != k - 1 ==> s[i] != s[k - 1]
  {
  }

  lemma DistinctAdded(s: seq<Client>, ce: Client)
    requires Distinct(s) && ce !in s
    ensures Distinct([ce] + s)
  {
  }

  ghost function Ids(s: seq<Client>): seq<nat> { seq<nat>(|s|, i requires 0 <= i < |s| => s[i].id) }

  lemma AddedFirst(was: seq<Client>, ce: Client, id: nat, next: nat)
    requires ce.id == id && next == (id + 1) % ID_LIMIT && id < ID_LIMIT && NewestFirst(Ids(was), id)
    ensures NewestFirst(Ids([ce] + was), next) <==> 1 <= id < ID_LIMIT - 1
  {
    var ids, before := Ids([ce] + was), Ids(was);
    assert ids == [id] + before;
    assert ids[0] == id;
  }

  /** Removing an entry removes its id, and only that, since no two entries share an id. */
  lemma {:induction false} WithoutAt(ids: seq<nat>, k: nat, nextId: nat)
    requires NewestFirst(ids, nextId) && k < |ids|
    ensures Without(ids, ids[k]) == ids[..k] + ids[k + 1..]
  {
    if k > 0 {
      assert forall i :: 0 <= i < |ids[1..]| ==> ids[1..][i] == ids[i + 1];
      WithoutAt(ids[1..], k - 1, nextId);
    }
  }

  lemma RemovedIds(was: seq<Client>, k: nat, nextId: nat)
    requires k < |was| && NewestFirst(Ids(was), nextId)
    ensures var ids := Ids(was[..k] + was[k + 1..]); ids == Without(Ids(was), was[k].id) && NewestFirst(ids, nextId)
  {
    WithoutAt(Ids(was), k, nextId);
    WithoutOrdered(Ids(was), was[k].id, nextId);
    assert Ids(was)[k] == was[k].id;
    assert Ids(was[..k] + was[k + 1..]) == Ids(was)[..k] + Ids(was)[k + 1..];
  }

  class ClientList {
    var head: Client?
    var nextId: nat
    ghost var spine: seq<Client>  // the entries in list order

    ghost predicate Valid()
      reads this, spine
    {
      && nextId < ID_LIMIT
      && head == Entry(spine, 0)
      && (forall i :: 0 <= i < |spine| ==> spine[i].next == Entry(spine, i + 1))
      && Distinct(spine)
    }

    constructor ()
      ensures Valid() && spine == [] && nextId == 1
    {
      head, nextId, spine := null, 1, [];
    }

    /** Ids stay strictly decreasing along the list and below the counter, unless the counter wraps. */
    method Add() returns (ce: Client)
      requires Valid()
      modifies this
      ensures Valid() && fresh(ce) && ce.id == old(nextId) && spine == [ce] + old(spine)
      ensures nextId == (old(nextId) + 1) % ID_LIMIT
      ensures old(NewestFirst(Ids(spine), nextId)) ==>
        (NewestFirst(Ids(spine), nextId) <==> 1 <= old(nextId) < ID_LIMIT - 1)
    {
      hide Distinct, NewestFirst, Ids;
      ce := new Client(nextId);
      ghost var was := spine;
      DistinctAdded(was, ce);
      nextId := (nextId + 1) % ID_LIMIT;
      ce.next := head;
      head := ce;
      spine := [ce] + was;
      forall i | 0 <= i < |spine| ensures spine[i].next == Entry(spine, i + 1) {
        if i > 0 { assert spine[i] == was[i - 1]; }
      }
      if NewestFirst(Ids(was), old(nextId)) { AddedFirst(was, ce, old(nextId), nextId); }
    }

    /** The entry, if it is in the list, and the one whose pointer leads to it. */
    method Locate(ce: Client) returns (prev: Client?, c: Client?, ghost k: nat)
      requires Valid()
      ensures k <= |spine| && ce !in spine[..k] && c == Entry(spine, k) && (c == null || c == ce)
      ensures prev == if k == 0 then null else spine[k - 1]
    {
      hide Distinct;
      prev, c, k := null, head, 0;
      while c != null && c != ce
        invariant k <= |spine|
        invariant c == Entry(spine, k)
        invariant prev == if k == 0 then null else spine[k - 1]
        invariant ce !in spine[..k]
        decreases |spine| - k
      {
        assert c == spine[k];
        prev, c := c, c.next;
        k := k + 1;
      }
    }

    /** Unlinks the entry, if it is in the list, by way of the pointer that leads to it. */
    method Delete(ce: Client)
      requires Valid()
      modifies this, spine
      ensures Valid() && nextId == old(nextId)
      ensures ce !in old(spine) ==> spine == old(spine)
      ensures forall k :: 0 <= k < |old(spine)| && old(spine)[k] == ce ==>
        spine == old(spine)[..k] + old(spine)[k + 1..] && ce.next == null
      ensures ce in old(spine) && old(NewestFirst(Ids(spine), nextId)) ==>
        Ids(spine) == Without(Ids(old(spine)), ce.id) && NewestFirst(Ids(spine), nextId)
    {
      hide Distinct, NewestFirst, Ids, Without;
      ghost var k;
      var prev, c;
      prev, c, k := Locate(ce);
      if c != null {
        if NewestFirst(Ids(spine), nextId) { RemovedIds(spine, k, nextId); }
        DistinctWithout(spine, k);
        Unlink(prev, c, k);
      }
    }

    method Unlink(prev: Client?, c: Client, ghost k: nat)
      requires Valid() && k < |spine| && c == spine[k] && prev == if k == 0 then null else spine[k - 1]
      modifies this, spine
      ensures Valid() && nextId == old(nextId) && c.next == null
      ensures spine == old(spine)[..k] + old(spine)[k + 1..]
    {
      hide Distinct;
      ghost var was := spine;
      DistinctWithout(was, k);
      if prev == null { head := c.next; } else { prev.next := c.next; }
      c.next := null;
      spine := was[..k] + was[k + 1..];
      assert forall i :: 0 <= i < |was| && i != k && i != k - 1 ==> was[i].next == Entry(was, i + 1);
      forall i | 0 <= i < |spine| ensures spine[i].next == Entry(spine, i + 1) {
        if i < k {
          assert spine[i] == was[i];
        } else {
          assert spine[i] == was[i + 1];
        }
      }
    }

    /** The newest entry with that id. */
    method Find(id: nat) returns (ce: Client?)
      requires Valid()
      ensures ce == null <==> id !in Ids(spine)
      ensures ce != null ==> ce in spine && ce.id == id
    {
      ce := head;
      ghost var k := 0;
      while ce != null
        invariant k <= |spine| && ce == Entry(spine, k)
        invariant forall i :: 0 <= i < k ==> spine[i].id != id
        decreases |spine| - k
      {
        assert ce == spine[k];
        if ce.id == id {
          assert Ids(spine)[k] == id;
          return;
        }
        ce := ce.next;
        k := k + 1;
      }
    }
  }
}
