/** A list with two keys, where looking an entry up by its first key finds another one. */
module TwoKeyLists {
  import opened Optional
  import opened XmlTree
  import opened DiffFlags
  import opened TransactionData
  import opened Incremental

  function Entry(k1: int, k2: int, more: seq<Xml>): Xml {
    Xml(0, List([1, 2]), None, [Xml(1, Leaf, Some(k1), []), Xml(2, Leaf, Some(k2), [])] + more)
  }

  function TwoEntries(more: seq<Xml>): Xml { Xml(0, Container, None, [Entry(5, 1, []), Entry(5, 2, more)]) }

  lemma EntryKeys(k1: int, k2: int, more: seq<Xml>)
    ensures var x := Entry(k1, k2, more);
      && KeyValue(x, 1) == Some(k1) && KeyValue(x, 2) == Some(k2)
      && Ident(x) == [Some(0), Some(k1), Some(k2)]
  {
    var x := Entry(k1, k2, more);
    assert x.kids[0] == Xml(1, Leaf, Some(k1), []) && x.kids[1] == Xml(2, Leaf, Some(k2), []);
    assert Named(x.kids, 1) == Some(0) && Named(x.kids, 2) == Some(1);
  }

  lemma TwoEntriesKeyed(more: seq<Xml>)
    requires more == [] || more == [Xml(3, Leaf, Some(7), [])]
    ensures Keyed(TwoEntries(more)) && Keyed(Entry(5, 2, more)) && Keyed(Entry(5, 1, []))
  {
    hide Less, Ident, Siblings;
    EntryKeyed(5, 1, []);
    EntryKeyed(5, 2, more);
    EntriesInOrder(more);
    var t := TwoEntries(more);
    assert Siblings(t.kids[0], t.kids[1]);
  }

  lemma EntriesInOrder(more: seq<Xml>)
    ensures Siblings(Entry(5, 1, []), Entry(5, 2, more))
  {
    EntryKeys(5, 1, []);
    EntryKeys(5, 2, more);
    assert Less([Some(0), Some(5), Some(1)], [Some(0), Some(5), Some(2)]) by {
      assert [Some(0), Some(5), Some(1)][1..] == [Some(5), Some(1)] && [Some(5), Some(1)][1..] == [Some(1)];
      assert [Some(0), Some(5), Some(2)][1..] == [Some(5), Some(2)] && [Some(5), Some(2)][1..] == [Some(2)];
    }
  }

  lemma EntryKeyed(k1: int, k2: int, more: seq<Xml>)
    requires more == [] || more == [Xml(3, Leaf, Some(7), [])]
    ensures Keyed(Entry(k1, k2, more))
  {
    var x := Entry(k1, k2, more);
    EntryKeys(k1, k2, more);
    forall i, j | 0 <= i < j < |x.kids| ensures Siblings(x.kids[i], x.kids[j]) {
      assert Ident(x.kids[i]) == [Some(i + 1)] && Ident(x.kids[j]) == [Some(j + 1)];
    }
    forall i | 0 <= i < |x.kids| ensures Keyed(x.kids[i]) { assert x.kids[i].kids == []; }
  }

  lemma DiffRoot(t: Xml, u: Xml, d: Path)
    requires d != [] && d[0] < |t.kids|
    ensures var m := Match(u.kids, t.kids[d[0]]);
      && (Missing(t, u, d) <==>
            if m.None? then d == [d[0]] else d[1..] != [] && Missing(t.kids[d[0]], u.kids[m.value], d[1..]))
      && (Changed(t, u, d) <==> m.Some? && Changed(t.kids[d[0]], u.kids[m.value], d[1..]))
  {
    hide First, Same, Ident;
    var i, r := d[0], d[1..];
    assert d == [i] + r;
    CounterKid(t, i, u);
    var m := Match(u.kids, t.kids[i]);
    assert Parent([i]) == [];
    if m.Some? {
      if r != [] { MissingDeeper(t, u, i, m.value, r); } else { assert d == [i]; }
      var c := if At(t.kids[i], r) then Counter(t.kids[i], r, u.kids[m.value]) else None;
      assert c.Some? ==> ([m.value] + c.value)[1..] == c.value;
    } else if r != [] {
      assert Parent(d)[0] == i;
    }
  }

  lemma NoDiffSelf(x: Xml, d: Path)
    requires Keyed(x)
    ensures !Missing(x, x, d) && !Changed(x, x, d)
  {
    if At(x, d) { CounterSelf(x, d); }
  }

  /** In a list with two keys the deletion of a leaf from the second entry with a first key is flagged on the first
  such entry; the entry that has changed carries no flag. */
  lemma TwoKeysMislead()
    ensures var t, u := TwoEntries([Xml(3, Leaf, Some(7), [])]), TwoEntries([]);
      Comparable(t, u) && At(u, [1]) && !Unchanged(u, t, [1]) && !Flagged(t, u, [1])
  {
    var x := Xml(3, Leaf, Some(7), []);
    var t, u := TwoEntries([x]), TwoEntries([]);
    TwoEntriesKeyed([x]);
    TwoEntriesKeyed([]);
    TwoEntriesDiffer(x);
    LonePlace(t, u, [1, 2]);
    TwoEntriesShadow(x);
  }

  lemma TwoEntriesShadow(x: Xml)
    requires x == Xml(3, Leaf, Some(7), []) && Missing(TwoEntries([x]), TwoEntries([]), [1, 2])
    ensures Counter(TwoEntries([x]), Parent([1, 2]), TwoEntries([])).value == [1]
    ensures !Findable(TwoEntries([x]), TwoEntries([]), [1, 2])
  {
    hide First, Counter;
    var t, u := TwoEntries([x]), TwoEntries([]);
    EntryKeys(5, 1, []);
    EntryKeys(5, 2, []);
    EntryKeys(5, 2, [x]);
    TwoEntriesKeyed([]);
    MatchUnique(u, t.kids[1], 1);
    CounterKid(t, 1, u);
    assert Parent([1, 2]) == [1];
    assert LooksLike(u.kids[0], u.kids[1]);
  }

  lemma TwoEntriesDiffer(x: Xml)
    requires x == Xml(3, Leaf, Some(7), [])
    ensures OnlyGone(TwoEntries([x]), TwoEntries([]), [1, 2])
  {
    hide First, Missing, Changed, Keyed;
    var t, u := TwoEntries([x]), TwoEntries([]);
    forall d ensures Missing(t, u, d) <==> d == [1, 2] { TwoEntriesDiffAt(x, [x], [], d); }
    forall d ensures !Missing(u, t, d) && !Changed(u, t, d) { TwoEntriesDiffAt(x, [], [x], d); }
  }

  lemma EntryMatches(x: Xml, xs: seq<Xml>, ys: seq<Xml>)
    requires x == Xml(3, Leaf, Some(7), []) && (xs == [] || xs == [x]) && (ys == [] || ys == [x])
    ensures var t, u, a, b := TwoEntries(xs), TwoEntries(ys), Entry(5, 2, xs), Entry(5, 2, ys);
      && Match(u.kids, t.kids[0]) == Some(0) && Match(u.kids, t.kids[1]) == Some(1)
      && Match(b.kids, a.kids[0]) == Some(0) && Match(b.kids, a.kids[1]) == Some(1)
      && Match(b.kids, x) == (if ys == [] then None else Some(2))
  {
    hide Keyed, Match, Ident;
    var t, u, a, b := TwoEntries(xs), TwoEntries(ys), Entry(5, 2, xs), Entry(5, 2, ys);
    TwoEntriesKeyed(ys);
    EntryKeys(5, 2, xs);
    EntryKeys(5, 2, ys);
    MatchUnique(u, t.kids[0], 0);
    MatchUnique(u, t.kids[1], 1);
    MatchUnique(b, a.kids[0], 0);
    MatchUnique(b, a.kids[1], 1);
    if ys == [] { NoThird(x); } else { MatchUnique(b, x, 2); }
  }

  lemma NoThird(x: Xml)
    requires x == Xml(3, Leaf, Some(7), [])
    ensures Match(Entry(5, 2, []).kids, x).None?
  {
    var b := Entry(5, 2, []);
    assert Ident(x) == [Some(3)] && Ident(b.kids[0]) == [Some(1)] && Ident(b.kids[1]) == [Some(2)];
  }

  /** Below the second entry only its third child can differ. */
  lemma EntryDiffAt(x: Xml, xs: seq<Xml>, ys: seq<Xml>, d: Path)
    requires x == Xml(3, Leaf, Some(7), []) && (xs == [] || xs == [x]) && (ys == [] || ys == [x])
    ensures var a, b := Entry(5, 2, xs), Entry(5, 2, ys);
      !Changed(a, b, d) && (Missing(a, b, d) <==> xs == [x] && ys == [] && d == [2])
  {
    hide First, Keyed, Counter, Match;
    var a, b := Entry(5, 2, xs), Entry(5, 2, ys);
    EntryMatches(x, xs, ys);
    if d != [] && d[0] < |a.kids| {
      DiffRoot(a, b, d);
      LeafKeyed(a.kids[d[0]]);
      NoDiffSelf(a.kids[d[0]], d[1..]);
      if d == [2] { assert d[0] == 2; }
    }
  }

  lemma LeafKeyed(x: Xml)
    requires x.kind.Leaf? && x.kids == []
    ensures Keyed(x)
  {
  }

  lemma TwoEntriesDiffAt(x: Xml, xs: seq<Xml>, ys: seq<Xml>, d: Path)
    requires x == Xml(3, Leaf, Some(7), []) && (xs == [] || xs == [x]) && (ys == [] || ys == [x])
    ensures var t, u := TwoEntries(xs), TwoEntries(ys);
      !Changed(t, u, d) && (Missing(t, u, d) <==> xs == [x] && ys == [] && d == [1, 2])
  {
    hide First, Keyed, Counter, Match;
    var t, u := TwoEntries(xs), TwoEntries(ys);
    EntryMatches(x, xs, ys);
    if d != [] && d[0] < 2 {
      DiffRoot(t, u, d);
      if d[0] == 0 {
        TwoEntriesKeyed(xs);
        NoDiffSelf(t.kids[0], d[1..]);
      } else {
        EntryDiffAt(x, xs, ys, d[1..]);
        assert d == [1] + d[1..];
      }
    }
  }

  /** The second entry needs a third child. */
  function NeedsThird(): Rule {
    Rule(Some(0), (x: Xml, _: Path) => !(x.kind.List? && KeyValue(x, 2) == Some(2) && |x.kids| < 3))
  }

  predicate NoConflict(x: nat, y: nat) { false }

  /** The rule holds at every node but a second entry without that child. */
  lemma ThirdNeeded(more: seq<Xml>, p: Path)
    requires (more == [] || more == [Xml(3, Leaf, Some(7), [])]) && At(TwoEntries(more), p) && p != []
    ensures Holds(TwoEntries(more), p, NeedsThird()) <==> !(more == [] && p == [1])
  {
    assert p[..|p|] == p && p[|p|..] == [];
    EntryKeys(5, 1, []);
    EntryKeys(5, 2, more);
    NodesOfEntries(more, p);
  }

  /** So an invalid target is accepted although the source was valid: whatever sets hold the flags, every node of it
  passes. */
  lemma TwoKeysAccepted(added: set<Path>, changed: set<Path>, above: set<Path>)
    requires FlagSets(TwoEntries([Xml(3, Leaf, Some(7), [])]), TwoEntries([]), added, changed, above)
    ensures ValidBelow(TwoEntries([Xml(3, Leaf, Some(7), [])]), [NeedsThird()], NoConflict)
    ensures !ValidBelow(TwoEntries([]), [NeedsThird()], NoConflict)
    ensures forall e :: At(TwoEntries([]), e) && e != [] ==>
      Passed(TwoEntries([]), e, [NeedsThird()], NoConflict, added + changed + above, added + changed)
  {
    hide FlagSets, Flagged, KeyValue;
    var x, rules := Xml(3, Leaf, Some(7), []), [NeedsThird()];
    var t, u := TwoEntries([x]), TwoEntries([]);
    TwoKeysMislead();
    SecondUnflagged(added, changed, above);
    forall p | At(t, p) && p != [] ensures ValidNode(t, p, rules, NoConflict) { ThirdNeeded([x], p); }
    ThirdNeeded([], [1]);
    assert !Holds(u, [1], rules[0]) && !ValidNode(u, [1], rules, NoConflict);
    forall e | At(u, e) && e != [] ensures Passed(u, e, rules, NoConflict, added + changed + above, added + changed) {
      ThirdNeeded([], e);
      assert [1][..1] == [1];
    }
  }

  lemma SecondUnflagged(added: set<Path>, changed: set<Path>, above: set<Path>)
    requires FlagSets(TwoEntries([Xml(3, Leaf, Some(7), [])]), TwoEntries([]), added, changed, above)
    ensures [1] !in added + changed + above
  {
    hide Flagged;
    TwoKeysMislead();
  }

  lemma NodesOfEntries(more: seq<Xml>, p: Path)
    requires (more == [] || more == [Xml(3, Leaf, Some(7), [])]) && At(TwoEntries(more), p) && p != []
    ensures var n := Node(TwoEntries(more), p);
      if p == [0] then n == Entry(5, 1, []) else if p == [1] then n == Entry(5, 2, more) else n.kind.Leaf?
  {
    var t := TwoEntries(more);
    var e := t.kids[p[0]];
    if |p| > 1 {
      var r := p[1..];
      assert At(e, r);
      var l := e.kids[r[0]];
      assert l.kind.Leaf? && l.kids == [];
      assert At(l, r[1..]);
      assert Node(t, p) == Node(e, r) == Node(l, r[1..]);
      assert r[1..] == [];
    } else {
      assert p[1..] == [];
    }
  }
}
