/** Validation that skips what did not change. A rule with a known reach looks no further up than that many
ancestors, and is skipped at a node when the ancestor at that height carries no flag. */
module Incremental {
  import opened Optional
  import opened XmlTree
  import opened DiffFlags
  import opened TransactionData
  import Engine

  /** `ok` judges the subtree at the height `up`, given the way down to the node; without a known height, the
  whole tree. */
  datatype Rule = Rule(up: Option<nat>, ok: (Xml, Path) -> bool)

  predicate Reaches(r: Rule, e: Path) { r.up.Some? && r.up.value <= |e| }

  function Top(r: Rule, e: Path): (a: Path)
    ensures a <= e
  {
    if Reaches(r, e) then e[..|e| - r.up.value] else []
  }

  predicate Holds(t: Xml, e: Path, r: Rule)
    requires At(t, e)
  {
    PrefixAt(t, Top(r, e), e);
    r.ok(Node(t, Top(r, e)), e[|Top(r, e)|..])
  }

  predicate Skipped(flags: set<Path>, e: Path, r: Rule) { Reaches(r, e) && Top(r, e) !in flags }

  ghost predicate AllHold(t: Xml, e: Path, rules: seq<Rule>)
    requires At(t, e)
  {
    forall i :: 0 <= i < |rules| ==> Holds(t, e, rules[i])
  }

  ghost predicate Checked(t: Xml, e: Path, rules: seq<Rule>, flags: set<Path>)
    requires At(t, e)
  {
    forall i :: 0 <= i < |rules| ==> Skipped(flags, e, rules[i]) || Holds(t, e, rules[i])
  }

  // ----- choices

  /** No sibling of the node belongs to another case of a choice. Whether two nodes conflict depends on their names. */
  predicate ChoiceHolds(t: Xml, e: Path, conflict: (nat, nat) -> bool)
    requires e != [] && At(t, e)
  {
    PrefixAt(t, Parent(e), e);
    var kids := Node(t, Parent(e)).kids;
    forall j :: 0 <= j < |kids| && j != e[|e| - 1] ==> !conflict(Node(t, e).name, kids[j].name)
  }

  /** All the checks of one node: the rules not skipped, and the choice check if the node itself carries one of the
  flags in `gate`. */
  ghost predicate Passed(t: Xml, e: Path, rules: seq<Rule>, conflict: (nat, nat) -> bool,
                         flags: set<Path>, gate: set<Path>)
    requires e != [] && At(t, e)
  {
    Checked(t, e, rules, flags) && (e in gate ==> ChoiceHolds(t, e, conflict))
  }

  ghost predicate ValidNode(t: Xml, e: Path, rules: seq<Rule>, conflict: (nat, nat) -> bool)
    requires e != [] && At(t, e)
  {
    AllHold(t, e, rules) && ChoiceHolds(t, e, conflict)
  }

  ghost predicate ValidBelow(t: Xml, rules: seq<Rule>, conflict: (nat, nat) -> bool) {
    forall e :: At(t, e) && e != [] ==> ValidNode(t, e, rules, conflict)
  }

  /** A rule with a height is about the subtree that high above the node, and the way down from there, and is skipped if
  there is no flag at that height; one without is about the whole tree, and never skipped. */
  lemma RuleMeans(t: Xml, a: Path, s: Path, ok: (Xml, Path) -> bool, flags: set<Path>)
    requires At(t, a) && At(t, a + s)
    ensures Holds(t, a + s, Rule(Some(|s|), ok)) <==> ok(Node(t, a), s)
    ensures Skipped(flags, a + s, Rule(Some(|s|), ok)) <==> a !in flags
    ensures Holds(t, a + s, Rule(None, ok)) <==> ok(t, a + s)
    ensures !Skipped(flags, a + s, Rule(None, ok))
  {
    assert (a + s)[..|a|] == a && (a + s)[|a|..] == s && (a + s)[0..] == a + s;
  }

  ghost predicate Satisfies(t: Xml, rules: seq<Rule>) {
    forall e: Path, r :: r in rules && At(t, e) && e != [] ==> Holds(t, e, r)
  }

  /** No two siblings are of different cases of a choice. */
  ghost predicate NoConflicts(t: Xml, conflict: (nat, nat) -> bool) {
    forall p: Path :: At(t, p) ==> ApartKids(Node(t, p).kids, conflict)
  }

  ghost predicate ApartKids(kids: seq<Xml>, conflict: (nat, nat) -> bool) {
    forall i, j :: 0 <= i < |kids| && 0 <= j < |kids| && i != j ==> !conflict(kids[i].name, kids[j].name)
  }

  /** A valid tree satisfies every rule at every node, and holds no two siblings of different cases. */
  lemma ValidMeans(t: Xml, rules: seq<Rule>, conflict: (nat, nat) -> bool)
    ensures ValidBelow(t, rules, conflict) <==> Satisfies(t, rules) && NoConflicts(t, conflict)
  {
    hide Holds, ChoiceHolds, ApartKids;
    if ValidBelow(t, rules, conflict) {
      forall e: Path, r | r in rules && At(t, e) && e != [] ensures Holds(t, e, r) {
        assert ValidNode(t, e, rules, conflict);
      }
      forall p: Path | At(t, p) ensures ApartKids(Node(t, p).kids, conflict) {
        forall i: nat | i < |Node(t, p).kids| ensures At(t, p + [i]) && ChoiceHolds(t, p + [i], conflict) {
          PathBasics(t, p, t);
          assert ValidNode(t, p + [i], rules, conflict);
        }
        ChoicesMean(t, p, conflict);
      }
    }
    if Satisfies(t, rules) && NoConflicts(t, conflict) {
      forall e: Path | At(t, e) && e != [] ensures ValidNode(t, e, rules, conflict) {
        var p, i := Parent(e), e[|e| - 1];
        PrefixAt(t, p, e);
        assert e == p + [i];
        KidAt(t, p, i);
        ChoiceMeans(t, p, i, conflict);
      }
    }
  }

  lemma ChoiceMeans(t: Xml, p: Path, i: nat, conflict: (nat, nat) -> bool)
    requires At(t, p) && At(t, p + [i]) && i < |Node(t, p).kids|
    ensures ChoiceHolds(t, p + [i], conflict) <==>
      (forall j :: 0 <= j < |Node(t, p).kids| && j != i ==> !conflict(Node(t, p).kids[i].name, Node(t, p).kids[j].name))
    ensures ApartKids(Node(t, p).kids, conflict) ==> ChoiceHolds(t, p + [i], conflict)
  {
    NodeSplit(t, p, [i]);
    assert Parent(p + [i]) == p && (p + [i])[|p|] == i;
  }

  lemma ChoicesMean(t: Xml, p: Path, conflict: (nat, nat) -> bool)
    requires At(t, p)
    requires forall i: nat :: i < |Node(t, p).kids| ==> At(t, p + [i]) && ChoiceHolds(t, p + [i], conflict)
    ensures ApartKids(Node(t, p).kids, conflict)
  {
    hide ChoiceHolds;
    forall i: nat | i < |Node(t, p).kids|
      ensures forall j :: 0 <= j < |Node(t, p).kids| && j != i ==>
        !conflict(Node(t, p).kids[i].name, Node(t, p).kids[j].name)
    {
      assert At(t, p + [i]);
      ChoiceMeans(t, p, i, conflict);
    }
  }

  // ----- the validator

  method ValidateNode(t: Xml, q: Path, rules: seq<Rule>, conflict: (nat, nat) -> bool,
                      flags: set<Path>, gate: set<Path>)
    returns (ok: bool)
    requires q != [] && At(t, q)
    ensures ok <==> Passed(t, q, rules, conflict, flags, gate)
  {
    for i := 0 to |rules|
      invariant forall k :: 0 <= k < i ==> Skipped(flags, q, rules[k]) || Holds(t, q, rules[k])
    {
      if !Skipped(flags, q, rules[i]) && !Holds(t, q, rules[i]) {
        assert !Checked(t, q, rules, flags);
        return false;
      }
    }
    return q in gate ==> ChoiceHolds(t, q, conflict);
  }

  /** All nodes of the subtree at `q`. */
  method ValidateAll(t: Xml, q: Path, rules: seq<Rule>, conflict: (nat, nat) -> bool, flags: set<Path>, gate: set<Path>)
    returns (ok: bool)
    requires q != [] && At(t, q)
    ensures ok <==> forall e :: At(t, e) && q <= e ==> Passed(t, e, rules, conflict, flags, gate)
    decreases Node(t, q)
  {
    hide Passed;
    ok := ValidateNode(t, q, rules, conflict, flags, gate);
    if !ok { return; }
    for i := 0 to |Node(t, q).kids|
      invariant forall e :: At(t, e) && (e == q || Under(q, i, e)) ==> Passed(t, e, rules, conflict, flags, gate)
    {
      PathBasics(t, q, t);
      NodeSplit(t, q, [i]);
      var kid := ValidateAll(t, q + [i], rules, conflict, flags, gate);
      if !kid { return false; }
      forall e ensures Under(q, i + 1, e) <==> Under(q, i, e) || q + [i] <= e { UnderNext(q, i, e); }
    }
    forall e | At(t, e) && q <= e && e != q ensures Under(q, |Node(t, q).kids|, e) { KidsOnly(t, q, e); }
    return true;
  }

  /** All nodes below the root, and the root's own check, which is never skipped. */
  method GenericValidate(t: Xml, rules: seq<Rule>, conflict: (nat, nat) -> bool, root: Xml -> bool, flags: set<Path>,
                         gate: set<Path>)
    returns (ok: bool)
    ensures ok <==> root(t) && forall e :: At(t, e) && e != [] ==> Passed(t, e, rules, conflict, flags, gate)
  {
    hide Passed;
    for i := 0 to |t.kids|
      invariant forall e :: At(t, e) && Under([], i, e) ==> Passed(t, e, rules, conflict, flags, gate)
    {
      PathBasics(t, [], t);
      var kid := ValidateAll(t, [i], rules, conflict, flags, gate);
      if !kid { return false; }
      forall e ensures Under([], i + 1, e) <==> Under([], i, e) || [i] <= e { UnderNext([], i, e); }
    }
    forall e | At(t, e) && e != [] ensures Under([], |t.kids|, e) { KidsOnly(t, [], e); }
    return root(t);
  }

  // ----- why skipping is sound

  /** At an unflagged height the source has the same subtree, so that a rule skipped there is a rule it satisfies. */
  lemma SkippedHolds(t: Xml, u: Xml, e: Path, r: Rule)
    requires Keyed(t) && Keyed(u) && Same(t, u) && At(u, e) && e != [] && Reaches(r, e)
    requires At(u, Top(r, e)) && Unchanged(u, t, Top(r, e))
    requires forall p :: At(t, p) && p != [] ==> Holds(t, p, r)
    ensures Holds(u, e, r)
  {
    var a := Top(r, e);
    UnchangedBelow(t, u, a, e);
    var b, s := Counter(u, a, t).value, e[|a|..];
    assert Holds(t, b + s, r);
    assert Top(r, b + s) == b && (b + s)[|b|..] == s;
  }

  lemma RulesAgree(t: Xml, u: Xml, e: Path, rules: seq<Rule>, flags: set<Path>)
    requires Keyed(t) && Keyed(u) && Same(t, u) && At(u, e) && e != [] && Checked(u, e, rules, flags)
    requires forall q :: At(u, q) && q !in flags ==> Unchanged(u, t, q)
    requires forall p :: At(t, p) && p != [] ==> AllHold(t, p, rules)
    ensures AllHold(u, e, rules)
  {
    forall i | 0 <= i < |rules| && Skipped(flags, e, rules[i]) ensures Holds(u, e, rules[i]) {
      PrefixAt(u, Top(rules[i], e), e);
      forall p | At(t, p) && p != [] ensures Holds(t, p, rules[i]) { assert AllHold(t, p, rules); }
      SkippedHolds(t, u, e, rules[i]);
    }
  }

  /** Of two conflicting siblings one at least is new, since the source holds no conflict. */
  lemma ConflictIsNew(t: Xml, u: Xml, p: Path, i: nat, j: nat, conflict: (nat, nat) -> bool)
    requires Keyed(t) && Keyed(u) && Same(t, u) && At(u, p) && i < |Node(u, p).kids| && j < |Node(u, p).kids| && i != j
    requires conflict(Node(u, p).kids[i].name, Node(u, p).kids[j].name)
    requires forall e :: At(t, e) && e != [] ==> ChoiceHolds(t, e, conflict)
    ensures At(u, p + [i]) && At(u, p + [j])
    ensures Counter(u, p + [i], t).None? || Counter(u, p + [j], t).None?
  {
    PathBasics(t, p, u);
    if Counter(u, p + [i], t).Some? && Counter(u, p + [j], t).Some? {
      assert p <= p + [i];
      CounterPrefix(u, p, p + [i], t);
      var a := Counter(u, p, t).value;
      CounterStep(u, p, i, t, a);
      CounterStep(u, p, j, t, a);
      SourceConflict(t, u, p, a, i, j, conflict);
    }
  }

  lemma SourceConflict(t: Xml, u: Xml, p: Path, a: Path, i: nat, j: nat, conflict: (nat, nat) -> bool)
    requires Keyed(t) && Keyed(u) && At(u, p) && At(t, a) && i != j
    requires i < |Node(u, p).kids| && j < |Node(u, p).kids|
    requires var kids := Node(u, p).kids; Match(Node(t, a).kids, kids[i]).Some? && Match(Node(t, a).kids, kids[j]).Some?
    ensures var kids := Node(u, p).kids;
      conflict(kids[i].name, kids[j].name) ==> exists e :: At(t, e) && e != [] && !ChoiceHolds(t, e, conflict)
  {
    hide Keyed, Less, KeyValue;
    var x, y := Node(u, p), Node(t, a);
    var k, l := Match(y.kids, x.kids[i]).value, Match(y.kids, x.kids[j]).value;
    assert Ident(x.kids[i])[0] == Ident(y.kids[k])[0] && Ident(x.kids[j])[0] == Ident(y.kids[l])[0];
    NodeKeyed(u, p);
    KidsApart(x, i, j);
    PathBasics(t, a, t);
    NodeSplit(t, a, [k]);
    var e := a + [k];
    assert e[|e| - 1] == k && Parent(e) == a && Node(t, e) == y.kids[k];
  }

  /** Nodes without a counterpart are at or below a new one, and so carry the flag that opens the choice check. */
  lemma NewIsGated(t: Xml, u: Xml, avec: seq<Path>, add: set<Path>, e: Path)
    requires At(u, e) && Counter(u, e, t).None?
    requires forall a :: a in avec <==> Missing(u, t, a)
    requires forall q :: At(u, q) ==> (q in add <==> AtOrBelow(avec, q))
    ensures e in add
  {
    var a := FirstMissing(u, t, e);
    var i :| 0 <= i < |avec| && avec[i] == a;
  }

  /** Skipping the choice check on nodes that are not new or changed finds every conflict, when conflicts are mutual. */
  lemma ChoicesAgree(t: Xml, u: Xml, avec: seq<Path>, add: set<Path>, gate: set<Path>,
                     conflict: (nat, nat) -> bool, e: Path)
    requires Keyed(t) && Keyed(u) && Same(t, u) && (forall x, y :: conflict(x, y) == conflict(y, x)) && add <= gate
    requires forall a :: a in avec <==> Missing(u, t, a)
    requires forall q :: At(u, q) ==> (q in add <==> AtOrBelow(avec, q))
    requires forall p :: At(t, p) && p != [] ==> ChoiceHolds(t, p, conflict)
    requires forall q :: At(u, q) && q != [] && q in gate ==> ChoiceHolds(u, q, conflict)
    requires At(u, e) && e != []
    ensures ChoiceHolds(u, e, conflict)
  {
    PrefixAt(u, Parent(e), e);
    var p, i := Parent(e), e[|e| - 1];
    assert e == p + [i];
    KidAt(u, p, i);
    var kids := Node(u, p).kids;
    NodeSplit(u, p, [i]);
    forall j | 0 <= j < |kids| && j != i ensures !conflict(kids[i].name, kids[j].name) {
      ConflictGated(t, u, avec, add, conflict, p, i, j);
    }
  }

  lemma ConflictGated(t: Xml, u: Xml, avec: seq<Path>, add: set<Path>, conflict: (nat, nat) -> bool,
                      p: Path, i: nat, j: nat)
    requires Keyed(t) && Keyed(u) && Same(t, u) && (forall x, y :: conflict(x, y) == conflict(y, x))
    requires forall a :: a in avec <==> Missing(u, t, a)
    requires forall q :: At(u, q) ==> (q in add <==> AtOrBelow(avec, q))
    requires forall p :: At(t, p) && p != [] ==> ChoiceHolds(t, p, conflict)
    requires forall q :: At(u, q) && q != [] && q in add ==> ChoiceHolds(u, q, conflict)
    requires At(u, p) && i < |Node(u, p).kids| && j < |Node(u, p).kids| && i != j
    ensures !conflict(Node(u, p).kids[i].name, Node(u, p).kids[j].name)
  {
    hide Keyed, Missing, AtOrBelow;
    if conflict(Node(u, p).kids[i].name, Node(u, p).kids[j].name) {
      ConflictIsNew(t, u, p, i, j, conflict);
      var (k, l) := if Counter(u, p + [i], t).None? then (i, j) else (j, i);
      NewIsGated(t, u, avec, add, p + [k]);
      NewChoiceSees(u, p, k, l, conflict);
    }
  }

  lemma NewChoiceSees(u: Xml, p: Path, k: nat, l: nat, conflict: (nat, nat) -> bool)
    requires At(u, p) && At(u, p + [k]) && k < |Node(u, p).kids| && l < |Node(u, p).kids| && k != l
    ensures ChoiceHolds(u, p + [k], conflict) ==> !conflict(Node(u, p).kids[k].name, Node(u, p).kids[l].name)
  {
    var e := p + [k];
    NodeSplit(u, p, [k]);
    assert Parent(e) == p && e[|e| - 1] == k;
  }

  /** Every node that is gone is covered by a flag on the node that lost it. */
  ghost predicate AllCovered(t: Xml, u: Xml) { forall d :: Missing(t, u, d) ==> Covered(t, u, d) }

  ghost predicate ValidTree(t: Xml, rules: seq<Rule>, conflict: (nat, nat) -> bool, root: Xml -> bool) {
    root(t) && ValidBelow(t, rules, conflict)
  }

  /** A transaction never refuses a valid target. From a source whose nodes satisfy the rules and hold no conflict,
  such as an empty one, it never accepts an invalid one, if all deletions are covered. So it admits what validation does
  in the state machine, where a valid source counts as missed only when a deletion is not covered. */
  method ValidateTransaction(src: Xml, target: Xml, rules: seq<Rule>, conflict: (nat, nat) -> bool, root: Xml -> bool)
    returns (ok: bool)
    requires Comparable(src, target) && forall x, y :: conflict(x, y) == conflict(y, x)
    ensures ValidTree(target, rules, conflict, root) ==> ok
    ensures ValidBelow(src, rules, conflict) && AllCovered(src, target) ==>
      (ok <==> ValidTree(target, rules, conflict, root))
    ensures ok <==> Engine.Admits(ValidTree(src, rules, conflict, root), src.kids == [],
                                  ValidTree(target, rules, conflict, root), ok, ok && !AllCovered(src, target))
  {
    hide Keyed, AllHold, Checked, ChoiceHolds, FlagSets, Missing, AtOrBelow, ValidBelow, At, Same;
    var td := new Changes(src, target);
    td.ComputeDiffs();
    var flags, gate := td.add + td.change + td.delAnc, td.add + td.change;
    ok := GenericValidate(target, rules, conflict, root, flags, gate);
    if ValidBelow(target, rules, conflict) { ValidPasses(target, rules, conflict, flags, gate); }
    if ok && ValidBelow(src, rules, conflict) && AllCovered(src, target) {
      PassesValid(src, target, rules, conflict, td.avec, td.add, td.change, td.delAnc);
    }
    if src.kids == [] { NothingBelow(src, target, rules, conflict); }
  }

  lemma NothingBelow(t: Xml, u: Xml, rules: seq<Rule>, conflict: (nat, nat) -> bool)
    requires t.kids == []
    ensures ValidBelow(t, rules, conflict) && AllCovered(t, u)
  {
  }

  lemma ValidPasses(t: Xml, rules: seq<Rule>, conflict: (nat, nat) -> bool, flags: set<Path>, gate: set<Path>)
    requires ValidBelow(t, rules, conflict)
    ensures forall e :: At(t, e) && e != [] ==> Passed(t, e, rules, conflict, flags, gate)
  {
    forall e | At(t, e) && e != [] ensures Passed(t, e, rules, conflict, flags, gate) {
      assert ValidNode(t, e, rules, conflict);
    }
  }

  lemma PassesValid(t: Xml, u: Xml, rules: seq<Rule>, conflict: (nat, nat) -> bool, avec: seq<Path>, add: set<Path>,
                    change: set<Path>, delAnc: set<Path>)
    requires Comparable(t, u) && (forall x, y :: conflict(x, y) == conflict(y, x))
    requires ValidBelow(t, rules, conflict) && AllCovered(t, u)
    requires FlagSets(t, u, add, change, delAnc)
    requires forall a :: a in avec <==> Missing(u, t, a)
    requires forall q :: At(u, q) ==> (q in add <==> AtOrBelow(avec, q))
    requires forall e :: At(u, e) && e != [] ==>
      Passed(u, e, rules, conflict, add + change + delAnc, add + change)
    ensures ValidBelow(u, rules, conflict)
  {
    hide Keyed, AllHold, Checked, ChoiceHolds, Missing, AtOrBelow, Unchanged, Same, At, Flagged;
    var flags, gate := add + change + delAnc, add + change;
    NoneOverlooked(t, u);
    forall q | At(u, q) && q !in flags ensures Unchanged(u, t, q) { assert !Flagged(t, u, q); }
    forall p | At(t, p) && p != [] ensures AllHold(t, p, rules) && ChoiceHolds(t, p, conflict) {
      assert ValidNode(t, p, rules, conflict);
    }
    forall e | At(u, e) && e != [] ensures ValidNode(u, e, rules, conflict) {
      assert Passed(u, e, rules, conflict, flags, gate);
      RulesAgree(t, u, e, rules, flags);
      ChoicesAgree(t, u, avec, add, gate, conflict, e);
    }
  }
}
