/** The difference between the source and the target of a transaction, as the backend computes it: a merge of sorted
children collects the nodes, and loops over what was collected set flags on the nodes of both trees. */
module TransactionData {
  import opened Optional
  import opened XmlTree
  import opened DiffFlags

  // ----- the place of a source node's parent in the other tree

  /** A list entry by its first key if that finds one, anything else by its name. */
  function Lookup(kids: seq<Xml>, x: Xml): Option<nat> {
    var byKey :=
      if x.kind.List? && x.kind.keys != [] && KeyValue(x, x.kind.keys[0]).Some? then
        First(kids, (y: Xml) => y.name == x.name && KeyValue(y, x.kind.keys[0]) == KeyValue(x, x.kind.keys[0]), 0)
      else None;
    if byKey.Some? then byKey else Named(kids, x.name)
  }

  method LookupChild(kids: seq<Xml>, x: Xml) returns (r: Option<nat>)
    ensures r == Lookup(kids, x) && (r.Some? ==> r.value < |kids|)
  {
    if x.kind.List? && x.kind.keys != [] && KeyValue(x, x.kind.keys[0]).Some? {
      for i := 0 to |kids|
        invariant forall k :: 0 <= k < i ==>
          !(kids[k].name == x.name && KeyValue(kids[k], x.kind.keys[0]) == KeyValue(x, x.kind.keys[0]))
      {
        if kids[i].name == x.name && KeyValue(kids[i], x.kind.keys[0]) == KeyValue(x, x.kind.keys[0]) {
          return Some(i);
        }
      }
    }
    for i := 0 to |kids|
      invariant forall k :: 0 <= k < i ==> kids[k].name != x.name
    {
      if kids[i].name == x.name { return Some(i); }
    }
    return None;
  }

  /** A child the lookup of `y` cannot tell from it. */
  predicate LooksLike(x: Xml, y: Xml) {
    && x.name == y.name
    && (y.kind.List? && y.kind.keys != [] ==> KeyValue(x, y.kind.keys[0]) == KeyValue(y, y.kind.keys[0]))
  }

  /** An earlier sibling has the name, and as a list entry the first key, of child `j`. */
  predicate Shadowed(kids: seq<Xml>, j: nat)
    requires j < |kids|
  {
    exists k :: 0 <= k < j && LooksLike(kids[k], kids[j])
  }

  /** Only a list with several keys, or a leaf-list, can hold such siblings. */
  lemma ShadowedKind(t: Xml, j: nat)
    requires Keyed(t) && j < |t.kids| && Shadowed(t.kids, j)
    ensures var y := t.kids[j]; y.kind.LeafList? || (y.kind.List? && |y.kind.keys| > 1)
  {
    var k :| 0 <= k < j && LooksLike(t.kids[k], t.kids[j]);
    assert Siblings(t.kids[k], t.kids[j]);
    KeyedEntry(t.kids[j]);
    OneKeyIdent(t.kids[k], t.kids[j]);
    KidsApart(t, k, j);
  }

  lemma OneKeyIdent(x: Xml, y: Xml)
    requires LooksLike(x, y) && x.kind == y.kind
    ensures !y.kind.LeafList? && (y.kind.List? ==> |y.kind.keys| == 1) ==> Ident(x) == Ident(y)
  {
  }

  lemma KeyedEntry(x: Xml)
    requires Keyed(x)
    ensures x.kind.List? ==> x.kind.keys != [] && KeyValue(x, x.kind.keys[0]).Some?
  {
  }

  lemma LookupLooksUp(kids: seq<Xml>, x: Xml, j: nat)
    requires j < |kids| && x.name == kids[j].name && x.kind == kids[j].kind
    requires x.kind.List? ==> x.kind.keys != [] && KeyValue(x, x.kind.keys[0]).Some?
    requires x.kind.List? ==> KeyValue(kids[j], x.kind.keys[0]) == KeyValue(x, x.kind.keys[0])
    ensures var m := Lookup(kids, x); m.Some? && m.value <= j && (m.value == j <==> !Shadowed(kids, j))
  {
  }

  /** The lookup by first key or name finds the same node exactly when no earlier sibling has its name and first key. */
  lemma LookupFinds(t: Xml, x: Xml)
    requires Keyed(x) && Match(t.kids, x).Some?
    ensures Lookup(t.kids, x).Some? && Lookup(t.kids, x).value < |t.kids|
    ensures Lookup(t.kids, x) == Match(t.kids, x) <==> !Shadowed(t.kids, Match(t.kids, x).value)
  {
    hide Keyed, Lookup, KeyValue, Shadowed;
    var j := Match(t.kids, x).value;
    var y := t.kids[j];
    assert x.kind.List? ==> x.kind.keys != [] && KeyValue(x, x.kind.keys[0]).Some? by { KeyedEntry(x); }
    assert Ident(x)[0] == Ident(y)[0];
    if x.kind.List? { assert Ident(x)[1] == Ident(y)[1]; }
    LookupLooksUp(t.kids, x, j);
  }

  lemma CounterPrefix(t: Xml, a: Path, p: Path, u: Xml)
    requires At(t, p) && a <= p && Counter(t, p, u).Some?
    ensures At(t, a) && Counter(t, a, u).Some?
  {
    PrefixAt(t, a, p);
    CounterSplit(t, a, p[|a|..], u);
    assert a + p[|a|..] == p;
  }

  lemma CounterKid(t: Xml, i: nat, u: Xml)
    requires i < |t.kids|
    ensures At(t, [i])
    ensures Counter(t, [i], u) == var m := Match(u.kids, t.kids[i]); if m.None? then None else Some([m.value])
  {
    hide First;
    var p: Path := [i];
    assert p[1..] == [];
    var m := Match(u.kids, t.kids[i]);
    if m.Some? {
      assert Counter(t.kids[i], p[1..], u.kids[m.value]) == Some([]);
      assert [m.value] + [] == [m.value];
    }
  }

  lemma PathBasics(t: Xml, q: Path, u: Xml)
    requires At(u, q)
    ensures At(t, []) && Counter(t, [], u) == Some([]) && At(u, [])
    ensures forall i: nat :: i < |Node(u, q).kids| ==> At(u, q + [i])
  {
    forall i: nat | i < |Node(u, q).kids| ensures At(u, q + [i]) { NodeSplit(u, q, [i]); }
  }

  /** The non-root ancestors of `p`, nearest first, as far as the buffer goes. */
  method Ancestors(p: Path, path: array<Path>) returns (depth: nat)
    requires p != [] && path.Length == 64
    modifies path
    ensures depth == if |p| <= 65 then |p| - 1 else 64
    ensures forall k :: 0 <= k < depth ==> path[k] == p[..|p| - 1 - k]
  {
    var xp := Parent(p);
    depth := 0;
    while xp != [] && depth < 64
      invariant depth <= 64 && depth < |p| && xp == p[..|p| - 1 - depth]
      invariant forall k :: 0 <= k < depth ==> path[k] == p[..|p| - 1 - k]
    {
      path[depth] := xp;
      depth, xp := depth + 1, Parent(xp);
    }
  }

  lemma CounterStep(t: Xml, p: Path, i: nat, u: Xml, q: Path)
    requires At(t, p) && Counter(t, p, u) == Some(q) && i < |Node(t, p).kids|
    ensures At(t, p + [i]) && Node(t, p + [i]) == Node(t, p).kids[i]
    ensures Counter(t, p + [i], u) ==
      (var m := Match(Node(u, q).kids, Node(t, p).kids[i]); if m.None? then None else Some(q + [m.value]))
  {
    hide Match, Counter;
    CounterKid(Node(t, p), i, Node(u, q));
    CounterSplit(t, p, [i], u);
    NodeSplit(t, p, [i]);
  }

  /** Where looking up the ancestors of `p` from depth `lo` down to depth `m` leads in the other tree. */
  function Place(t: Xml, p: Path, u: Xml, lo: nat, m: nat): (r: Option<Path>)
    requires At(t, p) && lo <= m <= |p|
    ensures r.Some? ==> At(u, r.value) && |r.value| == m - lo
    decreases m
  {
    if m == lo then Some([]) else
    var q := Place(t, p, u, lo, m - 1);
    if q.None? then None else
    PrefixAt(t, p[..m], p);
    var k := Lookup(Node(u, q.value).kids, Node(t, p[..m]));
    if k.None? then None else
    LookupInside(Node(u, q.value).kids, Node(t, p[..m]));
    PathBasics(t, q.value, u);
    Some(q.value + [k.value])
  }

  lemma LookupInside(kids: seq<Xml>, x: Xml)
    ensures Lookup(kids, x).Some? ==> Lookup(kids, x).value < |kids|
  {
  }

  /** What stands for the parent of `p` in the other tree; only 64 ancestors are looked up. */
  function Equiv(t: Xml, p: Path, u: Xml): Option<Path>
    requires p != [] && At(t, p)
  {
    Place(t, p, u, if |p| <= 65 then 0 else |p| - 65, |p| - 1)
  }

  method FindTargetEquiv(t: Xml, p: Path, u: Xml) returns (r: Option<Path>)
    requires p != [] && At(t, p)
    ensures r == Equiv(t, p, u)
  {
    hide Lookup, At, Node;
    var path := new Path[64](_ => []);
    var depth := Ancestors(p, path);
    if depth == 0 { return Some([]); }
    var xt: Path := [];
    ghost var lo := |p| - 1 - depth;
    assert At(u, []) by { PathBasics(t, p, t); RootAt(u); }
    for j := depth downto 0
      invariant forall k :: 0 <= k < depth ==> path[k] == p[..|p| - 1 - k]
      invariant At(u, xt) && Place(t, p, u, lo, |p| - 1 - j) == Some(xt)
      invariant Equiv(t, p, u).Some? ==> Place(t, p, u, lo, |p| - 1 - j).Some?
    {
      var n := |p| - 1 - j;
      assert path[j] == p[..n];
      PrefixAt(t, p[..n], p);
      var m := LookupChild(Node(u, xt).kids, Node(t, path[j]));
      if m.None? {
        PlaceLost(t, p, u, lo, n, |p| - 1);
        return None;
      }
      PathBasics(t, xt, u);
      xt := xt + [m.value];
    }
    return Some(xt);
  }

  lemma RootAt(t: Xml)
    ensures At(t, [])
  {
  }

  lemma {:induction false} PlaceLost(t: Xml, p: Path, u: Xml, lo: nat, n: nat, m: nat)
    requires At(t, p) && lo <= n <= m <= |p| && Place(t, p, u, lo, n).None?
    ensures Place(t, p, u, lo, m).None?
    decreases m
  {
    if n < m { PlaceLost(t, p, u, lo, n, m - 1); }
  }

  /** No step of the path is to a shadowed child. */
  predicate Unshadowed(u: Xml, q: Path)
    requires At(u, q)
  {
    q == [] || (!Shadowed(u.kids, q[0]) && Unshadowed(u.kids[q[0]], q[1..]))
  }

  lemma {:induction false} UnshadowedStep(u: Xml, q: Path, j: nat)
    requires At(u, q) && At(u, q + [j]) && j < |Node(u, q).kids|
    ensures Unshadowed(u, q + [j]) <==> Unshadowed(u, q) && !Shadowed(Node(u, q).kids, j)
  {
    if q != [] {
      assert (q + [j])[1..] == q[1..] + [j];
      UnshadowedStep(u.kids[q[0]], q[1..], j);
    } else {
      assert (q + [j])[1..] == [] && (q + [j])[0] == j;
    }
  }

  /** The nodes looked up are the same nodes as far as none of them is shadowed, and from there on never again. */
  lemma {:induction false} PlaceExact(t: Xml, p: Path, u: Xml, m: nat, q: Path)
    requires Keyed(t) && At(t, p) && m <= |p| && At(t, p[..m]) && Counter(t, p[..m], u) == Some(q)
    ensures Place(t, p, u, 0, m) == Some(q) <==> Unshadowed(u, q)
    decreases m
  {
    hide Keyed, Shadowed, Lookup, Match, Node, At;
    if m == 0 {
      CounterRoot(t, u);
      return;
    }
    var a, i := p[..m - 1], p[m - 1];
    assert p[..m] == a + [i];
    PrefixAt(t, a, p[..m]);
    CounterPrefix(t, a, p[..m], u);
    var b := Counter(t, a, u).value;
    PlaceExact(t, p, u, m - 1, b);
    KidAt(t, a, i);
    CounterStep(t, a, i, u, b);
    NodeKeyed(t, p[..m]);
    LookupFinds(Node(u, b), Node(t, p[..m]));
    MatchInside(Node(u, b).kids, Node(t, p[..m]));
    var j := Match(Node(u, b).kids, Node(t, p[..m])).value;
    assert q == b + [j];
    UnshadowedStep(u, b, j);
    var r := Place(t, p, u, 0, m - 1);
    if r.Some? {
      var k := Lookup(Node(u, r.value).kids, Node(t, p[..m]));
      if k.Some? { LastAndRest(r.value, k.value, b, j); }
    }
  }

  lemma LastAndRest(a: Path, i: nat, b: Path, j: nat)
    ensures a + [i] == b + [j] <==> a == b && i == j
  {
    var x, y := a + [i], b + [j];
    assert x[..|x| - 1] == a && x[|x| - 1] == i && y[..|y| - 1] == b && y[|y| - 1] == j;
  }

  lemma CounterRoot(t: Xml, u: Xml)
    ensures At(t, []) && At(u, []) && Counter(t, [], u) == Some([]) && Unshadowed(u, [])
  {
  }

  lemma KidAt(t: Xml, a: Path, i: nat)
    requires At(t, a) && At(t, a + [i])
    ensures i < |Node(t, a).kids|
  {
    NodeSplit(t, a, [i]);
  }

  lemma MatchInside(kids: seq<Xml>, x: Xml)
    ensures Match(kids, x).Some? ==> Match(kids, x).value < |kids|
  {
  }

  /** The buffer holds all ancestors, and none of their counterparts is shadowed. */
  ghost predicate Findable(t: Xml, u: Xml, d: Path)
    requires Missing(t, u, d)
  {
    |d| <= 65 && Unshadowed(u, Counter(t, Parent(d), u).value)
  }

  /** The place found for a missing node is the counterpart of its parent exactly then. */
  lemma EquivExact(t: Xml, u: Xml, d: Path)
    requires Keyed(t) && Missing(t, u, d)
    ensures Equiv(t, d, u) == Counter(t, Parent(d), u) <==> Findable(t, u, d)
  {
    if |d| <= 65 { PlaceExact(t, d, u, |d| - 1, Counter(t, Parent(d), u).value); }
  }

  // ----- merging sorted children

  /** `d` is below `p`, under one of its first `i` children. */
  predicate Under(p: Path, i: nat, d: Path) { p < d && d[|p|] < i }

  lemma UnderNext(p: Path, i: nat, d: Path)
    ensures Under(p, i + 1, d) <==> Under(p, i, d) || p + [i] <= d
  {
  }

  /** Nothing below a missing node is listed beside it. */
  lemma MissingAlone(t: Xml, u: Xml, a: Path, d: Path)
    requires Missing(t, u, a) && a <= d
    ensures Missing(t, u, d) <==> d == a
    ensures !Changed(t, u, d)
  {
    if Missing(t, u, d) && a < d {
      CounterPrefix(t, a, Parent(d), u);
    }
    if Changed(t, u, d) {
      CounterPrefix(t, a, d, u);
    }
  }

  lemma KidMissing(t: Xml, p: Path, i: nat, u: Xml, q: Path)
    requires At(t, p) && Counter(t, p, u) == Some(q) && i < |Node(t, p).kids|
    requires Match(Node(u, q).kids, Node(t, p).kids[i]).None?
    ensures Missing(t, u, p + [i])
  {
    CounterStep(t, p, i, u, q);
    assert Parent(p + [i]) == p;
  }

  /** A leaf has nothing below it, so that only its value can differ. */
  lemma LeafOnly(t: Xml, u: Xml, a: Path, d: Path)
    requires Keyed(t) && At(t, a) && Counter(t, a, u).Some? && Node(t, a).kind.Leaf? && a <= d
    ensures !Missing(t, u, d) && (Changed(t, u, d) ==> d == a)
  {
    if At(t, d) {
      NodeKeyed(t, a);
      PrefixAt(t, a, d);
      assert d[|a|..] == [] && d == a + [];
      assert d == a;
    }
  }

  lemma NoMatch(kids: seq<Xml>, x: Xml)
    requires forall l :: 0 <= l < |kids| ==> Precedes(x, kids[l]) || Precedes(kids[l], x)
    ensures Match(kids, x).None?
  {
    var m := Match(kids, x);
    if m.Some? { LessTotal(Ident(x), Ident(x)); }
  }

  /** How far a merge of two children's lists has come: what is behind precedes what is ahead. */
  ghost predicate Merged(x: Xml, i: nat, y: Xml, j: nat) {
    && i <= |x.kids| && j <= |y.kids|
    && (forall k, l :: 0 <= k < i && j <= l < |y.kids| ==> Precedes(x.kids[k], y.kids[l]))
    && (forall k, l :: i <= k < |x.kids| && 0 <= l < j ==> Precedes(y.kids[l], x.kids[k]))
  }

  lemma MergeSmaller(x: Xml, i: nat, y: Xml, j: nat)
    requires Keyed(y) && Merged(x, i, y, j) && i < |x.kids| && (j == |y.kids| || Precedes(x.kids[i], y.kids[j]))
    ensures Merged(x, i + 1, y, j) && Match(y.kids, x.kids[i]).None?
  {
    forall l | j <= l < |y.kids| ensures Precedes(x.kids[i], y.kids[l]) {
      if j < l {
        assert Siblings(y.kids[j], y.kids[l]);
        LessTrans(Ident(x.kids[i]), Ident(y.kids[j]), Ident(y.kids[l]));
      }
    }
    NoMatch(y.kids, x.kids[i]);
  }

  lemma MergeEqual(x: Xml, i: nat, y: Xml, j: nat)
    requires Keyed(x) && Keyed(y) && Merged(x, i, y, j) && i < |x.kids| && j < |y.kids|
    requires Ident(x.kids[i]) == Ident(y.kids[j])
    ensures Merged(x, i + 1, y, j + 1)
    ensures Match(y.kids, x.kids[i]) == if x.kids[i].kind == y.kids[j].kind then Some(j) else None
  {
    forall k | i < k < |x.kids| ensures Precedes(y.kids[j], x.kids[k]) { assert Siblings(x.kids[i], x.kids[k]); }
    forall l | j < l < |y.kids| ensures Precedes(x.kids[i], y.kids[l]) { assert Siblings(y.kids[j], y.kids[l]); }
    var m := Match(y.kids, x.kids[i]);
    if Same(x.kids[i], y.kids[j]) {
      MatchUnique(y, x.kids[i], j);
    } else if m.Some? {
      LessTotal(Ident(x.kids[i]), Ident(x.kids[i]));
      assert false;
    }
  }

  datatype Turn = Left | Right | Both

  /** Whose child comes next. */
  predicate Comes(x: Xml, i: nat, y: Xml, j: nat, turn: Turn) {
    match turn
    case Left => i < |x.kids| && (j == |y.kids| || (j < |y.kids| && Precedes(x.kids[i], y.kids[j])))
    case Right => j < |y.kids| && (i == |x.kids| || (i < |x.kids| && Precedes(y.kids[j], x.kids[i])))
    case Both => i < |x.kids| && j < |y.kids| && Ident(x.kids[i]) == Ident(y.kids[j])
  }

  lemma MergeTurn(x: Xml, i: nat, y: Xml, j: nat, turn: Turn)
    requires Keyed(x) && Keyed(y) && Merged(x, i, y, j) && Comes(x, i, y, j, turn)
    ensures Merged(x, if turn == Right then i else i + 1, y, if turn == Left then j else j + 1)
    ensures turn == Left ==> Match(y.kids, x.kids[i]).None?
    ensures turn == Right ==> Match(x.kids, y.kids[j]).None?
    ensures turn == Both ==> Match(y.kids, x.kids[i]) == if x.kids[i].kind == y.kids[j].kind then Some(j) else None
    ensures turn == Both ==> Match(x.kids, y.kids[j]) == if x.kids[i].kind == y.kids[j].kind then Some(i) else None
  {
    match turn {
      case Left => MergeSmaller(x, i, y, j);
      case Right => MergeSmaller(y, j, x, i);
      case Both => MergeEqual(x, i, y, j); MergeEqual(y, j, x, i);
    }
  }

  /** `v` adds to `was` the maximal missing nodes below `p`, up to its `i`th child. */
  ghost predicate Lists(t: Xml, u: Xml, was: seq<Path>, v: seq<Path>, p: Path, i: nat) {
    forall d :: d in v <==> d in was || (Under(p, i, d) && Missing(t, u, d))
  }

  ghost predicate ChangedPair(t: Xml, u: Xml, c: (Path, Path)) {
    Changed(t, u, c.0) && Counter(t, c.0, u) == Some(c.1)
  }

  ghost predicate ListsValues(t: Xml, u: Xml, was: seq<(Path, Path)>, v: seq<(Path, Path)>, p: Path, i: nat) {
    forall c :: c in v <==> c in was || (Under(p, i, c.0) && ChangedPair(t, u, c))
  }

  lemma ListMissing(t: Xml, u: Xml, was: seq<Path>, v: seq<Path>, p: Path, i: nat)
    requires Lists(t, u, was, v, p, i) && Missing(t, u, p + [i])
    ensures Lists(t, u, was, v + [p + [i]], p, i + 1)
  {
    forall d ensures d in v + [p + [i]] <==> d in was || (Under(p, i + 1, d) && Missing(t, u, d)) {
      UnderNext(p, i, d);
      if p + [i] <= d { MissingAlone(t, u, p + [i], d); }
    }
  }

  lemma SkipValues(t: Xml, u: Xml, was: seq<(Path, Path)>, v: seq<(Path, Path)>, p: Path, i: nat)
    requires ListsValues(t, u, was, v, p, i) && Missing(t, u, p + [i])
    ensures ListsValues(t, u, was, v, p, i + 1)
  {
    forall c ensures c in v <==> c in was || (Under(p, i + 1, c.0) && ChangedPair(t, u, c)) {
      UnderNext(p, i, c.0);
      if p + [i] <= c.0 { MissingAlone(t, u, p + [i], c.0); }
    }
  }

  lemma KidsOnly(t: Xml, a: Path, d: Path)
    requires At(t, a) && At(t, d) && a < d
    ensures Under(a, |Node(t, a).kids|, d)
  {
    PrefixAt(t, a, d);
  }

  /** Listing below a matched child goes on with the list of its parent. */
  lemma ListBelow(t: Xml, u: Xml, was: seq<Path>, v: seq<Path>, w: seq<Path>, p: Path, i: nat)
    requires At(t, p + [i]) && Counter(t, p + [i], u).Some?
    requires Lists(t, u, was, v, p, i) && Lists(t, u, v, w, p + [i], |Node(t, p + [i]).kids|)
    ensures Lists(t, u, was, w, p, i + 1)
  {
    forall d ensures d in w <==> d in was || (Under(p, i + 1, d) && Missing(t, u, d)) {
      UnderNext(p, i, d);
      if Missing(t, u, d) && p + [i] <= d {
        assert d != p + [i];
        KidsOnly(t, p + [i], d);
      }
    }
  }

  lemma ValuesBelow(t: Xml, u: Xml, was: seq<(Path, Path)>, v: seq<(Path, Path)>, w: seq<(Path, Path)>, p: Path, i: nat)
    requires At(t, p + [i]) && !Node(t, p + [i]).kind.Leaf?
    requires ListsValues(t, u, was, v, p, i) && ListsValues(t, u, v, w, p + [i], |Node(t, p + [i]).kids|)
    ensures ListsValues(t, u, was, w, p, i + 1)
  {
    forall c ensures c in w <==> c in was || (Under(p, i + 1, c.0) && ChangedPair(t, u, c)) {
      UnderNext(p, i, c.0);
      if ChangedPair(t, u, c) && p + [i] <= c.0 {
        assert c.0 != p + [i];
        KidsOnly(t, p + [i], c.0);
      }
    }
  }

  lemma ListLeaf(t: Xml, u: Xml, was: seq<Path>, v: seq<Path>, p: Path, i: nat)
    requires Keyed(t) && At(t, p + [i]) && Counter(t, p + [i], u).Some? && Node(t, p + [i]).kind.Leaf?
    requires Lists(t, u, was, v, p, i)
    ensures Lists(t, u, was, v, p, i + 1)
  {
    forall d ensures d in v <==> d in was || (Under(p, i + 1, d) && Missing(t, u, d)) {
      UnderNext(p, i, d);
      if p + [i] <= d { LeafOnly(t, u, p + [i], d); }
    }
  }

  lemma LeafValue(t: Xml, u: Xml, was: seq<(Path, Path)>, v: seq<(Path, Path)>, p: Path, i: nat, q: Path)
    requires Keyed(t) && At(t, p + [i]) && Counter(t, p + [i], u) == Some(q) && Node(t, p + [i]).kind.Leaf?
    requires ListsValues(t, u, was, v, p, i)
    ensures var changed := Node(t, p + [i]).body != Node(u, q).body;
      ListsValues(t, u, was, if changed then v + [(p + [i], q)] else v, p, i + 1)
  {
    var w := if Node(t, p + [i]).body != Node(u, q).body then v + [(p + [i], q)] else v;
    forall c ensures c in w <==> c in was || (Under(p, i + 1, c.0) && ChangedPair(t, u, c)) {
      UnderNext(p, i, c.0);
      if p + [i] <= c.0 { LeafOnly(t, u, p + [i], c.0); }
    }
  }

  lemma NothingYet(t: Xml, u: Xml, v: seq<Path>, w: seq<(Path, Path)>, p: Path)
    ensures Lists(t, u, v, v, p, 0) && ListsValues(t, u, w, w, p, 0)
  {
  }

  lemma MergeStart(x: Xml, y: Xml)
    ensures Merged(x, 0, y, 0)
  {
  }

  // ----- flags

  /** All nodes of a tree. */
  function Nodes(t: Xml): set<Path> {
    {[]} + set i, r | 0 <= i < |t.kids| && r in Nodes(t.kids[i]) :: [i] + r
  }

  lemma {:induction false} NodesAre(t: Xml, p: Path)
    ensures p in Nodes(t) <==> At(t, p)
  {
    if p != [] {
      assert p == [p[0]] + p[1..];
      if p in Nodes(t) {
        var i, r :| 0 <= i < |t.kids| && r in Nodes(t.kids[i]) && [i] + r == p;
        assert r == p[1..];
      }
      if p[0] < |t.kids| { NodesAre(t.kids[p[0]], p[1..]); }
    }
  }

  /** A node and its ancestors up to the root. */
  function Upward(p: Path): set<Path> { set k | 0 <= k <= |p| :: p[..k] }

  lemma UpwardAre(p: Path, q: Path)
    ensures q in Upward(p) <==> q <= p
  {
    if q <= p { assert q == p[..|q|]; }
  }

  function Downward(t: Xml, p: Path): set<Path> { set r | r in Nodes(t) && p <= r }

  /** Above the place found in `u` for a node of `t` that `u` lacks. */
  ghost predicate PlacedAbove(t: Xml, u: Xml, d: Path, q: Path) {
    Missing(t, u, d) && Equiv(t, d, u).Some? && q <= Equiv(t, d, u).value
  }

  ghost predicate AbovePlaces(t: Xml, u: Xml, v: seq<Path>, q: Path) { exists d :: d in v && PlacedAbove(t, u, d, q) }

  /** Above or below one of these nodes in `t` itself. */
  ghost predicate AroundNew(t: Xml, u: Xml, v: seq<Path>, p: Path) { exists d :: d in v && MarkedBy(u, t, p, New(d)) }

  lemma OneMore(t: Xml, u: Xml, v: seq<Path>, d: Path, q: Path)
    ensures AbovePlaces(t, u, v + [d], q) <==> AbovePlaces(t, u, v, q) || PlacedAbove(t, u, d, q)
    ensures AroundNew(t, u, v + [d], q) <==> AroundNew(t, u, v, q) || MarkedBy(u, t, q, New(d))
  {
    hide MarkedBy, PlacedAbove;
    if AbovePlaces(t, u, v, q) {
      var e :| e in v && PlacedAbove(t, u, e, q);
      assert e in v + [d];
    }
    if AroundNew(t, u, v, q) {
      var e :| e in v && MarkedBy(u, t, q, New(e));
      assert e in v + [d];
    }
    assert d in v + [d];
  }

  lemma AroundIs(t: Xml, u: Xml, d: Path, p: Path)
    requires Missing(t, u, d) && At(t, p)
    ensures p in Downward(t, d) || p in Upward(Parent(d)) <==> MarkedBy(u, t, p, New(d))
  {
    NodesAre(t, p);
    UpwardAre(Parent(d), p);
    if p <= d && p != d { assert p <= Parent(d); }
  }

  ghost predicate Flags(t: Xml, u: Xml, v: seq<Path>, down: set<Path>, up: set<Path>, anc: set<Path>) {
    && (forall q :: q in anc <==> AbovePlaces(t, u, v, q))
    && (forall p :: At(t, p) ==> (p in down || p in up <==> AroundNew(t, u, v, p)))
    && (forall p :: At(t, p) ==> (p in down <==> AtOrBelow(v, p)))
  }

  predicate AtOrBelow(v: seq<Path>, p: Path) { exists i :: 0 <= i < |v| && v[i] <= p }

  lemma BelowMore(t: Xml, v: seq<Path>, d: Path, p: Path)
    requires At(t, p)
    ensures AtOrBelow(v + [d], p) <==> AtOrBelow(v, p) || p in Downward(t, d)
  {
    NodesAre(t, p);
    assert (v + [d])[|v|] == d;
    if i :| 0 <= i < |v| && v[i] <= p { assert (v + [d])[i] == v[i]; }
  }

  function UpwardIf(e: Option<Path>): set<Path> { if e.Some? then Upward(e.value) else {} }

  lemma FlagStep(t: Xml, u: Xml, v: seq<Path>, down: set<Path>, up: set<Path>, anc: set<Path>, d: Path)
    requires Flags(t, u, v, down, up, anc) && Missing(t, u, d)
    ensures Flags(t, u, v + [d], down + Downward(t, d), up + Upward(Parent(d)), anc + UpwardIf(Equiv(t, d, u)))
  {
    hide Upward, Downward, MarkedBy, AbovePlaces, AroundNew, At, AtOrBelow;
    var e := Equiv(t, d, u);
    forall q ensures q in anc + UpwardIf(e) <==> AbovePlaces(t, u, v + [d], q) {
      OneMore(t, u, v, d, q);
      if e.Some? { UpwardAre(e.value, q); }
    }
    forall p | At(t, p)
      ensures p in down + Downward(t, d) || p in up + Upward(Parent(d)) <==> AroundNew(t, u, v + [d], p)
    {
      OneMore(t, u, v, d, p);
      AroundIs(t, u, d, p);
    }
    forall p | At(t, p) ensures p in down + Downward(t, d) <==> AtOrBelow(v + [d], p) { BelowMore(t, v, d, p); }
  }

  /** One loop for the nodes only in the source, one for those only in the target. */
  method FlagMissing(t: Xml, v: seq<Path>, u: Xml) returns (down: set<Path>, up: set<Path>, anc: set<Path>)
    requires forall d :: d in v ==> Missing(t, u, d)
    ensures Flags(t, u, v, down, up, anc)
  {
    hide Nodes, Upward, Downward, MarkedBy, AbovePlaces, AroundNew, Flags, Counter, At, Equiv;
    down, up, anc := {}, {}, {};
    NoFlagsYet(t, u);
    for i := 0 to |v|
      invariant Flags(t, u, v[..i], down, up, anc)
    {
      var d := v[i];
      FlagStep(t, u, v[..i], down, up, anc, d);
      down := down + Downward(t, d);
      up := up + Upward(Parent(d));
      var equiv := FindTargetEquiv(t, d, u);
      if equiv.Some? { anc := anc + Upward(equiv.value); } else { assert anc + {} == anc; }
      assert v[..i + 1] == v[..i] + [d];
    }
    assert v[..|v|] == v;
  }

  lemma FlagsDown(t: Xml, u: Xml, v: seq<Path>, down: set<Path>, up: set<Path>, anc: set<Path>)
    requires Flags(t, u, v, down, up, anc)
    ensures forall p :: At(t, p) ==> (p in down <==> AtOrBelow(v, p))
  {
  }

  lemma NoFlagsYet(t: Xml, u: Xml)
    ensures Flags(t, u, [], {}, {}, {})
  {
  }

  ghost predicate AboveChanged(t: Xml, u: Xml, p: Path) { exists c :: Changed(t, u, c) && p <= c }

  lemma ChangedPairBack(t: Xml, u: Xml, c: (Path, Path))
    requires Keyed(t) && Keyed(u) && Same(t, u) && ChangedPair(t, u, c)
    ensures ChangedPair(u, t, (c.1, c.0))
  {
    CounterBack(t, c.0, u);
  }

  lemma PairOf(t: Xml, u: Xml, p: Path) returns (c: (Path, Path))
    requires Changed(t, u, p)
    ensures c.0 == p && ChangedPair(t, u, c)
  {
    c := (p, Counter(t, p, u).value);
  }

  function Swapped(v: seq<(Path, Path)>): seq<(Path, Path)> { seq(|v|, i requires 0 <= i < |v| => (v[i].1, v[i].0)) }

  /** `s` is everything above or at the second places of the pairs. */
  ghost predicate Above(s: set<Path>, v: seq<(Path, Path)>) {
    forall p :: p in s <==> exists k :: 0 <= k < |v| && p <= v[k].1
  }

  lemma AboveMore(s: set<Path>, v: seq<(Path, Path)>, c: (Path, Path))
    requires Above(s, v)
    ensures Above(s + Upward(c.1), v + [c])
  {
    forall p ensures p in s + Upward(c.1) <==> exists k :: 0 <= k < |v + [c]| && p <= (v + [c])[k].1 {
      UpwardAre(c.1, p);
      assert (v + [c])[|v|] == c;
      if k :| 0 <= k < |v| && p <= v[k].1 { assert (v + [c])[k] == v[k]; }
    }
  }

  method FlagChanged(cvec: seq<(Path, Path)>) returns (s: set<Path>, t: set<Path>)
    ensures Above(s, Swapped(cvec)) && Above(t, cvec)
  {
    hide Above, Upward;
    s, t := {}, {};
    assert Above({}, []) by { NothingAbove(); }
    assert cvec[..0] == [] && Swapped([]) == [];
    for i := 0 to |cvec|
      invariant Above(s, Swapped(cvec[..i])) && Above(t, cvec[..i])
    {
      var d := cvec[i];
      assert cvec[..i + 1] == cvec[..i] + [d] && Swapped(cvec[..i + 1]) == Swapped(cvec[..i]) + [(d.1, d.0)];
      AboveMore(s, Swapped(cvec[..i]), (d.1, d.0));
      AboveMore(t, cvec[..i], d);
      s, t := s + Upward(d.0), t + Upward(d.1);
    }
    assert cvec[..|cvec|] == cvec;
  }

  lemma NothingAbove()
    ensures Above({}, [])
  {
  }

  lemma SwappedPairs(t: Xml, u: Xml, v: seq<(Path, Path)>)
    requires Keyed(t) && Keyed(u) && Same(t, u) && forall c :: c in v <==> ChangedPair(t, u, c)
    ensures forall c :: c in Swapped(v) <==> ChangedPair(u, t, c)
  {
    hide Keyed, Ident, ChangedPair;
    var w := Swapped(v);
    forall c | c in w ensures ChangedPair(u, t, c) {
      var k :| 0 <= k < |w| && w[k] == c;
      assert v[k] in v;
      ChangedPairBack(t, u, v[k]);
    }
    forall c | ChangedPair(u, t, c) ensures c in w {
      ChangedPairBack(u, t, c);
      assert (c.1, c.0) in v;
      var k :| 0 <= k < |v| && v[k] == (c.1, c.0);
      assert w[k] == c;
    }
  }

  /** What the loop over the changed values flags in `u`. */
  lemma ValuesFlagged(t: Xml, u: Xml, v: seq<(Path, Path)>, s: set<Path>, q: Path)
    requires Keyed(t) && Keyed(u) && Same(t, u) && (forall c :: c in v <==> ChangedPair(t, u, c)) && Above(s, v)
    ensures q in s <==> AboveChanged(u, t, q)
  {
    hide Keyed, Ident, Counter, Changed;
    if q in s {
      var k :| 0 <= k < |v| && q <= v[k].1;
      assert v[k] in v;
      ChangedPairBack(t, u, v[k]);
    }
    if AboveChanged(u, t, q) {
      var d :| Changed(u, t, d) && q <= d;
      var c := PairOf(u, t, d);
      ChangedPairBack(u, t, c);
      assert (c.1, c.0) in v;
    }
  }

  /** Flagged in `u`, whose other version is `t`. */
  ghost predicate Flagged(t: Xml, u: Xml, q: Path) {
    || (exists a :: MarkedBy(t, u, q, New(a)))
    || AboveChanged(u, t, q)
    || (exists d :: PlacedAbove(t, u, d, q))
  }

  /** Three sets hold exactly the flagged nodes. */
  ghost predicate FlagSets(t: Xml, u: Xml, added: set<Path>, changed: set<Path>, above: set<Path>) {
    forall q :: At(u, q) ==> (q in added || q in changed || q in above <==> Flagged(t, u, q))
  }

  /** What all loops together flag in the tree `u`. */
  lemma FlagsDecide(t: Xml, u: Xml, dv: seq<Path>, av: seq<Path>, add: set<Path>, up: set<Path>, addAnc: set<Path>,
                    del: set<Path>, tup: set<Path>, delAnc: set<Path>, vup: set<Path>, q: Path)
    requires At(u, q)
    requires forall d :: d in dv <==> Missing(t, u, d)
    requires forall a :: a in av <==> Missing(u, t, a)
    requires Flags(u, t, av, add, up, addAnc) && Flags(t, u, dv, del, tup, delAnc)
    requires q in vup <==> AboveChanged(u, t, q)
    ensures q in add || q in up + vup || q in delAnc <==> Flagged(t, u, q)
  {
    hide AboveChanged, At, Equiv, Counter;
    if d :| PlacedAbove(t, u, d, q) { assert d in dv; }
    if a :| MarkedBy(t, u, q, New(a)) { assert a in av; }
  }

  // ----- when the flags are right

  /** The flags are the marks when every node that is gone can be found the place it was at. */
  lemma FoundFlagsAreMarks(t: Xml, u: Xml, q: Path)
    requires Keyed(t) && forall d :: Missing(t, u, d) ==> Findable(t, u, d)
    ensures Flagged(t, u, q) <==> Marked(t, u, q)
  {
    hide Keyed, Equiv, Counter, At, Findable;
    if d :| PlacedAbove(t, u, d, q) {
      EquivExact(t, u, d);
      assert MarkedBy(t, u, q, Gone(d));
    }
    if c :| Changed(u, t, c) && q <= c { assert MarkedBy(t, u, q, Value(c)); }
    if Marked(t, u, q) {
      var w :| MarkedBy(t, u, q, w);
      if w.Gone? { EquivExact(t, u, w.path); assert PlacedAbove(t, u, w.path, q); }
    }
  }

  /** Then a node is flagged exactly when it is not the same, with the same subtree, in the other tree. */
  lemma FlagsExact(t: Xml, u: Xml, q: Path)
    requires Keyed(t) && Keyed(u) && Same(t, u) && At(u, q)
    requires forall d :: Missing(t, u, d) ==> Findable(t, u, d)
    ensures Flagged(t, u, q) <==> !Unchanged(u, t, q)
  {
    FoundFlagsAreMarks(t, u, q);
    MarkedIffChanged(t, u, q);
  }

  /** The only difference is one node that is gone. */
  ghost predicate OnlyGone(t: Xml, u: Xml, d: Path) {
    && (forall e :: Missing(t, u, e) <==> e == d)
    && (forall a :: !Missing(u, t, a))
    && (forall c :: !Changed(u, t, c))
  }

  /** The node that lost it has changed, and is flagged exactly when its place can be found. */
  lemma LonePlace(t: Xml, u: Xml, d: Path)
    requires Keyed(t) && Keyed(u) && Same(t, u) && OnlyGone(t, u, d)
    ensures Missing(t, u, d)
    ensures var e := Counter(t, Parent(d), u).value; !Unchanged(u, t, e) && (Flagged(t, u, e) <==> Findable(t, u, d))
  {
    hide Keyed, Equiv, At, Findable, Unchanged, Same;
    assert Missing(t, u, d);
    var e, r := Counter(t, Parent(d), u).value, Equiv(t, d, u);
    assert MarkedBy(t, u, e, Gone(d));
    MarkedIffChanged(t, u, e);
    EquivExact(t, u, d);
    EquivLength(t, u, d);
    if r.Some? && e <= r.value { assert r.value == e; }
    if r == Some(e) { assert PlacedAbove(t, u, d, e); }
  }

  /** So the flags are right after a single deletion exactly when its place can be found. */
  lemma LoneDeletion(t: Xml, u: Xml, d: Path)
    requires Keyed(t) && Keyed(u) && Same(t, u) && OnlyGone(t, u, d)
    ensures Missing(t, u, d)
    ensures (forall q :: At(u, q) ==> (Flagged(t, u, q) <==> !Unchanged(u, t, q))) <==> Findable(t, u, d)
  {
    hide Keyed, Same, Flagged, At, Unchanged, Findable;
    LonePlace(t, u, d);
    assert forall e :: Missing(t, u, e) ==> e == d;
    if Findable(t, u, d) {
      forall q | At(u, q) ensures Flagged(t, u, q) <==> !Unchanged(u, t, q) { FlagsExact(t, u, q); }
    }
  }

  /** The node that lost `d` carries a flag: the place of `d` is found, or something else is flagged at or below it, as
  new, as changed, or as the place found for another node that is gone. */
  ghost predicate Covered(t: Xml, u: Xml, d: Path)
    requires Missing(t, u, d)
  {
    var e := Counter(t, Parent(d), u).value;
    || Findable(t, u, d)
    || (exists a :: MarkedBy(t, u, e, New(a)))
    || AboveChanged(u, t, e)
    || (exists g :: g != d && PlacedAbove(t, u, g, e))
  }

  lemma CoveredIs(t: Xml, u: Xml, d: Path)
    requires Keyed(t) && Missing(t, u, d)
    ensures Covered(t, u, d) <==> Flagged(t, u, Counter(t, Parent(d), u).value)
  {
    hide Keyed, Equiv, At, Findable, MarkedBy, AboveChanged;
    var e, r := Counter(t, Parent(d), u).value, Equiv(t, d, u);
    EquivExact(t, u, d);
    EquivLength(t, u, d);
    if r.Some? && e <= r.value { assert r.value == e; }
    if r == Some(e) { assert PlacedAbove(t, u, d, e); }
  }

  lemma FlaggedAbove(t: Xml, u: Xml, q: Path, e: Path)
    requires q <= e && Flagged(t, u, e)
    ensures Flagged(t, u, q)
  {
    if a :| MarkedBy(t, u, e, New(a)) {
      assert MarkedBy(t, u, q, New(a));
    } else if AboveChanged(u, t, e) {
      var c :| Changed(u, t, c) && e <= c;
      assert q <= c;
    } else {
      var d :| PlacedAbove(t, u, d, e);
      assert PlacedAbove(t, u, d, q);
    }
  }

  /** Whatever the difference, no changed node is overlooked exactly when every node that is gone is covered. */
  lemma NoneOverlooked(t: Xml, u: Xml)
    requires Keyed(t) && Keyed(u) && Same(t, u)
    ensures (forall q :: At(u, q) && !Unchanged(u, t, q) ==> Flagged(t, u, q))
       <==> (forall d :: Missing(t, u, d) ==> Covered(t, u, d))
  {
    hide Keyed, Same, At, Unchanged, Flagged, Covered, Counter;
    if forall q :: At(u, q) && !Unchanged(u, t, q) ==> Flagged(t, u, q) {
      forall d | Missing(t, u, d) ensures Covered(t, u, d) {
        var e := Counter(t, Parent(d), u).value;
        assert MarkedBy(t, u, e, Gone(d));
        MarkedIffChanged(t, u, e);
        CoveredIs(t, u, d);
      }
    } else {
      var q :| At(u, q) && !Unchanged(u, t, q) && !Flagged(t, u, q);
      var d := Overlooked(t, u, q);
    }
  }

  /** An overlooked node is one from which, or from below which, an uncovered node is gone. */
  lemma Overlooked(t: Xml, u: Xml, q: Path) returns (d: Path)
    requires Keyed(t) && Keyed(u) && Same(t, u) && At(u, q) && !Unchanged(u, t, q) && !Flagged(t, u, q)
    ensures Missing(t, u, d) && !Covered(t, u, d)
  {
    hide Keyed, Same, Unchanged, Covered, PlacedAbove;
    MarkedIffChanged(t, u, q);
    var w :| MarkedBy(t, u, q, w);
    d := w.path;
    CoveredIs(t, u, d);
    if Covered(t, u, d) { FlaggedAbove(t, u, q, Counter(t, Parent(d), u).value); }
  }

  lemma EquivLength(t: Xml, u: Xml, d: Path)
    requires Missing(t, u, d)
    ensures var r := Equiv(t, d, u); r.Some? ==> |r.value| <= |Counter(t, Parent(d), u).value|
  {
  }

  ghost predicate Differences(t: Xml, u: Xml, dv: seq<Path>, av: seq<Path>, cv: seq<(Path, Path)>) {
    && (forall d :: d in dv <==> Missing(t, u, d))
    && (forall a :: a in av <==> Missing(u, t, a))
    && (forall c :: c in cv <==> ChangedPair(t, u, c))
  }

  lemma DifferencesBack(t: Xml, u: Xml, dv: seq<Path>, av: seq<Path>, cv: seq<(Path, Path)>)
    requires Keyed(t) && Keyed(u) && Same(t, u) && Differences(t, u, dv, av, cv)
    ensures Differences(u, t, av, dv, Swapped(cv))
  {
    hide Missing, ChangedPair, Keyed, Same;
    SwappedPairs(t, u, cv);
  }

  lemma AllDecide(t: Xml, u: Xml, dv: seq<Path>, av: seq<Path>, cv: seq<(Path, Path)>, add: set<Path>, up: set<Path>,
                  addAnc: set<Path>, del: set<Path>, tup: set<Path>, delAnc: set<Path>, vup: set<Path>)
    requires Keyed(t) && Keyed(u) && Same(t, u) && Differences(t, u, dv, av, cv)
    requires Flags(u, t, av, add, up, addAnc) && Flags(t, u, dv, del, tup, delAnc) && Above(vup, cv)
    ensures FlagSets(t, u, add, up + vup, delAnc)
  {
    hide Keyed, Same, Flags, Above, Missing, ChangedPair, Flagged, At, AboveChanged;
    forall q | At(u, q) ensures q in add || q in up + vup || q in delAnc <==> Flagged(t, u, q) {
      ValuesFlagged(t, u, cv, vup, q);
      FlagsDecide(t, u, dv, av, add, up, addAnc, del, tup, delAnc, vup, q);
    }
  }

  /** Two versions of a configuration. */
  ghost predicate Comparable(t: Xml, u: Xml) { Keyed(t) && Keyed(u) && Same(t, u) && t.kind.Container? }

  class Changes {
    const src: Xml
    const target: Xml
    var dvec: seq<Path>           // removed: only in the source
    var avec: seq<Path>           // added: only in the target
    var cvec: seq<(Path, Path)>   // changed: place in the source, place in the target
    // The nodes carrying each flag: in the source deleted, changed and above an added one;
    // in the target added, changed and above a deleted one.
    var del: set<Path>
    var srcChange: set<Path>
    var addAnc: set<Path>
    var add: set<Path>
    var change: set<Path>
    var delAnc: set<Path>

    constructor (src: Xml, target: Xml)
      ensures this.src == src && this.target == target && dvec == [] && avec == [] && cvec == []
    {
      this.src, this.target := src, target;
      dvec, avec, cvec := [], [], [];
      del, srcChange, addAnc, add, change, delAnc := {}, {}, {}, {}, {}, {};
    }

    ghost predicate Listed(d: seq<Path>, a: seq<Path>, c: seq<(Path, Path)>, p: Path, i: nat, q: Path, j: nat)
      reads this
    {
      Lists(src, target, d, dvec, p, i) && Lists(target, src, a, avec, q, j) && ListsValues(src, target, c, cvec, p, i)
    }

    /** Two nodes, one of each tree, that are the same node. */
    ghost predicate Paired(p: Path, q: Path) {
      && Keyed(src) && Keyed(target) && At(src, p) && At(target, q)
      && Counter(src, p, target) == Some(q) && Counter(target, q, src) == Some(p)
    }

    /** Traverses the children of the two in lock-step. */
    method Merge(p: Path, q: Path)
      requires Paired(p, q)
      modifies this`dvec, this`avec, this`cvec
      ensures Listed(old(dvec), old(avec), old(cvec), p, |Node(src, p).kids|, q, |Node(target, q).kids|)
      decreases Node(src, p), 2
    {
      hide Node, Lists, ListsValues, Merged, Keyed, At;
      var x, y := Node(src, p), Node(target, q);
      ghost var d, a, c := dvec, avec, cvec;
      var i, j := 0, 0;
      NothingYet(src, target, d, c, p);
      NothingYet(target, src, a, c, q);
      assert Merged(x, 0, y, 0) by { MergeStart(x, y); }
      while i < |x.kids| || j < |y.kids|
        invariant i <= |x.kids| && j <= |y.kids| && Merged(x, i, y, j) && Listed(d, a, c, p, i, q, j)
        decreases |x.kids| - i + |y.kids| - j
      {
        i, j := MergeStep(p, q, i, j, d, a, c);
      }
    }

    method MergeStep(p: Path, q: Path, i: nat, j: nat,
                     ghost d: seq<Path>, ghost a: seq<Path>, ghost c: seq<(Path, Path)>)
      returns (i': nat, j': nat)
      requires Paired(p, q) && Merged(Node(src, p), i, Node(target, q), j)
      requires i <= |Node(src, p).kids| && j <= |Node(target, q).kids|
      requires i < |Node(src, p).kids| || j < |Node(target, q).kids|
      requires Listed(d, a, c, p, i, q, j)
      modifies this`dvec, this`avec, this`cvec
      ensures Merged(Node(src, p), i', Node(target, q), j') && Listed(d, a, c, p, i', q, j')
      ensures i <= i' <= |Node(src, p).kids| && j <= j' <= |Node(target, q).kids| && i + j < i' + j'
      decreases Node(src, p), 1
    {
      hide Keyed, Match, Listed, Less, Ident, Merged, Node, At, Same;
      var x, y := Node(src, p), Node(target, q);
      NodeKeyed(src, p);
      NodeKeyed(target, q);
      if j == |y.kids| || (i < |x.kids| && Precedes(x.kids[i], y.kids[j])) {
        MergeTurn(x, i, y, j, Left);
        DropChild(p, q, i, j, d, a, c);
        return i + 1, j;
      }
      if i == |x.kids| || Precedes(y.kids[j], x.kids[i]) {
        MergeTurn(x, i, y, j, Right);
        AddChild(p, q, i, j, d, a, c);
        return i, j + 1;
      }
      LessTotal(Ident(x.kids[i]), Ident(y.kids[j]));
      MergeTurn(x, i, y, j, Both);
      BothChildren(p, q, i, j, d, a, c);
      return i + 1, j + 1;
    }

    /** Two children of equal identity: not the same node, or leafs to compare, or to be merged in turn. */
    method BothChildren(p: Path, q: Path, i: nat, j: nat,
                        ghost d: seq<Path>, ghost a: seq<Path>, ghost c: seq<(Path, Path)>)
      requires Paired(p, q) && i < |Node(src, p).kids| && j < |Node(target, q).kids|
      requires var x, y := Node(src, p).kids[i], Node(target, q).kids[j];
        && Match(Node(target, q).kids, x) == (if x.kind == y.kind then Some(j) else None)
        && Match(Node(src, p).kids, y) == (if x.kind == y.kind then Some(i) else None)
      requires Listed(d, a, c, p, i, q, j)
      modifies this`dvec, this`avec, this`cvec
      ensures Listed(d, a, c, p, i + 1, q, j + 1)
      decreases Node(src, p), 0
    {
      hide Keyed, Same, Match, Counter, Missing, Changed;
      var x, y := Node(src, p).kids[i], Node(target, q).kids[j];
      if x.kind != y.kind {
        DropChild(p, q, i, j, d, a, c);
        AddChild(p, q, i + 1, j, d, a, c);
        return;
      }
      CounterStep(src, p, i, target, q);
      CounterStep(target, q, j, src, p);
      ghost var d1, a1, c1 := dvec, avec, cvec;
      if x.kind.Leaf? {
        ListLeaf(src, target, d, dvec, p, i);
        ListLeaf(target, src, a, avec, q, j);
        LeafValue(src, target, c, cvec, p, i, q + [j]);
        if x.body != y.body { cvec := cvec + [(p + [i], q + [j])]; }
      } else {
        Merge(p + [i], q + [j]);
        ListBelow(src, target, d, d1, dvec, p, i);
        ListBelow(target, src, a, a1, avec, q, j);
        ValuesBelow(src, target, c, c1, cvec, p, i);
      }
    }

    method DropChild(p: Path, q: Path, i: nat, j: nat,
                     ghost d: seq<Path>, ghost a: seq<Path>, ghost c: seq<(Path, Path)>)
      requires At(src, p) && Counter(src, p, target) == Some(q) && i < |Node(src, p).kids|
      requires Match(Node(target, q).kids, Node(src, p).kids[i]).None?
      requires Listed(d, a, c, p, i, q, j)
      modifies this`dvec
      ensures Listed(d, a, c, p, i + 1, q, j)
    {
      KidMissing(src, p, i, target, q);
      ListMissing(src, target, d, dvec, p, i);
      SkipValues(src, target, c, cvec, p, i);
      dvec := dvec + [p + [i]];
    }

    method AddChild(p: Path, q: Path, i: nat, j: nat,
                    ghost d: seq<Path>, ghost a: seq<Path>, ghost c: seq<(Path, Path)>)
      requires At(target, q) && Counter(target, q, src) == Some(p) && j < |Node(target, q).kids|
      requires Match(Node(src, p).kids, Node(target, q).kids[j]).None?
      requires Listed(d, a, c, p, i, q, j)
      modifies this`avec
      ensures Listed(d, a, c, p, i, q, j + 1)
    {
      KidMissing(target, q, j, src, p);
      ListMissing(target, src, a, avec, q, j);
      avec := avec + [q + [j]];
    }

    method Diff()
      requires Comparable(src, target) && dvec == [] && avec == [] && cvec == []
      modifies this`dvec, this`avec, this`cvec
      ensures Differences(src, target, dvec, avec, cvec)
    {
      Merge([], []);
      forall d ensures d in dvec <==> Missing(src, target, d) {
        if Missing(src, target, d) { KidsOnly(src, [], d); }
      }
      forall a ensures a in avec <==> Missing(target, src, a) {
        if Missing(target, src, a) { KidsOnly(target, [], a); }
      }
      forall c ensures c in cvec <==> ChangedPair(src, target, c) {
        if ChangedPair(src, target, c) && c.0 != [] { KidsOnly(src, [], c.0); }
      }
    }

    /** The differences, and the flags set for them in both trees. */
    method ComputeDiffs()
      requires Comparable(src, target) && dvec == [] && avec == [] && cvec == []
      modifies this
      ensures Differences(src, target, dvec, avec, cvec)
      ensures FlagSets(src, target, add, change, delAnc) && FlagSets(target, src, del, srcChange, addAnc)
      ensures forall q :: At(target, q) ==> (q in add <==> AtOrBelow(avec, q))
    {
      hide Missing, ChangedPair, FlagSets, Flags, Above, Keyed, At, Ident;
      Diff();
      del, srcChange, delAnc := FlagMissing(src, dvec, target);
      add, change, addAnc := FlagMissing(target, avec, src);
      FlagsDown(target, src, avec, add, change, addAnc);
      var sup, tup := FlagChanged(cvec);
      AllDecide(src, target, dvec, avec, cvec, add, change, addAnc, del, srcChange, delAnc, tup);
      DifferencesBack(src, target, dvec, avec, cvec);
      AllDecide(target, src, avec, dvec, Swapped(cvec), del, srcChange, delAnc, add, change, addAnc, sup);
      srcChange, change := srcChange + sup, change + tup;
    }
  }
}
