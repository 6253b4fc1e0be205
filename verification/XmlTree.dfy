/** Configuration trees as validation and comparison see them: element nodes of containers, keyed lists, leafs and
leaf-lists. A node is addressed by its path from the root. Names are numbered in schema order. */
module XmlTree {
  import opened Optional

  type Path = seq<nat>

  datatype Kind = Container | List(keys: seq<nat>) | Leaf | LeafList

  datatype Xml = Xml(name: nat, kind: Kind, body: Option<int>, kids: seq<Xml>)

  // ----- children

  /** The first child from `i` on with property `f`. */
  function First(kids: seq<Xml>, f: Xml -> bool, i: nat): (r: Option<nat>)
    requires i <= |kids|
    ensures r.Some? ==> i <= r.value < |kids| && f(kids[r.value]) && forall k :: i <= k < r.value ==> !f(kids[k])
    ensures r.None? ==> forall k :: i <= k < |kids| ==> !f(kids[k])
    decreases |kids| - i
  {
    if i == |kids| then None else if f(kids[i]) then Some(i) else First(kids, f, i + 1)
  }

  function Named(kids: seq<Xml>, n: nat): Option<nat> { First(kids, (x: Xml) => x.name == n, 0) }

  /** The body of the first child with that name. */
  function KeyValue(x: Xml, key: nat): Option<int> {
    match Named(x.kids, key)
    case None => None
    case Some(i) => x.kids[i].body
  }

  // ----- identity and order

  /** What tells a node from its siblings: its name, with all key values of a list entry or the value of a
  leaf-list entry. */
  function Ident(x: Xml): seq<Option<int>> {
    [Some(x.name)] +
    match x.kind
    case List(keys) => seq(|keys|, i requires 0 <= i < |keys| => KeyValue(x, keys[i]))
    case LeafList => [x.body]
    case _ => []
  }

  predicate Before(a: Option<int>, b: Option<int>) { b.Some? && (a.None? || a.value < b.value) }

  predicate Less(a: seq<Option<int>>, b: seq<Option<int>>)
    decreases |a|
  {
    b != [] && (a == [] || Before(a[0], b[0]) || (a[0] == b[0] && Less(a[1..], b[1..])))
  }

  lemma {:induction false} LessTotal(a: seq<Option<int>>, b: seq<Option<int>>)
    ensures !Less(a, a)
    ensures a == b || Less(a, b) || Less(b, a)
    decreases |a|
  {
    if a != [] && b != [] {
      LessTotal(a[1..], b[1..]);
      assert a == [a[0]] + a[1..] && b == [b[0]] + b[1..];
    } else if a != [] {
      LessTotal(a[1..], a[1..]);
    }
  }

  lemma {:induction false} LessTrans(a: seq<Option<int>>, b: seq<Option<int>>, c: seq<Option<int>>)
    requires Less(a, b) && Less(b, c)
    ensures Less(a, c)
    decreases |a|
  {
    if a != [] && a[0] == b[0] == c[0] {
      LessTrans(a[1..], b[1..], c[1..]);
    }
  }

  predicate Precedes(x: Xml, y: Xml) { Less(Ident(x), Ident(y)) }

  predicate Same(x: Xml, y: Xml) { x.kind == y.kind && Ident(x) == Ident(y) }

  /** Siblings are sorted, and those of one name are of one kind. */
  predicate Siblings(x: Xml, y: Xml) { Precedes(x, y) && (x.name == y.name ==> x.kind == y.kind) }

  predicate Keyed(x: Xml) {
    && (x.kind.Leaf? || x.kind.LeafList? ==> x.kids == [])
    && (x.kind.Container? || x.kind.List? ==> x.body.None?)
    && (x.kind.List? ==> x.kind.keys != [] && KeyValue(x, x.kind.keys[0]).Some?)
    && (forall i, j :: 0 <= i < j < |x.kids| ==> Siblings(x.kids[i], x.kids[j]))
    && (forall i :: 0 <= i < |x.kids| ==> Keyed(x.kids[i]))
  }

  lemma KidsApart(t: Xml, i: nat, j: nat)
    requires Keyed(t) && i < |t.kids| && j < |t.kids|
    ensures i < j ==> Precedes(t.kids[i], t.kids[j])
    ensures Ident(t.kids[i]) == Ident(t.kids[j]) ==> i == j
  {
    LessTotal(Ident(t.kids[i]), Ident(t.kids[i]));
    if i < j { assert Siblings(t.kids[i], t.kids[j]); }
    if j < i { assert Siblings(t.kids[j], t.kids[i]); }
  }

  /** The child that is the same node. */
  function Match(kids: seq<Xml>, x: Xml): Option<nat> { First(kids, (y: Xml) => Same(x, y), 0) }

  lemma MatchUnique(t: Xml, x: Xml, j: nat)
    requires Keyed(t) && j < |t.kids| && Same(x, t.kids[j])
    ensures Match(t.kids, x) == Some(j)
  {
    KidsApart(t, Match(t.kids, x).value, j);
  }

  // ----- paths

  predicate At(t: Xml, p: Path) {
    p == [] || (p[0] < |t.kids| && At(t.kids[p[0]], p[1..]))
  }

  function Node(t: Xml, p: Path): Xml
    requires At(t, p)
  {
    if p == [] then t else Node(t.kids[p[0]], p[1..])
  }

  lemma {:induction false} NodeKeyed(t: Xml, p: Path)
    requires Keyed(t) && At(t, p)
    ensures Keyed(Node(t, p))
  {
    if p != [] { NodeKeyed(t.kids[p[0]], p[1..]); }
  }

  lemma {:induction false} NodeSplit(t: Xml, p: Path, r: Path)
    requires At(t, p)
    ensures At(t, p + r) <==> At(Node(t, p), r)
    ensures At(t, p + r) ==> Node(t, p + r) == Node(Node(t, p), r)
  {
    if p == [] {
      assert p + r == r;
    } else {
      NodeSplit(t.kids[p[0]], p[1..], r);
      assert (p + r)[1..] == p[1..] + r;
    }
  }

  lemma PrefixAt(t: Xml, p: Path, q: Path)
    requires At(t, q) && p <= q
    ensures At(t, p) && At(Node(t, p), q[|p|..])
    decreases |p|
  {
    if p == [] {
      assert q[|p|..] == q;
    } else {
      PrefixAt(t.kids[q[0]], p[1..], q[1..]);
      assert q[|p|..] == q[1..][|p[1..]|..];
    }
  }

  // ----- counterparts

  function Onto(q: Path, c: Option<Path>): Option<Path> { if c.None? then None else Some(q + c.value) }

  lemma OntoOnto(q: Path, r: Path, c: Option<Path>)
    ensures Onto(q, Onto(r, c)) == Onto(q + r, c)
  {
    if c.Some? { assert q + (r + c.value) == q + r + c.value; }
  }

  /** The node of the other tree reached by following the same nodes from the root. */
  function Counter(t: Xml, p: Path, u: Xml): (r: Option<Path>)
    requires At(t, p)
    ensures r.Some? ==> At(u, r.value) && |r.value| == |p|
    ensures r.Some? && Same(t, u) ==> Same(Node(t, p), Node(u, r.value))
  {
    if p == [] then Some([]) else
    match Match(u.kids, t.kids[p[0]])
    case None => None
    case Some(j) =>
      var q := Counter(t.kids[p[0]], p[1..], u.kids[j]);
      assert q.Some? ==> ([j] + q.value)[1..] == q.value;
      Onto([j], q)
  }

  lemma {:induction false} CounterSplit(t: Xml, p: Path, r: Path, u: Xml)
    requires At(t, p) && At(Node(t, p), r)
    ensures At(t, p + r)
    ensures Counter(t, p, u).None? ==> Counter(t, p + r, u).None?
    ensures Counter(t, p, u).Some? ==>
      var q := Counter(t, p, u).value; Counter(t, p + r, u) == Onto(q, Counter(Node(t, p), r, Node(u, q)))
  {
    hide Same, First, Ident;
    NodeSplit(t, p, r);
    if p == [] {
      assert p + r == r;
      var c := Counter(t, r, u);
      assert c.Some? ==> [] + c.value == c.value;
      return;
    }
    assert (p + r)[0] == p[0] && (p + r)[1..] == p[1..] + r;
    var m := Match(u.kids, t.kids[p[0]]);
    if m.Some? {
      var x, y := t.kids[p[0]], u.kids[m.value];
      CounterSplit(x, p[1..], r, y);
      assert Counter(t, p + r, u) == Onto([m.value], Counter(x, p[1..] + r, y));
      var q := Counter(x, p[1..], y);
      assert Counter(t, p, u) == Onto([m.value], q);
      if q.Some? {
        assert ([m.value] + q.value)[1..] == q.value;
        OntoOnto([m.value], q.value, Counter(Node(t, p), r, Node(y, q.value)));
      }
    }
  }

  /** Counterparts are mutual. */
  lemma {:induction false} CounterBack(t: Xml, p: Path, u: Xml)
    requires Keyed(t) && Keyed(u) && At(t, p) && Counter(t, p, u).Some?
    ensures Counter(u, Counter(t, p, u).value, t) == Some(p)
  {
    hide First, Ident;
    if p != [] {
      var x, j := t.kids[p[0]], Match(u.kids, t.kids[p[0]]).value;
      CounterBack(x, p[1..], u.kids[j]);
      MatchUnique(t, u.kids[j], p[0]);
      var q := Counter(x, p[1..], u.kids[j]).value;
      assert ([j] + q)[1..] == q && [p[0]] + p[1..] == p;
    }
  }

  lemma {:induction false} CounterSelf(t: Xml, p: Path)
    requires Keyed(t) && At(t, p)
    ensures Counter(t, p, t) == Some(p)
  {
    if p != [] {
      MatchUnique(t, t.kids[p[0]], p[0]);
      CounterSelf(t.kids[p[0]], p[1..]);
      assert [p[0]] + p[1..] == p;
    }
  }

  // ----- differences

  function Parent(p: Path): Path
    requires p != []
  {
    p[..|p| - 1]
  }

  /** A maximal node of `t` that `u` lacks. */
  predicate Missing(t: Xml, u: Xml, p: Path) {
    && p != [] && At(t, p) && At(t, Parent(p))
    && Counter(t, Parent(p), u).Some? && Counter(t, p, u).None?
  }

  /** A leaf of both trees with another value. */
  predicate Changed(t: Xml, u: Xml, p: Path) {
    && At(t, p) && Counter(t, p, u).Some?
    && Node(t, p).kind.Leaf? && Node(t, p).body != Node(u, Counter(t, p, u).value).body
  }

  /** Both trees hold the node, with equal subtrees. */
  predicate Unchanged(t: Xml, u: Xml, p: Path)
    requires At(t, p)
  {
    var c := Counter(t, p, u);
    c.Some? && Node(t, p) == Node(u, c.value)
  }
}
