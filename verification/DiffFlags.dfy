/** Which nodes of a transaction's target tree the difference to the source marks, and why validation may skip the
unmarked ones. */
module DiffFlags {
  import opened Optional
  import opened XmlTree

  // ----- trees that differ, differ at some node

  lemma LessAsym(a: seq<Option<int>>, b: seq<Option<int>>)
    ensures !(Less(a, b) && Less(b, a))
  {
    LessTotal(a, a);
    if Less(a, b) && Less(b, a) { LessTrans(a, b, a); }
  }

  /** The same node as child `k` is not further left, where other children are matched already. */
  lemma NotBefore(t: Xml, u: Xml, k: nat)
    requires Keyed(t) && k < |t.kids| && k <= |u.kids| && Match(u.kids, t.kids[k]).Some?
    requires forall i :: 0 <= i < k ==> Same(t.kids[i], u.kids[i])
    ensures k <= Match(u.kids, t.kids[k]).value
  {
    hide Keyed, Ident;
    var j := Match(u.kids, t.kids[k]).value;
    if j < k { KidsApart(t, j, k); }
  }

  lemma AlignedNext(t: Xml, u: Xml, k: nat)
    requires Keyed(t) && Keyed(u) && k < |t.kids| && k <= |u.kids|
    requires Match(u.kids, t.kids[k]).Some?
    requires forall j :: 0 <= j < |u.kids| ==> Match(t.kids, u.kids[j]).Some?
    requires forall i :: 0 <= i < k ==> Same(t.kids[i], u.kids[i])
    ensures k < |u.kids| && Same(t.kids[k], u.kids[k])
  {
    hide Keyed, Ident, Less;
    NotBefore(t, u, k);
    var x, j := t.kids[k], Match(u.kids, t.kids[k]).value;
    var y, i := u.kids[k], Match(t.kids, u.kids[k]).value;
    NotBefore(u, t, k);
    KidsApart(t, k, i);
    KidsApart(u, k, j);
    LessAsym(Ident(x), Ident(y));
  }

  /** When each child has the same node in the other tree, both ways, the children stand in the same places. */
  lemma {:induction false} Aligned(t: Xml, u: Xml, k: nat)
    requires Keyed(t) && Keyed(u) && k <= |t.kids|
    requires forall i :: 0 <= i < |t.kids| ==> Match(u.kids, t.kids[i]).Some?
    requires forall j :: 0 <= j < |u.kids| ==> Match(t.kids, u.kids[j]).Some?
    ensures k <= |u.kids| && forall i :: 0 <= i < k ==> Same(t.kids[i], u.kids[i])
  {
    if k > 0 {
      Aligned(t, u, k - 1);
      AlignedNext(t, u, k - 1);
    }
  }

  datatype Where = Gone(path: Path) | New(path: Path) | Value(path: Path)

  ghost predicate DiffAt(t: Xml, u: Xml, w: Where) {
    match w
    case Gone(p) => Missing(t, u, p)
    case New(q) => Missing(u, t, q)
    case Value(q) => Changed(u, t, q)
  }

  /** Two different versions of a node differ in a node that is gone, a node that is new or the value of a leaf. */
  lemma {:induction false} DifferSomewhere(t: Xml, u: Xml) returns (w: Where)
    requires Keyed(t) && Keyed(u) && Same(t, u) && t != u
    ensures DiffAt(t, u, w)
    decreases t
  {
    SameBody(t, u);
    if t.kind.Leaf? {
      return Value([]);
    }
    var i := UnmatchedKid(t, u);
    if i.Some? {
      return Gone([i.value]);
    }
    var j := UnmatchedKid(u, t);
    if j.Some? {
      return New([j.value]);
    }
    Aligned(t, u, |t.kids|);
    Aligned(u, t, |u.kids|);
    var k := DifferentKid(t, u);
    MatchUnique(u, t.kids[k], k);
    MatchUnique(t, u.kids[k], k);
    var v := DifferSomewhere(t.kids[k], u.kids[k]);
    w := Deepen(t, u, k, v);
  }

  lemma SameBody(t: Xml, u: Xml)
    requires Keyed(t) && Keyed(u) && Same(t, u)
    ensures t.name == u.name && (!t.kind.Leaf? ==> t.body == u.body)
  {
    assert Ident(t)[0] == Ident(u)[0];
    if t.kind.LeafList? { assert Ident(t)[1] == Ident(u)[1]; }
  }

  lemma UnmatchedKid(t: Xml, u: Xml) returns (r: Option<nat>)
    ensures r.Some? ==> r.value < |t.kids| && Missing(t, u, [r.value])
    ensures r.None? ==> forall i :: 0 <= i < |t.kids| ==> Match(u.kids, t.kids[i]).Some?
  {
    r := None;
    for i := 0 to |t.kids|
      invariant forall k :: 0 <= k < i ==> Match(u.kids, t.kids[k]).Some?
    {
      if Match(u.kids, t.kids[i]).None? {
        assert Parent([i]) == [];
        return Some(i);
      }
    }
  }

  lemma SameKids(a: seq<Xml>, b: seq<Xml>)
    ensures |a| == |b| && (forall i :: 0 <= i < |a| ==> a[i] == b[i]) ==> a == b
  {
  }

  lemma DifferentKid(t: Xml, u: Xml) returns (k: nat)
    requires t != u && t.name == u.name && t.kind == u.kind && t.body == u.body && |t.kids| == |u.kids|
    ensures k < |t.kids| && t.kids[k] != u.kids[k]
  {
    SameKids(t.kids, u.kids);
    k :| 0 <= k < |t.kids| && t.kids[k] != u.kids[k];
  }

  lemma MissingDeeper(t: Xml, u: Xml, i: nat, j: nat, p: Path)
    requires i < |t.kids| && j < |u.kids| && Match(u.kids, t.kids[i]) == Some(j) && p != []
    ensures Missing(t, u, [i] + p) <==> Missing(t.kids[i], u.kids[j], p)
  {
    var q := [i] + p;
    assert q[1..] == p && Parent(q)[1..] == Parent(p) && Parent(q)[0] == i;
  }

  lemma Deepen(t: Xml, u: Xml, k: nat, v: Where) returns (w: Where)
    requires k < |t.kids| && k < |u.kids|
    requires Match(u.kids, t.kids[k]) == Some(k) && Match(t.kids, u.kids[k]) == Some(k)
    requires DiffAt(t.kids[k], u.kids[k], v)
    ensures DiffAt(t, u, w)
  {
    match v {
      case Gone(p) => MissingDeeper(t, u, k, k, p); w := Gone([k] + p);
      case New(q) => MissingDeeper(u, t, k, k, q); w := New([k] + q);
      case Value(q) =>
        assert ([k] + q)[1..] == q;
        var c := Counter(u.kids[k], q, t.kids[k]).value;
        assert ([k] + c)[1..] == c;
        w := Value([k] + q);
    }
  }

  // ----- marks

  /** New nodes and all below them are marked, and everything above a new node, above or at a changed leaf, and
  above the place of a node that is gone. */
  ghost predicate MarkedBy(t: Xml, u: Xml, q: Path, w: Where) {
    DiffAt(t, u, w) &&
    match w
    case Gone(p) => q <= Counter(t, Parent(p), u).value
    case New(a) => a <= q || q <= a
    case Value(c) => q <= c
  }

  ghost predicate Marked(t: Xml, u: Xml, q: Path) { exists w :: MarkedBy(t, u, q, w) }

  /** Below a node without a counterpart's first missing ancestor. */
  lemma {:induction false} FirstMissing(t: Xml, u: Xml, p: Path) returns (a: Path)
    requires At(t, p) && Counter(t, p, u).None?
    ensures a <= p && Missing(t, u, a)
    decreases |p|
  {
    PrefixAt(t, Parent(p), p);
    if Counter(t, Parent(p), u).Some? {
      a := p;
    } else {
      a := FirstMissing(t, u, Parent(p));
    }
  }

  lemma MissingBelow(t: Xml, u: Xml, p: Path, q: Path, r: Path)
    requires At(t, p) && Counter(t, p, u) == Some(q) && Missing(Node(t, p), Node(u, q), r)
    ensures Missing(t, u, p + r) && q <= Counter(t, Parent(p + r), u).value
  {
    CounterSplit(t, p, r, u);
    CounterSplit(t, p, Parent(r), u);
    assert Parent(p + r) == p + Parent(r);
  }

  /** A marked node is one that differs from its counterpart, or has none: the marks are neither too few nor too
  many. */
  lemma MarkedIffChanged(t: Xml, u: Xml, q: Path)
    requires Keyed(t) && Keyed(u) && Same(t, u) && At(u, q)
    ensures Marked(t, u, q) <==> !Unchanged(u, t, q)
  {
    if Marked(t, u, q) {
      var w :| MarkedBy(t, u, q, w);
      MarkedIsChanged(t, u, q, w);
    } else if !Unchanged(u, t, q) {
      var w := ChangedIsMarked(t, u, q);
      assert false;
    }
  }

  lemma ChangedIsMarked(t: Xml, u: Xml, q: Path) returns (w: Where)
    requires Keyed(t) && Keyed(u) && Same(t, u) && At(u, q) && !Unchanged(u, t, q)
    ensures MarkedBy(t, u, q, w)
  {
    if Counter(u, q, t).None? {
      var a := FirstMissing(u, t, q);
      return New(a);
    }
    var p := Counter(u, q, t).value;
    CounterBack(u, q, t);
    NodeKeyed(t, p);
    NodeKeyed(u, q);
    var v := DifferSomewhere(Node(t, p), Node(u, q));
    match v {
      case Gone(r) => MissingBelow(t, u, p, q, r); w := Gone(p + r);
      case New(r) => MissingBelow(u, t, q, p, r); w := New(q + r);
      case Value(r) =>
        CounterSplit(u, q, r, t);
        NodeSplit(u, q, r);
        NodeSplit(t, p, Counter(Node(u, q), r, Node(t, p)).value);
        w := Value(q + r);
    }
  }

  /** Below an unchanged node every node has its counterpart, in the same place. */
  lemma UnchangedBelow(t: Xml, u: Xml, q: Path, e: Path)
    requires Keyed(t) && Keyed(u) && Same(t, u) && At(u, q) && Unchanged(u, t, q) && q <= e && At(u, e)
    ensures var p := Counter(u, q, t).value; var r := e[|q|..];
      && At(t, p + r) && Counter(u, e, t) == Some(p + r) && Counter(t, p + r, u) == Some(e)
      && Node(u, e) == Node(t, p + r)
  {
    var p, r := Counter(u, q, t).value, e[|q|..];
    assert q + r == e;
    PrefixAt(u, q, e);
    NodeKeyed(u, q);
    CounterSelf(Node(u, q), r);
    CounterSplit(u, q, r, t);
    CounterBack(u, e, t);
    NodeSplit(u, q, r);
    NodeSplit(t, p, r);
  }

  /** Nothing is gone from below an unchanged node. */
  lemma NothingGoneBelow(t: Xml, u: Xml, q: Path, d: Path)
    requires Keyed(t) && Keyed(u) && Same(t, u) && At(u, q) && Unchanged(u, t, q)
    requires d != [] && At(t, d) && At(t, Parent(d)) && Counter(t, Parent(d), u).Some?
    requires q <= Counter(t, Parent(d), u).value
    ensures Counter(t, d, u).Some?
  {
    hide Keyed, Same, Counter;
    var e, i, p := Counter(t, Parent(d), u).value, d[|d| - 1], Counter(u, q, t).value;
    CounterBack(t, Parent(d), u);
    UnchangedBelow(t, u, q, e);
    assert Parent(d) == p + e[|q|..];
    assert d == Parent(d) + [i];
    NodeSplit(t, Parent(d), [i]);
    NodeSplit(u, e, [i]);
    UnchangedBelow(t, u, q, e + [i]);
    assert p + (e + [i])[|q|..] == d;
  }

  lemma MissingAbove(t: Xml, u: Xml, a: Path, p: Path)
    requires Missing(t, u, a) && a <= p && At(t, p)
    ensures Counter(t, p, u).None?
  {
    PrefixAt(t, a, p);
    CounterSplit(t, a, p[|a|..], u);
    assert a + p[|a|..] == p;
  }

  lemma MarkedIsChanged(t: Xml, u: Xml, q: Path, w: Where)
    requires Keyed(t) && Keyed(u) && Same(t, u) && At(u, q) && MarkedBy(t, u, q, w)
    ensures !Unchanged(u, t, q)
  {
    if Unchanged(u, t, q) {
      match w {
        case New(a) =>
          if a <= q {
            MissingAbove(u, t, a, q);
          } else {
            UnchangedBelow(t, u, q, a);
          }
        case Value(c) => UnchangedBelow(t, u, q, c);
        case Gone(d) => NothingGoneBelow(t, u, q, d);
      }
      assert false;
    }
  }
}
