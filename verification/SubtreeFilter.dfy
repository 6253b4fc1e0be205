/** Subtree filtering (section 6 of RFC 6241): a configuration tree is pruned to what a filter tree selects. */
module SubtreeFilter {
  import opened Optional

  datatype Node =
    | Elem(name: string, kids: seq<Node>)
    | Attr(name: string, value: string)
    | Body(value: string)

  function Name(x: Node): string { if x.Body? then "body" else x.name }

  function Kids(x: Node): seq<Node> { if x.Elem? then x.kids else [] }

  /** The first child of that name, of whatever kind. */
  function Find(kids: seq<Node>, name: string): (r: Option<Node>)
    ensures r.Some? ==> r.value in kids && Name(r.value) == name
    ensures r.None? ==> forall x :: x in kids ==> Name(x) != name
  {
    if kids == [] then None else if Name(kids[0]) == name then Some(kids[0]) else Find(kids[1..], name)
  }

  function FirstBody(kids: seq<Node>): Option<string> {
    if kids == [] then None else if kids[0].Body? then Some(kids[0].value) else FirstBody(kids[1..])
  }

  predicate NoElems(kids: seq<Node>) { forall x :: x in kids ==> !x.Elem? }

  /** The body of an element without child elements. */
  function LeafString(x: Node): Option<string> { if x.Elem? && NoElems(x.kids) then FirstBody(x.kids) else None }

  // ----- specification

  /** An attribute of the filter is looked up by name in the filter itself. */
  predicate AttributeMatchOne(f: Node, a: Node) {
    a.Attr? ==> var b := Find(Kids(f), a.name); b.Some? && !b.value.Elem? && b.value.value == a.value
  }

  predicate AttributeMatch(f: Node) { forall a :: a in Kids(f) ==> AttributeMatchOne(f, a) }

  predicate ContentMatchOne(g: Node, s: Node) {
    g.Elem? && LeafString(g).Some? ==>
      var t := Find(Kids(s), g.name);
      t.Some? && (LeafString(t.value).None? || LeafString(t.value) == LeafString(g))
  }

  predicate ContentMatch(f: Node, s: Node) { forall g :: g in Kids(f) ==> ContentMatchOne(g, s) }

  predicate Containments(f: Node) { exists g :: g in Kids(f) && g.Elem? && LeafString(g).None? }

  /** What is left of `s`, or nothing when it is to be removed. */
  function Filter(f: Node, s: Node): Option<Node>
    decreases f, |Kids(s)| + 1
  {
    if Kids(f) == [] then Some(s)
    else if !AttributeMatch(f) || !ContentMatch(f, s) then None
    else if !Containments(f) || !s.Elem? then Some(s)
    else Some(Elem(s.name, FilterKids(f, s.kids)))
  }

  function FilterKid(f: Node, x: Node): Option<Node>
    decreases f, 0
  {
    if !x.Elem? then Some(x) else
    var g := Find(Kids(f), x.name);
    if g.None? then None
    else if LeafString(g.value).Some? then Some(x)
    else Filter(g.value, x)
  }

  function FilterKids(f: Node, kids: seq<Node>): seq<Node>
    decreases f, |kids|
  {
    if kids == [] then [] else
    var k := FilterKid(f, kids[0]);
    (if k.Some? then [k.value] else []) + FilterKids(f, kids[1..])
  }

  // ----- as it runs: children are purged while they are iterated over

  lemma FilterKidsNext(f: Node, kids: seq<Node>, n: nat)
    requires n < |kids|
    ensures var k := FilterKid(f, kids[n]);
      FilterKids(f, kids[n..]) == (if k.Some? then [k.value] else []) + FilterKids(f, kids[n + 1..])
  {
    assert kids[n..][1..] == kids[n + 1..];
  }

  method CheckFilter(f: Node, s: Node) returns (containments: bool, ok: bool)
    ensures containments == Containments(f) && ok == (AttributeMatch(f) && ContentMatch(f, s))
  {
    var kids := Kids(f);
    containments := false;
    for i := 0 to |kids|
      invariant containments <==> exists k :: 0 <= k < i && kids[k].Elem? && LeafString(kids[k]).None?
    {
      if kids[i].Elem? && LeafString(kids[i]).None? { containments := true; }
    }
    for i := 0 to |kids|
      invariant forall k :: 0 <= k < i ==> AttributeMatchOne(f, kids[k])
    {
      if !AttributeMatchOne(f, kids[i]) { return containments, false; }
    }
    for i := 0 to |kids|
      invariant forall k :: 0 <= k < i ==> ContentMatchOne(kids[k], s)
    {
      if !ContentMatchOne(kids[i], s) { return containments, false; }
    }
    return containments, true;
  }

  method FilterRecursive(f: Node, s: Node) returns (t: Node, remove: bool)
    requires s.Elem?
    ensures remove == Filter(f, s).None? && t == (if remove then s else Filter(f, s).value)
    decreases f, 2
  {
    if Kids(f) == [] { return s, false; }
    var containments, ok := CheckFilter(f, s);
    if !ok { return s, true; }
    if !containments { return s, false; }
    var kids := PruneKids(f, s.kids);
    return Elem(s.name, kids), false;
  }

  method PruneKid(f: Node, x: Node) returns (y: Node, keep: bool)
    ensures keep == FilterKid(f, x).Some? && (keep ==> y == FilterKid(f, x).value)
    decreases f, 0
  {
    if !x.Elem? { return x, true; }
    var g := Find(Kids(f), x.name);
    if g.None? { return x, false; }
    if LeafString(g.value).Some? { return x, true; }
    var remove;
    y, remove := FilterRecursive(g.value, x);
    keep := !remove;
  }

  /** No sibling is skipped, and none is visited twice. */
  method PruneKids(f: Node, children: seq<Node>) returns (kids: seq<Node>)
    ensures kids == FilterKids(f, children)
    decreases f, 1
  {
    hide FilterKids, FilterKid, Pruned;
    kids := children;
    var ix := 0;
    ghost var n := 0;
    PruneStart(f, children);
    while ix < |kids|
      invariant 0 <= ix <= |kids| && 0 <= n <= |children| && |kids| - ix == |children| - n
      invariant Pruned(f, children, n, kids, ix)
      decreases |children| - n
    {
      PruneStep(f, children, n, kids, ix);
      var y, keep := PruneKid(f, kids[ix]);
      n := n + 1;
      if keep {
        kids := kids[ix := y];
        ix := ix + 1;
      } else {
        kids := kids[..ix] + kids[ix + 1..];
      }
    }
    PruneEnd(f, children, kids);
  }

  /** Of the children the first `n` have been filtered into the first `ix` that are left. */
  ghost predicate Pruned(f: Node, children: seq<Node>, n: nat, kids: seq<Node>, ix: nat)
    requires n <= |children| && ix <= |kids|
  {
    kids[ix..] == children[n..] && kids[..ix] + FilterKids(f, children[n..]) == FilterKids(f, children)
  }

  lemma PruneStart(f: Node, children: seq<Node>)
    ensures Pruned(f, children, 0, children, 0)
  {
    assert children[..0] + FilterKids(f, children) == FilterKids(f, children) && children[0..] == children;
  }

  lemma PruneStep(f: Node, children: seq<Node>, n: nat, kids: seq<Node>, ix: nat)
    requires n < |children| && ix < |kids| && Pruned(f, children, n, kids, ix)
    ensures var k := FilterKid(f, kids[ix]);
      if k.Some? then Pruned(f, children, n + 1, kids[ix := k.value], ix + 1)
      else Pruned(f, children, n + 1, kids[..ix] + kids[ix + 1..], ix)
  {
    hide FilterKid;
    assert kids[ix] == kids[ix..][0] == children[n] && kids[ix + 1..] == kids[ix..][1..] == children[n + 1..];
    FilterKidsNext(f, children, n);
    var k, rest := FilterKid(f, kids[ix]), FilterKids(f, children[n + 1..]);
    if k.Some? {
      assert kids[..ix] + ([k.value] + rest) == kids[..ix] + [k.value] + rest;
      assert kids[ix := k.value][..ix + 1] == kids[..ix] + [k.value];
    } else {
      assert [] + rest == rest;
      var t := kids[..ix] + kids[ix + 1..];
      assert t[..ix] == kids[..ix] && t[ix..] == kids[ix + 1..];
    }
  }

  lemma PruneEnd(f: Node, children: seq<Node>, kids: seq<Node>)
    requires Pruned(f, children, |children|, kids, |kids|)
    ensures kids == FilterKids(f, children)
  {
    assert kids[..|kids|] + [] == kids;
  }

  /** At the top level a tree to be removed is returned whole. */
  method XmlFilter(f: Node, config: Node) returns (t: Node)
    requires config.Elem?
    ensures t == FilterTop(f, config)
  {
    var remove;
    t, remove := FilterRecursive(f, config);
  }

  function FilterTop(f: Node, config: Node): Node {
    match Filter(f, config)
    case None => config
    case Some(t) => t
  }

  // ----- what a filter selects

  /** Child `i` is the first of that name. */
  predicate First(kids: seq<Node>, i: int, n: string) {
    0 <= i < |kids| && Name(kids[i]) == n && forall j :: 0 <= j < i ==> Name(kids[j]) != n
  }

  /** An element without child elements, whose first text is `w`. */
  predicate Leaf(x: Node, w: string) {
    && x.Elem? && (forall j :: 0 <= j < |x.kids| ==> !x.kids[j].Elem?)
    && exists i :: 0 <= i < |x.kids| && x.kids[i] == Body(w) && forall j :: 0 <= j < i ==> !x.kids[j].Body?
  }

  lemma {:induction false} FindIs(kids: seq<Node>, n: string) returns (i: int)
    ensures i == -1 <==> Find(kids, n).None?
    ensures i == -1 <==> forall k :: !First(kids, k, n)
    ensures i != -1 ==> First(kids, i, n) && Find(kids, n) == Some(kids[i])
  {
    if kids == [] {
      i := -1;
    } else if Name(kids[0]) == n {
      i := 0;
      assert First(kids, 0, n);
    } else {
      i := FindIs(kids[1..], n);
      if i == -1 {
        forall k ensures !First(kids, k, n) { FirstTail(kids, k, n); }
      } else {
        i := i + 1;
        assert First(kids, i, n);
      }
    }
  }

  lemma FirstTail(kids: seq<Node>, k: int, n: string)
    requires kids != [] && Name(kids[0]) != n
    ensures First(kids, k, n) ==> First(kids[1..], k - 1, n)
  {
  }

  lemma {:induction false} FirstBodyIs(kids: seq<Node>, w: string)
    ensures FirstBody(kids) == Some(w) <==>
      exists i :: 0 <= i < |kids| && kids[i] == Body(w) && forall j :: 0 <= j < i ==> !kids[j].Body?
  {
    if kids != [] && !kids[0].Body? {
      FirstBodyIs(kids[1..], w);
      if i :| 0 <= i < |kids| && kids[i] == Body(w) && forall j :: 0 <= j < i ==> !kids[j].Body? {
        assert kids[1..][i - 1] == Body(w);
        assert forall j :: 0 <= j < i - 1 ==> kids[1..][j] == kids[j + 1];
      }
      if i :| 0 <= i < |kids[1..]| && kids[1..][i] == Body(w) && forall j :: 0 <= j < i ==> !kids[1..][j].Body? {
        assert kids[i + 1] == Body(w);
        assert forall j :: 0 < j < i + 1 ==> kids[j] == kids[1..][j - 1];
      }
    }
  }

  lemma LeafIs(x: Node, w: string)
    ensures LeafString(x) == Some(w) <==> Leaf(x, w)
  {
    if x.Elem? { FirstBodyIs(x.kids, w); }
  }

  lemma LeafSome(x: Node)
    ensures LeafString(x).Some? <==> exists w :: Leaf(x, w)
  {
    forall w ensures LeafString(x) == Some(w) <==> Leaf(x, w) { LeafIs(x, w); }
    assert LeafString(x).Some? ==> LeafString(x) == Some(LeafString(x).value);
  }

  /** The first child of that name is there, and if it is a leaf its content is `w`. */
  ghost predicate Agrees(kids: seq<Node>, n: string, w: string) {
    exists i :: First(kids, i, n) && forall v :: Leaf(kids[i], v) ==> v == w
  }

  /** An attribute has its value in the first child of its name. */
  ghost predicate Stands(kids: seq<Node>, n: string, w: string) {
    exists i :: First(kids, i, n) && !kids[i].Elem? && kids[i].value == w
  }

  /** A tree is kept exactly if every leaf of the filter agrees with it, content for content; and by an empty filter. */
  lemma FilterSelects(f: Node, s: Node)
    ensures Filter(f, s).Some? <==>
      || Kids(f) == []
      || (&& (forall a :: a in Kids(f) && a.Attr? ==> Stands(Kids(f), a.name, a.value))
          && (forall g, w :: g in Kids(f) && Leaf(g, w) ==> Agrees(Kids(s), Name(g), w)))
  {
    hide First, Leaf, Agrees, Stands, FilterKids, AttributeMatchOne, ContentMatchOne;
    forall a ensures AttributeMatchOne(f, a) <==> (a.Attr? ==> Stands(Kids(f), a.name, a.value)) {
      AttributeMeans(f, a);
    }
    forall g ensures ContentMatchOne(g, s) <==> forall w :: Leaf(g, w) ==> Agrees(Kids(s), Name(g), w) {
      ContentMeans(g, s);
    }
  }

  lemma AttributeMeans(f: Node, a: Node)
    ensures AttributeMatchOne(f, a) <==> (a.Attr? ==> Stands(Kids(f), a.name, a.value))
  {
    if a.Attr? {
      var k := FindIs(Kids(f), a.name);
      if i :| First(Kids(f), i, a.name) { assert i == k; }
    }
  }

  lemma ContentMeans(g: Node, s: Node)
    ensures ContentMatchOne(g, s) <==> forall w :: Leaf(g, w) ==> Agrees(Kids(s), Name(g), w)
  {
    hide LeafString, Leaf;
    forall w ensures Leaf(g, w) <==> LeafString(g) == Some(w) { LeafIs(g, w); }
    if g.Elem? && LeafString(g).Some? {
      var w := LeafString(g).value;
      assert Leaf(g, w);
      var k := FindIs(Kids(s), g.name);
      if k != -1 {
        forall v ensures Leaf(Kids(s)[k], v) <==> LeafString(Kids(s)[k]) == Some(v) { LeafIs(Kids(s)[k], v); }
        forall i | First(Kids(s), i, g.name) ensures i == k { }
      }
    } else {
      forall w ensures !Leaf(g, w) { LeafNeedsElem(g, w); }
    }
  }

  lemma LeafNeedsElem(g: Node, w: string)
    ensures Leaf(g, w) ==> g.Elem?
  {
  }

  /** What is left of child `x` under the filter `f` is `y`: all of it if it is no element or a leaf of the filter names
  it, and otherwise what the first child of its name in the filter leaves. */
  ghost predicate Survives(f: Node, x: Node, y: Node) {
    if !x.Elem? then y == x
    else exists i :: First(Kids(f), i, x.name) && LeavesOf(Kids(f)[i], x, y)
  }

  ghost predicate LeavesOf(g: Node, x: Node, y: Node) {
    if exists w :: Leaf(g, w) then y == x else Filter(g, x) == Some(y)
  }

  lemma KidSurvives(f: Node, x: Node, y: Node)
    ensures FilterKid(f, x) == Some(y) <==> Survives(f, x, y)
  {
    if x.Elem? {
      var k := FindIs(Kids(f), x.name);
      if k != -1 {
        LeafSome(Kids(f)[k]);
        forall i | First(Kids(f), i, x.name) ensures i == k { }
      }
    }
  }

  /** A kept tree is whole if the filter has nothing but leafs; otherwise its children are what survives, place by
  place. */
  lemma {:induction false} FilterLeaves(f: Node, s: Node)
    requires Filter(f, s).Some?
    ensures var t := Filter(f, s).value;
      if !s.Elem? || (forall g :: g in Kids(f) && g.Elem? ==> exists w :: Leaf(g, w)) then t == s
      else t.Elem? && t.name == s.name && LeftOf(f, s.kids, t.kids)
  {
    forall g ensures LeafString(g).Some? <==> exists w :: Leaf(g, w) { LeafSome(g); }
    if s.Elem? { KidsSurvive(f, s.kids); }
  }

  /** `out` holds, in order, what survives of each of the children. */
  ghost predicate LeftOf(f: Node, kids: seq<Node>, out: seq<Node>)
    decreases |kids|
  {
    if kids == [] then out == []
    else if exists y :: Survives(f, kids[0], y)
    then out != [] && Survives(f, kids[0], out[0]) && LeftOf(f, kids[1..], out[1..])
    else LeftOf(f, kids[1..], out)
  }

  lemma {:induction false} KidsSurvive(f: Node, kids: seq<Node>)
    ensures LeftOf(f, kids, FilterKids(f, kids))
    decreases |kids|
  {
    if kids != [] {
      KidsSurvive(f, kids[1..]);
      var k, out := FilterKid(f, kids[0]), FilterKids(f, kids);
      forall y ensures k == Some(y) <==> Survives(f, kids[0], y) { KidSurvives(f, kids[0], y); }
      if k.Some? {
        assert out[0] == k.value && out[1..] == FilterKids(f, kids[1..]);
      } else {
        assert out == FilterKids(f, kids[1..]);
      }
    }
  }

  /** At the top a tree that disagrees with the filter is not removed but returned whole. */
  lemma TopReturnsWhole(f: Node, config: Node, g: Node, w: string)
    requires g in Kids(f) && Leaf(g, w) && !Agrees(Kids(config), Name(g), w)
    ensures FilterTop(f, config) == config
  {
    FilterSelects(f, config);
  }

  // ----- the result is part of the input

  /** `a` is `b` with some descendants left out, the rest in their order. */
  predicate Part(a: Node, b: Node)
    decreases b, 0
  {
    if a.Elem? && b.Elem? then a.name == b.name && PartKids(a.kids, b.kids) else a == b
  }

  predicate PartKids(a: seq<Node>, b: seq<Node>)
    decreases b, |b|
  {
    if b == [] then a == []
    else PartKids(a, b[1..]) || (a != [] && Part(a[0], b[0]) && PartKids(a[1..], b[1..]))
  }

  lemma {:induction false} PartSelf(x: Node)
    ensures Part(x, x)
    decreases x, 0
  {
    if x.Elem? { PartKidsSelf(x.kids); }
  }

  lemma {:induction false} PartKidsSelf(kids: seq<Node>)
    ensures PartKids(kids, kids)
    decreases kids, |kids|
  {
    if kids != [] {
      PartSelf(kids[0]);
      PartKidsSelf(kids[1..]);
    }
  }

  /** Filtering only leaves out: the result is an ordered part of the input. */
  lemma {:induction false} FilterIsPart(f: Node, s: Node)
    ensures Filter(f, s).Some? ==> Part(Filter(f, s).value, s)
    decreases f, |Kids(s)| + 1
  {
    PartSelf(s);
    if s.Elem? && Filter(f, s).Some? && Filter(f, s) != Some(s) { FilterKidsArePart(f, s.kids); }
  }

  lemma {:induction false} FilterKidsArePart(f: Node, kids: seq<Node>)
    ensures PartKids(FilterKids(f, kids), kids)
    decreases f, |kids|
  {
    if kids != [] {
      FilterKidsArePart(f, kids[1..]);
      PartSelf(kids[0]);
      var x := kids[0];
      if x.Elem? {
        var g := Find(Kids(f), x.name);
        if g.Some? && LeafString(g.value).None? { FilterIsPart(g.value, x); }
      }
      var k := FilterKid(f, x);
      if k.Some? {
        var r := FilterKids(f, kids);
        assert r[0] == k.value && r[1..] == FilterKids(f, kids[1..]);
      } else {
        assert FilterKids(f, kids) == FilterKids(f, kids[1..]);
      }
    }
  }

  // ----- filtering twice

  /** A filter that leaves every tree as it is. */
  predicate Inert(g: Node) { Kids(g) == [] || (AttributeMatch(g) && NoElems(Kids(g))) }

  /** Children of its name are all kept as they are. */
  predicate Settled(g: Node) { LeafString(g).Some? || Inert(g) }

  predicate FirstOfName(kids: seq<Node>, i: nat)
    requires i < |kids|
  {
    Find(kids, Name(kids[i])) == Some(kids[i])
  }

  /** Where the filter matches content, the first filter of that name keeps what it is matched against; and filters for
  containment are repeatable in turn. */
  predicate KeepsContent(f: Node) {
    forall h :: h in Kids(f) && LeafString(h).Some? ==> Settled(Find(Kids(f), Name(h)).value)
  }

  predicate KidsRepeatable(f: Node)
    decreases f, 0
  {
    forall i :: 0 <= i < |Kids(f)| && FirstOfName(Kids(f), i) && LeafString(Kids(f)[i]).None? ==> Repeatable(Kids(f)[i])
  }

  predicate Repeatable(f: Node)
    decreases f, 1
  {
    Kids(f) == [] || !AttributeMatch(f) || !Containments(f) || (KeepsContent(f) && KidsRepeatable(f))
  }

  lemma InertKeeps(g: Node, x: Node)
    requires Inert(g)
    ensures Filter(g, x) == Some(x) && Repeatable(g)
  {
  }

  lemma KidKeepsName(f: Node, x: Node)
    ensures var k := FilterKid(f, x); k.Some? ==> Name(k.value) == Name(x) && k.value.Elem? == x.Elem?
  {
  }

  lemma SettledKeeps(f: Node, x: Node)
    requires var g := Find(Kids(f), Name(x)); g.Some? && Settled(g.value)
    ensures FilterKid(f, x) == Some(x)
  {
    var g := Find(Kids(f), Name(x)).value;
    if Inert(g) { InertKeeps(g, x); }
  }

  lemma {:induction false} FindKept(f: Node, kids: seq<Node>, n: string)
    requires var g := Find(Kids(f), n); g.Some? && Settled(g.value)
    ensures Find(FilterKids(f, kids), n) == Find(kids, n)
    decreases |kids|
  {
    if kids != [] {
      FindKept(f, kids[1..], n);
      if Name(kids[0]) == n { SettledKeeps(f, kids[0]); }
      KidKeepsName(f, kids[0]);
      FilterKidsHead(f, kids);
    }
  }

  lemma FilterKidsHead(f: Node, kids: seq<Node>)
    requires kids != []
    ensures var k, r := FilterKid(f, kids[0]), FilterKids(f, kids);
      if k.Some? then r != [] && r[0] == k.value && r[1..] == FilterKids(f, kids[1..])
      else r == FilterKids(f, kids[1..])
  {
  }

  /** Filtering what a repeatable filter has left changes nothing. */
  lemma {:induction false} FilterTwice(f: Node, s: Node)
    requires Repeatable(f) && Filter(f, s).Some?
    ensures Filter(f, Filter(f, s).value) == Filter(f, s)
    decreases f, |Kids(s)| + 1
  {
    var t := Filter(f, s).value;
    if t != s {
      forall g | g in Kids(f) ensures ContentMatchOne(g, t) {
        assert ContentMatchOne(g, s);
        if g.Elem? && LeafString(g).Some? { FindKept(f, s.kids, g.name); }
      }
      FilterKidsTwice(f, s.kids);
    }
  }

  lemma {:induction false} FilterKidsTwice(f: Node, kids: seq<Node>)
    requires KidsRepeatable(f)
    ensures FilterKids(f, FilterKids(f, kids)) == FilterKids(f, kids)
    decreases f, |kids|
  {
    if kids != [] {
      FilterKidsTwice(f, kids[1..]);
      FilterKidsHead(f, kids);
      if FilterKid(f, kids[0]).Some? {
        FilterKidTwice(f, kids[0]);
        FilterKidsHead(f, FilterKids(f, kids));
      }
    }
  }

  lemma {:induction false} FilterKidTwice(f: Node, x: Node)
    requires KidsRepeatable(f) && FilterKid(f, x).Some?
    ensures FilterKid(f, FilterKid(f, x).value) == FilterKid(f, x)
    decreases f, 0
  {
    KidKeepsName(f, x);
    if x.Elem? {
      var g := Find(Kids(f), x.name).value;
      if LeafString(g).None? {
        var i :| 0 <= i < |Kids(f)| && Kids(f)[i] == g;
        assert FirstOfName(Kids(f), i);
        FilterTwice(g, x);
      }
    }
  }

  // ----- and only those

  /** A second pass over what the first has left changes nothing. */
  ghost predicate SameTwice(f: Node, s: Node) {
    Filter(f, s).Some? ==> Filter(f, Filter(f, s).value) == Filter(f, s)
  }

  ghost predicate Spoils(f: Node, s: Node) { s.Elem? && !SameTwice(f, s) }

  /** An empty child for each content match, which satisfies it. */
  function Fillers(kids: seq<Node>): seq<Node> {
    if kids == [] then []
    else (if LeafString(kids[0]).Some? then [Elem(Name(kids[0]), [])] else []) + Fillers(kids[1..])
  }

  lemma {:induction false} FillersAre(kids: seq<Node>)
    ensures forall x :: x in Fillers(kids) ==>
              x.Elem? && x.kids == [] && exists h :: h in kids && LeafString(h).Some? && h.name == x.name
    ensures forall h :: h in kids && LeafString(h).Some? ==> Find(Fillers(kids), h.name) == Some(Elem(h.name, []))
  {
    if kids != [] {
      FillersAre(kids[1..]);
      forall x | x in Fillers(kids)
        ensures x.Elem? && x.kids == [] && exists h :: h in kids && LeafString(h).Some? && h.name == x.name
      {
        if x in Fillers(kids[1..]) {
          var h :| h in kids[1..] && LeafString(h).Some? && h.name == x.name;
          assert h in kids;
        } else {
          assert kids[0] in kids;
        }
      }
      forall h | h in kids && LeafString(h).Some? ensures Find(Fillers(kids), h.name) == Some(Elem(h.name, [])) {
        if LeafString(kids[0]).Some? { assert Fillers(kids)[1..] == Fillers(kids[1..]); }
        if h !in kids[1..] { assert h == kids[0]; }
      }
    }
  }

  /** A tree with `x` in front that meets every content match, if `x` does. */
  function Around(f: Node, x: Node): Node { Elem("", [x] + Fillers(Kids(f))) }

  lemma AroundMatches(f: Node, x: Node)
    requires x.Elem?
    requires forall h :: h in Kids(f) && LeafString(h).Some? && h.name == x.name ==>
      LeafString(x).None? || LeafString(x) == LeafString(h)
    ensures ContentMatch(f, Around(f, x))
  {
    FillersAre(Kids(f));
    forall h | h in Kids(f) ensures ContentMatchOne(h, Around(f, x)) {
      assert ([x] + Fillers(Kids(f)))[1..] == Fillers(Kids(f));
    }
  }

  lemma {:induction false} FindDropped(f: Node, kids: seq<Node>, n: string)
    requires forall x :: x in kids && Name(x) == n ==> FilterKid(f, x).None?
    ensures Find(FilterKids(f, kids), n).None?
    decreases |kids|
  {
    if kids != [] {
      FindDropped(f, kids[1..], n);
      KidKeepsName(f, kids[0]);
      FilterKidsHead(f, kids);
    }
  }

  /** A name longer than any of these. */
  function Fresh(kids: seq<Node>): (z: string)
    ensures forall x :: x in kids ==> |Name(x)| < |z|
  {
    if kids == [] then "z" else Name(kids[0]) + Fresh(kids[1..])
  }

  /** The first filter for the name of a content match removes an empty child of that name: then none is left to
  match. */
  lemma SpoilByRemoval(f: Node, h: Node)
    requires AttributeMatch(f) && Containments(f) && h in Kids(f) && LeafString(h).Some?
    requires var g := Find(Kids(f), h.name).value; LeafString(g).None? && Filter(g, Elem(h.name, [])).None?
    ensures Spoils(f, Around(f, Elem(h.name, [])))
  {
    hide Fillers, AttributeMatch, Containments;
    var e := Elem(h.name, []);
    var s := Around(f, e);
    AroundMatches(f, e);
    FillersAre(Kids(f));
    forall x | x in s.kids && Name(x) == h.name ensures FilterKid(f, x).None? { assert x == e; }
    FindDropped(f, s.kids, h.name);
    assert !ContentMatchOne(h, Filter(f, s).value);
  }

  /** Or it strips a child of that name down to a leaf with other content. */
  lemma SpoilByStripping(f: Node, h: Node) returns (s: Node)
    requires AttributeMatch(f) && Containments(f) && h in Kids(f) && LeafString(h).Some?
    requires var g := Find(Kids(f), h.name).value; !Settled(g) && Filter(g, Elem(h.name, [])).Some?
    ensures Spoils(f, s)
  {
    hide Fillers, AttributeMatch, Containments, Inert;
    var g, w := Find(Kids(f), h.name).value, LeafString(h).value + "x";
    var z := Elem(Fresh(Kids(g)), []);
    var x := Elem(h.name, [z, Body(w)]);
    Strips(g, h.name, z, w);
    assert z in x.kids && LeafString(x).None?;
    s := Around(f, x);
    AroundMatches(f, x);
    FilterKidsHead(f, s.kids);
    assert !ContentMatchOne(h, Filter(f, s).value);
  }

  lemma Strips(g: Node, n: string, z: Node, w: string)
    requires !Settled(g) && Filter(g, Elem(n, [])).Some? && z == Elem(Fresh(Kids(g)), [])
    ensures Filter(g, Elem(n, [z, Body(w)])) == Some(Elem(n, [Body(w)])) && LeafString(Elem(n, [Body(w)])) == Some(w)
  {
    var e, x := Elem(n, []), Elem(n, [z, Body(w)]);
    forall k | k in Kids(g) ensures ContentMatchOne(k, x) { assert ContentMatchOne(k, e); }
    var k :| k in Kids(g) && k.Elem?;
    assert ContentMatchOne(k, e);
    assert LeafString(k).None? && Containments(g);
    assert FilterKid(g, z).None?;
    FilterKidsHead(g, x.kids);
    assert x.kids[1..] == [Body(w)];
    OneBody(g, w);
    assert Filter(g, x) == Some(Elem(n, FilterKids(g, x.kids)));
  }

  lemma OneBody(g: Node, w: string)
    ensures FilterKids(g, [Body(w)]) == [Body(w)]
  {
    FilterKidsHead(g, [Body(w)]);
    assert [Body(w)][1..] == [] && FilterKids(g, []) == [];
  }

  lemma FilterRenamed(f: Node, a: string, b: string, kids: seq<Node>)
    ensures var r, q := Filter(f, Elem(a, kids)), Filter(f, Elem(b, kids));
      && r.Some? == q.Some?
      && (r.Some? ==> r.value.Elem? && r.value.name == a && q.value == Elem(b, r.value.kids))
  {
    assert forall g :: ContentMatchOne(g, Elem(a, kids)) == ContentMatchOne(g, Elem(b, kids));
  }

  /** The empty children for content matches are kept by a filter that keeps its content. */
  lemma {:induction false} FillersKept(f: Node, kids: seq<Node>)
    requires KeepsContent(f) && forall h :: h in kids ==> h in Kids(f)
    ensures FilterKids(f, Fillers(kids)) == Fillers(kids)
    decreases |kids|
  {
    if kids != [] {
      FillersKept(f, kids[1..]);
      if LeafString(kids[0]).Some? {
        var e := Elem(Name(kids[0]), []);
        SettledKeeps(f, e);
        FilterKidsHead(f, Fillers(kids));
        assert Fillers(kids)[1..] == Fillers(kids[1..]);
      } else {
        assert Fillers(kids) == Fillers(kids[1..]);
      }
    }
  }

  /** Where a filter for containment is not repeatable, a child it treats differently the second time does the same
  to the whole. */
  lemma SpoilBelow(f: Node, g: Node, c: Node)
    requires AttributeMatch(f) && Containments(f) && KeepsContent(f) && g in Kids(f) && LeafString(g).None?
    requires Find(Kids(f), Name(g)) == Some(g) && !Inert(g) && Spoils(g, c)
    ensures Spoils(f, Around(f, Elem(Name(g), c.kids)))
  {
    hide Fillers, AttributeMatch, Containments, Inert, Filter;
    var n, fs := Name(g), Fillers(Kids(f));
    var x := Elem(n, c.kids);
    FilterRenamed(g, c.name, n, c.kids);
    var y := Filter(g, x).value;
    FilterRenamed(g, c.name, n, y.kids);
    AroundMatches(f, x);
    AroundMatches(f, y);
    FillersKept(f, Kids(f));
    var s, t := Around(f, x), Around(f, y);
    assert s.kids[1..] == fs && t.kids[1..] == fs;
    FilterKidsHead(f, s.kids);
    FilterKidsHead(f, t.kids);
    FilterAround(f, x);
    FilterAround(f, y);
    assert FilterKids(f, s.kids) == t.kids;
  }

  lemma FilterAround(f: Node, x: Node)
    requires AttributeMatch(f) && Containments(f) && ContentMatch(f, Around(f, x))
    ensures Filter(f, Around(f, x)) == Some(Elem("", FilterKids(f, Around(f, x).kids)))
  {
  }

  /** A filter that is not repeatable has a tree on which the second pass differs. */
  lemma {:induction false} NotRepeatable(f: Node) returns (s: Node)
    requires !Repeatable(f)
    ensures Spoils(f, s)
    decreases f
  {
    if !KeepsContent(f) {
      var h :| h in Kids(f) && LeafString(h).Some? && !Settled(Find(Kids(f), Name(h)).value);
      var g := Find(Kids(f), h.name).value;
      if Filter(g, Elem(h.name, [])).None? {
        SpoilByRemoval(f, h);
        return Around(f, Elem(h.name, []));
      }
      s := SpoilByStripping(f, h);
    } else {
      var i :| 0 <= i < |Kids(f)| && FirstOfName(Kids(f), i) && LeafString(Kids(f)[i]).None? && !Repeatable(Kids(f)[i]);
      var g := Kids(f)[i];
      var c := NotRepeatable(g);
      if Inert(g) { InertKeeps(g, c); }
      SpoilBelow(f, g, c);
      s := Around(f, Elem(Name(g), c.kids));
    }
  }

  /** Filtering twice is filtering once, on every tree, exactly for repeatable filters. */
  lemma RepeatableIff(f: Node)
    ensures Repeatable(f) <==> forall s :: SameTwice(f, s)
  {
    if Repeatable(f) {
      forall s ensures SameTwice(f, s) { if Filter(f, s).Some? { FilterTwice(f, s); } }
    } else {
      var s := NotRepeatable(f);
    }
  }

  /** Such as one where the first of two filters for `a` prunes the child whose content the other then misses. */
  lemma TwoForOneName()
    ensures exists f, s :: Filter(f, s).Some? && Filter(f, Filter(f, s).value).None?
  {
    var x := Elem("x", [Body("5")]);
    var g, h := Elem("a", [x]), Elem("a", [Body("1")]);
    var f, s := Elem("c", [g, h]), Elem("c", [h]);
    assert x in g.kids && LeafString(x) == Some("5") && LeafString(g).None?;
    assert h in f.kids && LeafString(h) == Some("1");
    assert !ContentMatchOne(x, h);
    assert Filter(g, h).None?;
    assert g in f.kids && Containments(f);
    assert FilterKid(f, h).None?;
    assert FilterKids(f, s.kids) == [];
    assert ContentMatchOne(g, s) && ContentMatchOne(h, s);
    assert Filter(f, s) == Some(Elem("c", []));
    assert !ContentMatchOne(h, Elem("c", []));
  }

  // ----- distinct names

  predicate DistinctNames(f: Node) {
    && (forall i, j :: 0 <= i < j < |Kids(f)| ==> Name(Kids(f)[i]) != Name(Kids(f)[j]))
    && (forall i :: 0 <= i < |Kids(f)| ==> DistinctNames(Kids(f)[i]))
  }

  lemma {:induction false} FindDistinct(kids: seq<Node>, g: Node)
    requires g in kids && forall i, j :: 0 <= i < j < |kids| ==> Name(kids[i]) != Name(kids[j])
    ensures Find(kids, Name(g)) == Some(g)
  {
    if kids[0] != g { FindDistinct(kids[1..], g); }
  }

  lemma {:induction false} DistinctIsRepeatable(f: Node)
    requires DistinctNames(f)
    ensures Repeatable(f)
  {
    forall g | g in Kids(f) ensures Find(Kids(f), Name(g)) == Some(g) { FindDistinct(Kids(f), g); }
    forall i | 0 <= i < |Kids(f)| ensures Repeatable(Kids(f)[i]) { DistinctIsRepeatable(Kids(f)[i]); }
  }

  /** In particular a request whose filter siblings have distinct names; removal is not asked for at the top. */
  lemma FilterTopTwice(f: Node, config: Node)
    requires DistinctNames(f)
    ensures FilterTop(f, FilterTop(f, config)) == FilterTop(f, config)
  {
    DistinctIsRepeatable(f);
    if Filter(f, config).Some? { FilterTwice(f, config); }
  }
}
