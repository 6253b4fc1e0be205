/** Extending an XPath with the path of a leafref, on strings as the backend does it, and where such paths lead. */
module LeafrefPath {
  import opened Optional

  // ----- strings

  /** The pieces between occurrences of `c`. */
  function Split(s: string, c: char): (r: seq<string>)
    ensures r != []
  {
    if s == "" then [""]
    else if s[0] == c then [""] + Split(s[1..], c)
    else var r := Split(s[1..], c); [[s[0]] + r[0]] + r[1..]
  }

  lemma {:induction false} SplitNone(s: string, c: char)
    requires c !in s
    ensures Split(s, c) == [s]
  {
    if s != "" {
      SplitNone(s[1..], c);
      assert [s[0]] + s[1..] == s;
    }
  }

  lemma {:induction false} SplitFree(s: string, c: char, d: char)
    requires d !in s
    ensures forall i :: 0 <= i < |Split(s, c)| ==> d !in Split(s, c)[i]
  {
    if s != "" {
      SplitFree(s[1..], c, d);
    }
  }

  lemma {:induction false} SplitPieces(s: string, c: char)
    ensures forall i :: 0 <= i < |Split(s, c)| ==> c !in Split(s, c)[i]
  {
    if s != "" {
      SplitPieces(s[1..], c);
    }
  }

  /** Prefix and identifier, at the first colon. */
  function NodeId(v: string): (Option<string>, string) {
    if v == "" then (None, "")
    else if v[0] == ':' then (Some(""), v[1..])
    else
      var (p, id) := NodeId(v[1..]);
      if p.None? then (None, v) else (Some([v[0]] + p.value), id)
  }

  lemma {:induction false} NodeIdJoin(p: string, id: string)
    requires ':' !in p
    ensures NodeId(p + ":" + id) == (Some(p), id)
  {
    var v := p + ":" + id;
    if p == "" {
      assert v[1..] == id;
    } else {
      assert v[1..] == p[1..] + ":" + id;
      NodeIdJoin(p[1..], id);
      assert [p[0]] + p[1..] == p;
    }
  }

  lemma {:induction false} NodeIdParts(v: string)
    ensures NodeId(v).0.Some? ==> ':' !in NodeId(v).0.value && forall c :: c in NodeId(v).0.value ==> c in v
    ensures forall c :: c in NodeId(v).1 ==> c in v
  {
    if v != "" {
      NodeIdParts(v[1..]);
    }
  }

  // ----- where paths lead

  datatype Move = Stay | Up | Down(prefix: string, id: string)

  function MoveOf(v: string, my: string): Move {
    var (p, id) := NodeId(v);
    if id == "." then Stay else if id == ".." then Up else Down(if p.Some? then p.value else my, id)
  }

  lemma {:induction false} NodeIdNone(id: string)
    requires ':' !in id
    ensures NodeId(id) == (None, id)
  {
    if id != "" { NodeIdNone(id[1..]); }
  }

  /** What a piece of a path means, with and without a prefix of its own. */
  lemma MovesAre(p: string, id: string, my: string)
    requires ':' !in p && ':' !in id
    ensures MoveOf(id, my) == (if id == "." then Stay else if id == ".." then Up else Down(my, id))
    ensures id != "." && id != ".." ==> MoveOf(p + ":" + id, my) == Down(p, id)
  {
    NodeIdNone(id);
    NodeIdJoin(p, id);
  }

  /** A location is the way down from the root; going up stops there. */
  function Step(loc: seq<Move>, m: Move): seq<Move> {
    match m
    case Stay => loc
    case Up => if loc == [] then [] else loc[..|loc| - 1]
    case Down(_, _) => loc + [m]
  }

  /** Empty pieces lead nowhere. */
  function Walk(loc: seq<Move>, vs: seq<string>, my: string): seq<Move>
    decreases |vs|
  {
    if vs == [] then loc
    else if vs[0] == "" then Walk(loc, vs[1..], my)
    else Walk(Step(loc, MoveOf(vs[0], my)), vs[1..], my)
  }

  function Target(path: string): seq<Move> { Walk([], Split(path, '/'), "") }

  lemma {:induction false} WalkOn(loc: seq<Move>, a: seq<string>, b: seq<string>, my: string)
    ensures Walk(loc, a + b, my) == Walk(Walk(loc, a, my), b, my)
    decreases |a|
  {
    if a == [] {
      assert a + b == b;
    } else {
      assert (a + b)[1..] == a[1..] + b;
      WalkOn(if a[0] == "" then loc else Step(loc, MoveOf(a[0], my)), a[1..], b, my);
    }
  }

  lemma WalkOne(loc: seq<Move>, a: seq<string>, v: string, my: string)
    requires v != ""
    ensures Walk(loc, a + [v], my) == Step(Walk(loc, a, my), MoveOf(v, my))
  {
    WalkOn(loc, a, [v], my);
    var l := Walk(loc, a, my);
    assert [v][1..] == [];
    assert Walk(Step(l, MoveOf(v, my)), [v][1..], my) == Step(l, MoveOf(v, my));
  }

  // ----- paths written out

  predicate Token(t: string) { t != "" && '/' !in t }

  predicate Tokens(ts: seq<string>) { forall i :: 0 <= i < |ts| ==> Token(ts[i]) }

  function Render(ts: seq<string>): string { if ts == [] then "" else Render(ts[..|ts| - 1]) + "/" + ts[|ts| - 1] }

  lemma RenderOne(ts: seq<string>, t: string)
    ensures Render(ts + [t]) == Render(ts) + "/" + t
  {
    assert (ts + [t])[..|ts|] == ts;
  }

  lemma {:induction false} SplitTail(a: string, c: char, b: string)
    requires c !in b
    ensures Split(a + [c] + b, c) == Split(a, c) + [b]
    decreases |a|
  {
    var s := a + [c] + b;
    if a == "" {
      assert s[1..] == b;
      SplitNone(b, c);
    } else {
      assert s[1..] == a[1..] + [c] + b;
      SplitTail(a[1..], c, b);
    }
  }

  lemma {:induction false} SplitRender(ts: seq<string>)
    requires Tokens(ts)
    ensures Split(Render(ts), '/') == [""] + ts
    decreases |ts|
  {
    if ts != [] {
      SplitRender(ts[..|ts| - 1]);
      SplitTail(Render(ts[..|ts| - 1]), '/', ts[|ts| - 1]);
    }
  }

  /** What a written path leads to is what its tokens lead to. */
  lemma TargetRender(ts: seq<string>)
    requires Tokens(ts)
    ensures Target(Render(ts)) == Walk([], ts, "")
  {
    SplitRender(ts);
    assert ([""] + ts)[1..] == ts;
  }

  // ----- appending

  function Qualified(v: string, my: string): string {
    var (p, id) := NodeId(v);
    (if p.Some? then p.value else my) + ":" + id
  }

  /** One step of the appended path. Leading ups shorten the path; after anything else they are appended like other
  steps. */
  function Next(ts: seq<string>, v: string, my: string, ups: bool): (seq<string>, bool) {
    if v == "" then (ts, ups)
    else
      match MoveOf(v, my)
      case Stay => (ts, false)
      case Up => if !ups then (ts + [".."], false) else (if ts == [] then [] else ts[..|ts| - 1], true)
      case Down(_, _) => (ts + [Qualified(v, my)], false)
  }

  function Append(ts: seq<string>, vs: seq<string>, my: string, ups: bool): seq<string>
    decreases |vs|
  {
    if vs == [] then ts else
    var n := Next(ts, vs[0], my, ups);
    Append(n.0, vs[1..], my, n.1)
  }

  /** Ups at the front each take a step off the path, down to the root, and leave no trace in it. */
  lemma {:induction false} LeadingUps(ts: seq<string>, n: nat, vs: seq<string>, my: string)
    ensures Append(ts, seq(n, _ => "..") + vs, my, true) == Append(ts[..if n < |ts| then |ts| - n else 0], vs, my, true)
    decreases n
  {
    var ups := seq(n, _ => "..");
    if n == 0 {
      assert ups + vs == vs && ts[..|ts|] == ts;
    } else {
      MovesAre("", "..", my);
      var rest, up := seq(n - 1, _ => ".."), if ts == [] then [] else ts[..|ts| - 1];
      assert (ups + vs)[0] == ".." && (ups + vs)[1..] == rest + vs;
      LeadingUps(up, n - 1, vs, my);
      assert up[..if n - 1 < |up| then |up| - (n - 1) else 0] == ts[..if n < |ts| then |ts| - n else 0];
    }
  }

  /** No token goes up or stays. */
  predicate Plain(ts: seq<string>) { forall i :: 0 <= i < |ts| ==> MoveOf(ts[i], "").Down? }

  lemma QualifiedMove(v: string, my: string)
    requires MoveOf(v, my).Down? && ':' !in my
    ensures MoveOf(Qualified(v, my), "") == MoveOf(v, my) && Qualified(v, my) != ""
  {
    var (p, id) := NodeId(v);
    NodeIdParts(v);
    NodeIdJoin(if p.Some? then p.value else my, id);
  }

  lemma QualifiedFree(v: string, my: string, c: char)
    requires c !in v && c !in my && c != ':'
    ensures c !in Qualified(v, my)
  {
    NodeIdParts(v);
  }

  lemma NodeIdUp()
    ensures MoveOf("..", "") == Up
  {
    assert ".."[1..] == "." && "."[1..] == "";
    assert NodeId(".") == (None, ".");
  }

  /** One step of it moves the target of the path as it moves a walker. */
  lemma NextMoves(ts: seq<string>, v: string, my: string, ups: bool)
    requires Tokens(ts) && (ups ==> Plain(ts)) && ':' !in my && v != ""
    ensures var n := Next(ts, v, my, ups);
      Walk([], n.0, "") == Step(Walk([], ts, ""), MoveOf(v, my)) && (n.1 ==> Plain(n.0))
  {
    match MoveOf(v, my) {
      case Stay =>
      case Up =>
        if !ups {
          NodeIdUp();
          WalkOne([], ts, "..", "");
        } else if ts != [] {
          assert ts == ts[..|ts| - 1] + [ts[|ts| - 1]];
          WalkOne([], ts[..|ts| - 1], ts[|ts| - 1], "");
        }
      case Down(_, _) =>
        QualifiedMove(v, my);
        WalkOne([], ts, Qualified(v, my), "");
    }
  }

  /** Walking the extended path is walking the base and then the appended steps. */
  lemma {:induction false} AppendMeaning(ts: seq<string>, vs: seq<string>, my: string, ups: bool)
    requires Tokens(ts) && (ups ==> Plain(ts)) && ':' !in my && '/' !in my
    requires forall i :: 0 <= i < |vs| ==> '/' !in vs[i]
    ensures Walk([], Append(ts, vs, my, ups), "") == Walk(Walk([], ts, ""), vs, my)
    decreases |vs|
  {
    if vs != [] {
      var n := Next(ts, vs[0], my, ups);
      if vs[0] != "" { NextMoves(ts, vs[0], my, ups); }
      NextTokens(ts, vs[0], my, ups);
      AppendMeaning(n.0, vs[1..], my, n.1);
    }
  }

  lemma {:induction false} AppendTokens(ts: seq<string>, vs: seq<string>, my: string, ups: bool)
    requires Tokens(ts) && '/' !in my && forall i :: 0 <= i < |vs| ==> '/' !in vs[i]
    ensures Tokens(Append(ts, vs, my, ups))
    decreases |vs|
  {
    if vs != [] {
      NextTokens(ts, vs[0], my, ups);
      AppendTokens(Next(ts, vs[0], my, ups).0, vs[1..], my, Next(ts, vs[0], my, ups).1);
    }
  }

  lemma NextTokens(ts: seq<string>, v: string, my: string, ups: bool)
    requires Tokens(ts) && '/' !in my && '/' !in v
    ensures Tokens(Next(ts, v, my, ups).0)
  {
    QualifiedFree(v, my, '/');
  }

  /** The extended path; an absolute one replaces the base. */
  function Extended(ts: seq<string>, path: string, my: string): string {
    Render(Append(if path != "" && path[0] == '/' then [] else ts, Split(path, '/'), my, true))
  }

  /** An extended path leads where walking the base and then the appended path leads. */
  lemma ExtendedTarget(ts: seq<string>, path: string, my: string)
    requires Tokens(ts) && Plain(ts) && ':' !in my && '/' !in my
    ensures Target(Extended(ts, path, my)) ==
            Walk(if path != "" && path[0] == '/' then [] else Target(Render(ts)), Split(path, '/'), my)
  {
    var base := if path != "" && path[0] == '/' then [] else ts;
    SplitPieces(path, '/');
    AppendTokens(base, Split(path, '/'), my, true);
    TargetRender(Append(base, Split(path, '/'), my, true));
    TargetRender(ts);
    AppendMeaning(base, Split(path, '/'), my, true);
  }

  /** Cuts the buffer at its last slash. */
  method DropLast(cb: string) returns (r: string)
    ensures '/' !in cb ==> r == cb
    ensures forall a: string, b: string :: '/' !in b && cb == a + "/" + b ==> r == a
  {
    for j := |cb| downto 0
      invariant '/' !in cb[j..]
    {
      if cb[j] == '/' {
        forall a: string, b: string | '/' !in b && cb == a + "/" + b ensures cb[..j] == a { LastSlash(cb, j, a, b); }
        return cb[..j];
      }
    }
    return cb;
  }

  lemma LastSlash(s: string, j: nat, a: string, b: string)
    requires j < |s| && s[j] == '/' && '/' !in s[j + 1..] && '/' !in b && s == a + "/" + b
    ensures s[..j] == a
  {
    AfterIn(s, |a|, j);
    AfterIn(s, j, |a|);
    assert s[|a|] == '/' && s[|a| + 1..] == b;
  }

  lemma AfterIn(s: string, j: nat, k: nat)
    requires j < |s| && k < |s|
    ensures j < k ==> s[k] in s[j + 1..]
  {
    if j < k { assert s[k] == s[j + 1..][k - j - 1]; }
  }

  lemma RenderLast(ts: seq<string>)
    requires Tokens(ts)
    ensures if ts == [] then Render(ts) == "" else Render(ts) == Render(ts[..|ts| - 1]) + "/" + ts[|ts| - 1]
  {
  }

  method XPathAppend(cb: string, path: string, my: string, ghost ts: seq<string>) returns (r: string)
    ensures Tokens(ts) && '/' !in my && cb == Render(ts) ==> r == Extended(ts, path, my)
  {
    hide Split, MoveOf, Qualified;
    ghost var good := Tokens(ts) && '/' !in my && cb == Render(ts);
    r := cb;
    if path == "" {
      EmptyPath(ts, my);
      return;
    }
    var vec := Split(path, '/');
    SplitPieces(path, '/');
    ghost var cur := ts;
    if path[0] == '/' { r, cur := "", []; }
    var initialups := true;
    for i := 0 to |vec|
      invariant good ==> Tokens(cur) && r == Render(cur)
      invariant good ==>
        Append(cur, vec[i..], my, initialups) == Append(if path[0] == '/' then [] else ts, vec, my, true)
    {
      var v := vec[i];
      ghost var next := Next(cur, v, my, initialups);
      if good {
        assert vec[i..][1..] == vec[i + 1..];
        NextTokens(cur, v, my, initialups);
        RenderLast(cur);
        RenderOne(cur, "..");
        RenderOne(cur, Qualified(v, my));
      }
      if v != "" {
        match MoveOf(v, my) {
          case Stay => initialups := false;
          case Up =>
            if initialups { r := DropLast(r); } else { r := r + "/" + ".."; }
          case Down(_, _) =>
            initialups := false;
            r := r + "/" + Qualified(v, my);
        }
      }
      cur := next.0;
    }
  }

  lemma EmptyPath(ts: seq<string>, my: string)
    ensures Extended(ts, "", my) == Render(ts)
  {
    assert [""][1..] == [];
    assert Append(ts, [""], my, true) == Append(ts, [], my, true);
  }

  // ----- unions

  /** The extended paths of the members that are leafrefs. */
  function ExtendedAll(ts: seq<string>, members: seq<Option<string>>, my: string): seq<string> {
    if members == [] then [] else
    var l := members[|members| - 1];
    ExtendedAll(ts, members[..|members| - 1], my) + if l.Some? then [Extended(ts, l.value, my)] else []
  }

  function Joined(paths: seq<string>): string {
    if paths == [] then ""
    else if |paths| == 1 then paths[0]
    else Joined(paths[..|paths| - 1]) + " | " + paths[|paths| - 1]
  }

  lemma JoinedNone()
    ensures Joined([]) == ""
  {
  }

  lemma JoinedMore(paths: seq<string>, one: string)
    ensures Joined(paths + [one]) == if paths == [] then one else Joined(paths) + " | " + one
  {
    assert (paths + [one])[..|paths|] == paths;
  }

  /** Without leafrefs among the members the path is left as it was. */
  method LeafrefAppendUnion(cb: string, members: seq<Option<string>>, my: string, ghost ts: seq<string>)
    returns (r: string)
    ensures Tokens(ts) && '/' !in my && cb == Render(ts) ==>
      var paths := ExtendedAll(ts, members, my); r == if paths == [] then cb else Joined(paths)
  {
    hide Extended, Joined;
    ghost var good := Tokens(ts) && '/' !in my && cb == Render(ts);
    r := "";
    assert Joined([]) == "" by { JoinedNone(); }
    var first := true;
    for i := 0 to |members|
      invariant good ==> r == Joined(ExtendedAll(ts, members[..i], my))
      invariant good ==> (first <==> ExtendedAll(ts, members[..i], my) == [])
    {
      ghost var paths := ExtendedAll(ts, members[..i], my);
      assert members[..i + 1][..i] == members[..i];
      assert ExtendedAll(ts, members[..i + 1], my) ==
        paths + if members[i].Some? then [Extended(ts, members[i].value, my)] else [];
      if members[i].None? {
        assert ExtendedAll(ts, members[..i + 1], my) == paths;
      } else {
        var one := XPathAppend(cb, members[i].value, my, ts);
        JoinedMore(paths, one);
        assert good && first ==> r == "";
        if !first { r := r + " | "; }
        r := r + one;
        first := false;
      }
    }
    assert members[..|members|] == members;
    if first { r := cb; }
  }

  /** The operands of a union: what is between the bars, less the space next to each. */
  function Operands(s: string): seq<string> {
    var ps := Split(s, '|');
    seq(|ps|, i requires 0 <= i < |ps| => Trim(ps[i], i > 0, i < |ps| - 1))
  }

  function Trim(p: string, front: bool, back: bool): string {
    var q := if front && p != "" then p[1..] else p;
    if back && q != "" then q[..|q| - 1] else q
  }

  ghost function Targets(s: string): set<seq<Move>> { set i | 0 <= i < |Operands(s)| :: Target(Operands(s)[i]) }

  predicate Bare(s: string) { '|' !in s }

  function Padded(p: string, front: bool, back: bool): string {
    (if front then " " else "") + p + if back then " " else ""
  }

  lemma {:induction false} SplitExtend(a: string, c: char, b: string)
    requires c !in b
    ensures var r := Split(a, c); Split(a + b, c) == r[..|r| - 1] + [r[|r| - 1] + b]
    decreases |a|
  {
    if a == "" {
      assert a + b == b;
      SplitNone(b, c);
    } else {
      assert (a + b)[1..] == a[1..] + b;
      SplitExtend(a[1..], c, b);
      var q, n := Split(a[1..], c), |Split(a[1..], c)| - 1;
      if a[0] != c && n == 0 {
        assert Split(a, c) == [[a[0]] + q[0]];
        assert [a[0]] + (q[0] + b) == [a[0]] + q[0] + b;
      } else if a[0] != c {
        assert Split(a, c) == [[a[0]] + q[0]] + q[1..];
        assert Split(a + b, c) == [[a[0]] + q[0]] + (q[..n] + [q[n] + b])[1..];
      }
    }
  }

  lemma {:induction false} JoinedSplit(paths: seq<string>)
    requires paths != [] && forall i :: 0 <= i < |paths| ==> Bare(paths[i])
    ensures var ps := Split(Joined(paths), '|');
      |ps| == |paths| && forall i :: 0 <= i < |ps| ==> ps[i] == Padded(paths[i], i > 0, i < |ps| - 1)
    decreases |paths|
  {
    hide Split;
    var n := |paths| - 1;
    var l := paths[n];
    if n == 0 {
      SplitNone(l, '|');
    } else {
      var a := Joined(paths[..n]);
      JoinedSplit(paths[..n]);
      var r := Split(a, '|');
      SplitExtend(a, '|', " ");
      SplitTail(a + " ", '|', " " + l);
      assert Joined(paths) == a + " " + "|" + (" " + l);
      var ps := Split(Joined(paths), '|');
      assert ps == r[..n - 1] + [r[n - 1] + " "] + [" " + l];
      forall i | 0 <= i < |ps| ensures ps[i] == Padded(paths[i], i > 0, i < |ps| - 1) {
        if i < n { assert r[i] == Padded(paths[..n][i], i > 0, i < n - 1); }
      }
    }
  }

  lemma JoinedOperands(paths: seq<string>)
    requires paths != [] && forall i :: 0 <= i < |paths| ==> Bare(paths[i])
    ensures Operands(Joined(paths)) == paths
  {
    hide Split, Joined;
    JoinedSplit(paths);
    forall i | 0 <= i < |paths| ensures Operands(Joined(paths))[i] == paths[i] {
      TrimPadded(paths[i], i > 0, i < |paths| - 1);
    }
  }

  lemma TrimPadded(p: string, front: bool, back: bool)
    ensures Trim(Padded(p, front, back), front, back) == p
  {
  }

  lemma {:induction false} RenderBare(ts: seq<string>)
    requires forall i :: 0 <= i < |ts| ==> Bare(ts[i])
    ensures Bare(Render(ts))
    decreases |ts|
  {
    if ts != [] { RenderBare(ts[..|ts| - 1]); }
  }

  lemma {:induction false} AppendBare(ts: seq<string>, vs: seq<string>, my: string, ups: bool)
    requires Bare(my) && (forall i :: 0 <= i < |ts| ==> Bare(ts[i])) && (forall i :: 0 <= i < |vs| ==> Bare(vs[i]))
    ensures forall i :: 0 <= i < |Append(ts, vs, my, ups)| ==> Bare(Append(ts, vs, my, ups)[i])
    decreases |vs|
  {
    if vs != [] {
      QualifiedFree(vs[0], my, '|');
      AppendBare(Next(ts, vs[0], my, ups).0, vs[1..], my, Next(ts, vs[0], my, ups).1);
    }
  }

  lemma ExtendedBare(ts: seq<string>, path: string, my: string)
    requires Bare(my) && Bare(path) && forall i :: 0 <= i < |ts| ==> Bare(ts[i])
    ensures Bare(Extended(ts, path, my))
  {
    var base := if path != "" && path[0] == '/' then [] else ts;
    SplitFree(path, '/', '|');
    AppendBare(base, Split(path, '/'), my, true);
    RenderBare(Append(base, Split(path, '/'), my, true));
  }

  lemma {:induction false} ExtendedAllAre(ts: seq<string>, members: seq<Option<string>>, my: string)
    requires Bare(my) && forall i :: 0 <= i < |ts| ==> Bare(ts[i])
    requires forall i :: 0 <= i < |members| && members[i].Some? ==> Bare(members[i].value)
    ensures forall i :: 0 <= i < |ExtendedAll(ts, members, my)| ==> Bare(ExtendedAll(ts, members, my)[i])
    ensures forall x :: x in ExtendedAll(ts, members, my) <==>
      exists i :: 0 <= i < |members| && members[i].Some? && x == Extended(ts, members[i].value, my)
    decreases |members|
  {
    if members != [] {
      var n := |members| - 1;
      ExtendedAllAre(ts, members[..n], my);
      if members[n].Some? { ExtendedBare(ts, members[n].value, my); }
    }
  }

  /** The extended path of a union type leads exactly to the targets of its leafref members. */
  lemma UnionTargets(ts: seq<string>, members: seq<Option<string>>, my: string)
    requires Bare(my) && forall i :: 0 <= i < |ts| ==> Bare(ts[i])
    requires forall i :: 0 <= i < |members| && members[i].Some? ==> Bare(members[i].value)
    requires exists i :: 0 <= i < |members| && members[i].Some?
    ensures forall t :: t in Targets(Joined(ExtendedAll(ts, members, my))) <==>
      exists i :: 0 <= i < |members| && members[i].Some? && t == Target(Extended(ts, members[i].value, my))
  {
    hide Target, Extended, Operands;
    var paths := ExtendedAll(ts, members, my);
    ExtendedAllAre(ts, members, my);
    var k :| 0 <= k < |members| && members[k].Some?;
    assert Extended(ts, members[k].value, my) in paths;
    JoinedOperands(paths);
    var ops := Operands(Joined(paths));
    forall t | t in Targets(Joined(paths))
      ensures exists i :: 0 <= i < |members| && members[i].Some? && t == Target(Extended(ts, members[i].value, my))
    {
      var j :| 0 <= j < |ops| && t == Target(ops[j]);
      assert ops[j] in paths;
    }
    forall i | 0 <= i < |members| && members[i].Some?
      ensures Target(Extended(ts, members[i].value, my)) in Targets(Joined(paths))
    {
      assert Extended(ts, members[i].value, my) in paths;
      var j :| 0 <= j < |paths| && paths[j] == Extended(ts, members[i].value, my);
      assert ops[j] == paths[j];
    }
  }
}
