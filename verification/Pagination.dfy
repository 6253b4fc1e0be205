/** List pagination: turning a list around in place, cutting one page out of it, and a client that asks for page
after page. */
module Pagination {

  // ----- direction "backwards"

  function Middle<T>(s: seq<T>): seq<T>
    requires |s| >= 2
  {
    s[1..|s| - 1]
  }

  /** From both ends inwards: an element on the left is exchanged with the child on the right if that is an element,
  and both are passed; a non-element on the left is passed alone. */
  function Turned<T>(s: seq<T>, elem: T -> bool): (r: seq<T>)
    ensures |r| == |s|
    decreases |s|
  {
    if s == [] then []
    else if !elem(s[0]) then [s[0]] + Turned(s[1..], elem)
    else if |s| == 1 then s
    else if elem(s[|s| - 1]) then [s[|s| - 1]] + Turned(Middle(s), elem) + [s[0]]
    else [s[0]] + Turned(Middle(s), elem) + [s[|s| - 1]]
  }

  /** The window from `i` to `j` is still to be turned. */
  ghost predicate TurnedOutside<T>(done: seq<T>, t: seq<T>, i: nat, j: nat, elem: T -> bool)
    requires i <= |t| && j <= |t|
  {
    if i <= j then t[..i] + Turned(t[i..j], elem) + t[j..] == done else t == done
  }

  method Backwards<T>(a: array<T>, elem: T -> bool)
    modifies a
    ensures a[..] == Turned(old(a[..]), elem)
  {
    hide Turned, TurnedOutside;
    var i, j := 0, a.Length;
    ghost var done := Turned(a[..], elem);
    Whole(a[..], elem);
    while i < j
      invariant 0 <= i <= a.Length && 0 <= j <= a.Length && i <= j + 1
      invariant TurnedOutside(done, a[..], i, j, elem)
      decreases j - i
    {
      ghost var s := a[..];
      var x := a[i];
      if !elem(x) {
        PassOne(done, s, i, j, elem);
      } else {
        j := j - 1;
        PassTwo(done, s, i, j, elem);
        if j > i {
          var y := a[j];
          if elem(y) {
            a[j] := x;
            a[i] := y;
            assert a[..] == s[j := x][i := y];
          }
        }
      }
      i := i + 1;
    }
    Nothing(done, a[..], i, j, elem);
  }

  lemma Whole<T>(s: seq<T>, elem: T -> bool)
    ensures TurnedOutside(Turned(s, elem), s, 0, |s|, elem)
  {
    assert s[0..|s|] == s && s[..0] + Turned(s, elem) + s[|s|..] == Turned(s, elem);
  }

  lemma Nothing<T>(done: seq<T>, s: seq<T>, i: nat, j: nat, elem: T -> bool)
    requires j <= i <= |s| && TurnedOutside(done, s, i, j, elem)
    ensures s == done
  {
    if i == j { assert s[..i] + [] + s[j..] == s; }
  }

  lemma PassOne<T>(done: seq<T>, s: seq<T>, i: nat, j: nat, elem: T -> bool)
    requires i < j <= |s| && !elem(s[i]) && TurnedOutside(done, s, i, j, elem)
    ensures TurnedOutside(done, s, i + 1, j, elem)
  {
    var t := Turned(s[i + 1..j], elem);
    assert s[i..j][1..] == s[i + 1..j] && s[..i + 1] == s[..i] + [s[i]];
    assert s[..i] + ([s[i]] + t) + s[j..] == s[..i] + [s[i]] + t + s[j..];
  }

  lemma TurnedSingle<T>(x: T, elem: T -> bool)
    requires elem(x)
    ensures Turned([x], elem) == [x] && Turned([], elem) == []
  {
  }

  lemma TurnedEnds<T>(w: seq<T>, elem: T -> bool)
    requires |w| > 1 && elem(w[0])
    ensures var x, y := w[0], w[|w| - 1];
      Turned(w, elem) == (if elem(y) then [y] else [x]) + Turned(Middle(w), elem) + (if elem(y) then [x] else [y])
  {
  }

  lemma PassTwo<T>(done: seq<T>, s: seq<T>, i: nat, j: nat, elem: T -> bool)
    requires i <= j < |s| && elem(s[i]) && TurnedOutside(done, s, i, j + 1, elem)
    ensures TurnedOutside(done, if i < j && elem(s[j]) then s[j := s[i]][i := s[j]] else s, i + 1, j, elem)
  {
    hide Turned;
    var w := s[i..j + 1];
    if i == j {
      TurnedSingle(s[i], elem);
      assert w == [s[i]];
      assert s[..i] + [s[i]] + s[i + 1..] == s;
    } else {
      var r := if elem(s[j]) then s[j := s[i]][i := s[j]] else s;
      var t := Turned(Middle(w), elem);
      TurnedEnds(w, elem);
      SliceOfSlice(s, i, j + 1, 1, j - i);
      assert |w| == j + 1 - i && s[i + 1..j] == r[i + 1..j];
      assert w[0] == s[i] && w[|w| - 1] == s[j];
      assert r[..i + 1] == s[..i] + [r[i]] && r[j..] == [r[j]] + s[j + 1..];
      Regroup(s[..i], r[i], t, r[j], s[j + 1..]);
    }
  }

  lemma SliceOfSlice<T>(s: seq<T>, i: nat, j: nat, a: nat, b: nat)
    requires i <= j <= |s| && a <= b <= j - i
    ensures s[i..j][a..b] == s[i + a..i + b]
  {
    var w := s[i..j];
    assert forall k :: 0 <= k < b - a ==> w[a..b][k] == s[i + a..i + b][k];
  }

  lemma Regroup<T>(p: seq<T>, x: T, m: seq<T>, y: T, q: seq<T>)
    ensures p + ([x] + m + [y]) + q == p + [x] + m + ([y] + q)
  {
  }

  lemma Ends<T>(x: T, m: seq<T>, y: T)
    ensures multiset([x] + m + [y]) == multiset{x, y} + multiset(m)
  {
  }

  lemma FrontPermutes<T>(x: T, m: seq<T>, t: seq<T>)
    requires multiset(t) == multiset(m)
    ensures multiset([x] + t) == multiset([x] + m)
  {
  }

  lemma EndsPermute<T>(x: T, m: seq<T>, y: T, t: seq<T>, swap: bool)
    requires multiset(t) == multiset(m)
    ensures multiset((if swap then [y] else [x]) + t + (if swap then [x] else [y])) == multiset([x] + m + [y])
  {
    Ends(x, m, y);
    if swap { Ends(y, t, x); } else { Ends(x, t, y); }
  }

  lemma TurnedFront<T>(s: seq<T>, elem: T -> bool)
    requires s != [] && (!elem(s[0]) || |s| == 1)
    ensures Turned(s, elem) == [s[0]] + Turned(s[1..], elem) && s == [s[0]] + s[1..]
  {
  }

  lemma Surrounded<T>(s: seq<T>)
    requires |s| > 1
    ensures s == [s[0]] + Middle(s) + [s[|s| - 1]]
  {
  }

  /** Children are only rearranged. */
  lemma {:induction false} TurnedPermutes<T>(s: seq<T>, elem: T -> bool)
    ensures multiset(Turned(s, elem)) == multiset(s)
    decreases |s|
  {
    hide Turned, Middle;
    if s == [] {
      TurnedNone(elem);
    } else if !elem(s[0]) || |s| == 1 {
      TurnedPermutes(s[1..], elem);
      TurnedFront(s, elem);
      FrontPermutes(s[0], s[1..], Turned(s[1..], elem));
    } else {
      Surrounded(s);
      TurnedPermutes(Middle(s), elem);
      TurnedEnds(s, elem);
      EndsPermute(s[0], Middle(s), s[|s| - 1], Turned(Middle(s), elem), elem(s[|s| - 1]));
    }
  }

  lemma TurnedNone<T>(elem: T -> bool)
    ensures Turned<T>([], elem) == []
  {
  }

  /** Non-elements stay where they are, and elements are only put in the places of elements. */
  lemma {:induction false} TurnedKeepsPlaces<T>(s: seq<T>, elem: T -> bool, k: nat)
    requires k < |s|
    ensures var r := Turned(s, elem); elem(r[k]) == elem(s[k]) && (!elem(s[k]) ==> r[k] == s[k])
    decreases |s|
  {
    if !elem(s[0]) {
      if k > 0 { TurnedKeepsPlaces(s[1..], elem, k - 1); }
    } else if 0 < k < |s| - 1 {
      TurnedKeepsPlaces(Middle(s), elem, k - 1);
    }
  }

  lemma EndsTwice<T>(s: seq<T>, elem: T -> bool)
    requires |s| > 1 && elem(s[0]) && Turned(Turned(Middle(s), elem), elem) == Middle(s)
    ensures Turned(Turned(s, elem), elem) == s
  {
    hide Turned;
    var x, m, y := s[0], Middle(s), s[|s| - 1];
    var t, r := Turned(m, elem), Turned(s, elem);
    TurnedEnds(s, elem);
    assert r[0] == (if elem(y) then y else x) && r[|r| - 1] == (if elem(y) then x else y) && Middle(r) == t;
    TurnedEnds(r, elem);
    assert s == [x] + m + [y];
  }

  /** Turning around twice gives the list back, wherever the non-elements are. */
  lemma {:induction false} TurnedTwice<T>(s: seq<T>, elem: T -> bool)
    ensures Turned(Turned(s, elem), elem) == s
    decreases |s|
  {
    if s != [] {
      if !elem(s[0]) {
        TurnedTwice(s[1..], elem);
        assert Turned(s, elem)[1..] == Turned(s[1..], elem);
      } else if |s| > 1 {
        TurnedTwice(Middle(s), elem);
        EndsTwice(s, elem);
      }
    }
  }

  // ----- when it reverses

  function Elems<T>(s: seq<T>, elem: T -> bool): (r: seq<T>)
    ensures |r| <= |s|
  {
    if s == [] then [] else (if elem(s[0]) then [s[0]] else []) + Elems(s[1..], elem)
  }

  function Reverse<T>(s: seq<T>): seq<T> { if s == [] then [] else Reverse(s[1..]) + [s[0]] }

  /** The last `c` children are elements. */
  predicate LastAre<T>(s: seq<T>, c: nat, elem: T -> bool) { forall k :: 0 <= |s| - c <= k < |s| ==> elem(s[k]) }

  /** The children at the end, half as many as there are elements, are elements. */
  predicate ElementsLast<T>(s: seq<T>, elem: T -> bool) { LastAre(s, |Elems(s, elem)| / 2, elem) }

  lemma LastOfTail<T>(s: seq<T>, c: nat, elem: T -> bool)
    requires c < |s|
    ensures LastAre(s, c, elem) <==> LastAre(s[1..], c, elem)
  {
    assert forall k :: 0 <= k < |s| - 1 ==> s[1..][k] == s[k + 1];
    if LastAre(s[1..], c, elem) {
      forall k | |s| - c <= k < |s| ensures elem(s[k]) { assert s[k] == s[1..][k - 1]; }
    }
  }

  lemma LastOfMiddle<T>(s: seq<T>, c: nat, elem: T -> bool)
    requires 0 < c < |s| && |s| > 1 && elem(s[|s| - 1])
    ensures LastAre(s, c, elem) <==> LastAre(Middle(s), c - 1, elem)
  {
    var m := Middle(s);
    assert forall k :: 0 <= k < |m| ==> m[k] == s[k + 1];
    if LastAre(m, c - 1, elem) {
      forall k | |s| - c <= k < |s| ensures elem(s[k]) { if k < |s| - 1 { assert s[k] == m[k - 1]; } }
    }
  }

  predicate DistinctElems<T(==)>(s: seq<T>, elem: T -> bool) {
    forall i, j :: 0 <= i < j < |s| && elem(s[i]) && elem(s[j]) ==> s[i] != s[j]
  }

  lemma {:induction false} ElemsConcat<T>(a: seq<T>, b: seq<T>, elem: T -> bool)
    ensures Elems(a + b, elem) == Elems(a, elem) + Elems(b, elem)
    decreases |a|
  {
    if a == [] {
      assert a + b == b && [] + Elems(b, elem) == Elems(b, elem);
    } else {
      var h := if elem(a[0]) then [a[0]] else [];
      ElemsConcat(a[1..], b, elem);
      assert (a + b)[0] == a[0] && (a + b)[1..] == a[1..] + b;
      assert Elems(a + b, elem) == h + (Elems(a[1..], elem) + Elems(b, elem));
      assert h + (Elems(a[1..], elem) + Elems(b, elem)) == (h + Elems(a[1..], elem)) + Elems(b, elem);
    }
  }

  lemma {:induction false} ReverseConcat<T>(a: seq<T>, b: seq<T>)
    ensures Reverse(a + b) == Reverse(b) + Reverse(a) && |Reverse(a)| == |a|
    decreases |a|
  {
    if a == [] {
      assert a + b == b;
    } else {
      ReverseConcat(a[1..], b);
      assert (a + b)[1..] == a[1..] + b;
    }
  }

  lemma ElemsEnds<T>(x: T, m: seq<T>, y: T, elem: T -> bool)
    requires elem(x)
    ensures Elems([x] + m + [y], elem) == [x] + Elems(m, elem) + if elem(y) then [y] else []
  {
    ElemsConcat([x], m, elem);
    ElemsConcat([x] + m, [y], elem);
    assert Elems([x], elem) == [x] && Elems([y], elem) == if elem(y) then [y] else [];
  }

  lemma ReverseEnds<T>(x: T, m: seq<T>, y: T)
    ensures Reverse([x] + m + [y]) == [y] + Reverse(m) + [x]
  {
    ReverseConcat([x], m);
    ReverseConcat([x] + m, [y]);
    assert Reverse([x]) == [x] && Reverse([y]) == [y];
  }

  lemma {:induction false} ElemsAre<T>(s: seq<T>, elem: T -> bool)
    ensures forall v :: v in Elems(s, elem) ==> v in s && elem(v)
  {
    if s != [] { ElemsAre(s[1..], elem); }
  }

  /** The elements are reversed exactly when enough of them stand at the end. */
  lemma {:induction false} TurnedReverses<T>(s: seq<T>, elem: T -> bool)
    requires DistinctElems(s, elem)
    ensures Elems(Turned(s, elem), elem) == Reverse(Elems(s, elem)) <==> ElementsLast(s, elem)
    decreases |s|
  {
    if s == [] {
    } else if !elem(s[0]) {
      TurnedReverses(s[1..], elem);
      assert s == [s[0]] + s[1..];
      SkipOne(s[0], s[1..], elem);
    } else if |s| > 1 {
      var m := Middle(s);
      assert s == [s[0]] + m + [s[|s| - 1]];
      TurnedReverses(m, elem);
      if elem(s[|s| - 1]) {
        BothEnds(s[0], m, s[|s| - 1], elem);
      } else {
        LeftEnd(s[0], m, s[|s| - 1], elem);
      }
    }
  }

  /** Two elements before a non-element stay as they are. */
  lemma NotReversed()
    ensures exists s: seq<int>, elem: int -> bool :: Elems(Turned(s, elem), elem) != Reverse(Elems(s, elem))
  {
    var s, elem := [1, 2, 0], (x: int) => x > 0;
    assert s[1..] == [2, 0] && s[1..][1..] == [0] && s[1..][1..][1..] == [];
    assert Elems(s, elem) == [1, 2];
    assert !ElementsLast(s, elem) by { assert !elem(s[2]); }
    TurnedReverses(s, elem);
  }

  lemma ElemsSkip<T>(x: T, m: seq<T>, elem: T -> bool)
    requires !elem(x)
    ensures Elems([x] + m, elem) == Elems(m, elem)
  {
    assert ([x] + m)[1..] == m;
  }

  lemma SkipOne<T>(x: T, m: seq<T>, elem: T -> bool)
    requires !elem(x)
    requires Elems(Turned(m, elem), elem) == Reverse(Elems(m, elem)) <==> ElementsLast(m, elem)
    ensures var s := [x] + m; Elems(Turned(s, elem), elem) == Reverse(Elems(s, elem)) <==> ElementsLast(s, elem)
  {
    hide Elems, Reverse, LastAre;
    var s := [x] + m;
    assert s[1..] == m;
    ElemsSkip(x, m, elem);
    ElemsSkip(x, Turned(m, elem), elem);
    LastOfTail(s, |Elems(m, elem)| / 2, elem);
  }

  lemma Between<T>(x: T, a: seq<T>, b: seq<T>, y: T)
    ensures [x] + a + [y] == [x] + b + [y] <==> a == b
  {
    var c, d := [x] + a + [y], [x] + b + [y];
    assert c[1..|c| - 1] == a && d[1..|d| - 1] == b;
  }

  lemma BothEnds<T>(x: T, m: seq<T>, y: T, elem: T -> bool)
    requires elem(x) && elem(y)
    requires Elems(Turned(m, elem), elem) == Reverse(Elems(m, elem)) <==> ElementsLast(m, elem)
    ensures var s := [x] + m + [y]; Elems(Turned(s, elem), elem) == Reverse(Elems(s, elem)) <==> ElementsLast(s, elem)
  {
    hide Elems, Reverse, LastAre;
    var s, t, e := [x] + m + [y], Turned(m, elem), Elems(m, elem);
    assert Middle(s) == m;
    ElemsEnds(x, m, y, elem);
    ElemsEnds(y, t, x, elem);
    ReverseEnds(x, e, y);
    Between(y, Elems(t, elem), Reverse(e), x);
    LastOfMiddle(s, |Elems(s, elem)| / 2, elem);
  }

  /** A single element, with a non-element at the end, stays where it is. */
  lemma OneLeft<T>(x: T, m: seq<T>, y: T, elem: T -> bool)
    requires elem(x) && !elem(y) && Elems(m, elem) == []
    requires Elems(Turned(m, elem), elem) == Reverse(Elems(m, elem)) <==> ElementsLast(m, elem)
    ensures var s := [x] + m + [y]; Elems(Turned(s, elem), elem) == Reverse(Elems(s, elem)) && ElementsLast(s, elem)
  {
    hide Elems;
    var s, t := [x] + m + [y], Turned(m, elem);
    assert Middle(s) == m;
    ElemsEnds(x, m, y, elem);
    ElemsEnds(x, t, y, elem);
  }

  /** One of several, with a non-element at the end, stays first and so is not reversed. */
  lemma FirstStays<T>(x: T, m: seq<T>, y: T, elem: T -> bool)
    requires elem(x) && !elem(y) && Elems(m, elem) != [] && x !in Elems(m, elem)
    ensures var s := [x] + m + [y]; Elems(Turned(s, elem), elem) != Reverse(Elems(s, elem)) && !ElementsLast(s, elem)
  {
    hide Elems, Reverse;
    var s, t, e := [x] + m + [y], Turned(m, elem), Elems(m, elem);
    assert Middle(s) == m;
    ElemsEnds(x, m, y, elem);
    ElemsEnds(x, t, y, elem);
    assert s[|s| - 1] == y;
    LastFirst([x] + e);
    assert Elems(s, elem) == [x] + e && ([x] + e)[|e|] == e[|e| - 1] && e[|e| - 1] in e;
    assert Elems(Turned(s, elem), elem)[0] == x;
  }

  lemma LastFirst<T>(s: seq<T>)
    requires s != []
    ensures |Reverse(s)| == |s| && Reverse(s)[0] == s[|s| - 1]
  {
    var a, v := s[..|s| - 1], s[|s| - 1];
    assert s == a + [v];
    ReverseConcat(a, [v]);
    assert Reverse([v]) == [v];
  }

  lemma LeftEnd<T>(x: T, m: seq<T>, y: T, elem: T -> bool)
    requires elem(x) && !elem(y) && DistinctElems([x] + m + [y], elem)
    requires Elems(Turned(m, elem), elem) == Reverse(Elems(m, elem)) <==> ElementsLast(m, elem)
    ensures var s := [x] + m + [y]; Elems(Turned(s, elem), elem) == Reverse(Elems(s, elem)) <==> ElementsLast(s, elem)
  {
    hide Turned, Reverse, ElementsLast, Elems;
    if Elems(m, elem) == [] {
      OneLeft(x, m, y, elem);
    } else {
      var s := [x] + m + [y];
      ElemsAre(m, elem);
      forall k | 0 <= k < |m| && elem(m[k]) ensures m[k] != x { assert s[0] == x && s[k + 1] == m[k]; }
      FirstStays(x, m, y, elem);
    }
  }

  // ----- pages

  const UINT32_LIMIT: nat := 0x1_0000_0000
  const INT32_LIMIT: nat := 0x8000_0000

  /** The entries from `offset` on, at most `limit` of them; no limit if it is 0. The bound is computed in 32 bits. */
  function Page<T>(list: seq<T>, offset: nat, limit: nat): seq<T> {
    var sum := (offset + limit) % UINT32_LIMIT;
    var upper := if limit == 0 || sum > |list| then |list| else sum;
    if offset < upper then list[offset..upper] else []
  }

  method GetPage<T>(list: seq<T>, offset: nat, limit: nat) returns (page: seq<T>)
    requires |list| < INT32_LIMIT && offset < UINT32_LIMIT && limit < UINT32_LIMIT
    ensures page == Page(list, offset, limit)
  {
    var upper := |list|;
    if limit != 0 {
      upper := (offset + limit) % UINT32_LIMIT;
      if upper > |list| { upper := |list|; }
    }
    page := [];
    var i := offset;
    while i < upper
      invariant offset <= i && (offset < upper ==> i <= upper)
      invariant page == if offset < upper then list[offset..i] else []
    {
      page := page + [list[i]];
      i := i + 1;
    }
  }

  /** Page after page until one is not full: the pages together are the list, each entry once and in order. */
  method Paginate<T>(list: seq<T>, limit: nat) returns (all: seq<T>)
    requires 0 < limit < UINT32_LIMIT && |list| < INT32_LIMIT
    ensures all == list
  {
    hide Page;
    all := [];
    var i := 0;
    while true
      invariant 0 <= i && limit * i <= |list| && all == list[..limit * i]
      decreases |list| - limit * i
    {
      var offset := (limit * i) % UINT32_LIMIT;
      Unwrapped(list, limit, i);
      var page := GetPage(list, offset, limit);
      PageIs(list, offset, limit);
      all := all + page;
      if |page| != limit { return; }
      i := i + 1;
    }
  }

  lemma Unwrapped<T>(list: seq<T>, limit: nat, i: nat)
    requires 0 < limit && |list| < INT32_LIMIT && limit * i <= |list|
    ensures (limit * i) % UINT32_LIMIT == limit * i && limit * (i + 1) == limit * i + limit
    ensures i == 0 || limit <= |list|
  {
    if i > 0 { assert limit * i == limit * (i - 1) + limit; }
  }

  /** The entries asked for: none past the end, and all the rest without a limit or with one that goes past it. */
  function Wanted<T>(list: seq<T>, offset: nat, limit: nat): seq<T> {
    if offset >= |list| then []
    else if limit == 0 || limit >= |list| - offset then list[offset..]
    else list[offset..][..limit]
  }

  /** A page is what was asked for exactly unless it is to have entries and offset and limit together pass 32 bits; then
  it is empty. */
  lemma PageIs<T>(list: seq<T>, offset: nat, limit: nat)
    requires |list| < INT32_LIMIT && offset < UINT32_LIMIT && limit < UINT32_LIMIT
    ensures Page(list, offset, limit) == Wanted(list, offset, limit) <==>
      offset >= |list| || offset + limit < UINT32_LIMIT
    ensures offset + limit >= UINT32_LIMIT ==> Page(list, offset, limit) == []
  {
    if offset < |list| && limit != 0 && limit < |list| - offset {
      assert list[offset..][..limit] == list[offset..offset + limit];
    }
  }

  /** A request for one entry and everything after it, written with the greatest limit there is, gives nothing. */
  lemma WrappedPage()
    ensures exists list: seq<int>, offset: nat, limit: nat :: offset < |list| && limit < UINT32_LIMIT
              && Wanted(list, offset, limit) != [] && Page(list, offset, limit) == []
  {
    PageIs([1, 2], 1, UINT32_LIMIT - 1);
    assert Wanted([1, 2], 1, UINT32_LIMIT - 1) == [2];
  }
}
