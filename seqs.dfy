/** The list operations the pages apply to fetched rows and to their own state:
    `filter`, `map`, the fused `filter(..).map(..)`, and `.limit(n)`. */
module Seqs {
  import opened Wrappers

  /** `s.filter(x => f(x) is defined).map(x => f(x))` in one pass: the images of the
      elements that `f` accepts, in the order of `s`. */
  function Collect<T, U>(s: seq<T>, f: T -> Option<U>): (r: seq<U>)
    ensures |r| <= |s|
  {
    if s == [] then []
    else
      var rest := Collect(s[1..], f);
      match f(s[0])
      case Some(u) => [u] + rest
      case None => rest
  }

  /** Turns a JavaScript filter callback into a partial identity. */
  function KeepIf<T>(keep: T -> bool): T -> Option<T> {
    x => if keep(x) then Some(x) else None
  }

  /** `s.filter(keep)`. */
  function Filter<T>(s: seq<T>, keep: T -> bool): (r: seq<T>)
    ensures |r| <= |s|
  {
    Collect(s, KeepIf(keep))
  }

  /** `s.map(f)`. */
  function Map<T, U>(s: seq<T>, f: T -> U): (r: seq<U>)
    ensures |r| == |s|
    ensures forall i :: 0 <= i < |s| ==> r[i] == f(s[i])
  {
    seq(|s|, i requires 0 <= i < |s| => f(s[i]))
  }

  /** A query's `.limit(n)`: the first n rows, or all of them when there are fewer. */
  function Take<T>(s: seq<T>, n: nat): (r: seq<T>)
    ensures |r| <= n && |r| <= |s|
    ensures |s| <= n ==> r == s
    ensures r == s[..|r|]
  {
    if |s| <= n then s else s[..n]
  }

  // ----- An independent description of Collect: order-preserving selection -----

  /** Each listed position of `s` is accepted by `f`, with the matching element of `r` as image. */
  ghost predicate Images<T, U>(idx: seq<int>, r: seq<U>, s: seq<T>, f: T -> Option<U>) {
    |idx| == |r| && forall k :: 0 <= k < |idx| ==> 0 <= idx[k] < |s| && f(s[idx[k]]) == Some(r[k])
  }

  ghost predicate Ascending(idx: seq<int>) {
    forall k, l :: 0 <= k < l < |idx| ==> idx[k] < idx[l]
  }

  /** Every position of `s` that `f` accepts is listed. */
  ghost predicate Covers<T, U>(idx: seq<int>, s: seq<T>, f: T -> Option<U>) {
    forall j :: 0 <= j < |s| && f(s[j]).Some? ==> j in idx
  }

  /** `idx` lists, in increasing order, exactly the positions of `s` that `f` accepts,
      and `r` holds their images in that order. */
  ghost predicate Gathers<T, U>(idx: seq<int>, r: seq<U>, s: seq<T>, f: T -> Option<U>) {
    Images(idx, r, s, f) && Ascending(idx) && Covers(idx, s, f)
  }

  /** `r` is what an order-preserving, nothing-dropped selection of `s` through `f` gives. */
  ghost predicate IsGathered<T, U>(r: seq<U>, s: seq<T>, f: T -> Option<U>) {
    exists idx :: Gathers(idx, r, s, f)
  }

  function Shift(idx: seq<int>, d: int): (r: seq<int>)
    ensures |r| == |idx| && forall k :: 0 <= k < |idx| ==> r[k] == idx[k] + d
  {
    seq(|idx|, k requires 0 <= k < |idx| => idx[k] + d)
  }

  /** The positions of `s` that `f` accepts, in increasing order. */
  ghost function Positions<T, U>(s: seq<T>, f: T -> Option<U>): seq<int> {
    if s == [] then []
    else (if f(s[0]).Some? then [0] else []) + Shift(Positions(s[1..], f), 1)
  }

  /** Extending a selection of `s[1..]` by an accepted head. */
  lemma GathersCons<T, U>(idx: seq<int>, r: seq<U>, s: seq<T>, f: T -> Option<U>, u: U)
    requires s != [] && f(s[0]) == Some(u) && Gathers(idx, r, s[1..], f)
    ensures Gathers([0] + Shift(idx, 1), [u] + r, s, f)
  {
    var P, C := [0] + Shift(idx, 1), [u] + r;
    forall k | 0 <= k < |P|
      ensures 0 <= P[k] < |s| && f(s[P[k]]) == Some(C[k])
    {
      if k > 0 {
        assert P[k] == idx[k - 1] + 1 && C[k] == r[k - 1];
        assert s[P[k]] == s[1..][idx[k - 1]];
      }
    }
    forall k, l | 0 <= k < l < |P|
      ensures P[k] < P[l]
    {
      assert P[l] == idx[l - 1] + 1;
      if k > 0 {
        assert P[k] == idx[k - 1] + 1;
      }
    }
    forall j | 0 <= j < |s| && f(s[j]).Some?
      ensures j in P
    {
      if j == 0 {
        assert P[0] == 0;
      } else {
        assert s[j] == s[1..][j - 1];
        var k :| 0 <= k < |idx| && idx[k] == j - 1;
        assert P[k + 1] == j;
      }
    }
  }

  /** Extending a selection of `s[1..]` by a rejected head. */
  lemma GathersSkip<T, U>(idx: seq<int>, r: seq<U>, s: seq<T>, f: T -> Option<U>)
    requires s != [] && f(s[0]).None? && Gathers(idx, r, s[1..], f)
    ensures Gathers(Shift(idx, 1), r, s, f)
  {
    var P := Shift(idx, 1);
    forall k | 0 <= k < |P|
      ensures 0 <= P[k] < |s| && f(s[P[k]]) == Some(r[k])
    {
      assert s[P[k]] == s[1..][idx[k]];
    }
    forall j | 0 <= j < |s| && f(s[j]).Some?
      ensures j in P
    {
      assert s[j] == s[1..][j - 1];
      var k :| 0 <= k < |idx| && idx[k] == j - 1;
      assert P[k] == j;
    }
  }

  lemma {:induction false} CollectGathers<T, U>(s: seq<T>, f: T -> Option<U>)
    ensures Gathers(Positions(s, f), Collect(s, f), s, f)
  {
    if s != [] {
      CollectGathers(s[1..], f);
      match f(s[0])
      case Some(u) =>
        GathersCons(Positions(s[1..], f), Collect(s[1..], f), s, f, u);
      case None =>
        GathersSkip(Positions(s[1..], f), Collect(s[1..], f), s, f);
    }
  }

  /** Collect meets its description. */
  lemma CollectIsGathered<T, U>(s: seq<T>, f: T -> Option<U>)
    ensures IsGathered(Collect(s, f), s, f)
  {
    CollectGathers(s, f);
  }

  /** A selection of `s` whose head is accepted starts with the head's image. */
  lemma GathersTailOfAccepted<T, U>(idx: seq<int>, r: seq<U>, s: seq<T>, f: T -> Option<U>)
    requires s != [] && f(s[0]).Some? && Gathers(idx, r, s, f)
    ensures r != [] && f(s[0]) == Some(r[0])
    ensures Gathers(Shift(idx[1..], -1), r[1..], s[1..], f)
  {
    var k0 :| 0 <= k0 < |idx| && idx[k0] == 0;
    var t := Shift(idx[1..], -1);
    forall k | 0 <= k < |t|
      ensures 0 <= t[k] < |s[1..]| && f(s[1..][t[k]]) == Some(r[1..][k])
    {
      assert idx[0] < idx[k + 1];
    }
    forall j | 0 <= j < |s[1..]| && f(s[1..][j]).Some?
      ensures j in t
    {
      assert s[1..][j] == s[j + 1];
      var k :| 0 <= k < |idx| && idx[k] == j + 1;
      assert k != 0;
      assert t[k - 1] == j;
    }
  }

  /** A selection of `s` whose head is rejected is a selection of `s[1..]`. */
  lemma GathersTailOfRejected<T, U>(idx: seq<int>, r: seq<U>, s: seq<T>, f: T -> Option<U>)
    requires s != [] && f(s[0]).None? && Gathers(idx, r, s, f)
    ensures Gathers(Shift(idx, -1), r, s[1..], f)
  {
    var t := Shift(idx, -1);
    forall k | 0 <= k < |t|
      ensures 0 <= t[k] < |s[1..]| && f(s[1..][t[k]]) == Some(r[k])
    {
      assert idx[k] != 0;
    }
    forall j | 0 <= j < |s[1..]| && f(s[1..][j]).Some?
      ensures j in t
    {
      assert s[1..][j] == s[j + 1];
      var k :| 0 <= k < |idx| && idx[k] == j + 1;
      assert t[k] == j;
    }
  }

  /** The description determines the result: whatever meets it is Collect's result. */
  lemma {:induction false} GatheredIsCollect<T, U>(idx: seq<int>, r: seq<U>, s: seq<T>, f: T -> Option<U>)
    requires Gathers(idx, r, s, f)
    ensures r == Collect(s, f)
    decreases |s|
  {
    if s == [] {
      assert |idx| == 0;
    } else if f(s[0]).Some? {
      GathersTailOfAccepted(idx, r, s, f);
      GatheredIsCollect(Shift(idx[1..], -1), r[1..], s[1..], f);
      assert r == [r[0]] + r[1..];
    } else {
      GathersTailOfRejected(idx, r, s, f);
      GatheredIsCollect(Shift(idx, -1), r, s[1..], f);
    }
  }

  /** Collect is exactly the order-preserving selection: both directions. */
  lemma CollectCharacterized<T, U>(r: seq<U>, s: seq<T>, f: T -> Option<U>)
    ensures IsGathered(r, s, f) <==> r == Collect(s, f)
  {
    if IsGathered(r, s, f) {
      var idx :| Gathers(idx, r, s, f);
      GatheredIsCollect(idx, r, s, f);
    }
    if r == Collect(s, f) {
      CollectGathers(s, f);
    }
  }

  /** An element is in the selection iff some element of `s` is accepted with that image. */
  lemma CollectMembership<T, U>(s: seq<T>, f: T -> Option<U>, u: U)
    ensures u in Collect(s, f) <==> exists j :: 0 <= j < |s| && f(s[j]) == Some(u)
  {
    var r := Collect(s, f);
    var idx := Positions(s, f);
    CollectGathers(s, f);
    if u in r {
      var k :| 0 <= k < |r| && r[k] == u;
      assert f(s[idx[k]]) == Some(u);
    }
    if j :| 0 <= j < |s| && f(s[j]) == Some(u) {
      assert j in idx;
      var k :| 0 <= k < |idx| && idx[k] == j;
      assert r[k] == u;
    }
  }

  /** `filter` keeps exactly the elements that pass, in order. */
  lemma FilterMembership<T>(s: seq<T>, keep: T -> bool, x: T)
    ensures x in Filter(s, keep) <==> x in s && keep(x)
  {
    CollectMembership(s, KeepIf(keep), x);
    if x in s && keep(x) {
      var j :| 0 <= j < |s| && s[j] == x;
      assert KeepIf(keep)(s[j]) == Some(x);
    }
  }

  /** `filter` with a callback every element passes is the identity. */
  lemma {:induction false} FilterKeepsAll<T>(s: seq<T>, keep: T -> bool)
    requires forall x :: x in s ==> keep(x)
    ensures Filter(s, keep) == s
  {
    if s != [] {
      FilterKeepsAll(s[1..], keep);
      assert s == [s[0]] + s[1..];
    }
  }

  /** `filter` with a callback that no element passes is empty. */
  lemma {:induction false} FilterDropsAll<T>(s: seq<T>, keep: T -> bool)
    requires forall x :: x in s ==> !keep(x)
    ensures Filter(s, keep) == []
  {
    if s != [] {
      FilterDropsAll(s[1..], keep);
    }
  }
}
