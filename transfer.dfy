/**
 * Moving cards from a payer to a payee: the transfer of
 * `processSelectedPayment` (selected money indices, removed from the back;
 * selected properties grouped by colour, each colour removed from the back)
 * and `takeAllAvailableAssets` (all money and every property except
 * protected wildcards). Both work on two player records; the game state
 * stores the results back.
 */
module Transfer {
  import opened CardModel
  import opened Holdings
  import opened PaymentSelection

  // ----- `[...indices].sort((a, b) => b - a)` -----

  predicate Descending(s: seq<int>)
  {
    forall i, j :: 0 <= i < j < |s| ==> s[i] >= s[j]
  }

  predicate StrictlyDescending(s: seq<int>)
  {
    forall i, j :: 0 <= i < j < |s| ==> s[i] > s[j]
  }

  predicate AtMost(s: seq<int>, b: int)
  {
    forall k :: 0 <= k < |s| ==> s[k] <= b
  }

  lemma DescendingCons(h: int, t: seq<int>)
    requires Descending(t) && AtMost(t, h)
    ensures Descending([h] + t)
  {
    var s := [h] + t;
    forall i, j | 0 <= i < j < |s| ensures s[i] >= s[j] {
      if i > 0 {
        assert s[i] == t[i - 1] && s[j] == t[j - 1];
      }
    }
  }

  lemma DescendingTail(s: seq<int>)
    requires Descending(s) && s != []
    ensures Descending(s[1..]) && AtMost(s[1..], s[0])
  {
    forall i, j | 0 <= i < j < |s[1..]| ensures s[1..][i] >= s[1..][j] {
      assert s[1..][i] == s[i + 1] && s[1..][j] == s[j + 1];
    }
    forall k | 0 <= k < |s[1..]| ensures s[1..][k] <= s[0] {
      assert s[1..][k] == s[k + 1];
    }
  }

  lemma AtMostSame(t: seq<int>, u: seq<int>, b: int)
    requires AtMost(u, b) && multiset(t) <= multiset(u)
    ensures AtMost(t, b)
  {
    forall k | 0 <= k < |t| ensures t[k] <= b {
      assert t[k] in multiset(u);
      var m :| 0 <= m < |u| && u[m] == t[k];
    }
  }

  function InsertDesc(x: int, s: seq<int>): (r: seq<int>)
    requires Descending(s)
    ensures Descending(r)
    ensures multiset(r) == multiset(s) + multiset{x}
    ensures |r| == |s| + 1
    decreases |s|
  {
    if s == [] || x >= s[0] then
      assert AtMost(s, x) by {
        forall k | 0 <= k < |s| ensures s[k] <= x {
          assert s[k] <= s[0];
        }
      }
      DescendingCons(x, s);
      [x] + s
    else
      var t := InsertDesc(x, s[1..]);
      assert s == [s[0]] + s[1..];
      DescendingTail(s);
      assert AtMost(s[1..] + [x], s[0]) by {
        forall k | 0 <= k < |s[1..] + [x]| ensures (s[1..] + [x])[k] <= s[0] {
          if k < |s[1..]| {
            assert (s[1..] + [x])[k] == s[1..][k];
          }
        }
      }
      AtMostSame(t, s[1..] + [x], s[0]);
      DescendingCons(s[0], t);
      [s[0]] + t
  }

  /** The indices in descending numeric order. */
  function SortDesc(s: seq<int>): (r: seq<int>)
    ensures Descending(r)
    ensures multiset(r) == multiset(s)
    ensures |r| == |s|
    decreases |s|
  {
    if s == [] then []
    else
      assert s == [s[0]] + s[1..];
      InsertDesc(s[0], SortDesc(s[1..]))
  }

  lemma {:induction false} DistinctOnce(s: seq<int>, x: int)
    requires NoDuplicates(s)
    ensures multiset(s)[x] <= 1
    decreases |s|
  {
    if s != [] {
      assert s == [s[0]] + s[1..];
      assert NoDuplicates(s[1..]) by {
        forall i, j | 0 <= i < j < |s[1..]| ensures s[1..][i] != s[1..][j] {
          assert s[1..][i] == s[i + 1] && s[1..][j] == s[j + 1];
        }
      }
      DistinctOnce(s[1..], x);
      if s[0] == x {
        assert x !in s[1..] by {
          forall k | 0 <= k < |s[1..]| ensures s[1..][k] != x {
            assert s[1..][k] == s[k + 1];
          }
        }
      }
    }
  }

  lemma TwoCopies(r: seq<int>, i: int, j: int)
    requires 0 <= i < j < |r| && r[i] == r[j]
    ensures multiset(r)[r[i]] >= 2
  {
    assert r == r[..j] + [r[j]] + r[j + 1..];
    assert r[i] in r[..j];
  }

  /** Distinct indices sort into a strictly descending order. */
  lemma SortDescStrict(s: seq<int>)
    requires NoDuplicates(s)
    ensures StrictlyDescending(SortDesc(s))
  {
    var r := SortDesc(s);
    forall i, j | 0 <= i < j < |r| ensures r[i] > r[j] {
      if r[i] == r[j] {
        TwoCopies(r, i, j);
        DistinctOnce(s, r[i]);
        assert false;
      }
    }
  }

  // ----- moving cards by index -----

  /**
   * The transfer loop over the sorted indices: each index, in order, that
   * names a card of the source as it now stands moves that card to the end
   * of the destination; an index past the end is skipped.
   */
  function Moved(src: seq<Card>, dst: seq<Card>, indices: seq<int>): (r: (seq<Card>, seq<Card>))
    ensures |r.0| + |r.1| == |src| + |dst|
    decreases |indices|
  {
    if indices == [] then (src, dst)
    else
      var i := indices[0];
      if 0 <= i < |src| then Moved(src[..i] + src[i + 1..], dst + [src[i]], indices[1..])
      else Moved(src, dst, indices[1..])
  }

  /** No card is lost or duplicated by the move. */
  lemma {:induction false} MovedConserves(src: seq<Card>, dst: seq<Card>, indices: seq<int>)
    ensures var r := Moved(src, dst, indices); Tally(r.0) + Tally(r.1) == Tally(src) + Tally(dst)
    decreases |indices|
  {
    if indices != [] {
      var i := indices[0];
      if 0 <= i < |src| {
        RemoveAtTally(src, i);
        TallyConcat(dst, [src[i]]);
        MovedConserves(RemoveAt(src, i), dst + [src[i]], indices[1..]);
      } else {
        MovedConserves(src, dst, indices[1..]);
      }
    }
  }

  /** The destination only grows at its end. */
  lemma {:induction false} MovedExtends(src: seq<Card>, dst: seq<Card>, indices: seq<int>)
    ensures var r := Moved(src, dst, indices); |r.1| >= |dst| && r.1[..|dst|] == dst
    decreases |indices|
  {
    if indices != [] {
      var i := indices[0];
      if 0 <= i < |src| {
        MovedExtends(RemoveAt(src, i), dst + [src[i]], indices[1..]);
        var r := Moved(src, dst, indices);
        assert r.1[..|dst|] == (r.1[..|dst| + 1])[..|dst|];
      } else {
        MovedExtends(src, dst, indices[1..]);
      }
    }
  }

  /** The loop of `Moved`, as the source runs it. */
  method MoveIndices(src: seq<Card>, dst: seq<Card>, indices: seq<int>) returns (s: seq<Card>, d: seq<Card>)
    ensures (s, d) == Moved(src, dst, indices)
  {
    s, d := src, dst;
    var k := 0;
    while k < |indices|
      invariant 0 <= k <= |indices|
      invariant Moved(s, d, indices[k..]) == Moved(src, dst, indices)
    {
      assert indices[k..][1..] == indices[k + 1..];
      var i := indices[k];
      if 0 <= i < |s| {
        var card := s[i];
        d := d + [card];
        s := RemoveAt(s, i);
      }
      k := k + 1;
    }
  }

  /** The cards at the given positions, in the order given. */
  function Picked(src: seq<Card>, indices: seq<int>): (r: seq<Card>)
    requires InRange(indices, |src|)
    ensures |r| == |indices|
    ensures forall k :: 0 <= k < |indices| ==> r[k] == src[indices[k]]
  {
    seq(|indices|, k requires 0 <= k < |indices| => src[indices[k]])
  }

  predicate InRange(indices: seq<int>, n: int)
  {
    forall k :: 0 <= k < |indices| ==> 0 <= indices[k] < n
  }

  lemma StrictTail(indices: seq<int>, n: int)
    requires StrictlyDescending(indices) && InRange(indices, n) && indices != []
    ensures StrictlyDescending(indices[1..]) && InRange(indices[1..], indices[0])
  {
    var rest := indices[1..];
    forall a, b | 0 <= a < b < |rest| ensures rest[a] > rest[b] {
      assert rest[a] == indices[a + 1] && rest[b] == indices[b + 1];
    }
    forall k | 0 <= k < |rest| ensures 0 <= rest[k] < indices[0] {
      assert rest[k] == indices[k + 1];
    }
  }

  lemma PickedPrefix(src: seq<Card>, src2: seq<Card>, indices: seq<int>, n: nat)
    requires n <= |src| && n <= |src2| && src[..n] == src2[..n] && InRange(indices, n)
    ensures Picked(src2, indices) == Picked(src, indices)
  {
    forall k | 0 <= k < |indices| ensures src2[indices[k]] == src[indices[k]] {
      assert src2[indices[k]] == src2[..n][indices[k]];
    }
  }

  /**
   * Removing from the back is exact: with distinct indices in descending
   * order that all name a card, exactly the named cards move, each once and
   * in that order.
   */
  lemma {:induction false} MovedDescending(src: seq<Card>, dst: seq<Card>, indices: seq<int>)
    requires StrictlyDescending(indices) && InRange(indices, |src|)
    ensures Moved(src, dst, indices).1 == dst + Picked(src, indices)
    ensures |Moved(src, dst, indices).0| == |src| - |indices|
    decreases |indices|
  {
    if indices != [] {
      var i, rest := indices[0], indices[1..];
      var src2 := src[..i] + src[i + 1..];
      DescendingHead(src, dst, indices);
      MovedDescending(src2, dst + [src[i]], rest);
    }
  }

  /** One step of `Moved`: the first index names a card, which moves. */
  lemma MovedStep(src: seq<Card>, dst: seq<Card>, indices: seq<int>)
    requires indices != [] && 0 <= indices[0] < |src|
    ensures var i := indices[0];
      Moved(src, dst, indices) == Moved(src[..i] + src[i + 1..], dst + [src[i]], indices[1..])
  {
  }

  /** What `MovedDescending` needs of its first step: the tail stays below the removed position. */
  lemma DescendingHead(src: seq<Card>, dst: seq<Card>, indices: seq<int>)
    requires StrictlyDescending(indices) && InRange(indices, |src|) && indices != []
    ensures var i := indices[0]; var src2 := src[..i] + src[i + 1..];
      && Moved(src, dst, indices) == Moved(src2, dst + [src[i]], indices[1..])
      && StrictlyDescending(indices[1..]) && InRange(indices[1..], |src2|)
      && dst + [src[i]] + Picked(src2, indices[1..]) == dst + Picked(src, indices)
  {
    var i, rest := indices[0], indices[1..];
    var src2 := src[..i] + src[i + 1..];
    MovedStep(src, dst, indices);
    StrictTail(indices, |src|);
    assert src2[..i] == src[..i];
    PickedPrefix(src, src2, rest, i);
    PickedCons(src, indices);
    ConcatAssoc(dst, [src[i]], Picked(src, rest));
  }

  /** The cards picked by a list of indices: the first index's card, then the rest's. */
  lemma PickedCons(src: seq<Card>, indices: seq<int>)
    requires InRange(indices, |src|) && indices != []
    ensures InRange(indices[1..], |src|)
    ensures Picked(src, indices) == [src[indices[0]]] + Picked(src, indices[1..])
  {
    assert InRange(indices[1..], |src|) by {
      forall k | 0 <= k < |indices[1..]| ensures 0 <= indices[1..][k] < |src| {
        assert indices[1..][k] == indices[k + 1];
      }
    }
    var a, b := Picked(src, indices), [src[indices[0]]] + Picked(src, indices[1..]);
    forall k | 0 <= k < |a| ensures a[k] == b[k] {
      if k > 0 {
        assert indices[1..][k - 1] == indices[k];
      }
    }
  }

  // ----- grouping the property picks by colour -----

  /** The indices picked in one colour, in the order they were picked. */
  function IndicesOf(picks: seq<Pick>, color: string): seq<int>
    decreases |picks|
  {
    if picks == [] then []
    else
      var last := picks[|picks| - 1];
      IndicesOf(picks[..|picks| - 1], color) + (if last.color == color then [last.index] else [])
  }

  function PickColors(picks: seq<Pick>): set<string>
  {
    set p | p in picks :: p.color
  }

  /** `transfersByColor`: for each picked colour, its picked indices. */
  function ByColor(picks: seq<Pick>): map<string, seq<int>>
  {
    map c | c in PickColors(picks) :: IndicesOf(picks, c)
  }

  /** The `forEach` that builds `transfersByColor`. */
  method GroupByColor(picks: seq<Pick>) returns (byColor: map<string, seq<int>>)
    ensures byColor.Keys == PickColors(picks)
    ensures forall c :: c in byColor ==> byColor[c] == IndicesOf(picks, c)
    ensures byColor == ByColor(picks)
  {
    byColor := map[];
    var k := 0;
    while k < |picks|
      invariant 0 <= k <= |picks|
      invariant byColor.Keys == PickColors(picks[..k])
      invariant forall c :: c in byColor ==> byColor[c] == IndicesOf(picks[..k], c)
    {
      var p := picks[k];
      ghost var before := byColor;
      if p.color !in byColor {
        byColor := byColor[p.color := []];
      }
      byColor := byColor[p.color := byColor[p.color] + [p.index]];
      GroupStep(picks, k, before, byColor);
      k := k + 1;
    }
    assert picks[..k] == picks;
  }

  /** One pick of the loop: its index is appended to its colour's list, created if missing. */
  lemma GroupStep(picks: seq<Pick>, k: nat, byColor: map<string, seq<int>>, byColor2: map<string, seq<int>>)
    requires k < |picks|
    requires byColor.Keys == PickColors(picks[..k])
    requires forall c :: c in byColor ==> byColor[c] == IndicesOf(picks[..k], c)
    requires var color := picks[k].color;
      byColor2 == byColor[color := (if color in byColor then byColor[color] else []) + [picks[k].index]]
    ensures byColor2.Keys == PickColors(picks[..k + 1])
    ensures forall c :: c in byColor2 ==> byColor2[c] == IndicesOf(picks[..k + 1], c)
  {
    var p := picks[k];
    assert picks[..k + 1][..k] == picks[..k];
    assert PickColors(picks[..k + 1]) == PickColors(picks[..k]) + {p.color} by {
      assert picks[..k + 1] == picks[..k] + [p];
    }
    if p.color !in byColor {
      NoneOfColor(picks[..k], p.color);
    }
  }

  lemma {:induction false} NoneOfColor(picks: seq<Pick>, color: string)
    requires color !in PickColors(picks)
    ensures IndicesOf(picks, color) == []
    decreases |picks|
  {
    if picks != [] {
      assert PickColors(picks[..|picks| - 1]) <= PickColors(picks);
      NoneOfColor(picks[..|picks| - 1], color);
    }
  }

  /** Every pick of a colour is among that colour's indices. */
  lemma {:induction false} IndicesOfComplete(picks: seq<Pick>, color: string)
    ensures forall p :: p in picks && p.color == color ==> p.index in IndicesOf(picks, color)
    decreases |picks|
  {
    if picks != [] {
      var init := picks[..|picks| - 1];
      IndicesOfComplete(init, color);
      assert picks == init + [picks[|picks| - 1]];
    }
  }

  /** Distinct picks give distinct indices within each colour. */
  lemma {:induction false} IndicesOfDistinct(picks: seq<Pick>, color: string)
    requires NoDuplicates(picks)
    ensures NoDuplicates(IndicesOf(picks, color))
    ensures forall i :: i in IndicesOf(picks, color) ==> Pick(color, i) in picks
    decreases |picks|
  {
    if picks != [] {
      var init := picks[..|picks| - 1];
      var last := picks[|picks| - 1];
      assert NoDuplicates(init);
      IndicesOfDistinct(init, color);
      if last.color == color {
        assert last !in init by {
          forall m | 0 <= m < |init| ensures init[m] != last {
            assert init[m] == picks[m];
          }
        }
        assert last == Pick(color, last.index);
      }
    }
  }

  // ----- the property transfer of processSelectedPayment -----

  /** What the payer's group of `c` and the payee's become when `c` was picked. */
  function PaidPair(from: map<string, seq<Card>>, to: map<string, seq<Card>>,
                    byColor: map<string, seq<int>>, c: string): (seq<Card>, seq<Card>)
    requires c in from && c in byColor
  {
    Moved(from[c], Group(to, c), SortDesc(byColor[c]))
  }

  /** Whether the payee receives at least one card of colour `c`. */
  predicate Gains(from: map<string, seq<Card>>, to: map<string, seq<Card>>,
                  byColor: map<string, seq<int>>, c: string)
  {
    c in from && c in byColor && |PaidPair(from, to, byColor, c).1| > |Group(to, c)|
  }

  /** The payer's properties after the transfer. */
  function PaidFrom(from: map<string, seq<Card>>, to: map<string, seq<Card>>,
                    byColor: map<string, seq<int>>): map<string, seq<Card>>
  {
    map c | c in from :: if c in byColor then PaidPair(from, to, byColor, c).0 else from[c]
  }

  /** The payee's properties after the transfer: a colour group is created only when a card arrives in it. */
  function PaidTo(from: map<string, seq<Card>>, to: map<string, seq<Card>>,
                  byColor: map<string, seq<int>>): map<string, seq<Card>>
  {
    map c | c in to.Keys + (set k | k in byColor && Gains(from, to, byColor, k)) ::
      if c in from && c in byColor then PaidPair(from, to, byColor, c).1 else Group(to, c)
  }

  /** The payer's map while the colours in `rest` are still to be transferred. */
  ghost predicate FromSoFar(from: map<string, seq<Card>>, to: map<string, seq<Card>>,
                            byColor: map<string, seq<int>>, rest: set<string>, f: map<string, seq<Card>>)
  {
    && f.Keys == from.Keys
    && forall c :: c in from ==>
         f[c] == if c in byColor && c !in rest then PaidPair(from, to, byColor, c).0 else from[c]
  }

  /** The payee's map while the colours in `rest` are still to be transferred. */
  ghost predicate ToSoFar(from: map<string, seq<Card>>, to: map<string, seq<Card>>,
                          byColor: map<string, seq<int>>, rest: set<string>, t: map<string, seq<Card>>)
  {
    && (forall c :: c in t <==> c in to || (c !in rest && Gains(from, to, byColor, c)))
    && forall c :: c in t ==>
         t[c] == if c in from && c in byColor && c !in rest then PaidPair(from, to, byColor, c).1 else Group(to, c)
  }

  /** The loop over the colours of `transfersByColor`. */
  method PayProperties(from: map<string, seq<Card>>, to: map<string, seq<Card>>, byColor: map<string, seq<int>>)
    returns (f: map<string, seq<Card>>, t: map<string, seq<Card>>)
    ensures f == PaidFrom(from, to, byColor)
    ensures t == PaidTo(from, to, byColor)
  {
    f, t := from, to;
    var rest := byColor.Keys;
    SoFarInit(from, to, byColor);
    while rest != {}
      invariant rest <= byColor.Keys
      invariant FromSoFar(from, to, byColor, rest, f) && ToSoFar(from, to, byColor, rest, t)
      decreases |rest|
    {
      var color :| color in rest;
      f, t := PayNextColor(from, to, byColor, rest, color, f, t);
      rest := rest - {color};
    }
    PaidMaps(from, to, byColor, f, t);
  }

  lemma SoFarInit(from: map<string, seq<Card>>, to: map<string, seq<Card>>, byColor: map<string, seq<int>>)
    ensures FromSoFar(from, to, byColor, byColor.Keys, from) && ToSoFar(from, to, byColor, byColor.Keys, to)
  {
    forall c ensures c in to <==> c in to || (c !in byColor.Keys && Gains(from, to, byColor, c)) {
      if Gains(from, to, byColor, c) {
        assert c in byColor.Keys;
      }
    }
  }

  lemma PaidMaps(from: map<string, seq<Card>>, to: map<string, seq<Card>>, byColor: map<string, seq<int>>,
                 f: map<string, seq<Card>>, t: map<string, seq<Card>>)
    requires FromSoFar(from, to, byColor, {}, f) && ToSoFar(from, to, byColor, {}, t)
    ensures f == PaidFrom(from, to, byColor)
    ensures t == PaidTo(from, to, byColor)
  {
    PaidFromMap(from, to, byColor, f);
    PaidToMap(from, to, byColor, t);
  }

  lemma PaidFromMap(from: map<string, seq<Card>>, to: map<string, seq<Card>>, byColor: map<string, seq<int>>,
                    f: map<string, seq<Card>>)
    requires FromSoFar(from, to, byColor, {}, f)
    ensures f == PaidFrom(from, to, byColor)
  {
    var F := PaidFrom(from, to, byColor);
    forall c | c in f ensures c in F && f[c] == F[c] {
    }
    assert f.Keys == F.Keys;
  }

  lemma PaidToMap(from: map<string, seq<Card>>, to: map<string, seq<Card>>, byColor: map<string, seq<int>>,
                  t: map<string, seq<Card>>)
    requires ToSoFar(from, to, byColor, {}, t)
    ensures t == PaidTo(from, to, byColor)
  {
    var T := PaidTo(from, to, byColor);
    PaidToKeys(from, to, byColor, t);
    forall c | c in t ensures t[c] == T[c] {
    }
  }

  lemma PaidToKeys(from: map<string, seq<Card>>, to: map<string, seq<Card>>, byColor: map<string, seq<int>>,
                   t: map<string, seq<Card>>)
    requires forall c :: c in t <==> c in to || Gains(from, to, byColor, c)
    ensures t.Keys == PaidTo(from, to, byColor).Keys
  {
    var T := PaidTo(from, to, byColor);
    forall c ensures c in t <==> c in T {
      assert c in T <==> c in to.Keys + (set k | k in byColor && Gains(from, to, byColor, k));
    }
  }

  /**
   * One colour of the loop: the payer's group of `color`, if any, gives up
   * the cards at `indices`; the payee's group receives them and is created
   * only when a card arrives.
   */
  method PayColor(f: map<string, seq<Card>>, t: map<string, seq<Card>>, color: string, indices: seq<int>)
    returns (f2: map<string, seq<Card>>, t2: map<string, seq<Card>>)
    ensures color !in f ==> f2 == f && t2 == t
    ensures color in f ==> var r := Moved(f[color], Group(t, color), indices);
      && f2 == f[color := r.0]
      && t2 == if color in t || |r.1| > |Group(t, color)| then t[color := r.1] else t
  {
    f2, t2 := f, t;
    if color in f {
      var s, d := MoveIndices(f[color], Group(t, color), indices);
      if color in t || |d| > |Group(t, color)| {
        t2 := t[color := d];
      }
      f2 := f[color := s];
    }
  }

  /** `PayColor` for the next colour of the loop, with what it establishes. */
  method PayNextColor(from: map<string, seq<Card>>, to: map<string, seq<Card>>,
                      byColor: map<string, seq<int>>, rest: set<string>, color: string,
                      f: map<string, seq<Card>>, t: map<string, seq<Card>>)
    returns (f2: map<string, seq<Card>>, t2: map<string, seq<Card>>)
    requires color in byColor && color in rest
    requires FromSoFar(from, to, byColor, rest, f) && ToSoFar(from, to, byColor, rest, t)
    ensures FromSoFar(from, to, byColor, rest - {color}, f2) && ToSoFar(from, to, byColor, rest - {color}, t2)
  {
    f2, t2 := PayColor(f, t, color, SortDesc(byColor[color]));
    if color in f {
      assert f[color] == from[color];
      assert Group(t, color) == Group(to, color);
      var r := PaidPair(from, to, byColor, color);
      FromStep(from, to, byColor, rest, color, f, f2, r.0);
      ToStepKeys(from, to, byColor, rest, color, t, t2, r.1);
      ToStepValues(from, to, byColor, rest, color, t, t2, r.1);
    } else {
      ToStepUnchanged(from, to, byColor, rest, color, t);
    }
  }

  lemma FromStep(from: map<string, seq<Card>>, to: map<string, seq<Card>>,
                 byColor: map<string, seq<int>>, rest: set<string>, color: string,
                 f: map<string, seq<Card>>, f2: map<string, seq<Card>>, s: seq<Card>)
    requires color in rest && color in from && color in byColor
    requires s == PaidPair(from, to, byColor, color).0
    requires FromSoFar(from, to, byColor, rest, f) && f2 == f[color := s]
    ensures FromSoFar(from, to, byColor, rest - {color}, f2)
  {
  }

  lemma ToStepKeys(from: map<string, seq<Card>>, to: map<string, seq<Card>>,
                   byColor: map<string, seq<int>>, rest: set<string>, color: string,
                   t: map<string, seq<Card>>, t2: map<string, seq<Card>>, d: seq<Card>)
    requires color in rest && color in from && color in byColor
    requires d == PaidPair(from, to, byColor, color).1
    requires forall c :: c in t <==> c in to || (c !in rest && Gains(from, to, byColor, c))
    requires Group(t, color) == Group(to, color)
    requires t2 == if color in t || |d| > |Group(t, color)| then t[color := d] else t
    ensures forall c :: c in t2 <==> c in to || (c !in rest - {color} && Gains(from, to, byColor, c))
  {
    assert Gains(from, to, byColor, color) <==> |d| > |Group(to, color)|;
  }

  lemma ToStepValues(from: map<string, seq<Card>>, to: map<string, seq<Card>>,
                     byColor: map<string, seq<int>>, rest: set<string>, color: string,
                     t: map<string, seq<Card>>, t2: map<string, seq<Card>>, d: seq<Card>)
    requires color in rest && color in from && color in byColor
    requires d == PaidPair(from, to, byColor, color).1
    requires forall c :: c in t ==>
      t[c] == if c in from && c in byColor && c !in rest then PaidPair(from, to, byColor, c).1 else Group(to, c)
    requires t2 == if color in t || |d| > |Group(t, color)| then t[color := d] else t
    ensures forall c :: c in t2 ==>
      t2[c] == if c in from && c in byColor && c !in rest - {color} then PaidPair(from, to, byColor, c).1 else Group(to, c)
  {
    forall c | c in t2
      ensures t2[c] == if c in from && c in byColor && c !in rest - {color} then PaidPair(from, to, byColor, c).1 else Group(to, c)
    {
      if c != color {
        assert t2[c] == t[c];
      }
    }
  }

  lemma ToStepUnchanged(from: map<string, seq<Card>>, to: map<string, seq<Card>>,
                        byColor: map<string, seq<int>>, rest: set<string>, color: string,
                        t: map<string, seq<Card>>)
    requires color in rest && color !in from
    requires ToSoFar(from, to, byColor, rest, t)
    ensures ToSoFar(from, to, byColor, rest - {color}, t)
  {
    forall c ensures c in t <==> c in to || (c !in rest - {color} && Gains(from, to, byColor, c)) {
      if c == color {
        assert !Gains(from, to, byColor, c);
      } else {
        assert c in t <==> c in to || (c !in rest && Gains(from, to, byColor, c));
      }
    }
  }

  /** Colour by colour, the two groups of a colour together keep their ids. */
  lemma PaidPointwise(from: map<string, seq<Card>>, to: map<string, seq<Card>>, byColor: map<string, seq<int>>)
    ensures forall c :: Tally(Group(PaidFrom(from, to, byColor), c)) +
                        Tally(Group(PaidTo(from, to, byColor), c)) ==
                        Tally(Group(from, c)) + Tally(Group(to, c))
  {
    forall c {
      PaidColor(from, to, byColor, c);
    }
  }

  lemma PaidColor(from: map<string, seq<Card>>, to: map<string, seq<Card>>, byColor: map<string, seq<int>>, c: string)
    ensures Tally(Group(PaidFrom(from, to, byColor), c)) +
            Tally(Group(PaidTo(from, to, byColor), c)) ==
            Tally(Group(from, c)) + Tally(Group(to, c))
  {
    var f, t := PaidFrom(from, to, byColor), PaidTo(from, to, byColor);
    if c in from && c in byColor {
      var r := PaidPair(from, to, byColor, c);
      MovedConserves(from[c], Group(to, c), SortDesc(byColor[c]));
      MovedExtends(from[c], Group(to, c), SortDesc(byColor[c]));
      assert Group(f, c) == r.0;
      if Gains(from, to, byColor, c) || c in to {
        assert Group(t, c) == r.1;
      } else {
        assert r.1 == r.1[..|Group(to, c)|];
        assert Group(t, c) == [] == r.1;
      }
    } else {
      assert Group(f, c) == Group(from, c);
      assert Group(t, c) == Group(to, c);
    }
  }

  /** The payer and the payee after `processSelectedPayment`'s transfer. */
  function PaidPlayers(from: Player, to: Player, sel: Selection): (Player, Player)
  {
    var money := Moved(from.money, to.money, SortDesc(sel.money));
    var byColor := ByColor(sel.properties);
    (Player(from.hand, money.0, PaidFrom(from.properties, to.properties, byColor)),
     Player(to.hand, money.1, PaidTo(from.properties, to.properties, byColor)))
  }

  /** The transfer of `processSelectedPayment`, as the source runs it. */
  method PaySelected(from: Player, to: Player, sel: Selection) returns (f: Player, t: Player)
    ensures (f, t) == PaidPlayers(from, to, sel)
  {
    var indices := SortDesc(sel.money);
    var fromMoney, toMoney := MoveIndices(from.money, to.money, indices);
    var byColor := GroupByColor(sel.properties);
    var fromProps, toProps := PayProperties(from.properties, to.properties, byColor);
    f := Player(from.hand, fromMoney, fromProps);
    t := Player(to.hand, toMoney, toProps);
  }

  /** No card is lost or duplicated between the two players, whatever was selected. */
  lemma PaidConserves(from: Player, to: Player, sel: Selection)
    ensures var (f, t) := PaidPlayers(from, to, sel);
      PlayerIds(f) + PlayerIds(t) == PlayerIds(from) + PlayerIds(to)
  {
    var (f, t) := PaidPlayers(from, to, sel);
    var byColor := ByColor(sel.properties);
    MovedConserves(from.money, to.money, SortDesc(sel.money));
    PaidPointwise(from.properties, to.properties, byColor);
    GroupIdsPointwise(from.properties, to.properties, f.properties, t.properties);
    PlayersSum(Tally(from.hand), Tally(from.money), GroupIds(from.properties),
               Tally(to.hand), Tally(to.money), GroupIds(to.properties),
               Tally(f.money), GroupIds(f.properties), Tally(t.money), GroupIds(t.properties));
  }

  /** Regrouping the sum of two players' ids when money and properties move but hands do not. */
  lemma PlayersSum(h1: multiset<string>, m1: multiset<string>, g1: multiset<string>,
                   h2: multiset<string>, m2: multiset<string>, g2: multiset<string>,
                   m1x: multiset<string>, g1x: multiset<string>, m2x: multiset<string>, g2x: multiset<string>)
    requires m1x + m2x == m1 + m2 && g1x + g2x == g1 + g2
    ensures (h1 + m1x + g1x) + (h2 + m2x + g2x) == (h1 + m1 + g1) + (h2 + m2 + g2)
  {
    calc {
      (h1 + m1x + g1x) + (h2 + m2x + g2x);
      h1 + h2 + (m1x + m2x) + (g1x + g2x);
      h1 + h2 + (m1 + m2) + (g1 + g2);
      (h1 + m1 + g1) + (h2 + m2 + g2);
    }
  }

  /**
   * With a selection of distinct money indices that all name a card, the
   * payee receives exactly the selected money cards, highest index first.
   */
  lemma PaidMoneyExact(from: Player, to: Player, sel: Selection)
    requires NoDuplicates(sel.money) && InRange(sel.money, |from.money|)
    ensures InRange(SortDesc(sel.money), |from.money|)
    ensures PaidPlayers(from, to, sel).1.money == to.money + Picked(from.money, SortDesc(sel.money))
    ensures |PaidPlayers(from, to, sel).0.money| == |from.money| - |sel.money|
  {
    SortedExact(from.money, to.money, sel.money);
  }

  /** Distinct indices that all name a card move exactly those cards, once sorted. */
  lemma SortedExact(src: seq<Card>, dst: seq<Card>, indices: seq<int>)
    requires NoDuplicates(indices) && InRange(indices, |src|)
    ensures InRange(SortDesc(indices), |src|)
    ensures Moved(src, dst, SortDesc(indices)).1 == dst + Picked(src, SortDesc(indices))
    ensures |Moved(src, dst, SortDesc(indices)).0| == |src| - |indices|
  {
    var r := SortDesc(indices);
    forall k | 0 <= k < |r| ensures 0 <= r[k] < |src| {
      assert r[k] in multiset(indices);
    }
    SortDescStrict(indices);
    MovedDescending(src, dst, r);
  }

  /**
   * The same for each colour: with distinct picks that all name a card, the
   * payee's group gains exactly the picked cards of that colour.
   */
  lemma PaidPropertiesExact(from: Player, to: Player, sel: Selection, c: string)
    requires NoDuplicates(sel.properties)
    requires forall p :: p in sel.properties ==> p.color in from.properties &&
                                                 0 <= p.index < |from.properties[p.color]|
    requires c in PickColors(sel.properties)
    ensures c in from.properties
    ensures InRange(SortDesc(IndicesOf(sel.properties, c)), |from.properties[c]|)
    ensures Group(PaidPlayers(from, to, sel).1.properties, c) ==
            Group(to.properties, c) + Picked(from.properties[c], SortDesc(IndicesOf(sel.properties, c)))
  {
    var p :| p in sel.properties && p.color == c;
    var byColor := ByColor(sel.properties);
    var idx := IndicesOf(sel.properties, c);
    var src := from.properties[c];
    IndicesOfDistinct(sel.properties, c);
    IndicesOfComplete(sel.properties, c);
    assert p.index in idx;
    assert InRange(idx, |src|) by {
      forall k | 0 <= k < |idx| ensures 0 <= idx[k] < |src| {
        assert idx[k] in idx;
        assert Pick(c, idx[k]) in sel.properties;
      }
    }
    SortedExact(src, Group(to.properties, c), idx);
    assert c in byColor;
    PaidToGains(from.properties, to.properties, byColor, c);
  }

  lemma PaidToGains(from: map<string, seq<Card>>, to: map<string, seq<Card>>, byColor: map<string, seq<int>>, c: string)
    requires Gains(from, to, byColor, c)
    ensures Group(PaidTo(from, to, byColor), c) == PaidPair(from, to, byColor, c).1
  {
    assert c in to.Keys + (set k | k in byColor && Gains(from, to, byColor, k));
  }

  // ----- takeAllAvailableAssets -----

  /** The cards from position `i` on that the payer keeps: its protected wildcards, in order. */
  function KeepFrom(g: seq<Card>, i: nat): seq<Card>
    decreases |g| - i
  {
    if i >= |g| then [] else (if IsProtected(g[i]) then [g[i]] else []) + KeepFrom(g, i + 1)
  }

  /** The cards from position `i` on that the payee receives: the others, last card first. */
  function TakeFrom(g: seq<Card>, i: nat): seq<Card>
    decreases |g| - i
  {
    if i >= |g| then [] else TakeFrom(g, i + 1) + (if IsProtected(g[i]) then [] else [g[i]])
  }

  /** What the payer keeps of a group. */
  function Keep(g: seq<Card>): seq<Card>
  {
    KeepFrom(g, 0)
  }

  /** What the payee receives of a group. */
  function TakeRev(g: seq<Card>): seq<Card>
  {
    TakeFrom(g, 0)
  }

  /** The payer keeps only protected wildcards. */
  lemma {:induction false} KeepProtected(g: seq<Card>, i: nat)
    ensures forall k :: 0 <= k < |KeepFrom(g, i)| ==> IsProtected(KeepFrom(g, i)[k])
    decreases |g| - i
  {
    if i < |g| {
      KeepProtected(g, i + 1);
      var head: seq<Card> := if IsProtected(g[i]) then [g[i]] else [];
      forall k | 0 <= k < |KeepFrom(g, i)| ensures IsProtected(KeepFrom(g, i)[k]) {
        if k >= |head| {
          assert KeepFrom(g, i)[k] == KeepFrom(g, i + 1)[k - |head|];
        }
      }
    }
  }

  /** The payee receives no protected wildcard. */
  lemma {:induction false} TakeRevUnprotected(g: seq<Card>, i: nat)
    ensures forall k :: 0 <= k < |TakeFrom(g, i)| ==> !IsProtected(TakeFrom(g, i)[k])
    decreases |g| - i
  {
    if i < |g| {
      TakeRevUnprotected(g, i + 1);
      var rest := TakeFrom(g, i + 1);
      forall k | 0 <= k < |TakeFrom(g, i)| ensures !IsProtected(TakeFrom(g, i)[k]) {
        if k < |rest| {
          assert TakeFrom(g, i)[k] == rest[k];
        }
      }
    }
  }

  /** Every card of a group is either kept or taken, once. */
  lemma {:induction false} KeepTakeTally(g: seq<Card>, i: nat)
    requires i <= |g|
    ensures Tally(KeepFrom(g, i)) + Tally(TakeFrom(g, i)) == Tally(g[i..])
    decreases |g| - i
  {
    if i < |g| {
      KeepTakeTally(g, i + 1);
      SuffixTally(g, i);
      KeepTakeHead(g, i);
    }
  }

  lemma SuffixTally(g: seq<Card>, i: nat)
    requires i < |g|
    ensures Tally(g[i..]) == Tally([g[i]]) + Tally(g[i + 1..])
  {
    assert g[i..] == [g[i]] + g[i + 1..];
    TallyConcat([g[i]], g[i + 1..]);
  }

  /** The card at `i` goes to exactly one side. */
  lemma KeepTakeHead(g: seq<Card>, i: nat)
    requires i < |g|
    ensures Tally(KeepFrom(g, i)) + Tally(TakeFrom(g, i)) ==
            Tally([g[i]]) + Tally(KeepFrom(g, i + 1)) + Tally(TakeFrom(g, i + 1))
  {
    var x, k, t := g[i], KeepFrom(g, i + 1), TakeFrom(g, i + 1);
    if IsProtected(x) {
      assert KeepFrom(g, i) == [x] + k;
      assert TakeFrom(g, i) == t + [] == t;
      TallyConcat([x], k);
    } else {
      assert KeepFrom(g, i) == [] + k == k;
      assert TakeFrom(g, i) == t + [x];
      TallyConcat(t, [x]);
    }
  }

  /** Splicing out the last card of the unvisited prefix. */
  lemma SpliceJoin(g: seq<Card>, i: int, k: seq<Card>)
    requires 0 <= i < |g|
    ensures (g[..i + 1] + k)[i] == g[i]
    ensures (g[..i + 1] + k)[..i] + (g[..i + 1] + k)[i + 1..] == g[..i] + k
    ensures g[..i + 1] + k == g[..i] + ([g[i]] + k)
  {
    var s := g[..i + 1] + k;
    assert s[..i] == g[..i];
    assert s[i + 1..] == k;
    assert g[..i + 1] == g[..i] + [g[i]];
  }

  /**
   * The reverse loop over one colour group: a protected wildcard is skipped,
   * any other card is pushed to the payee and spliced out.
   */
  method TakeGroup(g: seq<Card>, dst: seq<Card>) returns (kept: seq<Card>, d: seq<Card>)
    ensures kept == Keep(g) && d == dst + TakeRev(g)
  {
    kept, d := g, dst;
    var i := |g| - 1;
    while i >= 0
      invariant -1 <= i < |g|
      invariant kept == g[..i + 1] + KeepFrom(g, i + 1)
      invariant d == dst + TakeFrom(g, i + 1)
      decreases i + 1
    {
      SpliceJoin(g, i, KeepFrom(g, i + 1));
      var card := kept[i];
      if !IsProtected(card) {
        d := d + [card];
        kept := kept[..i] + kept[i + 1..];
      }
      i := i - 1;
    }
  }

  /** Whether the payee receives a card of colour `c`. */
  predicate Receives(m: map<string, seq<Card>>, c: string)
  {
    c in m && TakeRev(m[c]) != []
  }

  /** The payer's properties after the transfer: every group keeps its key and its protected cards. */
  function TakenFrom(m: map<string, seq<Card>>): map<string, seq<Card>>
  {
    map c | c in m :: Keep(m[c])
  }

  /** The payee's properties after the transfer: a group is created only when a card arrives. */
  function TakenTo(m: map<string, seq<Card>>, t: map<string, seq<Card>>): map<string, seq<Card>>
  {
    map c | c in t.Keys + (set k | k in m && Receives(m, k)) ::
      Group(t, c) + (if c in m then TakeRev(m[c]) else [])
  }

  /** The payer's map while the colours in `rest` are still to be visited. */
  ghost predicate KeptSoFar(m: map<string, seq<Card>>, rest: set<string>, f: map<string, seq<Card>>)
  {
    && f.Keys == m.Keys
    && forall c :: c in m ==> f[c] == if c in rest then m[c] else Keep(m[c])
  }

  /** The payee's map while the colours in `rest` are still to be visited. */
  ghost predicate TakenSoFar(m: map<string, seq<Card>>, t: map<string, seq<Card>>, rest: set<string>,
                             tt: map<string, seq<Card>>)
  {
    && (forall c :: c in tt <==> c in t || (c !in rest && Receives(m, c)))
    && forall c :: c in tt ==> tt[c] == if c in m && c !in rest then Group(t, c) + TakeRev(m[c]) else Group(t, c)
  }

  /** The loop over the payer's colour groups. */
  method TakeProperties(m: map<string, seq<Card>>, t: map<string, seq<Card>>)
    returns (f: map<string, seq<Card>>, tt: map<string, seq<Card>>)
    ensures f == TakenFrom(m) && tt == TakenTo(m, t)
  {
    f, tt := m, t;
    var rest := m.Keys;
    TakenInit(m, t);
    while rest != {}
      invariant rest <= m.Keys
      invariant KeptSoFar(m, rest, f) && TakenSoFar(m, t, rest, tt)
      decreases |rest|
    {
      var color :| color in rest;
      f, tt := TakeNextColor(m, t, rest, color, f, tt);
      rest := rest - {color};
    }
    TakenMaps(m, t, f, tt);
  }

  lemma TakenInit(m: map<string, seq<Card>>, t: map<string, seq<Card>>)
    ensures KeptSoFar(m, m.Keys, m) && TakenSoFar(m, t, m.Keys, t)
  {
    forall c ensures c in t <==> c in t || (c !in m.Keys && Receives(m, c)) {
      if Receives(m, c) {
        assert c in m.Keys;
      }
    }
  }

  lemma TakenMaps(m: map<string, seq<Card>>, t: map<string, seq<Card>>, f: map<string, seq<Card>>, tt: map<string, seq<Card>>)
    requires KeptSoFar(m, {}, f) && TakenSoFar(m, t, {}, tt)
    ensures f == TakenFrom(m) && tt == TakenTo(m, t)
  {
    KeptMap(m, f);
    TakenToMap(m, t, tt);
  }

  lemma KeptMap(m: map<string, seq<Card>>, f: map<string, seq<Card>>)
    requires KeptSoFar(m, {}, f)
    ensures f == TakenFrom(m)
  {
    var F := TakenFrom(m);
    forall c | c in f ensures c in F && f[c] == F[c] {
    }
    assert f.Keys == F.Keys;
  }

  lemma TakenToMap(m: map<string, seq<Card>>, t: map<string, seq<Card>>, tt: map<string, seq<Card>>)
    requires TakenSoFar(m, t, {}, tt)
    ensures tt == TakenTo(m, t)
  {
    var T := TakenTo(m, t);
    forall c ensures c in tt <==> c in T {
      assert c in T <==> c in t.Keys + (set k | k in m && Receives(m, k));
    }
    forall c | c in tt ensures tt[c] == T[c] {
    }
  }

  /** One colour group of the `forEach`. */
  method TakeNextColor(m: map<string, seq<Card>>, t: map<string, seq<Card>>, rest: set<string>, color: string,
                       f: map<string, seq<Card>>, tt: map<string, seq<Card>>)
    returns (f2: map<string, seq<Card>>, tt2: map<string, seq<Card>>)
    requires color in m && color in rest
    requires KeptSoFar(m, rest, f) && TakenSoFar(m, t, rest, tt)
    ensures KeptSoFar(m, rest - {color}, f2) && TakenSoFar(m, t, rest - {color}, tt2)
  {
    assert f[color] == m[color];
    assert Group(tt, color) == Group(t, color);
    var kept, d := TakeGroup(f[color], Group(tt, color));
    tt2 := tt;
    if color in tt || |d| > |Group(tt, color)| {
      tt2 := tt[color := d];
    }
    f2 := f[color := kept];
    KeptStep(m, rest, color, f, f2);
    TakenStepKeys(m, t, rest, color, tt, tt2, d);
    TakenStepValues(m, t, rest, color, tt, tt2, d);
  }

  lemma KeptStep(m: map<string, seq<Card>>, rest: set<string>, color: string,
                 f: map<string, seq<Card>>, f2: map<string, seq<Card>>)
    requires color in m && color in rest
    requires KeptSoFar(m, rest, f) && f2 == f[color := Keep(m[color])]
    ensures KeptSoFar(m, rest - {color}, f2)
  {
  }

  lemma TakenStepKeys(m: map<string, seq<Card>>, t: map<string, seq<Card>>, rest: set<string>, color: string,
                      tt: map<string, seq<Card>>, tt2: map<string, seq<Card>>, d: seq<Card>)
    requires color in m && color in rest
    requires forall c :: c in tt <==> c in t || (c !in rest && Receives(m, c))
    requires Group(tt, color) == Group(t, color)
    requires d == Group(t, color) + TakeRev(m[color])
    requires tt2 == if color in tt || |d| > |Group(tt, color)| then tt[color := d] else tt
    ensures forall c :: c in tt2 <==> c in t || (c !in rest - {color} && Receives(m, c))
  {
    assert Receives(m, color) <==> |d| > |Group(t, color)|;
  }

  lemma TakenStepValues(m: map<string, seq<Card>>, t: map<string, seq<Card>>, rest: set<string>, color: string,
                        tt: map<string, seq<Card>>, tt2: map<string, seq<Card>>, d: seq<Card>)
    requires color in m && color in rest
    requires forall c :: c in tt ==> tt[c] == if c in m && c !in rest then Group(t, c) + TakeRev(m[c]) else Group(t, c)
    requires d == Group(t, color) + TakeRev(m[color])
    requires tt2 == if color in tt || |d| > |Group(tt, color)| then tt[color := d] else tt
    ensures forall c :: c in tt2 ==>
      tt2[c] == if c in m && c !in rest - {color} then Group(t, c) + TakeRev(m[c]) else Group(t, c)
  {
    forall c | c in tt2
      ensures tt2[c] == if c in m && c !in rest - {color} then Group(t, c) + TakeRev(m[c]) else Group(t, c)
    {
      if c != color {
        assert tt2[c] == tt[c];
      }
    }
  }

  /** The payer and the payee after `takeAllAvailableAssets`. */
  function TakenPlayers(from: Player, to: Player): (Player, Player)
  {
    (Player(from.hand, [], TakenFrom(from.properties)),
     Player(to.hand, to.money + from.money, TakenTo(from.properties, to.properties)))
  }

  /**
   * `takeAllAvailableAssets`, as the source runs it. The two records are
   * values here; the source, given the same player twice, would loop on the
   * money forever, and the game state never asks for that.
   */
  method TakeAllAvailableAssets(from: Player, to: Player) returns (f: Player, t: Player)
    ensures (f, t) == TakenPlayers(from, to)
  {
    var fromMoney, toMoney := from.money, to.money;
    while |fromMoney| > 0
      invariant toMoney + fromMoney == to.money + from.money
      decreases |fromMoney|
    {
      var card := fromMoney[0];
      assert toMoney + fromMoney == (toMoney + [card]) + fromMoney[1..];
      toMoney := toMoney + [card];
      fromMoney := RemoveAt(fromMoney, 0);
    }
    assert toMoney == to.money + from.money;
    var fromProps, toProps := TakeProperties(from.properties, to.properties);
    f := Player(from.hand, fromMoney, fromProps);
    t := Player(to.hand, toMoney, toProps);
  }

  /** Afterwards the payer has nothing left to pay with. */
  lemma TakenLeavesNothing(from: Player, to: Player)
    ensures !HasAvailable(TakenPlayers(from, to).0)
    ensures AvailableValue(TakenPlayers(from, to).0) == 0
  {
    var f := TakenPlayers(from, to).0;
    forall c, i | c in f.properties && 0 <= i < |f.properties[c]| ensures IsProtected(f.properties[c][i]) {
      assert f.properties[c] == Keep(from.properties[c]);
      KeepProtected(from.properties[c], 0);
    }
    AvailableValueMeansAssets(f);
  }

  /** Colour by colour, the two groups of a colour together keep their ids. */
  lemma TakenColor(from: Player, to: Player, c: string)
    ensures var (f, t) := TakenPlayers(from, to);
      Tally(Group(f.properties, c)) + Tally(Group(t.properties, c)) ==
      Tally(Group(from.properties, c)) + Tally(Group(to.properties, c))
  {
    var (f, t) := TakenPlayers(from, to);
    if c in from.properties {
      var g := from.properties[c];
      KeepTakeTally(g, 0);
      assert g[0..] == g;
      TallyConcat(Group(to.properties, c), TakeRev(g));
      assert Group(f.properties, c) == Keep(g);
      if Receives(from.properties, c) || c in to.properties {
        assert Group(t.properties, c) == Group(to.properties, c) + TakeRev(g);
      } else {
        assert TakeRev(g) == [];
        assert Group(t.properties, c) == [] == Group(to.properties, c) + TakeRev(g);
      }
    } else {
      assert Group(f.properties, c) == [];
      assert Group(t.properties, c) == Group(to.properties, c);
    }
  }

  /** And every card the payer gave up is now the payee's. */
  lemma TakenConserves(from: Player, to: Player)
    ensures var (f, t) := TakenPlayers(from, to);
      PlayerIds(f) + PlayerIds(t) == PlayerIds(from) + PlayerIds(to)
  {
    var (f, t) := TakenPlayers(from, to);
    TakenGroups(from, to);
    TakenMoney(from, to);
    PlayersSum(Tally(from.hand), Tally(from.money), GroupIds(from.properties),
               Tally(to.hand), Tally(to.money), GroupIds(to.properties),
               Tally(f.money), GroupIds(f.properties), Tally(t.money), GroupIds(t.properties));
  }

  lemma TakenGroups(from: Player, to: Player)
    ensures var (f, t) := TakenPlayers(from, to);
      GroupIds(f.properties) + GroupIds(t.properties) == GroupIds(from.properties) + GroupIds(to.properties)
  {
    var (f, t) := TakenPlayers(from, to);
    forall c ensures Tally(Group(f.properties, c)) + Tally(Group(t.properties, c)) ==
                     Tally(Group(from.properties, c)) + Tally(Group(to.properties, c)) {
      TakenColor(from, to, c);
    }
    GroupIdsPointwise(from.properties, to.properties, f.properties, t.properties);
  }

  lemma TakenMoney(from: Player, to: Player)
    ensures var (f, t) := TakenPlayers(from, to);
      Tally(f.money) + Tally(t.money) == Tally(from.money) + Tally(to.money)
  {
    TallyConcat(to.money, from.money);
    assert Tally([]) == multiset{};
  }

  /** A group with no protected wildcard is emptied, every card going to the payee in reverse order. */
  lemma TakenFromUnprotected(from: Player, to: Player, c: string)
    requires c in from.properties
    requires forall k :: 0 <= k < |from.properties[c]| ==> !IsProtected(from.properties[c][k])
    ensures TakenPlayers(from, to).0.properties[c] == []
  {
    var g := from.properties[c];
    NoneKept(g, 0);
  }

  lemma {:induction false} NoneKept(g: seq<Card>, i: nat)
    requires forall k :: 0 <= k < |g| ==> !IsProtected(g[k])
    ensures KeepFrom(g, i) == []
    decreases |g| - i
  {
    if i < |g| {
      NoneKept(g, i + 1);
    }
  }
}
