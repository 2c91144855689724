/**
 * What a player holds -- a hand, a money pile and properties grouped by
 * colour -- with the sequence surgery the game performs on them (`splice`,
 * `push` onto a colour group that may not exist yet) and the sums the game
 * takes over them. A colour group that has been emptied keeps its key, as a
 * JavaScript object does.
 */
module Holdings {
  import opened CardModel
  import opened DeckParts

  /** `{ hand: [], money: [], properties: {} }`. */
  datatype Player = Player(hand: seq<Card>, money: seq<Card>, properties: map<string, seq<Card>>)

  const EmptyPlayer := Player([], [], map[])

  // ----- sequence and group surgery -----

  /** `properties[color]`, with an absent group read as empty. */
  function Group(m: map<string, seq<Card>>, color: string): seq<Card>
  {
    if color in m then m[color] else []
  }

  /** A splice of one element: the sequence without its `i`-th element. */
  function RemoveAt(s: seq<Card>, i: nat): (r: seq<Card>)
    requires i < |s|
    ensures |r| == |s| - 1
  {
    s[..i] + s[i + 1..]
  }

  /** Splicing out one card takes exactly that card out of the pile. */
  lemma RemoveAtCards(s: seq<Card>, i: nat)
    requires i < |s|
    ensures multiset(RemoveAt(s, i)) + multiset{s[i]} == multiset(s)
  {
    assert s == s[..i] + [s[i]] + s[i + 1..];
  }

  /** A hand card spliced out and pushed onto the pile leaves the cards of deck, pile and hand as they were. */
  lemma HandToPileCards(deck: seq<Card>, pile: seq<Card>, hand: seq<Card>, i: nat)
    requires i < |hand|
    ensures multiset(deck + (pile + [hand[i]]) + RemoveAt(hand, i)) == multiset(deck + pile + hand)
  {
    RemoveAtCards(hand, i);
  }

  /** Splicing out one card takes exactly its id out of the tally. */
  lemma RemoveAtTally(s: seq<Card>, i: nat)
    requires i < |s|
    ensures Tally(RemoveAt(s, i)) + multiset{s[i].id} == Tally(s)
  {
    TallyRemove(s, i);
  }

  /**
   * A card pushed onto the group of a colour, the group created empty
   * first when missing: only that group changes, and it gains `c` at its
   * end.
   */
  function AddToGroup(m: map<string, seq<Card>>, color: string, c: Card): (r: map<string, seq<Card>>)
    ensures r.Keys == m.Keys + {color}
    ensures r[color] == Group(m, color) + [c]
    ensures forall k :: k in m && k != color ==> r[k] == m[k]
  {
    m[color := Group(m, color) + [c]]
  }

  // ----- the ids held in a property map -----

  /** Every id in every colour group, with multiplicity. */
  ghost function GroupIds(m: map<string, seq<Card>>): multiset<string>
    decreases |m|
  {
    if m == map[] then multiset{}
    else
      var k :| k in m;
      Tally(m[k]) + GroupIds(m - {k})
  }

  /** Any group can be taken out first: the fold does not depend on the key it picks. */
  lemma {:induction false} GroupIdsRemove(m: map<string, seq<Card>>, k: string)
    requires k in m
    ensures GroupIds(m) == Tally(m[k]) + GroupIds(m - {k})
    decreases |m|
  {
    var j :| j in m && GroupIds(m) == Tally(m[j]) + GroupIds(m - {j});
    if j != k {
      var mj, mk := m - {j}, m - {k};
      GroupIdsRemove(mj, k);
      GroupIdsRemove(mk, j);
      assert mj - {k} == mk - {j};
      assert mj[k] == m[k] && mk[j] == m[j];
      SumSwapInto(GroupIds(m), GroupIds(mj), GroupIds(mk), Tally(m[j]), Tally(m[k]), GroupIds(mj - {k}));
    }
  }

  lemma SumSwapInto(all: multiset<string>, withoutX: multiset<string>, withoutY: multiset<string>,
                    x: multiset<string>, y: multiset<string>, rest: multiset<string>)
    requires all == x + withoutX && withoutX == y + rest && withoutY == x + rest
    ensures all == y + withoutY
  {
  }

  lemma SumRegroup(x: multiset<string>, r: multiset<string>, y: multiset<string>, q: multiset<string>,
                   x2: multiset<string>, r2: multiset<string>, y2: multiset<string>, q2: multiset<string>)
    requires x2 + y2 == x + y && r2 + q2 == r + q
    ensures (x2 + r2) + (y2 + q2) == (x + r) + (y + q)
  {
    calc {
      (x2 + r2) + (y2 + q2);
      (x2 + y2) + (r2 + q2);
      (x + y) + (r + q);
      (x + r) + (y + q);
    }
  }

  /** The same, for a key that may be absent. */
  lemma GroupIdsSplit(m: map<string, seq<Card>>, k: string)
    ensures GroupIds(m) == Tally(Group(m, k)) + GroupIds(m - {k})
  {
    if k in m {
      GroupIdsRemove(m, k);
    } else {
      assert m - {k} == m;
    }
  }

  /** Replacing one group changes the ids held by exactly that group's ids. */
  lemma GroupIdsUpdate(m: map<string, seq<Card>>, k: string, g: seq<Card>)
    ensures GroupIds(m[k := g]) + Tally(Group(m, k)) == GroupIds(m) + Tally(g)
  {
    GroupIdsRemove(m[k := g], k);
    assert m[k := g] - {k} == m - {k};
    GroupIdsSplit(m, k);
  }

  lemma GroupWithout(m: map<string, seq<Card>>, c: string, d: string)
    ensures Group(m - {c}, d) == if d == c then [] else Group(m, d)
  {
  }

  /**
   * Two property maps hold, together, the same ids as two others whenever that
   * is so colour by colour.
   */
  lemma {:induction false} GroupIdsPointwise(a: map<string, seq<Card>>, b: map<string, seq<Card>>,
                                             a2: map<string, seq<Card>>, b2: map<string, seq<Card>>)
    requires forall c :: Tally(Group(a2, c)) + Tally(Group(b2, c)) == Tally(Group(a, c)) + Tally(Group(b, c))
    ensures GroupIds(a2) + GroupIds(b2) == GroupIds(a) + GroupIds(b)
    decreases |a.Keys + b.Keys + a2.Keys + b2.Keys|
  {
    var keys := a.Keys + b.Keys + a2.Keys + b2.Keys;
    if keys == {} {
      assert a == map[] && b == map[] && a2 == map[] && b2 == map[];
    } else {
      var c :| c in keys;
      PointwiseWithout(a, b, a2, b2, c);
      KeysWithout(a, b, a2, b2, c);
      GroupIdsPointwise(a - {c}, b - {c}, a2 - {c}, b2 - {c});
      PointwiseStep(a, b, a2, b2, c);
    }
  }

  /** The colour-by-colour premise survives dropping one colour from all four maps. */
  lemma PointwiseWithout(a: map<string, seq<Card>>, b: map<string, seq<Card>>,
                         a2: map<string, seq<Card>>, b2: map<string, seq<Card>>, c: string)
    requires forall d :: Tally(Group(a2, d)) + Tally(Group(b2, d)) == Tally(Group(a, d)) + Tally(Group(b, d))
    ensures forall d :: Tally(Group(a2 - {c}, d)) + Tally(Group(b2 - {c}, d)) ==
                        Tally(Group(a - {c}, d)) + Tally(Group(b - {c}, d))
  {
    forall d ensures Tally(Group(a2 - {c}, d)) + Tally(Group(b2 - {c}, d)) ==
                     Tally(Group(a - {c}, d)) + Tally(Group(b - {c}, d)) {
      GroupWithout(a, c, d);
      GroupWithout(b, c, d);
      GroupWithout(a2, c, d);
      GroupWithout(b2, c, d);
    }
  }

  lemma KeysWithout(a: map<string, seq<Card>>, b: map<string, seq<Card>>,
                    a2: map<string, seq<Card>>, b2: map<string, seq<Card>>, c: string)
    requires c in a.Keys + b.Keys + a2.Keys + b2.Keys
    ensures |(a - {c}).Keys + (b - {c}).Keys + (a2 - {c}).Keys + (b2 - {c}).Keys| <
            |a.Keys + b.Keys + a2.Keys + b2.Keys|
  {
    KeysMinus(a, c);
    KeysMinus(b, c);
    KeysMinus(a2, c);
    KeysMinus(b2, c);
    UnionMinus(a.Keys, b.Keys, a2.Keys, b2.Keys, c);
  }

  lemma KeysMinus(m: map<string, seq<Card>>, c: string)
    ensures (m - {c}).Keys == m.Keys - {c}
  {
  }

  lemma UnionMinus(w: set<string>, x: set<string>, y: set<string>, z: set<string>, c: string)
    requires c in w + x + y + z
    ensures |(w - {c}) + (x - {c}) + (y - {c}) + (z - {c})| < |w + x + y + z|
  {
    assert (w - {c}) + (x - {c}) + (y - {c}) + (z - {c}) == (w + x + y + z) - {c};
  }

  lemma PointwiseStep(a: map<string, seq<Card>>, b: map<string, seq<Card>>,
                      a2: map<string, seq<Card>>, b2: map<string, seq<Card>>, c: string)
    requires Tally(Group(a2, c)) + Tally(Group(b2, c)) == Tally(Group(a, c)) + Tally(Group(b, c))
    requires GroupIds(a2 - {c}) + GroupIds(b2 - {c}) == GroupIds(a - {c}) + GroupIds(b - {c})
    ensures GroupIds(a2) + GroupIds(b2) == GroupIds(a) + GroupIds(b)
  {
    GroupIdsSplit(a, c);
    GroupIdsSplit(b, c);
    GroupIdsSplit(a2, c);
    GroupIdsSplit(b2, c);
    SumRegroup(Tally(Group(a, c)), GroupIds(a - {c}), Tally(Group(b, c)), GroupIds(b - {c}),
               Tally(Group(a2, c)), GroupIds(a2 - {c}), Tally(Group(b2, c)), GroupIds(b2 - {c}));
  }

  /** Every id a player holds: hand, money and properties. */
  ghost function PlayerIds(p: Player): multiset<string>
  {
    Tally(p.hand) + Tally(p.money) + GroupIds(p.properties)
  }

  // ----- values -----

  /**
   * A wildcard that may stand for any colour. Such a card is never taken as
   * payment by the automatic transfer and does not count as available.
   */
  predicate IsProtected(c: Card)
  {
    c.wildcard && "any" in c.originalColors
  }

  /** The bank value of a group, leaving out protected wildcards when `skip` holds. */
  function GroupValue(g: seq<Card>, skip: bool): nat
    decreases |g|
  {
    if g == [] then 0
    else (if skip && IsProtected(g[0]) then 0 else g[0].value) + GroupValue(g[1..], skip)
  }

  /** The value of all colour groups. */
  ghost function GroupsValue(m: map<string, seq<Card>>, skip: bool): nat
    decreases |m|
  {
    if m == map[] then 0
    else
      var k :| k in m;
      GroupValue(m[k], skip) + GroupsValue(m - {k}, skip)
  }

  lemma {:induction false} GroupsValueRemove(m: map<string, seq<Card>>, k: string, skip: bool)
    requires k in m
    ensures GroupsValue(m, skip) == GroupValue(m[k], skip) + GroupsValue(m - {k}, skip)
    decreases |m|
  {
    var j :| j in m && GroupsValue(m, skip) == GroupValue(m[j], skip) + GroupsValue(m - {j}, skip);
    if j != k {
      var mj, mk := m - {j}, m - {k};
      GroupsValueRemove(mj, k, skip);
      GroupsValueRemove(mk, j, skip);
      assert mj - {k} == mk - {j};
    }
  }

  /** `calculatePlayerAssetValue`: money plus every property. */
  ghost function AssetValue(p: Player): nat
  {
    SumValues(p.money) + GroupsValue(p.properties, false)
  }

  /** `calculateAvailableAssets`: money plus every property that is not a protected wildcard. */
  ghost function AvailableValue(p: Player): nat
  {
    SumValues(p.money) + GroupsValue(p.properties, true)
  }

  /** `hasAnyAvailableAssets`: some money, or some property that is not a protected wildcard. */
  predicate HasAvailable(p: Player)
  {
    |p.money| > 0 ||
    exists c, i :: c in p.properties && 0 <= i < |p.properties[c]| && !IsProtected(p.properties[c][i])
  }

  lemma {:induction false} GroupValueSkipLe(g: seq<Card>)
    ensures GroupValue(g, true) <= GroupValue(g, false)
    decreases |g|
  {
    if g != [] {
      GroupValueSkipLe(g[1..]);
    }
  }

  lemma {:induction false} GroupsValueSkipLe(m: map<string, seq<Card>>)
    ensures GroupsValue(m, true) <= GroupsValue(m, false)
    decreases |m|
  {
    if m != map[] {
      var k :| k in m;
      GroupsValueRemove(m, k, true);
      GroupsValueRemove(m, k, false);
      GroupValueSkipLe(m[k]);
      GroupsValueSkipLe(m - {k});
    }
  }

  /** What is available for payment never exceeds what the player owns. */
  lemma AvailableAtMostAssets(p: Player)
    ensures AvailableValue(p) <= AssetValue(p)
  {
    GroupsValueSkipLe(p.properties);
  }

  lemma {:induction false} GroupValueProtectedOnly(g: seq<Card>)
    requires forall i :: 0 <= i < |g| ==> IsProtected(g[i])
    ensures GroupValue(g, true) == 0
    decreases |g|
  {
    if g != [] {
      GroupValueProtectedOnly(g[1..]);
    }
  }

  lemma {:induction false} GroupsValueProtectedOnly(m: map<string, seq<Card>>)
    requires forall c, i :: c in m && 0 <= i < |m[c]| ==> IsProtected(m[c][i])
    ensures GroupsValue(m, true) == 0
    decreases |m|
  {
    if m != map[] {
      var k :| k in m;
      GroupsValueRemove(m, k, true);
      GroupValueProtectedOnly(m[k]);
      GroupsValueProtectedOnly(m - {k});
    }
  }

  /**
   * A player with nothing available has no available value; so a positive
   * available value means there is something to take.
   */
  lemma AvailableValueMeansAssets(p: Player)
    ensures AvailableValue(p) > 0 ==> HasAvailable(p)
  {
    if !HasAvailable(p) {
      GroupsValueProtectedOnly(p.properties);
    }
  }

  // ----- the loops that compute these sums -----

  /** The money loop of the asset sums: the money pile's values added up. */
  method SumMoney(money: seq<Card>) returns (total: nat)
    ensures total == SumValues(money)
  {
    total := 0;
    for i := 0 to |money|
      invariant total == SumValues(money[..i])
    {
      SumValuesConcat(money[..i], [money[i]]);
      assert money[..i + 1] == money[..i] + [money[i]];
      total := total + money[i].value;
    }
    assert money[..|money|] == money;
  }

  /** The loop over one colour group, skipping protected wildcards when `skip` holds. */
  method SumGroup(g: seq<Card>, skip: bool) returns (total: nat)
    ensures total == GroupValue(g, skip)
  {
    total := 0;
    var i := |g|;
    while i > 0
      invariant 0 <= i <= |g|
      invariant total == GroupValue(g[i..], skip)
    {
      i := i - 1;
      assert g[i..][1..] == g[i + 1..];
      if !(skip && IsProtected(g[i])) {
        total := total + g[i].value;
      }
    }
  }

  /** The loop over the colours of a property map, summing every group. */
  method SumGroups(m: map<string, seq<Card>>, skip: bool) returns (total: nat)
    ensures total == GroupsValue(m, skip)
  {
    total := 0;
    var rest := m;
    while rest != map[]
      invariant total + GroupsValue(rest, skip) == GroupsValue(m, skip)
      decreases |rest|
    {
      var color :| color in rest;
      var v := SumGroup(rest[color], skip);
      GroupsValueRemove(rest, color, skip);
      total := total + v;
      rest := rest - {color};
    }
  }

  /** `calculatePlayerAssetValue` over one player's holdings. */
  method CalculatePlayerAssetValue(p: Player) returns (total: nat)
    ensures total == AssetValue(p)
  {
    var money := SumMoney(p.money);
    var props := SumGroups(p.properties, false);
    total := money + props;
  }

  /** `calculateAvailableAssets` over one player's holdings. */
  method CalculateAvailableAssets(p: Player) returns (total: nat)
    ensures total == AvailableValue(p)
  {
    var money := SumMoney(p.money);
    var props := SumGroups(p.properties, true);
    total := money + props;
  }

  /** `hasAnyAvailableAssets`: money first, then the first unprotected property found. */
  method HasAnyAvailableAssets(p: Player) returns (r: bool)
    ensures r == HasAvailable(p)
  {
    if |p.money| > 0 {
      return true;
    }
    var rest := p.properties.Keys;
    while rest != {}
      invariant rest <= p.properties.Keys
      invariant forall c, i :: c in p.properties && c !in rest && 0 <= i < |p.properties[c]| ==>
                  IsProtected(p.properties[c][i])
      decreases rest
    {
      var color :| color in rest;
      var g := p.properties[color];
      for i := 0 to |g|
        invariant forall j :: 0 <= j < i ==> IsProtected(g[j])
      {
        if !IsProtected(g[i]) {
          return true;
        }
      }
      rest := rest - {color};
    }
    return false;
  }
}
