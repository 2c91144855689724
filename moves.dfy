/**
 * The two players of a game and the single-card moves the engine makes
 * between hands, money piles and colour groups, each with the account of
 * the card ids it keeps: a move takes a card from one place and puts the
 * same card (or the same card with some fields rewritten) somewhere else.
 */
module Moves {
  import opened CardModel
  import opened Holdings

  /** `players`: the records of player 1 and player 2. */
  datatype Players = Players(one: Player, two: Player)
  {
    /** `players[n]`. */
    function Get(n: PlayerNumber): Player
    {
      if n == 1 then one else two
    }

    /** The record of player `n` replaced: only that player's record changes. */
    function Set(n: PlayerNumber, p: Player): (r: Players)
      ensures r.Get(n) == p
      ensures r.Get(Opponent(n)) == Get(Opponent(n))
    {
      if n == 1 then Players(p, two) else Players(one, p)
    }
  }

  const NoPlayers := Players(EmptyPlayer, EmptyPlayer)

  /** Replacing a player's record twice keeps only the second record. */
  lemma SetTwice(ps: Players, n: PlayerNumber, p: Player, q: Player)
    ensures ps.Set(n, p).Set(n, q) == ps.Set(n, q)
  {
  }

  /** Every id the two players hold. */
  ghost function PlayersIds(ps: Players): multiset<string>
  {
    PlayerIds(ps.one) + PlayerIds(ps.two)
  }

  /** Replacing one player's record exchanges that player's ids for the new record's. */
  lemma SetIds(ps: Players, n: PlayerNumber, p: Player)
    ensures PlayersIds(ps.Set(n, p)) + PlayerIds(ps.Get(n)) == PlayersIds(ps) + PlayerIds(p)
  {
  }

  /** Replacing both records, as a payment does. */
  lemma SetBothIds(ps: Players, n: PlayerNumber, p: Player, q: Player)
    ensures PlayersIds(ps.Set(n, p).Set(Opponent(n), q)) == PlayerIds(p) + PlayerIds(q)
    ensures PlayersIds(ps) == PlayerIds(ps.Get(n)) + PlayerIds(ps.Get(Opponent(n)))
  {
  }

  /** Two different players are each other's opponent. */
  lemma OtherIsOpponent(a: PlayerNumber, b: PlayerNumber)
    requires a != b
    ensures b == Opponent(a)
  {
  }

  // ----- moves out of and into a hand -----

  /** Splicing a card out of the hand loses exactly its id. */
  lemma TakeFromHand(p: Player, i: nat)
    requires i < |p.hand|
    ensures PlayerIds(p.(hand := RemoveAt(p.hand, i))) + multiset{p.hand[i].id} == PlayerIds(p)
  {
    RemoveAtTally(p.hand, i);
  }

  /** Pushing a card onto the hand gains exactly its id. */
  lemma PutInHand(p: Player, c: Card)
    ensures PlayerIds(p.(hand := p.hand + [c])) == PlayerIds(p) + multiset{c.id}
  {
    TallyConcat(p.hand, [c]);
  }

  /** Moving a hand card onto the money pile keeps the player's ids. */
  lemma HandToMoney(p: Player, i: nat)
    requires i < |p.hand|
    ensures PlayerIds(Player(RemoveAt(p.hand, i), p.money + [p.hand[i]], p.properties)) == PlayerIds(p)
  {
    RemoveAtTally(p.hand, i);
    TallyConcat(p.money, [p.hand[i]]);
  }

  /** Pushing a card onto a colour group gains exactly its id. */
  lemma AddToGroupIds(m: map<string, seq<Card>>, color: string, c: Card)
    ensures GroupIds(AddToGroup(m, color, c)) == GroupIds(m) + multiset{c.id}
  {
    var g := Group(m, color);
    GroupIdsUpdate(m, color, g + [c]);
    TallyConcat(g, [c]);
    TallySingle(c);
    MultisetCancel(GroupIds(AddToGroup(m, color, c)), Tally(g), GroupIds(m), multiset{c.id});
  }

  lemma TallySingle(c: Card)
    ensures Tally([c]) == multiset{c.id}
  {
    assert Ids([c]) == [c.id];
  }

  lemma MultisetCancel(x: multiset<string>, t: multiset<string>, y: multiset<string>, d: multiset<string>)
    requires x + t == y + (t + d)
    ensures x == y + d
  {
    forall e ensures x[e] == (y + d)[e] {
      assert (x + t)[e] == (y + (t + d))[e];
    }
  }

  lemma MultisetShift(a: multiset<string>, b: multiset<string>, m: multiset<string>,
                      t: multiset<string>, f: multiset<string>, d: multiset<string>)
    requires a == b + d && b + f == m + t && t + d == f
    ensures a == m
  {
    forall e ensures a[e] == m[e] {
      assert (b + f)[e] == (m + t)[e];
      assert (t + d)[e] == f[e];
    }
  }

  /** Moving a hand card, possibly rewritten, into a colour group keeps the player's ids. */
  lemma HandToGroup(p: Player, i: nat, color: string, c: Card)
    requires i < |p.hand| && c.id == p.hand[i].id
    ensures PlayerIds(Player(RemoveAt(p.hand, i), p.money, AddToGroup(p.properties, color, c))) == PlayerIds(p)
  {
    RemoveAtTally(p.hand, i);
    AddToGroupIds(p.properties, color, c);
  }

  /** Splicing a hand card out and pushing it back at the end keeps the player's ids. */
  lemma BackOfHand(p: Player, i: nat)
    requires i < |p.hand|
    ensures PlayerIds(p.(hand := RemoveAt(p.hand, i) + [p.hand[i]])) == PlayerIds(p)
  {
    RemoveAtTally(p.hand, i);
    TallyConcat(RemoveAt(p.hand, i), [p.hand[i]]);
  }

  /**
   * Splicing a card out of one colour group and pushing it, possibly
   * rewritten, onto another (or the same) group keeps the ids of the map.
   */
  lemma Regroup(m: map<string, seq<Card>>, from: string, i: nat, to: string, c: Card)
    requires from in m && i < |m[from]| && c.id == m[from][i].id
    ensures GroupIds(AddToGroup(m[from := RemoveAt(m[from], i)], to, c)) == GroupIds(m)
  {
    var g := RemoveAt(m[from], i);
    var m2 := m[from := g];
    RemoveAtTally(m[from], i);
    GroupIdsUpdate(m, from, g);
    assert Group(m, from) == m[from];
    AddToGroupIds(m2, to, c);
    MultisetShift(GroupIds(AddToGroup(m2, to, c)), GroupIds(m2), GroupIds(m), Tally(g), Tally(m[from]),
                  multiset{c.id});
  }

  /** The same, for a player's properties. */
  lemma RegroupPlayer(p: Player, from: string, i: nat, to: string, c: Card)
    requires from in p.properties && i < |p.properties[from]| && c.id == p.properties[from][i].id
    ensures PlayerIds(p.(properties := AddToGroup(p.properties[from := RemoveAt(p.properties[from], i)], to, c))) ==
            PlayerIds(p)
  {
    Regroup(p.properties, from, i, to, c);
  }

  // ----- piles -----

  /** Exchanging two cards of a pile keeps its ids. */
  lemma TallySwap(s: seq<Card>, i: nat, j: nat)
    requires i < |s| && j < |s|
    ensures Tally(s[i := s[j]][j := s[i]]) == Tally(s)
  {
    var ids := Ids(s);
    assert Ids(s[i := s[j]][j := s[i]]) == ids[i := ids[j]][j := ids[i]];
  }

  /** `pop()`: the last card leaves the pile, and with it exactly its id. */
  lemma TallyPop(s: seq<Card>)
    requires |s| > 0
    ensures Tally(s[..|s| - 1]) + multiset{s[|s| - 1].id} == Tally(s)
  {
    assert s == s[..|s| - 1] + [s[|s| - 1]];
    TallyConcat(s[..|s| - 1], [s[|s| - 1]]);
    TallySingle(s[|s| - 1]);
  }

  /** `push(c)`: the pile gains exactly the id of `c`. */
  lemma TallyPush(s: seq<Card>, c: Card)
    ensures Tally(s + [c]) == Tally(s) + multiset{c.id}
  {
    TallyConcat(s, [c]);
    TallySingle(c);
  }

  /** Cards with pairwise different ids hold each id at most once. */
  lemma {:induction false} TallyDistinct(s: seq<Card>)
    requires IdsDistinct(s)
    ensures forall id :: Tally(s)[id] <= 1
    decreases |s|
  {
    if s != [] {
      var init, last := s[..|s| - 1], s[|s| - 1];
      assert IdsDistinct(init);
      TallyDistinct(init);
      TallyPop(s);
      assert last.id !in Ids(init) by {
        forall k | 0 <= k < |init| ensures Ids(init)[k] != last.id {
          assert s[k] == init[k];
        }
      }
    }
  }
}
