/**
 * The account of card ids across whole game states: for each change the
 * two versions of `gameState` make to their deck, discard pile and
 * players, the ids held before and after are the same. Each lemma takes
 * the state an operation starts from and the state its contract says it
 * leaves, so together with those contracts it says that the operation
 * neither loses nor duplicates a card.
 */
module Accounts {
  import opened CardModel
  import opened Holdings
  import opened Moves
  import opened Turns
  import opened Transfer
  import opened PaymentSelection

  /** Two piles with the same cards, in any order, hold the same ids. */
  lemma {:induction false} SameCardsSameIds(a: seq<Card>, b: seq<Card>)
    requires multiset(a) == multiset(b)
    ensures Tally(a) == Tally(b)
    decreases |a|
  {
    if a == [] {
      assert |multiset(b)| == 0;
      assert b == [];
    } else {
      var init, c := a[..|a| - 1], a[|a| - 1];
      assert a == init + [c];
      assert c in multiset(b);
      var k :| 0 <= k < |b| && b[k] == c;
      assert b == b[..k] + [b[k]] + b[k + 1..];
      assert multiset(RemoveAt(b, k)) == multiset(b) - multiset{c};
      assert multiset(init) == multiset(a) - multiset{c};
      SameCardsSameIds(init, RemoveAt(b, k));
      TallyPop(a);
      RemoveAtTally(b, k);
    }
  }

  /** `shuffleDeck` reorders the deck and so keeps the account. */
  lemma ShuffleAccount(deck: seq<Card>, shuffled: seq<Card>, discardPile: seq<Card>, players: Players)
    requires multiset(shuffled) == multiset(deck)
    ensures Held(shuffled, discardPile, players) == Held(deck, discardPile, players)
  {
    SameCardsSameIds(shuffled, deck);
  }

  /**
   * `dealCard` on an empty deck: the discard pile, reshuffled, becomes the
   * deck and its last card is dealt; the deck left and the card dealt are
   * the discard pile's cards.
   */
  lemma DealReshuffledAccount(rest: seq<Card>, c: Card, discardPile: seq<Card>, players: Players, n: PlayerNumber)
    requires multiset(rest + [c]) == multiset(discardPile)
    ensures var p := players.Get(n);
      Held(rest, [], players.Set(n, p.(hand := p.hand + [c]))) == Held([], discardPile, players)
  {
    var d := rest + [c];
    SameCardsSameIds(d, discardPile);
    ReshuffleAccount(d, discardPile, players);
    DealAccount(d, [], players, n);
    assert d[..|d| - 1] == rest;
  }

  /**
   * `drawCardsForTurn`, and the draw of `playPassGoCard`: whatever the
   * deck, the discard pile and one hand hold between them afterwards, they
   * held before, so the account is kept.
   */
  lemma DrawAccount(deck: seq<Card>, discardPile: seq<Card>, players: Players, n: PlayerNumber,
                    deck2: seq<Card>, discardPile2: seq<Card>, hand2: seq<Card>)
    requires multiset(deck2 + discardPile2 + hand2) == multiset(deck + discardPile + players.Get(n).hand)
    ensures var p := players.Get(n);
      Held(deck2, discardPile2, players.Set(n, p.(hand := hand2))) == Held(deck, discardPile, players)
  {
    var p := players.Get(n);
    var q := p.(hand := hand2);
    SameCardsSameIds(deck2 + discardPile2 + hand2, deck + discardPile + p.hand);
    TallyConcat(deck2 + discardPile2, hand2);
    TallyConcat(deck2, discardPile2);
    TallyConcat(deck + discardPile, p.hand);
    TallyConcat(deck, discardPile);
    SetIds(players, n, q);
    SumExchange(Tally(deck2), Tally(discardPile2), Tally(hand2), Tally(deck), Tally(discardPile), Tally(p.hand),
                PlayersIds(players.Set(n, q)), PlayersIds(players), Tally(p.money) + GroupIds(p.properties));
  }

  /** The multiset step of `DrawAccount`: a hand exchanged against the piles. */
  lemma SumExchange(d2: multiset<string>, p2: multiset<string>, h2: multiset<string>,
                    d: multiset<string>, p: multiset<string>, h: multiset<string>,
                    c2: multiset<string>, c: multiset<string>, rest: multiset<string>)
    requires d2 + p2 + h2 == d + p + h
    requires c2 + (h + rest) == c + (h2 + rest)
    ensures d2 + p2 + c2 == d + p + c
  {
    forall e ensures (d2 + p2 + c2)[e] == (d + p + c)[e] {
      assert (d2 + p2 + h2)[e] == (d + p + h)[e];
      assert (c2 + (h + rest))[e] == (c + (h2 + rest))[e];
    }
  }

  /** `playCard` with a money card, and `playActionCardAsMoney`: hand to money pile. */
  lemma PlayMoneyAccount(deck: seq<Card>, discardPile: seq<Card>, players: Players, n: PlayerNumber, i: nat)
    requires i < |players.Get(n).hand|
    ensures var p := players.Get(n);
      Held(deck, discardPile, players.Set(n, Player(RemoveAt(p.hand, i), p.money + [p.hand[i]], p.properties))) ==
      Held(deck, discardPile, players)
  {
    var p := players.Get(n);
    HandToMoney(p, i);
    PlayerAccount(deck, discardPile, players, n, Player(RemoveAt(p.hand, i), p.money + [p.hand[i]], p.properties));
  }

  /**
   * `playCard` with a property card: hand to a colour group. The card filed
   * may have rewritten fields (the current version's wildcard annotations)
   * but keeps its id.
   */
  lemma PlayPropertyAccount(deck: seq<Card>, discardPile: seq<Card>, players: Players, n: PlayerNumber, i: nat,
                            color: string, c: Card)
    requires i < |players.Get(n).hand| && c.id == players.Get(n).hand[i].id
    ensures var p := players.Get(n);
      Held(deck, discardPile, players.Set(n, Player(RemoveAt(p.hand, i), p.money, AddToGroup(p.properties, color, c)))) ==
      Held(deck, discardPile, players)
  {
    var p := players.Get(n);
    HandToGroup(p, i, color, c);
    PlayerAccount(deck, discardPile, players, n, Player(RemoveAt(p.hand, i), p.money, AddToGroup(p.properties, color, c)));
  }

  /** `playCard` with a card of unknown type: it goes back to the end of the hand. */
  lemma UnknownCardAccount(deck: seq<Card>, discardPile: seq<Card>, players: Players, n: PlayerNumber, i: nat)
    requires i < |players.Get(n).hand|
    ensures var p := players.Get(n);
      Held(deck, discardPile, players.Set(n, p.(hand := RemoveAt(p.hand, i) + [p.hand[i]]))) ==
      Held(deck, discardPile, players)
  {
    var p := players.Get(n);
    BackOfHand(p, i);
    PlayerAccount(deck, discardPile, players, n, p.(hand := RemoveAt(p.hand, i) + [p.hand[i]]));
  }

  /**
   * `flipWildcardProperty` and `changeWildcardColor`: a card leaves one
   * colour group and, recoloured, joins another.
   */
  lemma RegroupAccount(deck: seq<Card>, discardPile: seq<Card>, players: Players, n: PlayerNumber,
                       from: string, i: nat, to: string, c: Card)
    requires from in players.Get(n).properties && i < |players.Get(n).properties[from]|
    requires c.id == players.Get(n).properties[from][i].id
    ensures var p := players.Get(n);
      var q := p.(properties := AddToGroup(p.properties[from := RemoveAt(p.properties[from], i)], to, c));
      Held(deck, discardPile, players.Set(n, q)) == Held(deck, discardPile, players)
  {
    var p := players.Get(n);
    RegroupPlayer(p, from, i, to, c);
    PlayerAccount(deck, discardPile, players, n,
                  p.(properties := AddToGroup(p.properties[from := RemoveAt(p.properties[from], i)], to, c)));
  }

  /** `processSelectedPayment`: whatever was selected, the transfer keeps the account. */
  lemma PaymentTransferAccount(deck: seq<Card>, discardPile: seq<Card>, players: Players,
                               from: PlayerNumber, to: PlayerNumber, sel: Selection)
    requires from != to
    ensures var (f, t) := PaidPlayers(players.Get(from), players.Get(to), sel);
      Held(deck, discardPile, players.Set(from, f).Set(to, t)) == Held(deck, discardPile, players)
  {
    var (f, t) := PaidPlayers(players.Get(from), players.Get(to), sel);
    PaidConserves(players.Get(from), players.Get(to), sel);
    PaymentAccount(deck, discardPile, players, from, to, f, t);
  }

  /** `takeAllAvailableAssets`: the automatic transfer keeps the account. */
  lemma TakeAllAccount(deck: seq<Card>, discardPile: seq<Card>, players: Players, from: PlayerNumber, to: PlayerNumber)
    requires from != to
    ensures var (f, t) := TakenPlayers(players.Get(from), players.Get(to));
      Held(deck, discardPile, players.Set(from, f).Set(to, t)) == Held(deck, discardPile, players)
  {
    var (f, t) := TakenPlayers(players.Get(from), players.Get(to));
    TakenConserves(players.Get(from), players.Get(to));
    PaymentAccount(deck, discardPile, players, from, to, f, t);
  }

  /**
   * After the opening deal of `startGame`, the game holds exactly the ids
   * of the new deck; when those are distinct, no id is held twice.
   */
  lemma OpeningAccount(deck: seq<Card>, h1: seq<Card>, h2: seq<Card>, cards: seq<Card>)
    requires multiset(deck + h1 + h2) == multiset(cards)
    ensures Held(deck, [], Players(Player(h1, [], map[]), Player(h2, [], map[]))) == Tally(cards)
    ensures IdsDistinct(cards) ==> AtMostOnce(Held(deck, [], Players(Player(h1, [], map[]), Player(h2, [], map[]))))
  {
    SameCardsSameIds(deck + h1 + h2, cards);
    TallyConcat(deck + h1, h2);
    TallyConcat(deck, h1);
    assert Tally([]) == multiset{};
    if IdsDistinct(cards) {
      TallyDistinct(cards);
    }
  }
}
