/**
 * What both versions of the game state share beyond the cards: the payment
 * request record, the turn flags and the rule by which `endTurn` changes
 * them, the account of every card id the game holds (deck, discard pile and
 * both players), and the discard pile that `discardCard` leaves behind.
 */
module Turns {
  import opened CardModel
  import opened Holdings
  import opened Moves

  /** `paymentRequest`: who pays whom how much (the reason text is not modelled). */
  datatype Request = Request(from: PlayerNumber, to: PlayerNumber, amount: int)

  /** The per-turn flags of `gameState`. */
  datatype TurnState = TurnState(
    gameStarted: bool,
    currentPlayer: PlayerNumber,
    hasDrawnCards: bool,
    cardsPlayedThisTurn: nat,
    discardMode: bool,
    cardsToDiscard: int)

  /** A hand holds at most this many cards when its turn ends. */
  const HandLimit := 7

  /** `endTurn`'s guard: a started game, cards drawn, no payment pending. */
  predicate CanEndTurn(t: TurnState, paymentPending: bool)
  {
    t.gameStarted && t.hasDrawnCards && !paymentPending
  }

  /**
   * The turn flags after `endTurn`, given the current player's hand size.
   * A refused call changes nothing. A hand over the limit enters discard
   * mode for the excess and keeps the player. Otherwise the other player's
   * turn begins with every per-turn flag and counter cleared.
   */
  function EndTurnFlags(t: TurnState, handSize: nat, paymentPending: bool): (r: TurnState)
    ensures !CanEndTurn(t, paymentPending) ==> r == t
    ensures CanEndTurn(t, paymentPending) && handSize > HandLimit ==>
      r.discardMode && r.cardsToDiscard == handSize - HandLimit > 0 &&
      r.currentPlayer == t.currentPlayer && r.hasDrawnCards && r.gameStarted &&
      r.cardsPlayedThisTurn == t.cardsPlayedThisTurn
    ensures CanEndTurn(t, paymentPending) && handSize <= HandLimit ==>
      r.currentPlayer != t.currentPlayer && r.gameStarted && !r.hasDrawnCards &&
      r.cardsPlayedThisTurn == 0 && !r.discardMode && r.cardsToDiscard == 0
  {
    if !CanEndTurn(t, paymentPending) then t
    else if handSize > HandLimit then
      t.(discardMode := true, cardsToDiscard := handSize - HandLimit)
    else
      TurnState(t.gameStarted, Opponent(t.currentPlayer), false, 0, false, 0)
  }

  /** Whether the call ended the turn. */
  predicate EndsTurn(t: TurnState, handSize: nat, paymentPending: bool)
  {
    CanEndTurn(t, paymentPending) && handSize <= HandLimit
  }

  /** Once a turn has ended, the next player cannot end it again before drawing. */
  lemma EndTurnNeedsDraw(t: TurnState, n: nat, m: nat, pending: bool)
    requires EndsTurn(t, n, pending)
    ensures EndTurnFlags(EndTurnFlags(t, n, pending), m, pending) == EndTurnFlags(t, n, pending)
  {
  }

  /** Two turns that each end without discarding bring the first player back. */
  lemma TurnsAlternate(t: TurnState, n: nat, m: nat, pending: bool)
    requires EndsTurn(t, n, pending)
    requires EndsTurn(EndTurnFlags(t, n, pending).(hasDrawnCards := true), m, pending)
    ensures EndTurnFlags(EndTurnFlags(t, n, pending).(hasDrawnCards := true), m, pending).currentPlayer ==
            t.currentPlayer
  {
  }

  /** Discard mode and a positive count of cards still to discard go together. */
  predicate DiscardConsistent(t: TurnState)
  {
    t.cardsToDiscard >= 0 && (t.discardMode <==> t.cardsToDiscard > 0)
  }

  /** `endTurn` keeps discard mode consistent with the count. */
  lemma EndTurnKeepsDiscard(t: TurnState, n: nat, pending: bool)
    requires DiscardConsistent(t)
    ensures DiscardConsistent(EndTurnFlags(t, n, pending))
  {
  }

  /**
   * The turn flags after `discardCard` has taken one card in discard mode,
   * given the hand size left: one fewer card to discard, and when none is
   * left discard mode ends and `endTurn` runs again.
   */
  function DiscardFlags(t: TurnState, handSize: nat, paymentPending: bool): TurnState
  {
    var mid := t.(cardsToDiscard := t.cardsToDiscard - 1);
    if mid.cardsToDiscard == 0 then EndTurnFlags(mid.(discardMode := false), handSize, paymentPending)
    else mid
  }

  /** `k` discards in a row, starting from a hand of `handSize` cards. */
  function DiscardAfter(t: TurnState, handSize: nat, k: nat, paymentPending: bool): TurnState
    requires k <= handSize
    decreases k
  {
    if k == 0 then t
    else DiscardAfter(DiscardFlags(t, handSize - 1, paymentPending), handSize - 1, k - 1, paymentPending)
  }

  /**
   * From discard mode with `k` cards to go and `k` cards over the limit,
   * discarding them one at a time ends the turn: the opponent's turn begins
   * with every flag cleared.
   */
  lemma {:induction false} DiscardingExcessEndsTurn(t: TurnState, k: nat, paymentPending: bool)
    requires CanEndTurn(t, paymentPending) && t.discardMode && t.cardsToDiscard == k > 0
    ensures var r := DiscardAfter(t, HandLimit + k, k, paymentPending);
      r == TurnState(t.gameStarted, Opponent(t.currentPlayer), false, 0, false, 0)
    decreases k
  {
    if k > 1 {
      DiscardingExcessEndsTurn(t.(cardsToDiscard := k - 1), k - 1, paymentPending);
    }
  }

  /** A turn that ends with too many cards ends after the excess is discarded, one card at a time. */
  lemma EndTurnThenDiscard(t: TurnState, handSize: nat, paymentPending: bool)
    requires CanEndTurn(t, paymentPending) && handSize > HandLimit
    ensures var d := EndTurnFlags(t, handSize, paymentPending);
      DiscardAfter(d, handSize, handSize - HandLimit, paymentPending) ==
      TurnState(t.gameStarted, Opponent(t.currentPlayer), false, 0, false, 0)
  {
    DiscardingExcessEndsTurn(EndTurnFlags(t, handSize, paymentPending), handSize - HandLimit, paymentPending);
  }

  /** One discard keeps discard mode consistent with the count. */
  lemma DiscardKeepsConsistent(t: TurnState, handSize: nat, paymentPending: bool)
    requires DiscardConsistent(t) && t.discardMode
    ensures DiscardConsistent(DiscardFlags(t, handSize, paymentPending))
  {
    EndTurnKeepsDiscard(t.(cardsToDiscard := 0, discardMode := false), handSize, paymentPending);
  }

  // ----- the deck -----

  /**
   * `shuffleDeck`'s loop: Fisher-Yates from the last position down, each
   * swap partner picked arbitrarily among the positions not yet fixed
   * (the choice `Math.random` makes).
   */
  method Shuffle(d: seq<Card>) returns (r: seq<Card>)
    ensures |r| == |d| && multiset(r) == multiset(d)
  {
    r := d;
    var i := |r| - 1;
    while i > 0
      invariant i < |r| && |r| == |d|
      invariant multiset(r) == multiset(d)
      decreases i
    {
      var j :| 0 <= j <= i;
      r := r[i := r[j]][j := r[i]];
      i := i - 1;
    }
  }

  // ----- the cards the game holds -----

  /** Every id in the deck, the discard pile and the two players' holdings. */
  ghost function Held(deck: seq<Card>, discardPile: seq<Card>, players: Players): multiset<string>
  {
    Tally(deck) + Tally(discardPile) + PlayersIds(players)
  }

  /** No id is held twice. */
  ghost predicate AtMostOnce(m: multiset<string>)
  {
    forall id :: m[id] <= 1
  }

  /** `deck.pop()` onto a hand: the card changes place, nothing else does. */
  lemma DealAccount(deck: seq<Card>, discardPile: seq<Card>, players: Players, n: PlayerNumber)
    requires |deck| > 0
    ensures var p := players.Get(n);
      Held(deck[..|deck| - 1], discardPile, players.Set(n, p.(hand := p.hand + [deck[|deck| - 1]]))) ==
      Held(deck, discardPile, players)
  {
    var p := players.Get(n);
    var c := deck[|deck| - 1];
    var q := p.(hand := p.hand + [c]);
    var rest := deck[..|deck| - 1];
    TallyPop(deck);
    PutInHand(p, c);
    SetIds(players, n, q);
    SumMove(Tally(rest), Tally(deck), Tally(discardPile), PlayersIds(players.Set(n, q)), PlayersIds(players),
            multiset{c.id}, PlayerIds(p), PlayerIds(q));
  }

  lemma SumMove(a: multiset<string>, a0: multiset<string>, b: multiset<string>,
                c: multiset<string>, c0: multiset<string>, d: multiset<string>,
                p: multiset<string>, q: multiset<string>)
    requires a + d == a0 && q == p + d && c + p == c0 + q
    ensures a + b + c == a0 + b + c0
  {
    forall e ensures (a + b + c)[e] == (a0 + b + c0)[e] {
      assert (a + d)[e] == a0[e];
      assert (c + p)[e] == (c0 + q)[e];
    }
  }

  /** The discard pile becoming the deck, reordered, keeps every id. */
  lemma ReshuffleAccount(deck: seq<Card>, discardPile: seq<Card>, players: Players)
    requires Tally(deck) == Tally(discardPile)
    ensures Held(deck, [], players) == Held([], discardPile, players)
  {
    assert Tally([]) == multiset{};
  }

  /** A hand card spliced out and pushed onto the discard pile changes place only. */
  lemma HandToPileAccount(deck: seq<Card>, discardPile: seq<Card>, players: Players, n: PlayerNumber, i: nat)
    requires i < |players.Get(n).hand|
    ensures var p := players.Get(n);
      Held(deck, discardPile + [p.hand[i]], players.Set(n, p.(hand := RemoveAt(p.hand, i)))) ==
      Held(deck, discardPile, players)
  {
    var p := players.Get(n);
    var c := p.hand[i];
    var q := p.(hand := RemoveAt(p.hand, i));
    TakeFromHand(p, i);
    SetIds(players, n, q);
    TallyPush(discardPile, c);
    SumSwap(Tally(deck), Tally(discardPile + [c]), Tally(discardPile), PlayersIds(players.Set(n, q)),
            PlayersIds(players), multiset{c.id}, PlayerIds(p), PlayerIds(q));
  }

  lemma SumSwap(a: multiset<string>, b: multiset<string>, b0: multiset<string>,
                c: multiset<string>, c0: multiset<string>, d: multiset<string>,
                p: multiset<string>, q: multiset<string>)
    requires b == b0 + d && q + d == p && c + p == c0 + q
    ensures a + b + c == a + b0 + c0
  {
    forall e ensures (a + b + c)[e] == (a + b0 + c0)[e] {
      assert (q + d)[e] == p[e];
      assert (c + p)[e] == (c0 + q)[e];
    }
  }

  /** Rearranging one player's cards without gaining or losing any keeps the account. */
  lemma PlayerAccount(deck: seq<Card>, discardPile: seq<Card>, players: Players, n: PlayerNumber, q: Player)
    requires PlayerIds(q) == PlayerIds(players.Get(n))
    ensures Held(deck, discardPile, players.Set(n, q)) == Held(deck, discardPile, players)
  {
    SetIds(players, n, q);
    assert PlayersIds(players.Set(n, q)) == PlayersIds(players) by {
      forall e ensures PlayersIds(players.Set(n, q))[e] == PlayersIds(players)[e] {
        assert (PlayersIds(players.Set(n, q)) + PlayerIds(players.Get(n)))[e] ==
               (PlayersIds(players) + PlayerIds(q))[e];
      }
    }
  }

  /** A payment that moves cards between the two players keeps the account. */
  lemma PaymentAccount(deck: seq<Card>, discardPile: seq<Card>, players: Players,
                       from: PlayerNumber, to: PlayerNumber, f: Player, t: Player)
    requires from != to
    requires PlayerIds(f) + PlayerIds(t) == PlayerIds(players.Get(from)) + PlayerIds(players.Get(to))
    ensures Held(deck, discardPile, players.Set(from, f).Set(to, t)) == Held(deck, discardPile, players)
  {
    OtherIsOpponent(from, to);
    SetBothIds(players, from, f, t);
  }

  // ----- the discard pile after `discardCard` -----

  /**
   * The discard pile after `discardCard` as the source writes it: the card
   * is pushed, and an action card is pushed a second time by
   * `placeActionCard`.
   */
  function DiscardPileAsWritten(pile: seq<Card>, card: Card): (r: seq<Card>)
    ensures |r| == |pile| + (if card.kind == Action then 2 else 1)
  {
    var once := pile + [card];
    if card.kind == Action then once + [card] else once
  }

  /** A discarded action card is then held twice, and no longer at most once. */
  lemma DiscardAsWrittenDuplicates(pile: seq<Card>, card: Card)
    requires card.kind == Action
    ensures Tally(DiscardPileAsWritten(pile, card))[card.id] == Tally(pile)[card.id] + 2
    ensures !AtMostOnce(Tally(DiscardPileAsWritten(pile, card)))
  {
    TallyPush(pile, card);
    TallyPush(pile + [card], card);
  }

  /** The discard pile after `discardCard` with each card pushed once. */
  function DiscardPileCorrected(pile: seq<Card>, card: Card): (r: seq<Card>)
    ensures |r| == |pile| + 1
    ensures r[|pile|] == card && r[..|pile|] == pile
  {
    pile + [card]
  }

  /** The corrected pile gains exactly the discarded card's id, whatever its type. */
  lemma DiscardCorrectedOnce(pile: seq<Card>, card: Card)
    ensures Tally(DiscardPileCorrected(pile, card)) == Tally(pile) + multiset{card.id}
  {
    TallyPush(pile, card);
  }
}
