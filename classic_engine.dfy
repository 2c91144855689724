/**
 * The game state of the earlier version (`gameState.js`): the same deck,
 * discard pile and players as the current version, with a 75-card deck,
 * no Just Say No response, no wildcards, a draw of two cards every turn,
 * a win check after every property played, and a history that keeps every
 * line.
 */
module ClassicEngine {
  import opened Wrappers
  import opened CardModel
  import opened Holdings
  import opened History
  import opened PaymentSelection
  import opened Transfer
  import opened Moves
  import opened Turns
  import Accounts
  import opened Rules
  import opened ClassicRecords
  import ClassicDeck

  function Min(a: int, b: int): int
  {
    if a < b then a else b
  }

  /** The initial `gameState`, its new deck the cards `initializeDeck` returns. */
  method NewGame() returns (g: Game)
    ensures fresh(g) && g.Valid() && g.newDeck == ClassicDeck.Cards()
  {
    var full := ClassicDeck.InitializeDeck();
    ClassicDeck.DeckFacts();
    g := new Game(full);
  }

  /** The turn flags `startGame` sets. */
  const FirstTurn := TurnState(true, 1, false, 0, false, 0)

  /**
   * The earlier `gameState`. The per-turn flags and the payment fields are
   * held as two records, `turn` and `pay`; every other field is a field of
   * its own.
   */
  class Game {
    var turn: TurnState
    var pay: ClassicPayment
    var players: Players
    var deck: seq<Card>
    var discardPile: seq<Card>
    var lastActionCard: Option<Card>
    var history: seq<Entry>
    /** The cards `initializeDeck` returns, built once, which `startGame` copies. */
    const newDeck: seq<Card>

    function Hand(n: PlayerNumber): seq<Card>
      reads this`players
    {
      players.Get(n).hand
    }

    /** The invariant every operation keeps, over the fields it concerns. */
    ghost predicate Valid()
      reads this`turn, this`pay
    {
      ClassicCoherent(turn, pay, |newDeck|)
    }

    /** The initial `gameState`. */
    constructor(cards: seq<Card>)
      requires |cards| == 75
      ensures Valid()
      ensures turn == TurnState(false, 1, false, 0, false, 0) && pay == NoClassicPayment
      ensures players == NoPlayers && deck == [] && discardPile == [] && lastActionCard == None && history == []
      ensures newDeck == cards
    {
      turn := TurnState(false, 1, false, 0, false, 0);
      pay := NoClassicPayment;
      players, deck, discardPile, lastActionCard, history := NoPlayers, [], [], None, [];
      newDeck := cards;
    }

    /**
     * `startGame`: a fresh state with the game started, the full deck
     * shuffled, and five cards dealt to each player in turn.
     */
    method StartGame() returns (ok: bool)
      requires Valid()
      modifies this
      ensures ok && Valid()
      ensures turn == FirstTurn && pay == NoClassicPayment
      ensures OpeningDealt()
      ensures lastActionCard == None && history == [GameStarted]
    {
      turn, pay := FirstTurn, NoClassicPayment;
      players, discardPile, lastActionCard, history := NoPlayers, [], None, [];
      deck := newDeck;
      ShuffleDeck();
      DealOpeningHands();
      AddToHistory(GameStarted);
      ok := true;
    }

    /**
     * The cards just after the opening deal: each player holds five cards
     * and nothing else, the discard pile is empty, and the deck and the two
     * hands together hold exactly the cards of the new deck.
     */
    ghost predicate OpeningDealt()
      reads this`deck, this`discardPile, this`players
    {
      && multiset(deck + Hand(1) + Hand(2)) == multiset(newDeck)
      && |Hand(1)| == 5 && |Hand(2)| == 5 && |deck| == |newDeck| - 10 && discardPile == []
      && players.one.money == [] && players.two.money == []
      && players.one.properties == map[] && players.two.properties == map[]
    }

    /** `startGame`'s loop: five times, one card to each player, the first player first. */
    method DealOpeningHands()
      requires players == NoPlayers && discardPile == [] && |deck| >= 10
      modifies this`deck, this`discardPile, this`players
      ensures multiset(deck + Hand(1) + Hand(2)) == multiset(old(deck))
      ensures |Hand(1)| == 5 && |Hand(2)| == 5 && |deck| == |old(deck)| - 10 && discardPile == []
      ensures players.one.money == [] && players.two.money == []
      ensures players.one.properties == map[] && players.two.properties == map[]
    {
      assert deck + Hand(1) + Hand(2) == deck;
      for i := 0 to 5
        invariant multiset(deck + Hand(1) + Hand(2)) == multiset(old(deck))
        invariant |Hand(1)| == i && |Hand(2)| == i && |deck| == |old(deck)| - 2 * i && discardPile == []
        invariant players.one.money == [] && players.two.money == []
        invariant players.one.properties == map[] && players.two.properties == map[]
      {
        ghost var d0, a0, b0 := deck, Hand(1), Hand(2);
        var one := DealCard(1);
        assert d0 == deck + [one.value];
        assert Hand(1) == a0 + [one.value];
        ghost var d1 := deck;
        var two := DealCard(2);
        assert d1 == deck + [two.value];
        assert Hand(2) == b0 + [two.value];
      }
    }

    /** `shuffleDeck`: the deck, reordered. */
    method ShuffleDeck()
      modifies this`deck
      ensures |deck| == |old(deck)| && multiset(deck) == multiset(old(deck))
    {
      deck := Shuffle(deck);
    }

    /**
     * `dealCard`: with no card anywhere, nothing happens and there is no
     * card; with an empty deck, the discard pile is shuffled into the deck
     * first; then the deck's last card goes to the end of the player's hand.
     */
    method DealCard(player: PlayerNumber) returns (card: Option<Card>)
      modifies this`deck, this`discardPile, this`players
      ensures card.None? <==> old(deck) == [] && old(discardPile) == []
      ensures card.None? ==> deck == old(deck) && discardPile == old(discardPile) && players == old(players)
      ensures old(deck) != [] ==>
        card == Some(old(deck)[|old(deck)| - 1]) && deck == old(deck)[..|old(deck)| - 1] &&
        discardPile == old(discardPile)
      ensures old(deck) == [] && old(discardPile) != [] ==>
        card.Some? && discardPile == [] && multiset(deck + [card.value]) == multiset(old(discardPile))
      ensures card.Some? ==>
        players == old(players).Set(player, old(players.Get(player)).(hand := old(Hand(player)) + [card.value])) &&
        |deck| + |discardPile| + 1 == |old(deck)| + |old(discardPile)|
      ensures multiset(deck + discardPile + Hand(player)) == multiset(old(deck) + old(discardPile) + old(Hand(player)))
    {
      if |deck| == 0 {
        if |discardPile| == 0 {
          return None;
        }
        deck, discardPile := discardPile, [];
        ShuffleDeck();
      }
      var d := deck;
      var c := d[|d| - 1];
      assert d == d[..|d| - 1] + [c];
      var p := players.Get(player);
      deck := d[..|d| - 1];
      players := players.Set(player, p.(hand := p.hand + [c]));
      card := Some(c);
    }

    /**
     * `drawCardsForTurn`: refused when the game has not started, the player
     * has drawn already or a payment is pending; otherwise the current
     * player is dealt two cards, or as many as the deck and the discard
     * pile still hold.
     */
    method DrawCardsForTurn() returns (ok: bool)
      requires Valid()
      modifies this`deck, this`discardPile, this`players, this`history, this`turn
      ensures Valid()
      ensures ok <==> old(turn.gameStarted) && !old(turn.hasDrawnCards) && !pay.pending
      ensures !ok ==> unchanged(this)
      ensures ok ==>
        var p := turn.currentPlayer;
        && turn == old(turn).(hasDrawnCards := true)
        && |Hand(p)| == |old(Hand(p))| + Min(2, |old(deck)| + |old(discardPile)|)
        && Hand(p)[..|old(Hand(p))|] == old(Hand(p))
        && |deck| + |discardPile| == |old(deck)| + |old(discardPile)| - Min(2, |old(deck)| + |old(discardPile)|)
        && players.Get(Opponent(p)) == old(players.Get(Opponent(p)))
        && players.Get(p).money == old(players.Get(p).money)
        && players.Get(p).properties == old(players.Get(p).properties)
        && multiset(deck + discardPile + Hand(p)) == multiset(old(deck) + old(discardPile) + old(Hand(p)))
        && Held(deck, discardPile, players) == old(Held(deck, discardPile, players))
        && history == old(history) + [Drew(p, 2)]
    {
      ok := turn.gameStarted && !turn.hasDrawnCards && !pay.pending;
      if ok {
        var p := turn.currentPlayer;
        DealCards(p, 2);
        turn := turn.(hasDrawnCards := true);
        AddToHistory(Drew(p, 2));
      }
    }

    /**
     * The `for` loop that deals `count` cards to one player: the hand grows
     * by `count` cards, or by as many as the deck and discard pile hold,
     * and every card it gains comes from one of them.
     */
    method DealCards(player: PlayerNumber, count: nat)
      modifies this`deck, this`discardPile, this`players
      ensures |Hand(player)| == |old(Hand(player))| + Min(count, |old(deck)| + |old(discardPile)|)
      ensures Hand(player)[..|old(Hand(player))|] == old(Hand(player))
      ensures |deck| + |discardPile| == |old(deck)| + |old(discardPile)| - Min(count, |old(deck)| + |old(discardPile)|)
      ensures multiset(deck + discardPile + Hand(player)) == multiset(old(deck) + old(discardPile) + old(Hand(player)))
      ensures Held(deck, discardPile, players) == old(Held(deck, discardPile, players))
      ensures players == old(players).Set(player, old(players.Get(player)).(hand := Hand(player)))
    {
      ghost var pool := |deck| + |discardPile|;
      ghost var hand0 := Hand(player);
      for k := 0 to count
        modifies this`deck, this`discardPile, this`players
        invariant |Hand(player)| == |hand0| + Min(k, pool)
        invariant |Hand(player)| >= |hand0| && Hand(player)[..|hand0|] == hand0
        invariant |deck| + |discardPile| == pool - Min(k, pool)
        invariant players.Get(Opponent(player)) == old(players.Get(Opponent(player)))
        invariant players.Get(player).money == old(players.Get(player).money)
        invariant players.Get(player).properties == old(players.Get(player).properties)
        invariant multiset(deck + discardPile + Hand(player)) == multiset(old(deck) + old(discardPile) + old(Hand(player)))
      {
        ghost var before := Hand(player);
        var card := DealCard(player);
        assert card.Some? ==> Hand(player) == before + [card.value];
        assert Hand(player)[..|hand0|] == hand0 by {
          if card.Some? {
            assert Hand(player)[..|hand0|] == before[..|hand0|];
          }
        }
      }
      assert players == old(players).Set(player, old(players.Get(player)).(hand := Hand(player)));
      Accounts.DrawAccount(old(deck), old(discardPile), old(players), player, deck, discardPile, Hand(player));
    }

    /** `playCard`'s guards: no payment pending, the card in the hand, and `canPlayCard` VALID. */
    predicate Playable(player: PlayerNumber, cardId: string)
      reads this`pay, this`players, this`turn
    {
      var i := IndexOfId(Hand(player), cardId);
      && !pay.pending
      && i >= 0
      && CanPlayCard(Hand(player)[i], turn.gameStarted, turn.currentPlayer, turn.hasDrawnCards,
                     turn.cardsPlayedThisTurn, player) == CardModel.Valid
    }

    /**
     * `playCard`: an action card is left for the action dialog; a money card
     * goes to the money pile; a property goes onto the group of its colour,
     * and then the win check runs; each of these two counts as a card
     * played. A card of any other type goes back to the end of the hand and
     * the call fails.
     */
    method PlayCard(player: PlayerNumber, cardId: string) returns (ok: bool)
      requires Valid()
      modifies this`players, this`history, this`turn
      ensures Valid()
      ensures !old(Playable(player, cardId)) ==> !ok && unchanged(this)
      ensures old(Playable(player, cardId)) ==>
        var hand := old(Hand(player));
        var i := IndexOfId(hand, cardId);
        var card := hand[i];
        var p := old(players.Get(player));
        var props := AddToGroup(p.properties, card.color, card);
        && (ok <==> card.kind != Unknown)
        && (card.kind == Action ==> unchanged(this))
        && (card.kind == Money ==>
              players == old(players).Set(player, Player(RemoveAt(hand, i), p.money + [card], p.properties)) &&
              turn == old(turn).(cardsPlayedThisTurn := old(turn.cardsPlayedThisTurn) + 1) &&
              history == old(history) + [PlayedMoney(player, card.value)])
        && (card.kind == Property ==>
              players == old(players).Set(player, Player(RemoveAt(hand, i), p.money, props)) &&
              turn == WinFlags(old(turn), props).(cardsPlayedThisTurn := old(turn.cardsPlayedThisTurn) + 1) &&
              history == WinHistory(old(history) + [PlayedProperty(player, card.name)], player, props))
        && (card.kind == Unknown ==>
              players == old(players).Set(player, p.(hand := RemoveAt(hand, i) + [card])) &&
              turn == old(turn) && history == old(history))
    {
      if !Playable(player, cardId) {
        return false;
      }
      var i := IndexOfId(Hand(player), cardId);
      var card := Hand(player)[i];
      match card.kind {
        case Action =>
          ok := true;
        case Money =>
          PlayMoney(player, i);
          ok := true;
        case Property =>
          PlayProperty(player, i);
          ok := true;
        case Unknown =>
          var p := players.Get(player);
          players := players.Set(player, p.(hand := RemoveAt(p.hand, i) + [card]));
          ok := false;
      }
    }

    /** The money branch of `playCard`: the card moves from the hand to the money pile. */
    method PlayMoney(player: PlayerNumber, i: nat)
      requires Valid() && i < |Hand(player)|
      modifies this`players, this`history, this`turn
      ensures Valid()
      ensures var p := old(players.Get(player));
        players == old(players).Set(player, Player(RemoveAt(p.hand, i), p.money + [p.hand[i]], p.properties))
      ensures turn == old(turn).(cardsPlayedThisTurn := old(turn.cardsPlayedThisTurn) + 1)
      ensures history == old(history) + [PlayedMoney(player, old(Hand(player))[i].value)]
    {
      var p := players.Get(player);
      players := players.Set(player, Player(RemoveAt(p.hand, i), p.money + [p.hand[i]], p.properties));
      AddToHistory(PlayedMoney(player, p.hand[i].value));
      turn := turn.(cardsPlayedThisTurn := turn.cardsPlayedThisTurn + 1);
    }

    /**
     * The property branch of `playCard`: the card moves, as it is, from the
     * hand onto the group of its colour; the win check runs on the new
     * groups before the card is counted as played.
     */
    method PlayProperty(player: PlayerNumber, i: nat)
      requires Valid() && i < |Hand(player)|
      modifies this`players, this`history, this`turn
      ensures Valid()
      ensures var p := old(players.Get(player)); var card := p.hand[i];
        var props := AddToGroup(p.properties, card.color, card);
        && players == old(players).Set(player, Player(RemoveAt(p.hand, i), p.money, props))
        && turn == WinFlags(old(turn), props).(cardsPlayedThisTurn := old(turn.cardsPlayedThisTurn) + 1)
        && history == WinHistory(old(history) + [PlayedProperty(player, card.name)], player, props)
    {
      var p := players.Get(player);
      var card := p.hand[i];
      players := players.Set(player, Player(RemoveAt(p.hand, i), p.money, AddToGroup(p.properties, card.color, card)));
      AddToHistory(PlayedProperty(player, card.name));
      var won := CheckWinCondition(player);
      turn := turn.(cardsPlayedThisTurn := turn.cardsPlayedThisTurn + 1);
    }

    /**
     * `checkWinCondition`: three or more complete sets win; the game is no
     * longer started and the win is recorded.
     */
    method CheckWinCondition(player: PlayerNumber) returns (won: bool)
      requires Valid()
      modifies this`turn, this`history
      ensures Valid()
      ensures won == HasWon(players.Get(player).properties)
      ensures turn == WinFlags(old(turn), players.Get(player).properties)
      ensures history == WinHistory(old(history), player, players.Get(player).properties)
    {
      var sets := CountCompleteSets(players.Get(player).properties);
      won := sets >= 3;
      if won {
        AddToHistory(Wins(player, sets));
        turn := turn.(gameStarted := false);
      }
    }

    /** `placeActionCard`: the card becomes the last action card and goes onto the discard pile. */
    method PlaceActionCard(card: Card)
      modifies this`lastActionCard, this`discardPile
      ensures lastActionCard == Some(card) && discardPile == old(discardPile) + [card]
    {
      lastActionCard := Some(card);
      discardPile := discardPile + [card];
    }

    /** `addToHistory`: the line is appended and every earlier line is kept. */
    method AddToHistory(e: Entry)
      modifies this`history
      ensures history == old(history) + [e]
    {
      history := history + [e];
    }

    /**
     * `requestPayment`: the request is recorded, a payment is pending, in
     * payment mode, with an empty selection.
     */
    method RequestPayment(from: PlayerNumber, to: PlayerNumber, amount: int)
      requires Valid() && from != to
      modifies this`pay, this`history
      ensures Valid()
      ensures pay == ClassicPayment(Some(Request(from, to, amount)), true, true, NoSelection)
      ensures history == old(history) + [Requested(to, amount, from)]
    {
      pay := ClassicPayment(Some(Request(from, to, amount)), true, true, NoSelection);
      AddToHistory(Requested(to, amount, from));
    }

    /** `togglePaymentAsset`: with a request, the asset of the payer flips in or out of the selection. */
    method TogglePaymentAsset(a: Asset)
      requires Valid()
      modifies this`pay
      ensures Valid()
      ensures pay.request.None? ==> pay == old(pay)
      ensures pay.request.Some? ==>
        pay == old(pay).(selection := ToggleAsset(old(pay.selection), players.Get(pay.request.value.from), a))
    {
      if pay.request.Some? {
        pay := pay.(selection := ToggleAsset(pay.selection, players.Get(pay.request.value.from), a));
      }
    }

    /** `calculateSelectedPaymentTotal`: nothing without a request, else the payer's selected value. */
    method CalculateSelectedPaymentTotal() returns (total: nat)
      ensures pay.request.None? ==> total == 0
      ensures pay.request.Some? ==> total == SelectedTotal(pay.selection, players.Get(pay.request.value.from))
    {
      if pay.request.None? {
        return 0;
      }
      total := SumSelected(pay.selection, players.Get(pay.request.value.from));
    }

    /** The transfer step of `processSelectedPayment`: the selected cards move from `from` to `to`. */
    method MoveSelected(from: PlayerNumber, to: PlayerNumber)
      requires from != to
      modifies this`players
      ensures var (f, t) := PaidPlayers(old(players.Get(from)), old(players.Get(to)), pay.selection);
        players == old(players).Set(from, f).Set(to, t)
    {
      var f, t := PaySelected(players.Get(from), players.Get(to), pay.selection);
      players := players.Set(from, f).Set(to, t);
    }

    /**
     * `processSelectedPayment`: the history says whether the selection
     * pays in full; then the selected cards, short or not, move from payer
     * to payee and every payment field is reset.
     */
    method ProcessSelectedPayment() returns (ok: bool)
      requires Valid()
      modifies this`players, this`history, this`pay
      ensures Valid()
      ensures ok == old(pay.request).Some?
      ensures !ok ==> unchanged(this)
      ensures ok ==>
        var r := old(pay.request).value;
        var total := SelectedTotal(old(pay.selection), old(players.Get(r.from)));
        var (f, t) := PaidPlayers(old(players.Get(r.from)), old(players.Get(r.to)), old(pay.selection));
        && players == old(players).Set(r.from, f).Set(r.to, t)
        && pay == NoClassicPayment
        && history == old(history) + [if total < r.amount then PartialPayment(r.from, total, r.to) else Paid(r.from, total, r.to)]
    {
      ok := pay.request.Some?;
      if ok {
        var r := pay.request.value;
        var total := CalculateSelectedPaymentTotal();
        AddToHistory(if total < r.amount then PartialPayment(r.from, total, r.to) else Paid(r.from, total, r.to));
        MoveSelected(r.from, r.to);
        pay := NoClassicPayment;
      }
    }

    /**
     * `endTurn`: refused before the game starts, before drawing or while a
     * payment is pending; a hand over seven cards enters discard mode;
     * otherwise the other player's turn begins.
     */
    method EndTurn() returns (ok: bool)
      requires Valid()
      modifies this`turn, this`history
      ensures Valid()
      ensures var t, n := old(turn), |Hand(old(turn.currentPlayer))|;
        ok == EndsTurn(t, n, pay.pending) && turn == EndTurnFlags(t, n, pay.pending) &&
        history == ClassicEndTurnHistory(old(history), t, n, pay.pending)
    {
      var n := |Hand(turn.currentPlayer)|;
      if !turn.gameStarted || !turn.hasDrawnCards || pay.pending {
        ok := false;
      } else if n > HandLimit {
        AskDiscard();
        ok := false;
      } else {
        PassTurn();
        ok := true;
      }
    }

    /** `endTurn` with too many cards in hand: discard mode, the excess over seven to discard. */
    method AskDiscard()
      requires Valid() && CanEndTurn(turn, pay.pending) && |Hand(turn.currentPlayer)| > HandLimit
      modifies this`turn, this`history
      ensures Valid()
      ensures var t, n := old(turn), |Hand(old(turn.currentPlayer))|;
        turn == EndTurnFlags(t, n, pay.pending) && history == ClassicEndTurnHistory(old(history), t, n, pay.pending)
    {
      var excess := |Hand(turn.currentPlayer)| - HandLimit;
      AddToHistory(NeedsDiscard(turn.currentPlayer, excess));
      turn := turn.(discardMode := true, cardsToDiscard := excess);
    }

    /** `endTurn` proper: the opponent's turn begins with the per-turn flags cleared. */
    method PassTurn()
      requires Valid() && CanEndTurn(turn, pay.pending) && |Hand(turn.currentPlayer)| <= HandLimit
      modifies this`turn, this`history
      ensures Valid()
      ensures var t, n := old(turn), |Hand(old(turn.currentPlayer))|;
        turn == EndTurnFlags(t, n, pay.pending) && history == ClassicEndTurnHistory(old(history), t, n, pay.pending)
    {
      var next := Opponent(turn.currentPlayer);
      turn := turn.(currentPlayer := next, hasDrawnCards := false, cardsPlayedThisTurn := 0,
                    discardMode := false, cardsToDiscard := 0);
      AddToHistory(TurnBegins(next));
    }

    /** `discardCard`'s guards: discard mode, the current player, and the card in the hand. */
    predicate CanDiscard(player: PlayerNumber, cardId: string)
      reads this`turn, this`players
    {
      turn.discardMode && player == turn.currentPlayer && IndexOfId(Hand(player), cardId) >= 0
    }

    /**
     * `discardCard`, each card pushed once: the card leaves the hand for the
     * discard pile (an action card also becomes the last action card), one
     * fewer card is owed, and when none is owed any more discard mode ends
     * and the turn is ended.
     */
    method DiscardCard(player: PlayerNumber, cardId: string)
      requires Valid()
      modifies this`players, this`discardPile, this`lastActionCard, this`turn, this`history
      ensures Valid()
      ensures !old(CanDiscard(player, cardId)) ==> unchanged(this)
      ensures old(CanDiscard(player, cardId)) ==> TookDiscard(player, IndexOfId(old(Hand(player)), cardId))
    {
      if !turn.discardMode || player != turn.currentPlayer {
        return;
      }
      var i := IndexOfId(Hand(player), cardId);
      if i == -1 {
        return;
      }
      if turn.cardsToDiscard == 1 {
        DiscardLast(player, i);
      } else {
        DiscardOne(player, i);
      }
    }

    /**
     * The state after `discardCard` took the hand card at `i`: the card left
     * the hand for the discard pile, once; an action card became the last
     * action card; one fewer card is owed, and the last one ended the turn.
     */
    twostate predicate TookDiscard(player: PlayerNumber, i: nat)
      requires i < |old(Hand(player))|
      reads this
    {
      var p, t := old(players.Get(player)), old(turn);
      var card := p.hand[i];
      && players == old(players).Set(player, p.(hand := RemoveAt(p.hand, i)))
      && discardPile == DiscardPileCorrected(old(discardPile), card)
      && lastActionCard == (if card.kind == Action then Some(card) else old(lastActionCard))
      && turn == DiscardFlags(t, |p.hand| - 1, pay.pending)
      && history == ClassicDiscardHistory(old(history), t, player, card.kind, |p.hand| - 1, pay.pending)
    }

    /** `discardCard` for the card at `i` when more cards are still owed after it. */
    method DiscardOne(player: PlayerNumber, i: nat)
      requires Valid() && turn.cardsToDiscard > 1 && player == turn.currentPlayer && i < |Hand(player)|
      modifies this`players, this`discardPile, this`lastActionCard, this`turn, this`history
      ensures Valid()
      ensures TookDiscard(player, i)
    {
      DiscardAt(player, i);
    }

    /** `discardCard` for the last card owed, at `i`: it is discarded, discard mode ends and the turn is ended. */
    method DiscardLast(player: PlayerNumber, i: nat)
      requires Valid() && turn.cardsToDiscard == 1 && player == turn.currentPlayer && i < |Hand(player)|
      modifies this`players, this`discardPile, this`lastActionCard, this`turn, this`history
      ensures Valid()
      ensures TookDiscard(player, i)
    {
      DiscardAt(player, i);
      var ended := EndTurn();
    }

    /**
     * `discardCard`'s step for the card at `i` of the hand: onto the pile,
     * one fewer still to discard, and discard mode off once none is owed.
     */
    method DiscardAt(player: PlayerNumber, i: nat)
      requires Valid() && turn.discardMode && i < |Hand(player)|
      modifies this`players, this`discardPile, this`lastActionCard, this`turn, this`history
      ensures Valid()
      ensures var p := old(players.Get(player));
        var card := p.hand[i];
        var owed := old(turn.cardsToDiscard) - 1;
        && players == old(players).Set(player, p.(hand := RemoveAt(p.hand, i)))
        && discardPile == DiscardPileCorrected(old(discardPile), card)
        && lastActionCard == (if card.kind == Action then Some(card) else old(lastActionCard))
        && turn == old(turn).(cardsToDiscard := owed, discardMode := owed != 0)
        && history == old(history) + [Discarded(player, card.kind)]
    {
      var p := players.Get(player);
      var card := p.hand[i];
      players := players.Set(player, p.(hand := RemoveAt(p.hand, i)));
      discardPile := DiscardPileCorrected(discardPile, card);
      if card.kind == Action {
        lastActionCard := Some(card);
      }
      var owed := turn.cardsToDiscard - 1;
      turn := turn.(cardsToDiscard := owed, discardMode := owed != 0);
      AddToHistory(Discarded(player, card.kind));
    }
  }
}
