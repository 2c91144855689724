/**
 * The game state of the current version (`js/gameState.js`): one object
 * whose fields the operations update in place. Each operation's contract
 * gives the state it leaves; the lemmas of `Accounts` show that each of
 * those card moves keeps the ids the deck, the discard pile and the two
 * players hold together.
 */
module Engine {
  import opened Wrappers
  import opened CardModel
  import opened Holdings
  import opened History
  import opened PaymentSelection
  import opened Transfer
  import opened Moves
  import opened Turns
  import Accounts
  import opened GameRecords
  import Deck

  function Min(a: int, b: int): int
  {
    if a < b then a else b
  }

  /**
   * The piles after a Pass Go, against those before it: the hand without the
   * card at `i` is a prefix of the new hand, which gained two cards or as many
   * as the deck and the pile held, and the deck, the pile and the hand hold
   * the same cards between them as before.
   */
  predicate PassGoPiles(deck0: seq<Card>, pile0: seq<Card>, hand: seq<Card>, i: nat,
                        deck2: seq<Card>, pile2: seq<Card>, hand2: seq<Card>)
    requires i < |hand|
  {
    && |hand2| == |hand| - 1 + Min(2, |deck0| + |pile0| + 1)
    && hand2[..|hand| - 1] == RemoveAt(hand, i)
    && |deck2| + |pile2| + |hand2| == |deck0| + |pile0| + |hand|
    && multiset(deck2 + pile2 + hand2) == multiset(deck0 + pile0 + hand)
  }

  /**
   * The piles of a Pass Go, stage by stage: the card leaves the hand for the
   * pile, then the hand is dealt up to two cards from the deck and the pile.
   */
  lemma PassGoCards(hand: seq<Card>, i: nat, card: Card, deck0: seq<Card>, pile0: seq<Card>,
                    hand1: seq<Card>, pile1: seq<Card>, deck2: seq<Card>, pile2: seq<Card>, hand2: seq<Card>)
    requires i < |hand| && card == hand[i] && hand1 == RemoveAt(hand, i) && pile1 == pile0 + [card]
    requires multiset(deck0 + pile1 + hand1) == multiset(deck0 + pile0 + hand)
    requires |hand2| == |hand1| + Min(2, |deck0| + |pile1|) && hand2[..|hand1|] == hand1
    requires |deck2| + |pile2| == |deck0| + |pile1| - Min(2, |deck0| + |pile1|)
    requires multiset(deck2 + pile2 + hand2) == multiset(deck0 + pile1 + hand1)
    ensures PassGoPiles(deck0, pile0, hand, i, deck2, pile2, hand2)
  {
  }

  // ----- playing a property -----

  /**
   * The card `playCard` files under its colour. A wildcard with several
   * colours remembers them and the colour it now counts as; a wildcard for
   * any colour files under 'any'; every other card is filed as it is.
   */
  function Annotate(card: Card): (r: Card)
    ensures r.id == card.id && r.kind == card.kind && r.value == card.value && r.name == card.name
    ensures card.wildcard && |card.colors| > 1 ==>
      r.originalColors == card.colors && r.activeColor == card.color && r.color == card.color
    ensures card.wildcard && |card.colors| == 1 && card.colors[0] == "any" ==>
      IsProtected(r) && r.color == "any" && r.activeColor == "any"
    ensures !card.wildcard ==> r == card
  {
    if card.wildcard && |card.colors| > 1 then
      card.(activeColor := card.color, originalColors := card.colors)
    else if card.wildcard && |card.colors| > 0 && card.colors[0] == "any" then
      card.(originalColors := ["any"], color := "any", activeColor := "any")
    else card
  }

  /** A wildcard of several colours, once played, can be flipped; an any-colour one cannot. */
  lemma AnnotateFlippable(card: Card)
    requires card.wildcard && (|card.colors| > 1 || card.colors == ["any"])
    ensures |Annotate(card).originalColors| > 1 <==> |card.colors| > 1
  {
  }

  // ----- the history lines of `endTurn` -----

  /** The history after `endTurn`: nothing when refused, else the discard demand or the new turn. */
  function EndTurnHistory(h: seq<Entry>, t: TurnState, handSize: nat, pending: bool): (r: seq<Entry>)
    ensures |h| <= MaxEntries ==> |r| <= MaxEntries
  {
    if !CanEndTurn(t, pending) then h
    else if handSize > HandLimit then Capped(h, NeedsDiscard(t.currentPlayer, handSize - HandLimit))
    else Capped(h, TurnBegins(Opponent(t.currentPlayer)))
  }

  /** The history after `discardCard` has taken a card: its line, then `endTurn`'s when it was the last to go. */
  function DiscardHistory(h: seq<Entry>, t: TurnState, player: PlayerNumber, kind: CardKind, handSize: nat,
                          pending: bool): (r: seq<Entry>)
    ensures |h| <= MaxEntries ==> |r| <= MaxEntries
  {
    var h1 := Capped(h, Discarded(player, kind));
    if t.cardsToDiscard - 1 == 0 then EndTurnHistory(h1, t.(cardsToDiscard := 0, discardMode := false), handSize, pending)
    else h1
  }

  // ----- wildcard colours -----

  /** The first colour of the list other than `color`, if any. */
  function OtherColor(colors: seq<string>, color: string): (r: Option<string>)
    ensures r.Some? <==> exists k :: 0 <= k < |colors| && colors[k] != color
    ensures r.Some? ==> r.value != color && r.value in colors
    ensures r.Some? ==> exists k :: 0 <= k < |colors| && colors[k] == r.value &&
                                    forall j :: 0 <= j < k ==> colors[j] == color
    decreases |colors|
  {
    if colors == [] then None
    else if colors[0] != color then Some(colors[0])
    else
      var r := OtherColor(colors[1..], color);
      assert forall k :: 1 <= k < |colors| ==> colors[k] == colors[1..][k - 1];
      assert r.Some? ==> exists k :: 0 <= k < |colors| && colors[k] == r.value &&
                                     forall j :: 0 <= j < k ==> colors[j] == color by {
        if r.Some? {
          var k :| 0 <= k < |colors[1..]| && colors[1..][k] == r.value &&
                   forall j :: 0 <= j < k ==> colors[1..][j] == color;
          assert colors[k + 1] == r.value;
        }
      }
      r
  }

  /** The JavaScript `indexOf`: the first position of `color`, or -1. */
  function IndexOfColor(colors: seq<string>, color: string): (r: int)
    ensures -1 <= r < |colors|
    ensures r == -1 <==> color !in colors
    ensures r >= 0 ==> colors[r] == color && forall k :: 0 <= k < r ==> colors[k] != color
    decreases |colors|
  {
    if colors == [] then -1
    else if colors[0] == color then 0
    else
      var r := IndexOfColor(colors[1..], color);
      assert forall k :: 1 <= k < |colors| ==> colors[k] == colors[1..][k - 1];
      if r == -1 then -1 else r + 1
  }

  /**
   * The colour `flipWildcardProperty` moves a wildcard to: for two colours,
   * the one that is not the current colour (undefined when both are); for
   * more, the one after the active colour (or the current colour when there
   * is no active one), wrapping round, and the first one when that colour
   * is not among them.
   */
  function NextColor(card: Card, currentColor: string): (r: Option<string>)
    requires |card.originalColors| > 1
    ensures r.Some? ==> r.value in card.originalColors
    ensures |card.originalColors| == 2 ==>
      (r.Some? <==> exists c :: c in card.originalColors && c != currentColor) &&
      (r.Some? ==> r.value != currentColor)
    ensures |card.originalColors| > 2 ==> r.Some?
  {
    var oc := card.originalColors;
    if |oc| == 2 then
      var r := OtherColor(oc, currentColor);
      assert (exists c :: c in oc && c != currentColor) ==> r.Some? by {
        if exists c :: c in oc && c != currentColor {
          var c :| c in oc && c != currentColor;
          var k :| 0 <= k < |oc| && oc[k] == c;
        }
      }
      r
    else
      var from := if card.activeColor != "" then card.activeColor else currentColor;
      Some(oc[(IndexOfColor(oc, from) + 1) % |oc|])
  }

  /** The property group a flipped wildcard is pushed onto: an undefined colour keys 'undefined'. */
  function GroupKey(next: Option<string>): string
  {
    match next
    case None => "undefined"
    case Some(c) => c
  }

  /**
   * The wildcard after `flipWildcardProperty`: it counts as, and shows, the
   * next colour; a two-colour card also turns over and keeps the colour it
   * left as its secondary colour.
   */
  function FlipCard(card: Card, currentColor: string): (r: Card)
    requires |card.originalColors| > 1
    ensures r.id == card.id && r.kind == card.kind && r.value == card.value
    ensures r.wildcard == card.wildcard && r.originalColors == card.originalColors
    ensures r.color == r.activeColor
    ensures NextColor(card, currentColor).Some? ==> r.color == NextColor(card, currentColor).value
    ensures |card.originalColors| == 2 ==> r.isFlipped == !card.isFlipped && r.secondaryColor == currentColor
    ensures |card.originalColors| > 2 ==> r.isFlipped == card.isFlipped && r.secondaryColor == card.secondaryColor
  {
    var next := match NextColor(card, currentColor) case None => "" case Some(c) => c;
    var moved := card.(activeColor := next, color := next);
    if |card.originalColors| == 2 then moved.(isFlipped := !card.isFlipped, secondaryColor := currentColor)
    else moved
  }

  /**
   * Flipping a two-colour wildcard from its colour and then back restores
   * the card: its colours, its face and its secondary colour.
   */
  lemma FlipTwice(card: Card, a: string, b: string)
    requires card.originalColors == [a, b] && a != b
    requires card.color == a && card.activeColor == a && card.secondaryColor == b
    ensures NextColor(card, a) == Some(b)
    ensures NextColor(FlipCard(card, a), b) == Some(a)
    ensures FlipCard(FlipCard(card, a), b) == card
  {
    var once := FlipCard(card, a);
    assert OtherColor([a, b], a) == Some(b) by {
      assert [a, b][1..] == [b];
    }
    assert NextColor(once, b) == Some(a);
  }

  /** A wildcard of three or more distinct colours steps to the colour after its active one. */
  lemma FlipRotates(card: Card, currentColor: string, k: nat)
    requires |card.originalColors| > 2 && k < |card.originalColors|
    requires forall i, j :: 0 <= i < j < |card.originalColors| ==> card.originalColors[i] != card.originalColors[j]
    requires card.activeColor == card.originalColors[k] && card.activeColor != ""
    ensures NextColor(card, currentColor) == Some(card.originalColors[(k + 1) % |card.originalColors|])
  {
    var i := IndexOfColor(card.originalColors, card.activeColor);
    assert i == k;
  }

  /** The wildcard after `changeWildcardColor`: it counts as, and shows, the chosen colour. */
  function Recolor(card: Card, newColor: string): (r: Card)
    ensures r.id == card.id && r.color == newColor && r.activeColor == newColor
    ensures r.(color := card.color, activeColor := card.activeColor) == card
  {
    card.(color := newColor, activeColor := newColor)
  }

  // ----- Just Say No -----

  predicate IsJustSayNo(c: Card)
  {
    c.kind == Action && c.action == JustSayNo
  }

  /** `playerHasJustSayNo`: some card of the hand is a Just Say No. */
  predicate HasJustSayNo(hand: seq<Card>)
  {
    exists k :: 0 <= k < |hand| && IsJustSayNo(hand[k])
  }

  /** `useJustSayNo`'s `findIndex`: the first Just Say No of the hand, or -1. */
  function JustSayNoIndex(hand: seq<Card>): (r: int)
    ensures -1 <= r < |hand|
    ensures r >= 0 <==> HasJustSayNo(hand)
    ensures r >= 0 ==> IsJustSayNo(hand[r]) && forall k :: 0 <= k < r ==> !IsJustSayNo(hand[k])
    decreases |hand|
  {
    if hand == [] then -1
    else if IsJustSayNo(hand[0]) then 0
    else
      var r := JustSayNoIndex(hand[1..]);
      assert forall k :: 1 <= k < |hand| ==> hand[k] == hand[1..][k - 1];
      if r == -1 then -1 else r + 1
  }

  /** The initial `gameState`, its new deck the cards `initializeDeck` returns. */
  method NewGame() returns (g: Game)
    ensures fresh(g) && g.Valid() && g.newDeck == Deck.Cards()
  {
    var full := Deck.InitializeDeck();
    Deck.DeckFacts();
    g := new Game(full);
  }

  /** The turn flags `startGame` sets. */
  const FirstTurn := TurnState(true, 1, false, 0, false, 0)

  /**
   * `gameState`. The per-turn flags and the payment fields are held as two
   * records, `turn` and `pay`; every other field is a field of its own.
   */
  class Game {
    var turn: TurnState
    var pay: PaymentState
    var players: Players
    var deck: seq<Card>
    var discardPile: seq<Card>
    var lastActionCard: Option<Card>
    var history: seq<Entry>
    /**
     * The cards `initializeDeck` returns, in push order. It takes no input
     * and returns the same cards at every call, so they are built once, by
     * the constructor, and `startGame` copies them.
     */
    const newDeck: seq<Card>

    function Hand(n: PlayerNumber): seq<Card>
      reads this`players
    {
      players.Get(n).hand
    }

    /** The invariant every operation keeps, over the fields it concerns. */
    ghost predicate Valid()
      reads this`turn, this`pay, this`history
    {
      Coherent(turn, pay, |history|, |newDeck|)
    }

    /** The initial `gameState`. */
    constructor(cards: seq<Card>)
      requires |cards| == 108
      ensures Valid()
      ensures turn == TurnState(false, 1, false, 0, false, 0) && pay == NoPayment
      ensures players == NoPlayers && deck == [] && discardPile == [] && lastActionCard == None && history == []
      ensures newDeck == cards
    {
      turn := TurnState(false, 1, false, 0, false, 0);
      pay := NoPayment;
      players, deck, discardPile, lastActionCard, history := NoPlayers, [], [], None, [];
      newDeck := cards;
    }

    /**
     * `startGame`: a fresh state with the game started, the full deck
     * shuffled, and five cards dealt to each player in turn; the deck and
     * the two hands together hold the full deck's cards.
     */
    method StartGame() returns (ok: bool)
      requires Valid()
      modifies this
      ensures ok && Valid()
      ensures turn == FirstTurn && pay == NoPayment
      ensures OpeningDealt()
      ensures lastActionCard == None && history == [GameStarted]
    {
      turn, pay := FirstTurn, NoPayment;
      players, discardPile, lastActionCard, history := NoPlayers, [], None, [];
      DealNewGame();
      history := Capped(history, GameStarted);
      ok := true;
    }

    /**
     * The cards just after the opening deal: each player holds five cards
     * and nothing else, the discard pile is empty, and the deck and the two
     * hands together hold exactly the cards of the new deck.
     */
    ghost predicate OpeningDealt()
      reads this`deck, this`discardPile, this`players
    {
      && multiset(deck + Hand(1) + Hand(2)) == multiset(newDeck)
      && |Hand(1)| == 5 && |Hand(2)| == 5 && |deck| == |newDeck| - 10 && discardPile == []
      && players.one.money == [] && players.two.money == []
      && players.one.properties == map[] && players.two.properties == map[]
    }

    /** `startGame`'s cards: the new deck, shuffled, then five cards to each player. */
    method DealNewGame()
      requires players == NoPlayers && discardPile == [] && |newDeck| == 108
      modifies this`deck, this`discardPile, this`players
      ensures OpeningDealt()
    {
      deck := newDeck;
      ShuffleDeck();
      DealOpeningHands();
    }

    /** `startGame`'s loop: five times, one card to each player, the first player first. */
    method DealOpeningHands()
      requires players == NoPlayers && discardPile == [] && |deck| >= 10
      modifies this`deck, this`discardPile, this`players
      ensures multiset(deck + Hand(1) + Hand(2)) == multiset(old(deck))
      ensures |Hand(1)| == 5 && |Hand(2)| == 5 && |deck| == |old(deck)| - 10 && discardPile == []
      ensures players.one.money == [] && players.two.money == []
      ensures players.one.properties == map[] && players.two.properties == map[]
    {
      assert deck + Hand(1) + Hand(2) == deck;
      for i := 0 to 5
        invariant multiset(deck + Hand(1) + Hand(2)) == multiset(old(deck))
        invariant |Hand(1)| == i && |Hand(2)| == i && |deck| == |old(deck)| - 2 * i && discardPile == []
        invariant players.one.money == [] && players.two.money == []
        invariant players.one.properties == map[] && players.two.properties == map[]
      {
        ghost var d0, a0, b0 := deck, Hand(1), Hand(2);
        var one := DealCard(1);
        assert d0 == deck + [one.value];
        assert Hand(1) == a0 + [one.value];
        ghost var d1 := deck;
        var two := DealCard(2);
        assert d1 == deck + [two.value];
        assert Hand(2) == b0 + [two.value];
      }
    }

    /** `shuffleDeck`: the deck, reordered. */
    method ShuffleDeck()
      modifies this`deck
      ensures |deck| == |old(deck)| && multiset(deck) == multiset(old(deck))
    {
      deck := Shuffle(deck);
    }

    /**
     * `dealCard`: with no card anywhere, nothing happens and there is no
     * card; with an empty deck, the discard pile is shuffled into the deck
     * first; then the deck's last card goes to the end of the player's hand.
     */
    method DealCard(player: PlayerNumber) returns (card: Option<Card>)
      modifies this`deck, this`discardPile, this`players
      ensures card.None? <==> old(deck) == [] && old(discardPile) == []
      ensures card.None? ==> deck == old(deck) && discardPile == old(discardPile) && players == old(players)
      ensures old(deck) != [] ==>
        card == Some(old(deck)[|old(deck)| - 1]) && deck == old(deck)[..|old(deck)| - 1] &&
        discardPile == old(discardPile)
      ensures old(deck) == [] && old(discardPile) != [] ==>
        card.Some? && discardPile == [] && multiset(deck + [card.value]) == multiset(old(discardPile))
      ensures card.Some? ==>
        players == old(players).Set(player, old(players.Get(player)).(hand := old(Hand(player)) + [card.value])) &&
        |deck| + |discardPile| + 1 == |old(deck)| + |old(discardPile)|
      ensures multiset(deck + discardPile + Hand(player)) == multiset(old(deck) + old(discardPile) + old(Hand(player)))
    {
      if |deck| == 0 {
        if |discardPile| == 0 {
          return None;
        }
        deck, discardPile := discardPile, [];
        ShuffleDeck();
      }
      var d := deck;
      var c := d[|d| - 1];
      assert d == d[..|d| - 1] + [c];
      var p := players.Get(player);
      deck := d[..|d| - 1];
      players := players.Set(player, p.(hand := p.hand + [c]));
      card := Some(c);
    }

    /**
     * The `for` loop that deals `count` cards to one player: the hand grows
     * by `count` cards, or by as many as the deck and discard pile hold,
     * and every card it gains comes from one of them.
     */
    method DealCards(player: PlayerNumber, count: nat)
      modifies this`deck, this`discardPile, this`players
      ensures |Hand(player)| == |old(Hand(player))| + Min(count, |old(deck)| + |old(discardPile)|)
      ensures Hand(player)[..|old(Hand(player))|] == old(Hand(player))
      ensures |deck| + |discardPile| == |old(deck)| + |old(discardPile)| - Min(count, |old(deck)| + |old(discardPile)|)
      ensures multiset(deck + discardPile + Hand(player)) == multiset(old(deck) + old(discardPile) + old(Hand(player)))
      ensures Held(deck, discardPile, players) == old(Held(deck, discardPile, players))
      ensures players == old(players).Set(player, old(players.Get(player)).(hand := Hand(player)))
    {
      ghost var pool := |deck| + |discardPile|;
      ghost var hand0 := Hand(player);
      for k := 0 to count
        modifies this`deck, this`discardPile, this`players
        invariant |Hand(player)| == |hand0| + Min(k, pool)
        invariant |Hand(player)| >= |hand0| && Hand(player)[..|hand0|] == hand0
        invariant |deck| + |discardPile| == pool - Min(k, pool)
        invariant players.Get(Opponent(player)) == old(players.Get(Opponent(player)))
        invariant players.Get(player).money == old(players.Get(player).money)
        invariant players.Get(player).properties == old(players.Get(player).properties)
        invariant multiset(deck + discardPile + Hand(player)) == multiset(old(deck) + old(discardPile) + old(Hand(player)))
      {
        ghost var before := Hand(player);
        var card := DealCard(player);
        assert card.Some? ==> Hand(player) == before + [card.value];
        assert Hand(player)[..|hand0|] == hand0 by {
          if card.Some? {
            assert Hand(player)[..|hand0|] == before[..|hand0|];
          }
        }
      }
      assert players == old(players).Set(player, old(players.Get(player)).(hand := Hand(player)));
      Accounts.DrawAccount(old(deck), old(discardPile), old(players), player, deck, discardPile, Hand(player));
    }

    /**
     * `drawCardsForTurn`: refused when the game has not started, the player
     * has drawn already or a payment is pending; otherwise the current
     * player draws five cards with an empty hand and two otherwise. The
     * source returns `false` when it refuses and nothing otherwise; `ok` is
     * true exactly when it does not refuse.
     */
    method DrawCardsForTurn() returns (ok: bool)
      requires Valid()
      modifies this`deck, this`discardPile, this`players, this`history, this`turn
      ensures Valid()
      ensures ok <==> old(turn.gameStarted) && !old(turn.hasDrawnCards) && !pay.pending
      ensures !ok ==> unchanged(this)
      ensures ok ==>
        var p := turn.currentPlayer;
        var count := if |old(Hand(p))| == 0 then 5 else 2;
        && turn == old(turn).(hasDrawnCards := true)
        && |Hand(p)| == |old(Hand(p))| + Min(count, |old(deck)| + |old(discardPile)|)
        && Hand(p)[..|old(Hand(p))|] == old(Hand(p))
        && players.Get(Opponent(p)) == old(players.Get(Opponent(p)))
        && players.Get(p).money == old(players.Get(p).money)
        && players.Get(p).properties == old(players.Get(p).properties)
        && multiset(deck + discardPile + Hand(p)) == multiset(old(deck) + old(discardPile) + old(Hand(p)))
        && Held(deck, discardPile, players) == old(Held(deck, discardPile, players))
        && history == Capped(old(history), if count == 5 then DrewAfterEmptyHand(p) else Drew(p, 2))
    {
      if !turn.gameStarted || turn.hasDrawnCards || pay.pending {
        return false;
      }
      var p := turn.currentPlayer;
      var count := if |Hand(p)| == 0 then 5 else 2;
      DealCards(p, count);
      history := Capped(history, if count == 5 then DrewAfterEmptyHand(p) else Drew(p, 2));
      turn := turn.(hasDrawnCards := true);
      ok := true;
    }

    /** `playCard`'s guards: no payment pending, the card in the hand, and `canPlayCard` VALID. */
    predicate Playable(player: PlayerNumber, cardId: string)
      reads this`pay, this`players, this`turn
    {
      var i := IndexOfId(Hand(player), cardId);
      && !pay.pending
      && i >= 0
      && CanPlayCard(Hand(player)[i], turn.gameStarted, turn.currentPlayer, turn.hasDrawnCards,
                     turn.cardsPlayedThisTurn, player) == CardModel.Valid
    }

    /**
     * `playCard`: an action card is left for the action dialog; a money card
     * goes to the money pile; a property goes onto its colour group; each of
     * these two counts as a card played. A card of any other type goes back
     * to the end of the hand and the call fails.
     */
    method PlayCard(player: PlayerNumber, cardId: string) returns (ok: bool)
      requires Valid()
      modifies this`players, this`history, this`turn
      ensures Valid()
      ensures !old(Playable(player, cardId)) ==> !ok && unchanged(this)
      ensures old(Playable(player, cardId)) ==>
        var hand := old(Hand(player));
        var i := IndexOfId(hand, cardId);
        var card := hand[i];
        var p := old(players.Get(player));
        var played := old(turn).(cardsPlayedThisTurn := old(turn.cardsPlayedThisTurn) + 1);
        && (ok <==> card.kind != Unknown)
        && (card.kind == Action ==> unchanged(this))
        && (card.kind == Money ==>
              players == old(players).Set(player, Player(RemoveAt(hand, i), p.money + [card], p.properties)) &&
              turn == played && history == Capped(old(history), PlayedMoney(player, card.value)))
        && (card.kind == Property ==>
              players == old(players).Set(player,
                Player(RemoveAt(hand, i), p.money, AddToGroup(p.properties, Annotate(card).color, Annotate(card)))) &&
              turn == played && history == Capped(old(history), PlayedProperty(player, card.name)))
        && (card.kind == Unknown ==>
              players == old(players).Set(player, p.(hand := RemoveAt(hand, i) + [card])) &&
              turn == old(turn) && history == old(history))
    {
      if !Playable(player, cardId) {
        return false;
      }
      var i := IndexOfId(Hand(player), cardId);
      var card := Hand(player)[i];
      match card.kind {
        case Action =>
          ok := true;
        case Money =>
          PlayMoney(player, i);
          ok := true;
        case Property =>
          PlayProperty(player, i);
          ok := true;
        case Unknown =>
          var p := players.Get(player);
          players := players.Set(player, p.(hand := RemoveAt(p.hand, i) + [card]));
          ok := false;
      }
    }

    /** The money branch of `playCard`: the card moves from the hand to the money pile. */
    method PlayMoney(player: PlayerNumber, i: nat)
      requires Valid() && i < |Hand(player)|
      modifies this`players, this`history, this`turn
      ensures Valid()
      ensures var p := old(players.Get(player));
        players == old(players).Set(player, Player(RemoveAt(p.hand, i), p.money + [p.hand[i]], p.properties))
      ensures turn == old(turn).(cardsPlayedThisTurn := old(turn.cardsPlayedThisTurn) + 1)
      ensures history == Capped(old(history), PlayedMoney(player, old(Hand(player))[i].value))
    {
      var p := players.Get(player);
      players := players.Set(player, Player(RemoveAt(p.hand, i), p.money + [p.hand[i]], p.properties));
      history := Capped(history, PlayedMoney(player, p.hand[i].value));
      turn := turn.(cardsPlayedThisTurn := turn.cardsPlayedThisTurn + 1);
    }

    /** The property branch of `playCard`: the card, annotated, moves from the hand to its colour group. */
    method PlayProperty(player: PlayerNumber, i: nat)
      requires Valid() && i < |Hand(player)|
      modifies this`players, this`history, this`turn
      ensures Valid()
      ensures var p := old(players.Get(player)); var filed := Annotate(p.hand[i]);
        players == old(players).Set(player, Player(RemoveAt(p.hand, i), p.money, AddToGroup(p.properties, filed.color, filed)))
      ensures turn == old(turn).(cardsPlayedThisTurn := old(turn.cardsPlayedThisTurn) + 1)
      ensures history == Capped(old(history), PlayedProperty(player, old(Hand(player))[i].name))
    {
      var p := players.Get(player);
      var filed := Annotate(p.hand[i]);
      players := players.Set(player, Player(RemoveAt(p.hand, i), p.money, AddToGroup(p.properties, filed.color, filed)));
      history := Capped(history, PlayedProperty(player, p.hand[i].name));
      turn := turn.(cardsPlayedThisTurn := turn.cardsPlayedThisTurn + 1);
    }

    /** `placeActionCard`: the card becomes the last action card and goes onto the discard pile. */
    method PlaceActionCard(card: Card)
      modifies this`lastActionCard, this`discardPile
      ensures lastActionCard == Some(card) && discardPile == old(discardPile) + [card]
    {
      lastActionCard := Some(card);
      discardPile := discardPile + [card];
    }

    /** The hand card at the index is spliced out and placed on the action pile. */
    method DiscardFromHand(player: PlayerNumber, cardIndex: nat) returns (card: Card)
      requires cardIndex < |Hand(player)|
      modifies this`players, this`lastActionCard, this`discardPile
      ensures card == old(Hand(player))[cardIndex]
      ensures players == old(players).Set(player, old(players.Get(player)).(hand := RemoveAt(old(Hand(player)), cardIndex)))
      ensures lastActionCard == Some(card) && discardPile == old(discardPile) + [card]
      ensures multiset(deck + discardPile + Hand(player)) == multiset(deck + old(discardPile) + old(Hand(player)))
    {
      var p := players.Get(player);
      HandToPileCards(deck, discardPile, p.hand, cardIndex);
      card := p.hand[cardIndex];
      players := players.Set(player, p.(hand := RemoveAt(p.hand, cardIndex)));
      PlaceActionCard(card);
    }

    /** One more card played this turn. */
    method CountPlayed()
      modifies this`turn
      ensures turn == old(turn).(cardsPlayedThisTurn := old(turn.cardsPlayedThisTurn) + 1)
    {
      turn := turn.(cardsPlayedThisTurn := turn.cardsPlayedThisTurn + 1);
    }

    /** `playActionCardAsMoney`: the hand card at the index goes to the money pile. */
    method PlayActionCardAsMoney(player: PlayerNumber, cardIndex: nat) returns (ok: bool)
      requires Valid() && cardIndex < |Hand(player)|
      modifies this`players, this`history, this`turn
      ensures ok && Valid()
      ensures var hand := old(Hand(player)); var p := old(players.Get(player));
        players == old(players).Set(player, Player(RemoveAt(hand, cardIndex), p.money + [hand[cardIndex]], p.properties)) &&
        history == Capped(old(history), PlayedAsMoney(player, hand[cardIndex].name, hand[cardIndex].value))
      ensures turn == old(turn).(cardsPlayedThisTurn := old(turn.cardsPlayedThisTurn) + 1)
    {
      var p := players.Get(player);
      var card := p.hand[cardIndex];
      players := players.Set(player, Player(RemoveAt(p.hand, cardIndex), p.money + [card], p.properties));
      history := Capped(history, PlayedAsMoney(player, card.name, card.value));
      CountPlayed();
      ok := true;
    }

    /**
     * `playPassGoCard`: the card goes to the action pile and the player
     * draws two cards, which may include the Pass Go itself when the deck
     * was empty and the discard pile is reshuffled.
     */
    method PlayPassGoCard(player: PlayerNumber, cardIndex: nat) returns (ok: bool)
      requires Valid() && cardIndex < |Hand(player)|
      modifies this`players, this`lastActionCard, this`discardPile, this`deck, this`history, this`turn
      ensures ok && Valid()
      ensures PassedGo(player, cardIndex)
      ensures history == Capped(old(history), PlayedPassGo(player))
      ensures turn == old(turn).(cardsPlayedThisTurn := old(turn.cardsPlayedThisTurn) + 1)
    {
      DiscardAndDraw(player, cardIndex);
      history := Capped(history, PlayedPassGo(player));
      CountPlayed();
      ok := true;
    }

    /**
     * What a Pass Go does to the cards: the card is the last action card, the
     * player's hand without it gains two cards, or as many as the deck and
     * discard pile hold, and those come from the deck or the discard pile;
     * no other holding changes.
     */
    twostate predicate PassedGo(player: PlayerNumber, cardIndex: nat)
      requires cardIndex < |old(Hand(player))|
      reads this`deck, this`discardPile, this`players, this`lastActionCard
    {
      var hand := old(Hand(player));
      && lastActionCard == Some(hand[cardIndex])
      && PassGoPiles(old(deck), old(discardPile), hand, cardIndex, deck, discardPile, Hand(player))
      && players == old(players).Set(player, old(players.Get(player)).(hand := Hand(player)))
    }

    /** The card moves of `playPassGoCard`: `placeActionCard`, then two `dealCard`s. */
    method DiscardAndDraw(player: PlayerNumber, cardIndex: nat)
      requires cardIndex < |Hand(player)|
      modifies this`players, this`lastActionCard, this`discardPile, this`deck
      ensures PassedGo(player, cardIndex)
    {
      ghost var hand, deck0, pile0, players0 := Hand(player), deck, discardPile, players;
      var card := DiscardFromHand(player, cardIndex);
      ghost var deck1, hand1, pile1, players1 := deck, Hand(player), discardPile, players;
      DealCards(player, 2);
      PassGoCards(hand, cardIndex, card, deck1, pile0, hand1, pile1, deck, discardPile, Hand(player));
      SetTwice(players0, player, players0.Get(player).(hand := hand1), players0.Get(player).(hand := Hand(player)));
    }

    /**
     * `requestPayment`: refused before the game starts; otherwise the request
     * is recorded, a payment is pending, not yet in payment mode, with an
     * empty selection, and the payer is asked to respond.
     */
    method RequestPayment(from: PlayerNumber, to: PlayerNumber, amount: int) returns (ok: bool)
      requires Valid() && from != to
      modifies this`pay, this`history
      ensures Valid()
      ensures ok == turn.gameStarted
      ensures !ok ==> unchanged(this)
      ensures ok ==>
        pay == PaymentState(Some(Request(from, to, amount)), true, false, NoSelection,
                            Opened(from, to, amount, lastActionCard)) &&
        history == Capped(old(history), Requested(to, amount, from))
    {
      if !turn.gameStarted {
        return false;
      }
      pay := PaymentState(Some(Request(from, to, amount)), true, false, NoSelection,
                          Opened(from, to, amount, lastActionCard));
      history := Capped(history, Requested(to, amount, from));
      ok := true;
    }

    /**
     * The shared body of `playDebtCollectorCard`, `playRentCard` and
     * `playBirthdayCard`: the card goes to the action pile, the opponent is
     * asked for `amount`, and a card is counted as played.
     */
    method PlayChargeCard(player: PlayerNumber, cardIndex: nat, amount: int)
      requires Valid() && cardIndex < |Hand(player)|
      modifies this`players, this`lastActionCard, this`discardPile, this`pay, this`history, this`turn
      ensures Valid()
      ensures Charged(player, cardIndex, amount)
    {
      var card := DiscardFromHand(player, cardIndex);
      var asked := RequestPayment(Opponent(player), player, amount);
      CountPlayed();
    }

    /** The state after a charge card at `cardIndex` asked the opponent for `amount`. */
    twostate predicate Charged(player: PlayerNumber, cardIndex: nat, amount: int)
      requires cardIndex < |old(Hand(player))|
      reads this
    {
      var hand := old(Hand(player));
      var card := hand[cardIndex];
      && players == old(players).Set(player, old(players.Get(player)).(hand := RemoveAt(hand, cardIndex)))
      && discardPile == old(discardPile) + [card] && lastActionCard == Some(card)
      && turn == old(turn).(cardsPlayedThisTurn := old(turn.cardsPlayedThisTurn) + 1)
      && (turn.gameStarted ==>
            pay == PaymentState(Some(Request(Opponent(player), player, amount)), true, false, NoSelection,
                                Opened(Opponent(player), player, amount, Some(card))) &&
            history == Capped(old(history), Requested(player, amount, Opponent(player))))
      && (!turn.gameStarted ==> pay == old(pay) && history == old(history))
    }

    /** `playDebtCollectorCard`: the opponent owes 5M. */
    method PlayDebtCollectorCard(player: PlayerNumber, cardIndex: nat) returns (ok: bool)
      requires Valid() && cardIndex < |Hand(player)|
      modifies this`players, this`lastActionCard, this`discardPile, this`pay, this`history, this`turn
      ensures ok && Valid()
      ensures Charged(player, cardIndex, 5)
    {
      PlayChargeCard(player, cardIndex, 5);
      ok := true;
    }

    /** `playRentCard`: the opponent owes the rent chosen for the colour (the colour itself only names the line). */
    method PlayRentCard(player: PlayerNumber, cardIndex: nat, propertyColor: string, rentAmount: int) returns (ok: bool)
      requires Valid() && cardIndex < |Hand(player)|
      modifies this`players, this`lastActionCard, this`discardPile, this`pay, this`history, this`turn
      ensures ok && Valid()
      ensures Charged(player, cardIndex, rentAmount)
    {
      PlayChargeCard(player, cardIndex, rentAmount);
      ok := true;
    }

    /** `playBirthdayCard`: the opponent owes 2M. */
    method PlayBirthdayCard(player: PlayerNumber, cardIndex: nat) returns (ok: bool)
      requires Valid() && cardIndex < |Hand(player)|
      modifies this`players, this`lastActionCard, this`discardPile, this`pay, this`history, this`turn
      ensures ok && Valid()
      ensures Charged(player, cardIndex, 2)
    {
      PlayChargeCard(player, cardIndex, 2);
      ok := true;
    }

    /** `showPaymentModal`. */
    method ShowPaymentModal()
      requires Valid()
      modifies this`players, this`history, this`pay
      ensures Valid()
      ensures (players, pay, history) == ShowPayment(old(players), old(pay), old(history))
    {
      if pay.request.Some? {
        var r := pay.request.value;
        var avail := CalculateAvailableAssets(players.Get(r.from));
        if avail <= r.amount {
          var f, t := TakeAllAvailableAssets(players.Get(r.from), players.Get(r.to));
          players := players.Set(r.from, f).Set(r.to, t);
          history := Capped(history, if avail < r.amount then PartialPaymentOfAll(r.from, avail) else PaidAll(r.from, avail));
          pay := pay.(request := None, pending := false, mode := false, selection := NoSelection);
        } else {
          pay := pay.(mode := true);
        }
      }
    }

    /** `togglePaymentAsset`: with a request, the asset of the payer flips in or out of the selection. */
    method TogglePaymentAsset(a: Asset)
      requires Valid()
      modifies this`pay
      ensures Valid()
      ensures pay.request.None? ==> pay == old(pay)
      ensures pay.request.Some? ==>
        pay == old(pay).(selection := ToggleAsset(old(pay.selection), players.Get(pay.request.value.from), a))
    {
      if pay.request.Some? {
        pay := pay.(selection := ToggleAsset(pay.selection, players.Get(pay.request.value.from), a));
      }
    }

    /** `calculateSelectedPaymentTotal`: nothing without a request, else the payer's selected value. */
    method CalculateSelectedPaymentTotal() returns (total: nat)
      ensures pay.request.None? ==> total == 0
      ensures pay.request.Some? ==> total == SelectedTotal(pay.selection, players.Get(pay.request.value.from))
    {
      if pay.request.None? {
        return 0;
      }
      total := SumSelected(pay.selection, players.Get(pay.request.value.from));
    }

    /** The transfer step of `processSelectedPayment`: the selected cards move from `from` to `to`. */
    method MoveSelected(from: PlayerNumber, to: PlayerNumber)
      requires from != to
      modifies this`players
      ensures var (f, t) := PaidPlayers(old(players.Get(from)), old(players.Get(to)), pay.selection);
        players == old(players).Set(from, f).Set(to, t)
    {
      var f, t := PaySelected(players.Get(from), players.Get(to), pay.selection);
      players := players.Set(from, f).Set(to, t);
    }

    /**
     * `processSelectedPayment`: the selected cards, short or not, move from
     * payer to payee, the payment is settled and the history says whether
     * it was paid in full.
     */
    method ProcessSelectedPayment() returns (ok: bool)
      requires Valid()
      modifies this`players, this`history, this`pay
      ensures Valid()
      ensures ok == old(pay.request).Some?
      ensures !ok ==> unchanged(this)
      ensures ok ==>
        var r := old(pay.request).value;
        var total := SelectedTotal(old(pay.selection), old(players.Get(r.from)));
        var (f, t) := PaidPlayers(old(players.Get(r.from)), old(players.Get(r.to)), old(pay.selection));
        && players == old(players).Set(r.from, f).Set(r.to, t)
        && pay == old(pay).(request := None, pending := false, mode := false, selection := NoSelection)
        && history == Capped(old(history),
                             if total < r.amount then PartialPayment(r.from, total, r.to) else Paid(r.from, total, r.to))
    {
      ok := pay.request.Some?;
      if ok {
        var r := pay.request.value;
        var total := CalculateSelectedPaymentTotal();
        MoveSelected(r.from, r.to);
        pay := pay.(request := None, pending := false, mode := false, selection := NoSelection);
        history := Capped(history, if total < r.amount then PartialPayment(r.from, total, r.to) else Paid(r.from, total, r.to));
      }
    }

    /**
     * `endTurn`: refused before the game starts, before drawing or while a
     * payment is pending; a hand over seven cards enters discard mode;
     * otherwise the other player's turn begins.
     */
    method EndTurn() returns (ok: bool)
      requires Valid()
      modifies this`turn, this`history
      ensures Valid()
      ensures var t, n := old(turn), |Hand(old(turn.currentPlayer))|;
        ok == EndsTurn(t, n, pay.pending) && turn == EndTurnFlags(t, n, pay.pending) &&
        history == EndTurnHistory(old(history), t, n, pay.pending)
    {
      var n := |Hand(turn.currentPlayer)|;
      if !turn.gameStarted || !turn.hasDrawnCards || pay.pending {
        ok := false;
      } else if n > HandLimit {
        AskDiscard();
        ok := false;
      } else {
        PassTurn();
        ok := true;
      }
    }

    /** `endTurn` with too many cards in hand: discard mode, the excess over seven to discard. */
    method AskDiscard()
      requires Valid() && CanEndTurn(turn, pay.pending) && |Hand(turn.currentPlayer)| > HandLimit
      modifies this`turn, this`history
      ensures Valid()
      ensures var t, n := old(turn), |Hand(old(turn.currentPlayer))|;
        turn == EndTurnFlags(t, n, pay.pending) && history == EndTurnHistory(old(history), t, n, pay.pending)
    {
      var excess := |Hand(turn.currentPlayer)| - HandLimit;
      history := Capped(history, NeedsDiscard(turn.currentPlayer, excess));
      turn := turn.(discardMode := true, cardsToDiscard := excess);
    }

    /** `endTurn` proper: the opponent's turn begins with the per-turn flags cleared. */
    method PassTurn()
      requires Valid() && CanEndTurn(turn, pay.pending) && |Hand(turn.currentPlayer)| <= HandLimit
      modifies this`turn, this`history
      ensures Valid()
      ensures var t, n := old(turn), |Hand(old(turn.currentPlayer))|;
        turn == EndTurnFlags(t, n, pay.pending) && history == EndTurnHistory(old(history), t, n, pay.pending)
    {
      var next := Opponent(turn.currentPlayer);
      turn := turn.(currentPlayer := next, hasDrawnCards := false, cardsPlayedThisTurn := 0,
                    discardMode := false, cardsToDiscard := 0);
      history := Capped(history, TurnBegins(next));
    }

    /** `discardCard`'s guards: discard mode, the current player, and the card in the hand. */
    predicate CanDiscard(player: PlayerNumber, cardId: string)
      reads this`turn, this`players
    {
      turn.discardMode && player == turn.currentPlayer && IndexOfId(Hand(player), cardId) >= 0
    }

    /**
     * `discardCard`, each card pushed once: the card leaves the hand for the
     * discard pile (an action card also becomes the last action card), one
     * fewer card is owed, and when none is owed any more discard mode ends
     * and the turn is ended.
     */
    method DiscardCard(player: PlayerNumber, cardId: string)
      requires Valid()
      modifies this`players, this`discardPile, this`lastActionCard, this`turn, this`history
      ensures Valid()
      ensures !old(CanDiscard(player, cardId)) ==> unchanged(this)
      ensures old(CanDiscard(player, cardId)) ==> TookDiscard(player, IndexOfId(old(Hand(player)), cardId))
    {
      if !turn.discardMode || player != turn.currentPlayer {
        return;
      }
      var i := IndexOfId(Hand(player), cardId);
      if i == -1 {
        return;
      }
      if turn.cardsToDiscard == 1 {
        DiscardLast(player, i);
      } else {
        DiscardOne(player, i);
      }
    }

    /**
     * The state after `discardCard` took the hand card at `i`: the card left
     * the hand for the discard pile, once; an action card became the last
     * action card; one fewer card is owed, and the last one ended the turn.
     */
    twostate predicate TookDiscard(player: PlayerNumber, i: nat)
      requires i < |old(Hand(player))|
      reads this
    {
      var p, t := old(players.Get(player)), old(turn);
      var card := p.hand[i];
      && players == old(players).Set(player, p.(hand := RemoveAt(p.hand, i)))
      && discardPile == DiscardPileCorrected(old(discardPile), card)
      && lastActionCard == (if card.kind == Action then Some(card) else old(lastActionCard))
      && turn == DiscardFlags(t, |p.hand| - 1, pay.pending)
      && history == DiscardHistory(old(history), t, player, card.kind, |p.hand| - 1, pay.pending)
    }

    /** `discardCard` for the card at `i` when more cards are still owed after it. */
    method DiscardOne(player: PlayerNumber, i: nat)
      requires Valid() && turn.cardsToDiscard > 1 && player == turn.currentPlayer && i < |Hand(player)|
      modifies this`players, this`discardPile, this`lastActionCard, this`turn, this`history
      ensures Valid()
      ensures TookDiscard(player, i)
    {
      DiscardAt(player, i);
    }

    /** `discardCard` for the last card owed, at `i`: it is discarded, discard mode ends and the turn is ended. */
    method DiscardLast(player: PlayerNumber, i: nat)
      requires Valid() && turn.cardsToDiscard == 1 && player == turn.currentPlayer && i < |Hand(player)|
      modifies this`players, this`discardPile, this`lastActionCard, this`turn, this`history
      ensures Valid()
      ensures TookDiscard(player, i)
    {
      DiscardAt(player, i);
      var ended := EndTurn();
    }

    /**
     * `discardCard`'s step for the card at `i` of the hand: onto the pile,
     * one fewer still to discard, and discard mode off once none is owed.
     */
    method DiscardAt(player: PlayerNumber, i: nat)
      requires Valid() && turn.discardMode && i < |Hand(player)|
      modifies this`players, this`discardPile, this`lastActionCard, this`turn, this`history
      ensures Valid()
      ensures var p := old(players.Get(player));
        var card := p.hand[i];
        var owed := old(turn.cardsToDiscard) - 1;
        && players == old(players).Set(player, p.(hand := RemoveAt(p.hand, i)))
        && discardPile == DiscardPileCorrected(old(discardPile), card)
        && lastActionCard == (if card.kind == Action then Some(card) else old(lastActionCard))
        && turn == old(turn).(cardsToDiscard := owed, discardMode := owed != 0)
        && history == Capped(old(history), Discarded(player, card.kind))
    {
      var p := players.Get(player);
      var card := p.hand[i];
      players := players.Set(player, p.(hand := RemoveAt(p.hand, i)));
      discardPile := DiscardPileCorrected(discardPile, card);
      if card.kind == Action {
        lastActionCard := Some(card);
      }
      var owed := turn.cardsToDiscard - 1;
      turn := turn.(cardsToDiscard := owed, discardMode := owed != 0);
      history := Capped(history, Discarded(player, card.kind));
    }

    /** `flipWildcardProperty`'s guards: the group exists and holds, at the index, a wildcard of several colours. */
    predicate Flippable(player: PlayerNumber, currentColor: string, cardIndex: int)
      reads this`players
    {
      var props := players.Get(player).properties;
      && currentColor in props && 0 <= cardIndex < |props[currentColor]|
      && props[currentColor][cardIndex].wildcard && |props[currentColor][cardIndex].originalColors| > 1
    }

    /**
     * `flipWildcardProperty`: the wildcard leaves its group for the group of
     * its next colour, created when missing. A missing group, which makes
     * the source throw, is a refusal here.
     */
    method FlipWildcardProperty(player: PlayerNumber, currentColor: string, cardIndex: int) returns (ok: bool)
      requires Valid()
      modifies this`players, this`history
      ensures Valid()
      ensures ok == old(Flippable(player, currentColor, cardIndex))
      ensures !ok ==> unchanged(this)
      ensures ok ==>
        var p := old(players.Get(player));
        var card := p.properties[currentColor][cardIndex];
        var key := GroupKey(NextColor(card, currentColor));
        var left := p.properties[currentColor := RemoveAt(p.properties[currentColor], cardIndex)];
        && players == old(players).Set(player, p.(properties := AddToGroup(left, key, FlipCard(card, currentColor))))
        && history == Capped(old(history), SwitchedWildcard(player, currentColor, key))
    {
      ok := Flippable(player, currentColor, cardIndex);
      if ok {
        var p := players.Get(player);
        var card := p.properties[currentColor][cardIndex];
        var key := GroupKey(NextColor(card, currentColor));
        var left := p.properties[currentColor := RemoveAt(p.properties[currentColor], cardIndex)];
        players := players.Set(player, p.(properties := AddToGroup(left, key, FlipCard(card, currentColor))));
        history := Capped(history, SwitchedWildcard(player, currentColor, key));
      }
    }

    /** `changeWildcardColor`'s guards: the group exists and holds a wildcard at the index. */
    predicate Recolorable(player: PlayerNumber, currentColor: string, cardIndex: int)
      reads this`players
    {
      var props := players.Get(player).properties;
      currentColor in props && 0 <= cardIndex < |props[currentColor]| && props[currentColor][cardIndex].wildcard
    }

    /** `changeWildcardColor`: the wildcard moves to the chosen colour's group, created when missing. */
    method ChangeWildcardColor(player: PlayerNumber, currentColor: string, cardIndex: int, newColor: string)
      returns (ok: bool)
      requires Valid()
      modifies this`players, this`history
      ensures Valid()
      ensures ok == old(Recolorable(player, currentColor, cardIndex))
      ensures !ok ==> unchanged(this)
      ensures ok ==>
        var p := old(players.Get(player));
        var card := p.properties[currentColor][cardIndex];
        var left := p.properties[currentColor := RemoveAt(p.properties[currentColor], cardIndex)];
        && players == old(players).Set(player, p.(properties := AddToGroup(left, newColor, Recolor(card, newColor))))
        && history == Capped(old(history), AssignedWildcard(player, newColor))
    {
      ok := Recolorable(player, currentColor, cardIndex);
      if ok {
        var p := players.Get(player);
        var card := p.properties[currentColor][cardIndex];
        var left := p.properties[currentColor := RemoveAt(p.properties[currentColor], cardIndex)];
        players := players.Set(player, p.(properties := AddToGroup(left, newColor, Recolor(card, newColor))));
        history := Capped(history, AssignedWildcard(player, newColor));
      }
    }

    /** `playerHasJustSayNo`: exactly when `findIndex` finds a Just Say No in the hand. */
    predicate PlayerHasJustSayNo(player: PlayerNumber)
      reads this`players
      ensures PlayerHasJustSayNo(player) <==> JustSayNoIndex(Hand(player)) >= 0
    {
      HasJustSayNo(Hand(player))
    }

    /**
     * `useJustSayNo`: the responder's first Just Say No goes to the discard
     * pile, the chain grows by one and the roles swap. Without a responder
     * (the source throws) or without such a card, nothing happens.
     */
    method UseJustSayNo() returns (ok: bool)
      requires Valid()
      modifies this`players, this`discardPile, this`history, this`pay
      ensures Valid()
      ensures ok == (old(pay.response.fromPlayer).Some? && old(PlayerHasJustSayNo(pay.response.fromPlayer.value)))
      ensures !ok ==> unchanged(this)
      ensures ok ==>
        var r := old(pay.response.fromPlayer).value;
        var hand := old(Hand(r));
        var i := JustSayNoIndex(hand);
        && players == old(players).Set(r, old(players.Get(r)).(hand := RemoveAt(hand, i)))
        && discardPile == old(discardPile) + [hand[i]]
        && pay == old(pay).(response := Blocked(old(pay.response)))
        && history == Capped(old(history), UsedJustSayNo(r, old(pay.response.toPlayer)))
    {
      ok := pay.response.fromPlayer.Some? && PlayerHasJustSayNo(pay.response.fromPlayer.value);
      if ok {
        var r := pay.response.fromPlayer.value;
        var p := players.Get(r);
        var i := JustSayNoIndex(p.hand);
        var card := p.hand[i];
        players := players.Set(r, p.(hand := RemoveAt(p.hand, i)));
        discardPile := discardPile + [card];
        history := Capped(history, UsedJustSayNo(r, pay.response.toPlayer));
        pay := pay.(response := Blocked(pay.response));
      }
    }

    /**
     * `acceptAction`: the response is no longer pending. For a payment, an
     * odd chain of Just Say No cancels it and an even one shows the payment
     * dialog (which may settle it at once).
     */
    method AcceptAction() returns (ok: bool)
      requires Valid()
      modifies this`players, this`history, this`pay
      ensures ok && Valid()
      ensures old(pay.response.kind) == NoAction ==>
        && pay == old(pay).(response := old(pay.response).(pending := false))
        && history == Capped(old(history), AcceptedAction(old(pay.response.fromPlayer)))
        && players == old(players)
      ensures old(pay.response.kind) == PaymentAction && !Proceeds(old(pay.response)) ==>
        && pay == NoPayment.(mode := old(pay.mode))
        && history == Capped(Capped(old(history), AcceptedPayment(old(pay.response.fromPlayer))), CancelledByJustSayNo)
        && players == old(players)
      ensures old(pay.response.kind) == PaymentAction && Proceeds(old(pay.response)) ==>
        (players, pay, history) ==
        ShowPayment(old(players), old(pay).(response := old(pay.response).(pending := false)),
                    Capped(old(history), AcceptedPayment(old(pay.response.fromPlayer))))
    {
      match pay.response.kind {
        case PaymentAction =>
          AcceptPayment();
        case NoAction =>
          history := Capped(history, AcceptedAction(pay.response.fromPlayer));
          pay := pay.(response := pay.response.(pending := false));
      }
      ok := true;
    }

    /** `acceptAction` on a payment: cancelled by an odd chain of Just Say No, otherwise shown. */
    method AcceptPayment()
      requires Valid()
      modifies this`players, this`history, this`pay
      ensures Valid()
      ensures !Proceeds(old(pay.response)) ==>
        && pay == NoPayment.(mode := old(pay.mode))
        && history == Capped(Capped(old(history), AcceptedPayment(old(pay.response.fromPlayer))), CancelledByJustSayNo)
        && players == old(players)
      ensures Proceeds(old(pay.response)) ==>
        (players, pay, history) ==
        ShowPayment(old(players), old(pay).(response := old(pay.response).(pending := false)),
                    Capped(old(history), AcceptedPayment(old(pay.response.fromPlayer))))
    {
      history := Capped(history, AcceptedPayment(pay.response.fromPlayer));
      pay := pay.(response := pay.response.(pending := false));
      if pay.response.chain % 2 == 1 {
        CancelBlocked();
      } else {
        ShowPaymentModal();
      }
    }

    /** A payment blocked by Just Say No: `cancelPayment`, then the history says so. */
    method CancelBlocked()
      requires Valid()
      modifies this`history, this`pay
      ensures Valid()
      ensures pay == NoPayment.(mode := old(pay.mode))
      ensures history == Capped(old(history), CancelledByJustSayNo)
    {
      var cancelled := CancelPayment();
      history := Capped(history, CancelledByJustSayNo);
    }

    /** `cancelPayment`: no request, nothing pending, an empty selection and no response; payment mode stays. */
    method CancelPayment() returns (ok: bool)
      requires Valid()
      modifies this`pay
      ensures ok && Valid()
      ensures pay == NoPayment.(mode := old(pay.mode))
    {
      pay := NoPayment.(mode := pay.mode);
      ok := true;
    }
  }
}
