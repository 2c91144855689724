/**
 * The records that group the payment fields of the earlier version's game
 * state (`gameState.js`), which has no action response, the invariant that
 * version keeps, and the history lines its operations append. Its history
 * is never cut: every line is kept.
 */
module ClassicRecords {
  import opened Wrappers
  import opened CardModel
  import opened History
  import opened PaymentSelection
  import opened Turns
  import opened Holdings
  import opened Rules

  /** The payment fields of the earlier `gameState`. */
  datatype ClassicPayment = ClassicPayment(
    request: Option<Request>,
    pending: bool,
    mode: bool,
    selection: Selection)

  /** The payment fields of a fresh game, and of one whose payment is settled. */
  const NoClassicPayment := ClassicPayment(None, false, false, NoSelection)

  /** A payment is pending exactly when a request exists, and a request names two players. */
  predicate Settled(p: ClassicPayment)
  {
    && (p.pending <==> p.request.Some?)
    && (p.request.Some? ==> p.request.value.from != p.request.value.to)
  }

  /**
   * The invariant of the earlier `gameState`: discard mode goes with a
   * positive count, the payment state is settled and the new deck holds
   * 75 cards.
   */
  predicate ClassicCoherent(t: TurnState, p: ClassicPayment, newDeckSize: int)
  {
    DiscardConsistent(t) && Settled(p) && newDeckSize == 75
  }

  /**
   * The history after `endTurn`: nothing when refused, else the discard
   * demand or the new turn's line, appended.
   */
  function ClassicEndTurnHistory(h: seq<Entry>, t: TurnState, handSize: nat, pending: bool): (r: seq<Entry>)
    ensures |r| == if CanEndTurn(t, pending) then |h| + 1 else |h|
    ensures r[..|h|] == h
    ensures CanEndTurn(t, pending) && handSize > HandLimit ==>
      r[|h|] == NeedsDiscard(t.currentPlayer, handSize - HandLimit)
    ensures EndsTurn(t, handSize, pending) ==> r[|h|] == TurnBegins(Opponent(t.currentPlayer))
  {
    if !CanEndTurn(t, pending) then h
    else if handSize > HandLimit then h + [NeedsDiscard(t.currentPlayer, handSize - HandLimit)]
    else h + [TurnBegins(Opponent(t.currentPlayer))]
  }

  /**
   * The history after `discardCard` has taken a card: its line, then
   * `endTurn`'s when it was the last card owed.
   */
  function ClassicDiscardHistory(h: seq<Entry>, t: TurnState, player: PlayerNumber, kind: CardKind,
                                 handSize: nat, pending: bool): (r: seq<Entry>)
    ensures |r| > |h| && r[..|h| + 1] == h + [Discarded(player, kind)]
  {
    var h1 := h + [Discarded(player, kind)];
    if t.cardsToDiscard - 1 == 0 then
      ClassicEndTurnHistory(h1, t.(cardsToDiscard := 0, discardMode := false), handSize, pending)
    else h1
  }

  /**
   * `checkWinCondition` on the turn flags: three or more complete sets end
   * the game.
   */
  function WinFlags(t: TurnState, properties: map<string, seq<Card>>): (r: TurnState)
    ensures r.(gameStarted := t.gameStarted) == t
    ensures !r.gameStarted <==> !t.gameStarted || HasWon(properties)
  {
    if HasWon(properties) then t.(gameStarted := false) else t
  }

  /** `checkWinCondition`'s history line, when the player has won. */
  function WinHistory(h: seq<Entry>, player: PlayerNumber, properties: map<string, seq<Card>>): (r: seq<Entry>)
    ensures HasWon(properties) ==> r == h + [Wins(player, |CompleteColors(properties)|)]
    ensures !HasWon(properties) ==> r == h
  {
    if HasWon(properties) then h + [Wins(player, |CompleteColors(properties)|)] else h
  }

  /**
   * Once the game is over, no card can be played: `canPlayCard` refuses
   * every card before it looks at the turn.
   */
  lemma WonGameRefusesPlay(t: TurnState, properties: map<string, seq<Card>>, card: Card, player: PlayerNumber)
    requires HasWon(properties)
    ensures var w := WinFlags(t, properties);
      CanPlayCard(card, w.gameStarted, w.currentPlayer, w.hasDrawnCards, w.cardsPlayedThisTurn, player) ==
      GameNotStarted
  {
  }

  /** And no turn can end. */
  lemma WonGameCannotEndTurn(t: TurnState, properties: map<string, seq<Card>>, handSize: nat, pending: bool)
    requires HasWon(properties)
    ensures EndTurnFlags(WinFlags(t, properties), handSize, pending) == WinFlags(t, properties)
  {
  }
}
