/**
 * The records that group the payment fields of the current version's game
 * state (`js/gameState.js`): the pending action response with its
 * Just Say No chain, the payment request and selection, and the invariant
 * the game keeps over them and its turn flags.
 */
module GameRecords {
  import opened Wrappers
  import opened CardModel
  import opened History
  import opened PaymentSelection
  import opened Turns
  import opened Holdings
  import opened Moves
  import opened Transfer

  /** `actionResponse.type`: null, or 'payment'. */
  datatype ResponseKind = NoAction | PaymentAction

  /**
   * `actionResponse`: whether a response is awaited, to what, who responds
   * (`fromPlayer`) to whom (`toPlayer`), how many Just Say No cards have been
   * played on it, the action card that started it and the amount asked.
   */
  datatype Response = Response(
    pending: bool,
    kind: ResponseKind,
    fromPlayer: Option<PlayerNumber>,
    toPlayer: Option<PlayerNumber>,
    chain: nat,
    actionCard: Option<Card>,
    amount: Option<int>)

  /** The `actionResponse` of a fresh game and after `cancelPayment`. */
  const NoResponse := Response(false, NoAction, None, None, 0, None, None)

  /** The payment fields of `gameState`. */
  datatype PaymentState = PaymentState(
    request: Option<Request>,
    pending: bool,
    mode: bool,
    selection: Selection,
    response: Response)

  /** The payment fields of a fresh game, and of one whose payment is settled. */
  const NoPayment := PaymentState(None, false, false, NoSelection, NoResponse)

  /** The response after a Just Say No: one more card in the chain, and the roles swapped. */
  function Blocked(r: Response): (b: Response)
    ensures b.fromPlayer == r.toPlayer && b.toPlayer == r.fromPlayer && b.chain == r.chain + 1
    ensures b.(fromPlayer := r.fromPlayer, toPlayer := r.toPlayer, chain := r.chain) == r
  {
    r.(chain := r.chain + 1, fromPlayer := r.toPlayer, toPlayer := r.fromPlayer)
  }

  /** `acceptAction`'s test: an even chain lets the action through, an odd one cancels it. */
  predicate Proceeds(r: Response)
  {
    r.chain % 2 == 0
  }

  /** Each Just Say No reverses whether the action goes through. */
  lemma BlockedFlipsOutcome(r: Response)
    ensures Proceeds(Blocked(r)) <==> !Proceeds(r)
  {
  }

  /** A Just Say No answered by another restores the roles and the outcome. */
  lemma BlockedTwice(r: Response)
    ensures Blocked(Blocked(r)) == r.(chain := r.chain + 2)
    ensures Proceeds(Blocked(Blocked(r))) == Proceeds(r)
  {
  }


  /** The response `requestPayment` opens: the payer may answer the payee's action. */
  function Opened(from: PlayerNumber, to: PlayerNumber, amount: int, card: Option<Card>): (r: Response)
    ensures r.pending && r.kind == PaymentAction && r.chain == 0 && Proceeds(r)
    ensures r.fromPlayer == Some(from) && r.toPlayer == Some(to) && r.amount == Some(amount) && r.actionCard == card
  {
    Response(true, PaymentAction, Some(from), Some(to), 0, card, Some(amount))
  }

  /** A payment is pending exactly when a request exists, and a request names two players. */
  predicate PaymentSettled(p: PaymentState)
  {
    && (p.pending <==> p.request.Some?)
    && (p.request.Some? ==> p.request.value.from != p.request.value.to)
  }

  /**
   * The invariant of `gameState`: discard mode goes with a positive count,
   * the history holds at most twenty entries, the payment state is settled
   * and the new deck holds 108 cards.
   */
  predicate Coherent(t: TurnState, p: PaymentState, historySize: int, newDeckSize: int)
  {
    DiscardConsistent(t) && historySize <= MaxEntries && PaymentSettled(p) && newDeckSize == 108
  }

  /**
   * `showPaymentModal` on the players, payment fields and history it
   * starts from: without a request nothing changes; a payer whose
   * available assets do not exceed the amount hands all of them over and
   * the payment is settled, with a history line saying whether that fell
   * short; otherwise payment mode starts.
   */
  ghost function ShowPayment(players: Players, pay: PaymentState, h: seq<Entry>): (Players, PaymentState, seq<Entry>)
  {
    match pay.request
    case None => (players, pay, h)
    case Some(r) =>
      var avail := AvailableValue(players.Get(r.from));
      if avail <= r.amount then
        var (f, t) := TakenPlayers(players.Get(r.from), players.Get(r.to));
        (players.Set(r.from, f).Set(r.to, t),
         pay.(request := None, pending := false, mode := false, selection := NoSelection),
         Capped(h, if avail < r.amount then PartialPaymentOfAll(r.from, avail) else PaidAll(r.from, avail)))
      else
        (players, pay.(mode := true), h)
  }

  /**
   * `showPaymentModal` when the payer's available assets do not exceed the
   * amount: the payment is settled, the payer has nothing available left,
   * the two players hold the same ids as before and the history ends with
   * the line saying whether the payment fell short.
   */
  lemma ShowPaymentSettles(players: Players, pay: PaymentState, h: seq<Entry>)
    requires pay.request.Some? && pay.request.value.from != pay.request.value.to
    requires AvailableValue(players.Get(pay.request.value.from)) <= pay.request.value.amount
    ensures var (ps, p2, h2) := ShowPayment(players, pay, h);
      var r := pay.request.value;
      var avail := AvailableValue(players.Get(r.from));
      && p2 == pay.(request := None, pending := false, mode := false, selection := NoSelection)
      && !HasAvailable(ps.Get(r.from))
      && PlayersIds(ps) == PlayersIds(players)
      && |h2| > 0
      && h2[|h2| - 1] == (if avail < r.amount then PartialPaymentOfAll(r.from, avail) else PaidAll(r.from, avail))
  {
    var r := pay.request.value;
    var from, to := players.Get(r.from), players.Get(r.to);
    var (f, t) := TakenPlayers(from, to);
    TakenLeavesNothing(from, to);
    TakenConserves(from, to);
    OtherIsOpponent(r.from, r.to);
    SetBothIds(players, r.from, f, t);
    assert players.Set(r.from, f).Set(r.to, t).Get(r.from) == f;
  }

  /**
   * `showPaymentModal` when the payer can cover more than the amount: only
   * payment mode changes, and the payer chooses what to hand over.
   */
  lemma ShowPaymentWaits(players: Players, pay: PaymentState, h: seq<Entry>)
    requires pay.request.Some?
    requires AvailableValue(players.Get(pay.request.value.from)) > pay.request.value.amount
    ensures ShowPayment(players, pay, h) == (players, pay.(mode := true), h)
  {
  }

  /** A settled payment stays settled after `showPaymentModal`. */
  lemma ShowPaymentKeepsSettled(players: Players, pay: PaymentState, h: seq<Entry>)
    requires PaymentSettled(pay)
    ensures PaymentSettled(ShowPayment(players, pay, h).1)
  {
  }
}
