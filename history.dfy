/**
 * The game history. Each history line is an entry naming what happened and
 * the numbers it reports; the wording of the lines is not modelled. The
 * current version keeps only the newest twenty entries, the earlier one
 * keeps them all.
 */
module History {
  import opened Wrappers
  import opened CardModel

  /** The players an action response names are unset (None) until a request sets them. */
  datatype Entry =
    | GameStarted
    | Drew(player: PlayerNumber, count: nat)
    | DrewAfterEmptyHand(player: PlayerNumber)
    | PlayedMoney(player: PlayerNumber, value: nat)
    | PlayedProperty(player: PlayerNumber, name: string)
    | PlayedAsMoney(player: PlayerNumber, name: string, value: nat)
    | PlayedPassGo(player: PlayerNumber)
    | PlayedDebtCollector(player: PlayerNumber, payer: PlayerNumber)
    | PlayedRent(player: PlayerNumber, color: string, amount: int)
    | PlayedBirthday(player: PlayerNumber, payer: PlayerNumber)
    | Requested(payee: PlayerNumber, amount: int, payer: PlayerNumber)
    | PartialPayment(payer: PlayerNumber, total: nat, payee: PlayerNumber)
    | Paid(payer: PlayerNumber, total: nat, payee: PlayerNumber)
    | PartialPaymentOfAll(payer: PlayerNumber, total: nat)
    | PaidAll(payer: PlayerNumber, total: nat)
    | NeedsDiscard(player: PlayerNumber, excess: nat)
    | TurnBegins(player: PlayerNumber)
    | Discarded(player: PlayerNumber, kind: CardKind)
    | Wins(player: PlayerNumber, sets: nat)
    | SwitchedWildcard(player: PlayerNumber, from: string, to: string)
    | AssignedWildcard(player: PlayerNumber, color: string)
    | UsedJustSayNo(player: PlayerNumber, against: Option<PlayerNumber>)
    | AcceptedPayment(responder: Option<PlayerNumber>)
    | CancelledByJustSayNo
    | AcceptedAction(responder: Option<PlayerNumber>)

  /** `MAX_HISTORY_ENTRIES`. */
  const MaxEntries := 20

  /**
   * `addToHistory` of the current version: append, then keep the newest
   * twenty entries.
   */
  function Capped(history: seq<Entry>, e: Entry): (r: seq<Entry>)
    ensures |r| == if |history| < MaxEntries then |history| + 1 else MaxEntries
    ensures |r| > 0 && r[|r| - 1] == e
    ensures |history| < MaxEntries ==> r == history + [e]
  {
    var all := history + [e];
    if |all| > MaxEntries then all[|all| - MaxEntries..] else all
  }

  /** What `Capped` keeps is the newest part of the history with the entry added: only the oldest entries go. */
  lemma CappedKeepsNewest(history: seq<Entry>, e: Entry)
    ensures exists k :: 0 <= k <= |history| && history + [e] == history[..k] + Capped(history, e)
  {
    var all := history + [e];
    var r := Capped(history, e);
    if |all| > MaxEntries {
      var k := |all| - MaxEntries;
      assert all[..k] == history[..k];
      assert all == history[..k] + all[k..];
    } else {
      assert all == history[..0] + all;
    }
  }

  /** Once twenty entries are kept, each new entry pushes out exactly the oldest. */
  lemma CappedDropsOldest(history: seq<Entry>, e: Entry)
    requires |history| == MaxEntries
    ensures Capped(history, e) == history[1..] + [e]
  {
  }

  /** A history that never grew past twenty entries never will. */
  lemma {:induction false} CappedStaysBounded(history: seq<Entry>, es: seq<Entry>)
    requires |history| <= MaxEntries
    ensures |AddAll(history, es)| <= MaxEntries
    ensures |es| > 0 ==> AddAll(history, es)[|AddAll(history, es)| - 1] == es[|es| - 1]
    decreases |es|
  {
    if es != [] {
      CappedStaysBounded(history, es[..|es| - 1]);
    }
  }

  /** The current history after adding `es` in order. */
  function AddAll(history: seq<Entry>, es: seq<Entry>): seq<Entry>
    decreases |es|
  {
    if es == [] then history else Capped(AddAll(history, es[..|es| - 1]), es[|es| - 1])
  }
}
