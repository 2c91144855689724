/**
 * The card record shared by both versions of the game, the player numbers,
 * and the pure helpers of the two `cards.js` files that do not depend on
 * the deck's contents: the play-validation check, the money colour table,
 * and lookups by id.
 */
module CardModel {
  import opened Wrappers

  /** Players are numbered 1 and 2. */
  type PlayerNumber = n: int | n == 1 || n == 2 witness 1

  /** The other player: 2 for player 1, 1 for player 2. */
  function Opponent(p: PlayerNumber): (q: PlayerNumber)
    ensures q != p
  {
    if p == 1 then 2 else 1
  }

  /** A card's `type` field: 'money', 'property', 'action', or anything else. */
  datatype CardKind = Money | Property | Action | Unknown

  /**
   * A card object. A field the source leaves undefined or sets to null is the
   * empty string or the empty sequence here; every such field is falsy in
   * the source, and so is its stand-in.
   *   color, secondaryColor  property colours ("" when absent)
   *   colors                 the colours a wildcard or rent card names
   *   wildcard, isFlipped    wildcard flags
   *   imageCode              a wildcard's image file stem
   *   action, rentType       the action an action card performs
   *   originalColors         set on a wildcard when it is played
   *   activeColor            the colour a played wildcard counts as
   */
  datatype Card = Card(
    id: string,
    kind: CardKind,
    value: nat,
    name: string,
    color: string,
    secondaryColor: string,
    colors: seq<string>,
    wildcard: bool,
    isFlipped: bool,
    imageCode: string,
    action: string,
    rentType: string,
    originalColors: seq<string>,
    activeColor: string)

  /** A card with only an id, a type, a value and a name. */
  function PlainCard(id: string, kind: CardKind, value: nat, name: string): (c: Card)
    ensures c.id == id && c.kind == kind && c.value == value && c.name == name
    ensures !c.wildcard && c.colors == [] && c.originalColors == []
  {
    Card(id, kind, value, name, "", "", [], false, false, "", "", "", [], "")
  }

  // The `ActionTypes` string constants.
  const PassGo := "pass-go"
  const DealBreaker := "deal-breaker"
  const JustSayNo := "just-say-no"
  const SlyDeal := "sly-deal"
  const ForcedDeal := "forced-deal"
  const DebtCollector := "debt-collector"
  const Birthday := "birthday"
  const House := "house"
  const Hotel := "hotel"
  const DoubleRent := "double-rent"
  const Rent := "rent"
  const WildRent := "wild-rent"
  const PropertyRent := "property-rent"

  /** The ids of a sequence of cards, in order. */
  function Ids(cards: seq<Card>): (ids: seq<string>)
    ensures |ids| == |cards|
    ensures forall i :: 0 <= i < |cards| ==> ids[i] == cards[i].id
  {
    seq(|cards|, i requires 0 <= i < |cards| => cards[i].id)
  }

  /** How many times each id occurs among `cards`. */
  function Tally(cards: seq<Card>): multiset<string>
  {
    multiset(Ids(cards))
  }

  lemma TallyConcat(a: seq<Card>, b: seq<Card>)
    ensures Tally(a + b) == Tally(a) + Tally(b)
  {
    assert Ids(a + b) == Ids(a) + Ids(b);
  }

  /** Joining card lists regroups freely. */
  lemma ConcatAssoc(a: seq<Card>, b: seq<Card>, c: seq<Card>)
    ensures a + b + c == a + (b + c)
  {
  }

  /** Splicing the card at `i` out of `cards` removes exactly its id. */
  lemma TallyRemove(cards: seq<Card>, i: nat)
    requires i < |cards|
    ensures Tally(cards[..i] + cards[i + 1..]) + multiset{cards[i].id} == Tally(cards)
  {
    assert cards == cards[..i] + [cards[i]] + cards[i + 1..];
    TallyConcat(cards[..i] + [cards[i]], cards[i + 1..]);
    TallyConcat(cards[..i], [cards[i]]);
    TallyConcat(cards[..i], cards[i + 1..]);
  }

  /** Replacing a card by one with the same id keeps the tally. */
  lemma TallyReplace(cards: seq<Card>, i: nat, c: Card)
    requires i < |cards| && c.id == cards[i].id
    ensures Tally(cards[i := c]) == Tally(cards)
  {
    assert Ids(cards[i := c]) == Ids(cards);
  }

  /** All ids of `cards` are different. */
  predicate IdsDistinct(cards: seq<Card>)
  {
    forall i, j :: 0 <= i < j < |cards| ==> cards[i].id != cards[j].id
  }

  /** The `CardValidationResult` codes. */
  datatype Validation =
    | Valid
    | GameNotStarted
    | NotYourTurn
    | CardsNotDrawn
    | MaxCardsPlayed
    | NoValidTarget
    | NoMatchingProperties

  /** At most this many cards may be played in one turn. */
  const MaxCardsPerTurn := 3

  /**
   * `canPlayCard`: a card may be played only in a started game, by the
   * current player, after that player has drawn, and while fewer than three
   * cards have been played this turn; the first check that fails names the
   * refusal. The card itself is not inspected.
   */
  function CanPlayCard(card: Card, gameStarted: bool, currentPlayer: PlayerNumber,
                       hasDrawnCards: bool, cardsPlayedThisTurn: nat, playerIndex: int): (r: Validation)
    ensures r == Valid <==>
      gameStarted && currentPlayer == playerIndex && hasDrawnCards && cardsPlayedThisTurn < MaxCardsPerTurn
    ensures r == GameNotStarted <==> !gameStarted
    ensures r == NotYourTurn <==> gameStarted && currentPlayer != playerIndex
    ensures r == CardsNotDrawn <==> gameStarted && currentPlayer == playerIndex && !hasDrawnCards
    ensures r == MaxCardsPlayed <==>
      gameStarted && currentPlayer == playerIndex && hasDrawnCards && cardsPlayedThisTurn >= MaxCardsPerTurn
  {
    if !gameStarted then GameNotStarted
    else if currentPlayer != playerIndex then NotYourTurn
    else if !hasDrawnCards then CardsNotDrawn
    else if cardsPlayedThisTurn >= MaxCardsPerTurn then MaxCardsPlayed
    else Valid
  }

  const DefaultMoneyColor := "#e0e0e0"

  /** `getMoneyColor`: the background colour of a money card of the given value. */
  function GetMoneyColor(value: int): (color: string)
    ensures value !in {1, 2, 3, 4, 5, 10} ==> color == DefaultMoneyColor
    ensures value in {1, 2, 3, 4, 5, 10} ==> color != DefaultMoneyColor
  {
    match value
    case 1 => "#90caf9"
    case 2 => "#a5d6a7"
    case 3 => "#ffcc80"
    case 4 => "#ce93d8"
    case 5 => "#ef9a9a"
    case 10 => "#fff59d"
    case _ => DefaultMoneyColor
  }

  /** The six denominations get six different colours, none of them the default grey. */
  lemma MoneyColorsDistinct(a: int, b: int)
    requires a in {1, 2, 3, 4, 5, 10} && b in {1, 2, 3, 4, 5, 10}
    ensures GetMoneyColor(a) != DefaultMoneyColor
    ensures a != b ==> GetMoneyColor(a) != GetMoneyColor(b)
  {
  }

  /** The JavaScript `find` by id: the first card with that id, if any. */
  function FindCard(cards: seq<Card>, id: string): (r: Option<Card>)
    ensures r.Some? <==> exists i :: 0 <= i < |cards| && cards[i].id == id
    ensures r.Some? ==> r.value.id == id && r.value in cards
    ensures r.Some? ==> exists i :: 0 <= i < |cards| && cards[i] == r.value &&
                                    forall k :: 0 <= k < i ==> cards[k].id != id
    decreases |cards|
  {
    if cards == [] then None
    else if cards[0].id == id then Some(cards[0])
    else
      var r := FindCard(cards[1..], id);
      assert r.Some? ==> exists i :: 0 <= i < |cards| && cards[i] == r.value &&
                                     forall k :: 0 <= k < i ==> cards[k].id != id by {
        if r.Some? {
          var j :| 0 <= j < |cards[1..]| && cards[1..][j] == r.value &&
                   forall k :: 0 <= k < j ==> cards[1..][k].id != id;
          assert cards[j + 1] == r.value;
          forall k | 0 <= k < j + 1 ensures cards[k].id != id {
            if k > 0 { assert cards[k] == cards[1..][k - 1]; }
          }
        }
      }
      assert (exists i :: 0 <= i < |cards| && cards[i].id == id) ==> r.Some? by {
        if exists i :: 0 <= i < |cards| && cards[i].id == id {
          var i :| 0 <= i < |cards| && cards[i].id == id;
          assert cards[1..][i - 1].id == id;
        }
      }
      r
  }

  /** In a deck whose ids are distinct, finding by id yields the one card carrying it. */
  lemma FindCardUnique(cards: seq<Card>, id: string, c: Card)
    requires IdsDistinct(cards)
    ensures FindCard(cards, id) == Some(c) <==> c in cards && c.id == id
  {
    if c in cards && c.id == id {
      var r := FindCard(cards, id);
      var i :| 0 <= i < |cards| && cards[i] == r.value && forall k :: 0 <= k < i ==> cards[k].id != id;
      var j :| 0 <= j < |cards| && cards[j] == c;
      assert i == j;
    }
  }

  /** The JavaScript `findIndex` by id: the first position holding that id, or -1. */
  function IndexOfId(cards: seq<Card>, id: string): (r: int)
    ensures -1 <= r < |cards|
    ensures r == -1 <==> forall k :: 0 <= k < |cards| ==> cards[k].id != id
    ensures r >= 0 ==> cards[r].id == id && forall k :: 0 <= k < r ==> cards[k].id != id
    decreases |cards|
  {
    if cards == [] then -1
    else if cards[0].id == id then 0
    else
      var r := IndexOfId(cards[1..], id);
      assert forall k :: 1 <= k < |cards| ==> cards[k] == cards[1..][k - 1];
      if r == -1 then -1 else r + 1
  }
}
