# Monopoly Deal game engine, modelled in Dafny

This project models the browser Monopoly Deal game engine in Dafny. The
engine comes in two versions:

- **The current version** (`js/gameState.js` with `js/cards.js`). It has a
  108-card deck with property wildcards and rent cards, Just Say No chains,
  wildcard colour moves, payment selection, the automatic transfer of
  everything a payer owns, and a history capped at twenty entries.
- **The earlier version** (`gameState.js` with `cards.js`). It has a
  75-card deck with no wildcards, always draws two cards, checks for a win
  after every property played, and keeps every history line.

Both games keep one state record, `gameState`. It holds:

- the deck, the discard pile and the last action card;
- two players, each with a hand, a money pile and a map from colour to the
  property cards filed under it;
- the per-turn flags;
- the payment fields.

Each version is modelled as a class, `Engine.Game` or `ClassicEngine.Game`.
The class's fields are that state, and each operation is a method with a
`modifies` clause. Its `ensures` give the whole state the operation leaves
and the invariant `Valid()` it keeps. The pure parts are functions and
lemmas. These are the deck contents, `canPlayCard`, rent and complete sets,
the payment selection, the asset sums, the image paths and the card-id
accounting.

Layout, one module per file:

| file | module | what it holds |
|---|---|---|
| wrappers.dfy | Wrappers | `Option` |
| ids.dfy | CardIds | decimal rendering of counters, ids joined and split at `_` |
| card.dfy | CardModel | the card record, player numbers, `canPlayCard`, `getMoneyColor`, `find`/`findIndex` by id |
| deck_parts.dfy | DeckParts | the money, property and action loops both `initializeDeck`s share |
| deck.dfy | Deck | the current `initializeDeck` and `getCardById` |
| classic_deck.dfy | ClassicDeck | the earlier `initializeDeck` and `getCardById` |
| rules.dfy | Rules | set sizes, `calculateRentForProperties`, `countCompleteSets`, the win rule |
| history.dfy | History | opaque history entries and the twenty-entry cap |
| holdings.dfy | Holdings | player records, colour groups, the asset sums |
| moves.dfy | Moves | one player's record replaced, and the ids each card move keeps |
| turns.dfy | Turns | the turn flags of `endTurn`/`discardCard`, the shuffle, the card-id account |
| selection.dfy | PaymentSelection | `togglePaymentAsset`, `calculateSelectedPaymentTotal` |
| transfer.dfy | Transfer | the transfers of `processSelectedPayment` and `takeAllAvailableAssets` |
| images.dfy | Images | `getCardImagePath` |
| game_records.dfy | GameRecords | the payment and Just Say No records, `showPaymentModal` |
| engine.dfy | Engine | the current `gameState` as a class |
| classic_records.dfy | ClassicRecords | the earlier version's payment record and win check |
| classic_engine.dfy | ClassicEngine | the earlier `gameState` as a class |
| accounts.dfy | Accounts | each operation's card moves keep the ids the game holds |

Cards are tracked by id. `Turns.Held(deck, discardPile, players)` is the
multiset of ids in the deck, the discard pile and both players' holdings.
The lemmas of `Accounts` show that each transition leaves `Held` as it was.
The draws state it in their own contracts; for a Pass Go, `Accounts.DrawAccount`
turns what `Engine.Game.PassedGo` states into it.
From the opening deal on, therefore, each id of the new deck is held exactly
once. The only exception is the discard of an action card as the source
writes it (see "## Findings").

## Model

| member | source | states |
|---|---|---|
| CardModel.Opponent | js/gameState.js:1706 | the other player is never the same player |
| CardModel.PlainCard | js/cards.js:67-77 | a card built from an id, a type, a value and a name carries exactly those and no wildcard fields |
| CardModel.Ids | js/cards.js:277-280 | the ids of a pile, position by position |
| CardModel.TallyRemove | js/gameState.js:1757 | splicing a card out of a pile removes exactly its id from the pile's ids |
| CardModel.TallyReplace | js/gameState.js:313-322 | rewriting the fields of a card that keeps its id keeps the pile's ids |
| CardModel.CanPlayCard | js/cards.js:283-301 | VALID exactly when the game is started, the player is current, cards are drawn and fewer than three were played; each refusal code exactly when its check is the first to fail |
| CardModel.GetMoneyColor | js/cards.js:46-57 | a value outside 1, 2, 3, 4, 5 and 10 takes the default grey of the `default:` branch, and each of those six takes a colour other than the grey; the earlier cards.js:34-45 is the same `switch` |
| CardModel.MoneyColorsDistinct | js/cards.js:46-57 | the six denominations map to six different colours, none of them the default grey |
| CardModel.FindCard | js/cards.js:277-280 | `find` by id: a card exactly when some card has the id, and then the first such card |
| CardModel.FindCardUnique | js/cards.js:277-280 | among cards with distinct ids, `find` returns a card exactly when it is the card carrying that id |
| CardModel.IndexOfId | js/gameState.js:275-280 | `findIndex` by id: -1 exactly when no card has the id, otherwise the first position holding it |
| CardIds.NatStr | js/cards.js:67 | a counter rendered in decimal is non-empty and made of decimal digits only |
| CardIds.ParseNatStr | js/cards.js:67 | the decimal rendering of a counter reads back as that counter |
| CardIds.NatStrInjective | js/cards.js:180 | different counters render as different strings |
| CardIds.Split | js/cards.js:257 | cutting an id at its underscores gives at least one segment; `SplitJoin` shows that cutting a joined id gives its segments back |
| CardIds.SplitJoin | js/cards.js:257 | an id joined from segments without underscores splits back into those segments |
| CardIds.JoinInjective | js/cards.js:67-77 | ids joined from different segment lists are different |
| DeckParts.SumUniform | js/cards.js:65-77 | cards of one value sum to that value times their number |
| DeckParts.DistinctConcat | js/cards.js:62-263 | two sections with distinct ids and no id in common join into a deck with distinct ids |
| DeckParts.SplitDiffers | js/cards.js:62-263 | ids that split into different segment lists are different |
| DeckParts.MoneyRun | js/cards.js:67 | one money loop's cards: `count` money cards of that value, ids `money_<value>_<i>` |
| DeckParts.PushMoney | js/cards.js:67 | the loop appends exactly that denomination's run to the deck |
| DeckParts.MoneyCardShape | js/cards.js:67-77 | a money card's id cuts into `money`, its value and its index, so the card is money-shaped |
| DeckParts.MoneyRunDistinct | js/cards.js:67 | one denomination's cards have distinct ids, each money-shaped with that value |
| DeckParts.MoneyAppend | js/cards.js:67-77 | adding a higher denomination keeps the money ids distinct |
| DeckParts.MoneyCardsDistinct | js/cards.js:67-77 | the money section has 20 cards with distinct, money-shaped ids |
| DeckParts.MoneyCardsValue | js/cards.js:65-77 | the money cards are worth 57 in total |
| DeckParts.PropertyCards | js/cards.js:158-164 | each table entry becomes one property card with its colour, name and value copied, id `property_<color>_<index>` |
| DeckParts.PushProperties | js/cards.js:158-164 | the `forEach` appends exactly those property cards |
| DeckParts.PropertyCardsFacts | js/cards.js:80-164 | for any table whose colours hold no underscore, the property cards have distinct, property-shaped ids and each colour comes from the table |
| DeckParts.ActionRun | js/cards.js:241-250 | one action entry's cards: `count` copies with the entry's fields, ids `action_<action>_<i>` |
| DeckParts.PushActions | js/cards.js:241-250 | the action loop appends every entry's copies in table order |
| DeckParts.ActionRunFacts | js/cards.js:241-250 | for an action name without underscore, an entry's copies have distinct action-shaped ids and carry the entry's action and value |
| DeckParts.ActionRunsFacts | js/cards.js:187-250 | for a table of distinct underscore-free action names, the action section has as many cards as the counts sum to, with distinct action-shaped ids, each naming an action of the table |
| DeckParts.ColorNamesSegments | js/cards.js:80-128 | the ten colours hold no underscore and none is named `wildcard` |
| Deck.FirstOther | js/cards.js:173 | `colors.find(c => c !== topColor)`: the first other colour, or none when every colour is the top colour |
| Deck.WildcardRun | js/cards.js:168-184 | one wildcard entry's copies, numbered on from the running `wildcardIndex` |
| Deck.PushWildcards | js/cards.js:167-184 | the wildcard loop appends every entry's copies with consecutive ids from 0 |
| Deck.PushWildcardRun | js/cards.js:169-183 | the inner loop appends `count` copies and advances the index by `count` |
| Deck.WildcardRunsIds | js/cards.js:180 | the wildcards are numbered `property_wildcard_<k>` consecutively from the start index |
| Deck.WildcardCardsFacts | js/cards.js:170-181 | each wildcard is an unflipped property wildcard whose colour is one of its colours; a two-colour card's secondary colour is its other colour and an any-colour card has none |
| Deck.RentRun | js/cards.js:252-260 | one rent entry's copies, ids `action_<action>_<rentType>_<i>` |
| Deck.PushRents | js/cards.js:252-260 | the rent loop appends every entry's copies in table order |
| Deck.RentRunsFacts | js/cards.js:220-260 | for a table of distinct underscore-free names, the rent section has as many cards as the counts sum to, with distinct rent-shaped ids, each with a rent type of the table |
| Deck.InitializeDeck | js/cards.js:60-263 | the deck is money, then properties, wildcards, actions and rent cards, exactly the cards of `Deck.Cards` |
| Deck.PushMoneySection | js/cards.js:65-77 | the six money loops append exactly the twenty money cards |
| Deck.TenIsOneRun | js/cards.js:77 | the $10M card pushed by hand is the single card its loop would push |
| Deck.ActionCardsFacts | js/cards.js:187-250 | the action section has 36 cards with distinct action-shaped ids |
| Deck.ActionTableCount | js/cards.js:187-250 | the action counts sum to 36, not the 34 the comment says |
| Deck.PropertyCardsShape | js/cards.js:80-164 | 28 property cards with distinct, property-shaped ids, none coloured `wildcard` |
| Deck.WildcardTableCount | js/cards.js:131-184 | the wildcard counts sum to 11 |
| Deck.WildcardCardsDistinct | js/cards.js:167-184 | 11 wildcards with distinct, wildcard-shaped ids |
| Deck.RentTableCount | js/cards.js:220-260 | the rent counts sum to 13 |
| Deck.RentCardsFacts | js/cards.js:220-260 | 13 rent cards with distinct, rent-shaped ids |
| Deck.DeckFacts | js/cards.js:60-263 | the deck holds 108 cards with pairwise distinct ids |
| Deck.ActionSideDistinct | js/cards.js:241-260 | the action and rent sections: 49 cards with distinct ids, all action ids |
| Deck.ShapesDisjoint | js/cards.js:67-260 | money and regular property ids never clash with wildcard ids, and none is an action id |
| Deck.PropertySideDistinct | js/cards.js:67-184 | the money, property and wildcard sections: 59 cards with distinct ids |
| Deck.GetCardById | js/cards.js:277-280 | a card is returned exactly when some card of a fresh deck has the id, and it is a deck card with that id |
| Deck.GetCardByIdFindsCard | js/cards.js:277-280 | `getCardById` on a fresh deck returns a card exactly when it is the deck's card with that id |
| ClassicDeck.InitializeDeck | cards.js:48-123 | the earlier deck: six money loops, the properties with their index, then the actions, exactly the cards of `ClassicDeck.Cards` |
| ClassicDeck.ActionCardsFacts | cards.js:102-120 | the earlier action section has 27 cards with distinct action-shaped ids |
| ClassicDeck.ActionTableCount | cards.js:102-120 | the earlier action counts sum to 27 |
| ClassicDeck.PropertyCardsShape | cards.js:54-117 | 28 property cards with distinct, property-shaped ids |
| ClassicDeck.ShapesDisjoint | cards.js:54-117 | money and property ids never clash with action ids |
| ClassicDeck.DeckFacts | cards.js:48-123 | the earlier deck holds 75 cards with pairwise distinct ids |
| ClassicDeck.GetCardById | cards.js:137-140 | a card is returned exactly when some card of a fresh earlier deck has the id, and it is a deck card with that id |
| ClassicDeck.GetCardByIdFindsCard | cards.js:137-140 | `getCardById` on a fresh deck returns a card exactly when it is the deck's card with that id |
| Rules.RequiredSize | js/gameState.js:1831-1842 | a set size exists exactly for the ten set colours, and lies between 2 and 4 |
| Rules.BaseRent | js/gameState.js:2419-2474 | the base rent of a colour lies between 1 and 4, and is 1 for any colour the table lacks |
| Rules.RentFor | js/gameState.js:2419-2474 | no rent for a missing or empty group; four times the base rent for a complete set; twice for an incomplete group of two or more; the base rent for one card |
| Rules.RentAtMost | js/gameState.js:2419-2474 | rent never exceeds four times the base rent |
| Rules.RentFullIffComplete | js/gameState.js:2419-2474 | the fourfold rent is charged exactly when the group is a complete set |
| Rules.RentMonotone | gameState.js:1826-1881 | one more card of a colour never lowers that colour's rent |
| Rules.CompleteColors | js/gameState.js:1845-1850 | the colours whose group size meets their set size, and only those |
| Rules.CountCompleteSets | js/gameState.js:1825-1853 | the loop counts exactly the complete colours |
| Rules.CountMeeting | gameState.js:1413-1418 | the counting loop over the colour groups, for any table of sizes, counts the groups that meet their size |
| Rules.CompleteSetsAtMostTen | gameState.js:1399-1410 | only the ten set colours can be complete, so no player holds more than ten sets |
| Rules.AddKeepsComplete | gameState.js:265-268 | adding a card to a group never breaks a complete set |
| Rules.WinIsStable | gameState.js:1366-1390 | a player who has won still has won after playing another property |
| History.Capped | js/gameState.js:2378-2390 | the entry is appended and only the newest twenty entries are kept |
| History.CappedKeepsNewest | js/gameState.js:2388-2390 | what is kept is a suffix of the history with the entry added: only the oldest entries go |
| History.CappedDropsOldest | js/gameState.js:2388-2390 | at twenty entries, each new entry pushes out exactly the oldest |
| History.CappedStaysBounded | js/gameState.js:2378-2390 | adding entries one by one to a history of at most twenty keeps at most twenty, and the entry added last is the newest |
| Holdings.RemoveAt | js/gameState.js:299 | `splice(i, 1)`: one element fewer |
| Holdings.RemoveAtCards | js/gameState.js:299 | splicing out one card takes exactly that card out of the pile |
| Holdings.RemoveAtTally | js/gameState.js:299 | splicing out one card takes exactly its id out of the pile's ids |
| Holdings.AddToGroup | js/gameState.js:326-330 | only the colour's group changes, created empty when missing, and it gains the card at its end |
| Holdings.GroupIdsRemove | js/gameState.js:831-836 | the ids of a property map do not depend on which colour the fold takes first |
| Holdings.GroupIdsUpdate | js/gameState.js:1287-1309 | replacing one group changes the map's ids by exactly that group's ids |
| Holdings.GroupIdsPointwise | js/gameState.js:1287-1309 | two property maps hold together the ids of two others whenever that holds colour by colour |
| Holdings.AvailableAtMostAssets | js/gameState.js:3149-3181 | what is available for payment never exceeds what the player owns |
| Holdings.AvailableValueMeansAssets | js/gameState.js:3254-3281 | nothing available means no available value, so a positive available value means there is something to take |
| Holdings.SumMoney | js/gameState.js:826-829 | the money loop adds up exactly the money pile's values |
| Holdings.SumGroup | js/gameState.js:3165-3175 | the loop over one group yields `GroupValue` of the group, which skips any-colour wildcards when asked |
| Holdings.SumGroups | js/gameState.js:831-836 | the loop over the colours adds up every group |
| Holdings.CalculatePlayerAssetValue | js/gameState.js:820-839 | the player's money and property values, all of them |
| Holdings.CalculateAvailableAssets | js/gameState.js:3149-3181 | the player's money and every property except any-colour wildcards |
| Holdings.HasAnyAvailableAssets | js/gameState.js:3254-3281 | true exactly when the player has money, or a property that is not an any-colour wildcard |
| Moves.Set | js/gameState.js:32-35 | only the named player's record changes |
| Moves.SetIds | js/gameState.js:32-35 | replacing one record exchanges that player's ids for the new record's |
| Moves.SetBothIds | js/gameState.js:1240-1241 | replacing both records, as a payment does, holds exactly the two new records' ids |
| Moves.TakeFromHand | js/gameState.js:299 | splicing a card out of the hand loses exactly its id |
| Moves.PutInHand | js/gameState.js:200-203 | pushing a card onto the hand gains exactly its id |
| Moves.HandToMoney | js/gameState.js:299-304 | moving a hand card to the money pile keeps the player's ids |
| Moves.AddToGroupIds | js/gameState.js:326-330 | pushing a card onto a colour group gains exactly its id |
| Moves.HandToGroup | js/gameState.js:299-330 | moving a hand card, annotated, to a colour group keeps the player's ids |
| Moves.BackOfHand | js/gameState.js:299-337 | splicing a card out and pushing it back at the end of the hand keeps the player's ids |
| Moves.Regroup | js/gameState.js:2594-2662 | a card spliced out of one group and pushed, recoloured, onto another keeps the map's ids |
| Moves.RegroupPlayer | js/gameState.js:3100-3138 | the same for a player's properties |
| Moves.TallySwap | js/gameState.js:180-183 | exchanging two cards of the deck keeps its ids |
| Moves.TallyPop | js/gameState.js:200 | `pop()` takes exactly the last card's id out of the pile |
| Moves.TallyPush | js/gameState.js:1758 | `push(c)` adds exactly the id of `c` |
| Moves.TallyDistinct | js/cards.js:60-263 | cards with pairwise different ids hold each id at most once |
| Turns.EndTurnFlags | js/gameState.js:1663-1729 | refused before the game starts, before drawing or while a payment is pending; a hand over seven enters discard mode for the excess and keeps the player; otherwise the other player's turn begins with the per-turn flags cleared |
| Turns.EndTurnNeedsDraw | js/gameState.js:1670-1674 | after a turn ends, the next player cannot end it before drawing |
| Turns.TurnsAlternate | js/gameState.js:1706-1712 | two turns that end without discarding bring the first player back |
| Turns.EndTurnKeepsDiscard | js/gameState.js:1687-1712 | `endTurn` keeps discard mode consistent with a positive count |
| Turns.DiscardingExcessEndsTurn | js/gameState.js:1766-1794 | from discard mode, discarding the excess one card at a time ends the turn: the opponent's turn begins with every flag cleared |
| Turns.EndTurnThenDiscard | js/gameState.js:1687-1794 | a turn ended with too many cards ends once the excess is discarded |
| Turns.DiscardKeepsConsistent | js/gameState.js:1766-1781 | one discard keeps discard mode consistent with the count |
| Turns.Shuffle | js/gameState.js:177-185 | the shuffled deck has the same length and the same cards |
| Turns.DealAccount | js/gameState.js:200-203 | `deck.pop()` onto a hand moves the card and keeps every id the game holds |
| Turns.ReshuffleAccount | js/gameState.js:190-198 | the discard pile becoming the deck, reordered, keeps every id |
| Turns.HandToPileAccount | js/gameState.js:1757-1758 | a hand card spliced out and pushed onto the discard pile only changes place |
| Turns.PlayerAccount | js/gameState.js:32-35 | rearranging one player's cards without gaining or losing any keeps the account |
| Turns.PaymentAccount | js/gameState.js:1256-1309 | a payment that moves cards between the two players keeps the account |
| Turns.DiscardPileAsWritten | js/gameState.js:1757-1763 | the pile as written: the card pushed, and an action card pushed a second time by `placeActionCard` |
| Turns.DiscardAsWrittenDuplicates | js/gameState.js:1757-1763 | a discarded action card is then held twice, so no longer at most once |
| Turns.DiscardPileCorrected | js/gameState.js:1757-1763 | the pile with each discarded card pushed once |
| Turns.DiscardCorrectedOnce | js/gameState.js:1757-1763 | the corrected pile gains exactly the discarded card's id, whatever its type |
| PaymentSelection.Without | js/gameState.js:1416-1431 | the members left are exactly the list's members other than the value, and the list does not grow |
| PaymentSelection.Toggle | js/gameState.js:1416-1456 | an unselected value is appended, a selected one is dropped with every copy |
| PaymentSelection.ToggleKeepsDistinct | js/gameState.js:1416-1456 | toggling never creates a duplicate selection |
| PaymentSelection.ToggleTwiceUnselected | js/gameState.js:1416-1456 | selecting and then deselecting an asset gives back the selection exactly |
| PaymentSelection.ToggleTwiceSelected | js/gameState.js:1416-1456 | deselecting and then reselecting gives back the same assets, with this one last |
| PaymentSelection.ToggleAsset | js/gameState.js:1367-1464 | an asset the payer does not hold leaves the selection alone; any other flips in or out, and no other asset changes |
| PaymentSelection.ToggleAssetTwice | js/gameState.js:1367-1464 | toggling an unselected asset twice restores the selection |
| PaymentSelection.ToggleAssetTotal | js/gameState.js:1559-1582 | selecting a held asset raises the selected total by its value; deselecting lowers it by the same |
| PaymentSelection.SumSelected | js/gameState.js:1559-1582 | the two loops add the value of every selected money index and property that names a card |
| Transfer.SortDesc | js/gameState.js:1256 | the indices sorted in descending order, the same indices |
| Transfer.SortDescStrict | js/gameState.js:1256 | distinct indices sort into a strictly descending order |
| Transfer.Moved | js/gameState.js:1259-1272 | moving cards by index loses no card: the two piles keep their total size (`MovedConserves` keeps their ids) |
| Transfer.MovedConserves | js/gameState.js:1259-1272 | no card is lost or duplicated by the move |
| Transfer.MovedExtends | js/gameState.js:1265 | the destination only grows at its end |
| Transfer.MoveIndices | js/gameState.js:1259-1272 | the loop leaves exactly what `Moved` describes |
| Transfer.Picked | js/gameState.js:1262 | the cards at the given positions, in the given order |
| Transfer.MovedDescending | js/gameState.js:1255-1272 | with distinct descending indices that all name a card, exactly the named cards move, once each and in that order |
| Transfer.GroupByColor | js/gameState.js:1277-1284 | each colour's list holds the selected indices of that colour, in selection order |
| Transfer.IndicesOfComplete | js/gameState.js:1279-1284 | every selected pick is in its colour's list |
| Transfer.IndicesOfDistinct | js/gameState.js:1279-1284 | distinct picks give distinct indices within each colour |
| Transfer.PayProperties | js/gameState.js:1287-1309 | the loop over the colours moves each colour's picks as `PaidFrom`/`PaidTo` describe |
| Transfer.PayColor | js/gameState.js:1288-1308 | the payer's group gives up the cards at the indices; the payee's group receives them and is created only when a card arrives |
| Transfer.PaidPointwise | js/gameState.js:1287-1309 | colour by colour, the two groups of a colour together keep their ids |
| Transfer.PaySelected | js/gameState.js:1252-1309 | the transfer leaves exactly the players `PaidPlayers` describes |
| Transfer.PaidConserves | js/gameState.js:1252-1309 | no card is lost or duplicated between the two players, whatever was selected |
| Transfer.PlayersSum | js/gameState.js:1252-1309 | hands stay put while money and properties move between the players |
| Transfer.PaidMoneyExact | js/gameState.js:1255-1272 | with distinct money indices that all name a card, the payee receives exactly the selected cards, highest index first |
| Transfer.SortedExact | js/gameState.js:1255-1272 | distinct indices that all name a card move exactly those cards once sorted |
| Transfer.PaidPropertiesExact | js/gameState.js:1287-1309 | with distinct picks that all name a card, each payee group gains exactly the picked cards of that colour |
| Transfer.KeepProtected | js/gameState.js:3214-3234 | the payer keeps only any-colour wildcards of a group |
| Transfer.TakeRevUnprotected | js/gameState.js:3214-3234 | the payee receives no any-colour wildcard |
| Transfer.KeepTakeTally | js/gameState.js:3214-3234 | every card of a group is either kept or taken, once |
| Transfer.TakeGroup | js/gameState.js:3214-3234 | the reverse loop over one group skips any-colour wildcards and moves every other card to the payee, last first |
| Transfer.TakeProperties | js/gameState.js:3210-3235 | the loop over the payer's colour groups leaves exactly `TakenFrom`/`TakenTo` |
| Transfer.TakeAllAvailableAssets | js/gameState.js:3184-3246 | all money moves to the payee in order, then every property but the any-colour wildcards |
| Transfer.TakenLeavesNothing | js/gameState.js:3201-3235 | afterwards the payer has nothing available to pay with |
| Transfer.TakenColor | js/gameState.js:3214-3234 | colour by colour, the two groups together keep their ids |
| Transfer.TakenConserves | js/gameState.js:3184-3246 | every card the payer gave up is now the payee's, and no card is lost or duplicated |
| Transfer.TakenFromUnprotected | js/gameState.js:3214-3234 | a group without any-colour wildcards is emptied, every card going to the payee in reverse order |
| Images.ImagePath | js/gameState.js:3326-3472 | the path is `images/cards/` followed by the file stem and `.jpg` |
| Images.ImagePathInjective | js/gameState.js:3326-3472 | different file stems give different paths |
| Images.MoneyStemInjective | js/gameState.js:3326-3472 | different denominations have different money images |
| Images.WildcardStem | js/gameState.js:3326-3472 | a wildcard's stem is its image code, with `_flipped` when flipped; without a code, `propertywildcard` for an any-colour card |
| Images.GetCardImagePath | js/gameState.js:3326-3472 | the image of a card, and none exactly where the source returns null |
| Images.MoneyImagesDistinct | js/gameState.js:3326-3472 | the six denominations are drawn with six different images |
| Images.FlipChangesImage | js/gameState.js:3326-3472 | flipping a wildcard that has an image code changes its image |
| Images.DeckPropertiesHaveImages | js/gameState.js:3326-3472 | every regular property of the current deck has an image |
| Images.DeckActionsHaveImages | js/gameState.js:3326-3472 | every action card of the current deck has an image |
| Images.DeckRentsHaveImages | js/gameState.js:3326-3472 | every rent card of the current deck has an image |
| GameRecords.Blocked | js/gameState.js:2811-2853 | after a Just Say No the chain has one more card and the roles are swapped |
| GameRecords.BlockedFlipsOutcome | js/gameState.js:2872-2881 | each Just Say No reverses whether the action goes through |
| GameRecords.BlockedTwice | js/gameState.js:2811-2853 | a Just Say No answered by another restores the roles and the outcome |
| GameRecords.Opened | js/gameState.js:867-876 | `requestPayment` opens a pending payment response that proceeds, with an empty chain, naming payer, payee, amount and card |
| GameRecords.ShowPaymentSettles | js/gameState.js:904-942 | with available assets not above the amount, everything available goes over, the payment is settled, the payer has nothing available left, the ids are kept and the history says whether it fell short |
| GameRecords.ShowPaymentWaits | js/gameState.js:904-945 | with more available than the amount, only payment mode starts |
| Engine.Annotate | js/gameState.js:309-324 | a multi-colour wildcard remembers its colours and active colour; an any-colour one files under `any` and is protected; every other card is filed as it is, and the id never changes |
| Engine.AnnotateFlippable | js/gameState.js:309-324 | a played multi-colour wildcard can be flipped and an any-colour one cannot |
| Engine.EndTurnHistory | js/gameState.js:1663-1729 | a history of at most twenty entries stays at most twenty, with the turn's line appended through `Capped` |
| Engine.DiscardHistory | js/gameState.js:1732-1795 | a history of at most twenty entries stays at most twenty, with the discard line, and `endTurn`'s line when the turn ends, appended through `Capped` |
| Engine.OtherColor | js/gameState.js:2612-2614 | the first colour other than the current one, exactly when there is one |
| Engine.IndexOfColor | js/gameState.js:2627 | `indexOf`: -1 exactly when the colour is absent, otherwise its first position |
| Engine.NextColor | js/gameState.js:2609-2630 | two colours: the one that is not the current colour, when there is one; more: always a colour, one of the card's colours |
| Engine.FlipCard | js/gameState.js:2609-2644 | the wildcard counts as and shows the next colour; a two-colour card turns over and keeps the colour it left as its secondary colour |
| Engine.FlipTwice | js/gameState.js:2594-2662 | flipping a two-colour wildcard there and back restores the card |
| Engine.FlipRotates | js/gameState.js:2626-2629 | a wildcard of three or more distinct colours steps to the colour after its active one |
| Engine.Recolor | js/gameState.js:3100-3138 | the wildcard counts as and shows the chosen colour and nothing else about it changes |
| Engine.JustSayNoIndex | js/gameState.js:2819-2822 | the first Just Say No of the hand, -1 exactly when there is none |
| Engine.NewGame | js/gameState.js:8-40 | a fresh state keeping the invariant, its new deck the current deck |
| Engine.Game.constructor | js/gameState.js:8-40 | the initial `gameState`: not started, player 1, nothing drawn, no payment, empty piles and history |
| Engine.Game.StartGame | js/gameState.js:81-174 | the game starts with the first turn's flags, no payment, the history saying so, each player holding five cards and the deck and hands holding exactly the new deck's cards |
| Engine.Game.DealNewGame | js/gameState.js:125-139 | the new deck, shuffled, then the opening deal |
| Engine.Game.DealOpeningHands | js/gameState.js:136-139 | five rounds of one card to each player: five cards each, the rest left in the deck, no card lost |
| Engine.Game.ShuffleDeck | js/gameState.js:177-185 | the deck is reordered and holds the same cards |
| Engine.Game.DealCard | js/gameState.js:188-206 | no card and no change with both piles empty; with an empty deck the discard pile is reshuffled into it and emptied; the deck's last card goes to the end of the hand; the card count is kept; the deck, the discard pile and the hand hold the same cards between them as before |
| Engine.Game.DealCards | js/gameState.js:237-240 | the hand grows by the count, or by as many cards as the deck and discard pile hold, and every card it gains comes from them; `Held` is unchanged and nothing else of the players changes |
| Engine.Game.DrawCardsForTurn | js/gameState.js:209-262 | refused exactly when not started, already drawn or a payment is pending, changing nothing; otherwise five cards with an empty hand and two otherwise, all from the deck or discard pile with `Held` unchanged, then `hasDrawnCards` |
| Engine.Game.PlayCard | js/gameState.js:265-351 | refused without change when a payment is pending, the card is not in the hand or `canPlayCard` refuses; an action card changes nothing; money goes to the money pile, a property onto its group, each counting one card played; any other type returns to the back of the hand uncounted |
| Engine.Game.PlayMoney | js/gameState.js:299-307 | the hand card moves to the money pile and counts as played |
| Engine.Game.PlayProperty | js/gameState.js:299-333 | the hand card, annotated, moves to its colour group and counts as played |
| Engine.Game.PlaceActionCard | js/gameState.js:2488-2495 | the card becomes the last action card and is pushed onto the discard pile |
| Engine.Game.DiscardFromHand | js/gameState.js:2488-2495 | the hand card is spliced out and placed on the action pile; the deck, the pile and the hand hold the same cards between them as before |
| Engine.Game.PlayActionCardAsMoney | js/gameState.js:678-701 | the action card moves from the hand to the money pile and counts as played |
| Engine.Game.PlayPassGoCard | js/gameState.js:704-731 | the card goes to the action pile, the player draws two cards, or as many as remain, from the deck or discard pile, only that hand changes, and a card counts as played; `Accounts.DrawAccount` turns this into `Held` unchanged |
| Engine.Game.DiscardAndDraw | js/gameState.js:704-731 | the card moves of a Pass Go: the card is the last action card, the hand without it gains up to two cards, the deck, the pile and the hand hold the same cards between them as before, and no other holding changes |
| Engine.Game.RequestPayment | js/gameState.js:842-892 | refused before the game starts; otherwise the request is recorded and pending, not yet in payment mode, with an empty selection and a response for the payer to give |
| Engine.Game.PlayChargeCard | js/gameState.js:734-760 | the card goes to the action pile, the opponent is asked for the amount, and a card counts as played |
| Engine.Game.PlayDebtCollectorCard | js/gameState.js:734-760 | the opponent owes 5M |
| Engine.Game.PlayRentCard | js/gameState.js:763-788 | the opponent owes the rent chosen |
| Engine.Game.PlayBirthdayCard | js/gameState.js:791-817 | the opponent owes 2M |
| Engine.Game.ShowPaymentModal | js/gameState.js:895-1013 | the players, payment and history become what `ShowPayment` gives |
| Engine.Game.TogglePaymentAsset | js/gameState.js:1367-1464 | with a request, the payer's asset flips in or out of the selection; without one nothing changes |
| Engine.Game.CalculateSelectedPaymentTotal | js/gameState.js:1559-1582 | 0 without a request, else the value of the payer's selected assets |
| Engine.Game.MoveSelected | js/gameState.js:1252-1309 | the selected cards move from payer to payee as `PaidPlayers` describes |
| Engine.Game.ProcessSelectedPayment | js/gameState.js:1231-1364 | the selected cards move, short or not; the payment is settled, the selection empty, and the history says whether it was paid in full |
| Engine.Game.EndTurn | js/gameState.js:1663-1729 | the flags become `EndTurnFlags`: refused while not allowed, discard mode for a hand over seven, otherwise the opponent's turn |
| Engine.Game.AskDiscard | js/gameState.js:1687-1701 | discard mode, with the excess over seven to discard |
| Engine.Game.PassTurn | js/gameState.js:1705-1726 | the opponent's turn begins with the per-turn flags cleared |
| Engine.Game.DiscardCard | js/gameState.js:1732-1795 | only in discard mode, by the current player, for a card in the hand: it leaves the hand for the discard pile once, one fewer is owed, and at none discard mode ends and the turn ends |
| Engine.Game.DiscardOne | js/gameState.js:1757-1777 | the card is discarded and more cards are still owed |
| Engine.Game.DiscardLast | js/gameState.js:1757-1794 | the last card owed is discarded, discard mode ends and the turn is ended |
| Engine.Game.DiscardAt | js/gameState.js:1757-1781 | the card at the index goes onto the pile, one fewer is owed, and discard mode is off once none is |
| Engine.Game.FlipWildcardProperty | js/gameState.js:2594-2662 | the wildcard leaves its group for its next colour's group, created when missing; a missing group or card is refused without change |
| Engine.Game.ChangeWildcardColor | js/gameState.js:3100-3138 | the wildcard moves to the chosen colour's group, created when missing, and counts as that colour |
| Engine.Game.PlayerHasJustSayNo | js/gameState.js:2800-2808 | true exactly when `findIndex` finds a Just Say No in the player's hand; both players always exist, so the missing-player guard never fires |
| Engine.Game.UseJustSayNo | js/gameState.js:2811-2853 | refused without change when there is no responder or no Just Say No; otherwise the first one goes to the discard pile, the chain grows by one and the roles swap |
| Engine.Game.AcceptAction | js/gameState.js:2856-2904 | the response is no longer pending; an odd chain cancels a payment and an even one shows the payment dialog |
| Engine.Game.AcceptPayment | js/gameState.js:2869-2881 | a payment blocked by an odd chain is cancelled, otherwise it is shown |
| Engine.Game.CancelBlocked | js/gameState.js:2873-2877 | the payment is cancelled and the history says it was blocked |
| Engine.Game.CancelPayment | js/gameState.js:2907-2933 | no request, nothing pending, an empty selection and no response; payment mode stays |
| ClassicRecords.ClassicEndTurnHistory | gameState.js:1240-1303 | nothing when refused, else the discard demand or the new turn's line appended, every earlier line kept |
| ClassicRecords.ClassicDiscardHistory | gameState.js:1306-1363 | the discard line appended after every earlier line |
| ClassicRecords.WinFlags | gameState.js:1366-1390 | the game stops exactly when the player has three or more complete sets; no other flag changes |
| ClassicRecords.WinHistory | gameState.js:1366-1390 | a win adds exactly one line naming the player and the number of sets |
| ClassicRecords.WonGameRefusesPlay | gameState.js:1366-1390 | after a win `canPlayCard` refuses every card as the game not started |
| ClassicRecords.WonGameCannotEndTurn | gameState.js:1366-1390 | after a win no turn can end |
| ClassicEngine.NewGame | gameState.js:8-30 | a fresh state keeping the invariant, its new deck the earlier deck |
| ClassicEngine.Game.constructor | gameState.js:8-30 | the initial earlier `gameState`: not started, player 1, no payment, empty piles and history |
| ClassicEngine.Game.StartGame | gameState.js:70-141 | the game starts with the first turn's flags, each player holding five cards and the deck and hands holding the new deck's cards |
| ClassicEngine.Game.DealOpeningHands | gameState.js:115-118 | five rounds of one card to each player: five cards each, no card lost |
| ClassicEngine.Game.ShuffleDeck | gameState.js:144-152 | the deck is reordered and holds the same cards |
| ClassicEngine.Game.DealCard | gameState.js:155-173 | no card and no change with both piles empty; with an empty deck the discard pile is reshuffled into it; the deck's last card goes to the end of the hand; the deck, the discard pile and the hand hold the same cards between them as before |
| ClassicEngine.Game.DrawCardsForTurn | gameState.js:176-216 | refused exactly when not started, already drawn or a payment is pending; otherwise always two cards, or as many as remain, all from the deck or discard pile with `Held` unchanged, then `hasDrawnCards` |
| ClassicEngine.Game.DealCards | gameState.js:197-200 | the hand grows by the count, or by as many cards as remain, and every card it gains comes from the deck or discard pile; `Held` is unchanged and nothing else of the players changes |
| ClassicEngine.Game.PlayCard | gameState.js:219-291 | refused without change when a payment is pending, the card is absent or `canPlayCard` refuses; money goes to the money pile, a property onto its group followed by the win check, each counted; an action card changes nothing; any other type returns to the back of the hand |
| ClassicEngine.Game.PlayMoney | gameState.js:253-261 | the hand card moves to the money pile and counts as played |
| ClassicEngine.Game.PlayProperty | gameState.js:253-283 | the card moves unchanged to its colour group, the win check runs on the new groups, and it counts as played |
| ClassicEngine.Game.CheckWinCondition | gameState.js:1366-1390 | true exactly when the player has three or more complete sets; then the game stops and the win is recorded |
| ClassicEngine.Game.PlaceActionCard | gameState.js:1895-1902 | the card becomes the last action card and is pushed onto the discard pile |
| ClassicEngine.Game.AddToHistory | gameState.js:1808-1823 | the line is appended and every earlier line kept |
| ClassicEngine.Game.RequestPayment | gameState.js:642-678 | the request is recorded, pending, in payment mode, with an empty selection |
| ClassicEngine.Game.TogglePaymentAsset | gameState.js:976-1084 | with a request, the payer's asset flips in or out of the selection |
| ClassicEngine.Game.CalculateSelectedPaymentTotal | gameState.js:1136-1159 | 0 without a request, else the value of the payer's selected assets |
| ClassicEngine.Game.MoveSelected | gameState.js:889-942 | the selected cards move from payer to payee as `PaidPlayers` describes |
| ClassicEngine.Game.ProcessSelectedPayment | gameState.js:855-973 | the history says whether the selection pays in full, then the selected cards move, short or not, and every payment field is reset |
| ClassicEngine.Game.EndTurn | gameState.js:1240-1303 | the flags become `EndTurnFlags`: refused while not allowed, discard mode for a hand over seven, otherwise the opponent's turn |
| ClassicEngine.Game.AskDiscard | gameState.js:1264-1278 | discard mode, with the excess over seven to discard |
| ClassicEngine.Game.PassTurn | gameState.js:1283-1300 | the opponent's turn begins with the per-turn flags cleared |
| ClassicEngine.Game.DiscardCard | gameState.js:1306-1363 | only in discard mode, by the current player, for a card in the hand: it goes to the discard pile once, one fewer is owed, and at none discard mode ends and the turn ends |
| ClassicEngine.Game.DiscardOne | gameState.js:1331-1351 | the card is discarded and more cards are still owed |
| ClassicEngine.Game.DiscardLast | gameState.js:1331-1361 | the last card owed is discarded, discard mode ends and the turn is ended |
| ClassicEngine.Game.DiscardAt | gameState.js:1331-1355 | the card goes onto the pile, one fewer is owed, and discard mode is off once none is |
| Accounts.SameCardsSameIds | js/gameState.js:177-185 | two piles with the same cards in any order hold the same ids |
| Accounts.ShuffleAccount | js/gameState.js:177-185 | `shuffleDeck` keeps every id the game holds |
| Accounts.DealReshuffledAccount | js/gameState.js:190-203 | dealing from a reshuffled discard pile keeps every id the game holds |
| Accounts.DrawAccount | js/gameState.js:209-262 | when the deck, the discard pile and one hand hold the same cards between them as before, `Held` is unchanged |
| Engine.PassGoCards | js/gameState.js:704-731 | the discard of a Pass Go followed by its draw leaves the hand without the card as a prefix of the new hand, two cards longer or as long as the piles allow, and the deck, pile and hand hold the same cards between them as before |
| Accounts.PlayMoneyAccount | js/gameState.js:299-304 | a card played as money keeps every id the game holds |
| Accounts.PlayPropertyAccount | js/gameState.js:299-330 | a property played, annotated or not, keeps every id the game holds |
| Accounts.UnknownCardAccount | js/gameState.js:335-338 | a card of unknown type sent back to the hand keeps every id the game holds |
| Accounts.RegroupAccount | js/gameState.js:2594-2662 | a wildcard flipped or recoloured between groups keeps every id the game holds |
| Accounts.PaymentTransferAccount | js/gameState.js:1252-1309 | the payment transfer keeps every id the game holds, whatever was selected |
| Accounts.TakeAllAccount | js/gameState.js:3184-3246 | the automatic transfer keeps every id the game holds |
| Accounts.OpeningAccount | js/gameState.js:125-139 | after the opening deal the game holds exactly the new deck's ids, each at most once when they are distinct |

## Left out

- User interface. The DOM, modals, buttons, status messages, notifications, the perspective switches and `console` output are not modelled: modals, `update*UI`, `populatePaymentSelectionContainers`, `updatePaymentStatusIndicators`, `showTemporaryMessage`, `updateButtonStates`, `showActionResponseOptions`, `showActionCardModal`, `showColorSelectionModal`, `showPaymentNotification`, `updateActionsLeftCounter`, `canPlayerInteract` and `updateGameStatus`. This also covers the history line the earlier `requestPayment` adds when the view changes player, since it depends on the view.
- Messages: history lines are opaque entries that name only the player and the numbers the message shows. Message text and the payment `reason` are not modelled.
- `Math.random`: `shuffleDeck` is Fisher-Yates, with each swap position an arbitrary choice. Its contract says only that the deck is reordered.
- `setTimeout`: the delayed `endTurn` after the last discard in the earlier version runs at once.
- Floating point: the progress percentage and the 1.5x overpay warning only change messages.
- `setupElements`: its failure path in `startGame` counts on missing page elements and is not modelled. `startGame` always succeeds.
- `initializeDeck`'s `catch` fallback deck: nothing in the building code throws, so that branch is unreachable.
- `initializeDeck` takes no input and returns the same cards each time. Each class builds them once into `newDeck`, which `startGame` copies.
- `processPayment`: it only shows a message and changes no state.
- Action-card plays of the earlier version (`playActionCardAsMoney`, `playPassGoCard`, `playDebtCollectorCard`, `playRentCard` and `playBirthdayCard`, gameState.js:471-617) are not modelled; only `Engine` models these plays. They differ from the current ones. The three charging plays call the earlier `requestPayment` (gameState.js:642-678), and that `requestPayment` differs from the current one (js/gameState.js:842-892) in three ways:
  - it has no `gameStarted` guard;
  - it turns payment mode on at once and shows the payment dialog;
  - it opens no action response, so the payer cannot answer with Just Say No.
  Each charging play also adds a second history line of its own (gameState.js:546, 577, 608). The earlier `requestPayment` on its own is `ClassicEngine.Game.RequestPayment`.
- `checkWinCondition` of the current version: nothing in `js/gameState.js` calls it. Its rule is `Rules.HasWon`, which `ClassicEngine` uses.
- Grouping of `gameState`'s fields: the per-turn flags and the payment fields are held as two records, `turn` and `pay`. Every field is kept, but an operation replaces a record as a whole.
- Engine.Game.RequestPayment, ClassicEngine.Game.RequestPayment: these require two different players. Every caller passes the opponent, and `takeAllAvailableAssets` would loop forever on one player as both payer and payee.
- Transfer.TakeAllAvailableAssets: it works on two player values, so the aliasing of one player passed twice is not modelled.
- Engine.Game.Valid: the invariant does not include a selection without repeats. `togglePaymentAsset` keeps one (PaymentSelection.ToggleKeepsDistinct), but `processSelectedPayment` is proved for any selection.
- Engine.Game.FlipWildcardProperty: when the current colour has no group, the source reads an index of `undefined` and throws a TypeError (js/gameState.js:2601). The model refuses and changes nothing. An index that names no card is refused by the source itself (js/gameState.js:2604-2607), as in the model.
- Engine.Game.ChangeWildcardColor: when the current colour has no group, the source reads an index of `undefined` and throws a TypeError (js/gameState.js:3107). The model refuses and changes nothing. An index that names no card is refused by the source itself (js/gameState.js:3110-3113), as in the model.
- Engine.Game.UseJustSayNo: without a responder the source throws. The model refuses and changes nothing.
- JavaScript `undefined` and `null` fields are the empty string, the empty sequence or `None`. Truthiness matches them, except that a card object is always truthy.
- gameLoader.js, scripts.js, js/scripts.js, ui.js, download_cards.py and scripts/flip_wildcards.py are not part of this model.

## Findings

| source | as written | input that shows it | evidently intended | confidence | as-written member | corrected member |
|---|---|---|---|---|---|---|
| js/gameState.js:1757-1763 | `discardCard` pushes the discarded card onto the discard pile, then calls `placeActionCard` for an action card, which pushes it again (js/gameState.js:2495) | discarding any action card in discard mode, e.g. `action_pass-go_0`: the pile gains that card twice, so a later reshuffle deals it twice | each discarded card lands on the discard pile once | high, not executed | Turns.DiscardAsWrittenDuplicates | Turns.DiscardCorrectedOnce |
| gameState.js:1331-1337 | the same double push in the earlier `discardCard`, through `placeActionCard` (gameState.js:1902) | discarding any action card in discard mode | each discarded card lands on the discard pile once | high, not executed | Turns.DiscardAsWrittenDuplicates | Turns.DiscardCorrectedOnce |

`Engine.Game.DiscardCard` and `ClassicEngine.Game.DiscardCard` use the
corrected pile.
