/**
 * The deck of the earlier version (`cards.js` at the top of the repository):
 * 20 money cards, 28 properties and 27 action cards, 75 in all, with no
 * wildcards and a single kind of rent card.
 */
module ClassicDeck {
  import opened Wrappers
  import opened CardIds
  import opened CardModel
  import opened DeckParts

  const PropertyTable: seq<PropertyEntry> := [
    PropertyEntry("brown", "Baltic Avenue", 1),
    PropertyEntry("brown", "Mediterranean Avenue", 1),
    PropertyEntry("blue", "Boardwalk", 4),
    PropertyEntry("blue", "Park Place", 4),
    PropertyEntry("green", "Pacific Avenue", 4),
    PropertyEntry("green", "North Carolina Avenue", 4),
    PropertyEntry("green", "Pennsylvania Avenue", 4),
    PropertyEntry("red", "Kentucky Avenue", 3),
    PropertyEntry("red", "Indiana Avenue", 3),
    PropertyEntry("red", "Illinois Avenue", 3),
    PropertyEntry("yellow", "Ventnor Avenue", 3),
    PropertyEntry("yellow", "Marvin Gardens", 3),
    PropertyEntry("yellow", "Atlantic Avenue", 3),
    PropertyEntry("orange", "New York Avenue", 2),
    PropertyEntry("orange", "St. James Place", 2),
    PropertyEntry("orange", "Tennessee Avenue", 2),
    PropertyEntry("pink", "St. Charles Place", 2),
    PropertyEntry("pink", "Virginia Avenue", 2),
    PropertyEntry("pink", "States Avenue", 2),
    PropertyEntry("light-blue", "Connecticut Avenue", 1),
    PropertyEntry("light-blue", "Vermont Avenue", 1),
    PropertyEntry("light-blue", "Oriental Avenue", 1),
    PropertyEntry("utility", "Electric Company", 2),
    PropertyEntry("utility", "Water Works", 2),
    PropertyEntry("railroad", "Reading Railroad", 2),
    PropertyEntry("railroad", "Pennsylvania Railroad", 2),
    PropertyEntry("railroad", "B&O Railroad", 2),
    PropertyEntry("railroad", "Short Line Railroad", 2)
  ]

  const ActionTable: seq<ActionEntry> := [
    ActionEntry("pass-go", "Pass Go", 1, 10),
    ActionEntry("deal-breaker", "Deal Breaker", 5, 2),
    ActionEntry("just-say-no", "Just Say No", 4, 3),
    ActionEntry("sly-deal", "Sly Deal", 3, 3),
    ActionEntry("birthday", "It's My Birthday", 2, 2),
    ActionEntry("debt-collector", "Debt Collector", 3, 3),
    ActionEntry("rent", "Rent", 3, 4)
  ]

  /** The deck `initializeDeck` returns, in push order. */
  function Cards(): seq<Card>
  {
    MoneyCards() + PropertyCards(PropertyTable) + ActionRuns(ActionTable)
  }

  /** `initializeDeck`: six money loops, the properties with their index, then the actions. */
  method InitializeDeck() returns (deck: seq<Card>)
    ensures deck == Cards()
  {
    deck := PushMoney([], 1, 6);
    deck := PushMoney(deck, 2, 5);
    deck := PushMoney(deck, 3, 3);
    deck := PushMoney(deck, 4, 3);
    deck := PushMoney(deck, 5, 2);
    deck := PushMoney(deck, 10, 1);
    deck := PushProperties(deck, PropertyTable);
    deck := PushActions(deck, ActionTable);
  }

  lemma ActionTableSegments()
    ensures forall k :: 0 <= k < |ActionTable| ==> IsSegment(ActionTable[k].action)
  {
    ActionNamesSegments();
  }

  /** The action names of the earlier `actionCards`, none holding an underscore. */
  lemma ActionNamesSegments()
    ensures IsSegment("pass-go") && IsSegment("deal-breaker") && IsSegment("just-say-no") && IsSegment("sly-deal")
    ensures IsSegment("birthday") && IsSegment("debt-collector") && IsSegment("rent")
  {
  }

  lemma ActionNamesDistinct()
    ensures forall k, l :: 0 <= k < l < |ActionTable| ==> ActionTable[k].action != ActionTable[l].action
  {
  }

  lemma ActionTableCount()
    ensures TotalCount(ActionTable) == 27
  {
  }

  lemma ActionCardsFacts()
    ensures |ActionRuns(ActionTable)| == 27
    ensures IdsDistinct(ActionRuns(ActionTable))
    ensures forall x :: x in ActionRuns(ActionTable) ==> ActionShaped(x)
  {
    ActionTableSegments();
    ActionNamesDistinct();
    ActionRunsFacts(ActionTable);
    ActionTableCount();
  }

  lemma PropertyCardsShape()
    ensures |PropertyCards(PropertyTable)| == 28
    ensures IdsDistinct(PropertyCards(PropertyTable))
    ensures forall x :: x in PropertyCards(PropertyTable) ==> PropertyShaped(x)
  {
    PropertyColorsSegments();
    PropertyCardsFacts(PropertyTable);
  }

  lemma PropertyColorsSegments()
    ensures forall e :: e in PropertyTable ==> IsSegment(e.color)
  {
    ColorNamesSegments();
    var colors := {"brown", "light-blue", "pink", "orange", "red", "yellow", "green", "blue", "utility", "railroad"};
    assert forall k :: 0 <= k < |PropertyTable| ==> PropertyTable[k].color in colors;
    assert forall c :: c in colors ==> IsSegment(c);
  }

  /** Money and property ids never clash with action ids. */
  lemma ShapesDisjoint(a: seq<Card>, b: seq<Card>, c: seq<Card>)
    requires IdsDistinct(a) && IdsDistinct(b) && IdsDistinct(c)
    requires forall x :: x in a ==> MoneyShaped(x)
    requires forall x :: x in b ==> PropertyShaped(x)
    requires forall x :: x in c ==> ActionShaped(x)
    ensures IdsDistinct(a + b + c)
  {
    forall x: Card, y: Card | x in a && y in b ensures x.id != y.id {
      SplitDiffers(x, y);
    }
    DistinctConcat(a, b);
    forall x: Card, y: Card | x in a + b && y in c ensures x.id != y.id {
      SplitDiffers(x, y);
    }
    DistinctConcat(a + b, c);
  }

  /**
   * The deck holds 75 cards -- 20 money, 28 properties and 27 actions -- and
   * no two of them share an id.
   */
  lemma DeckFacts()
    ensures |Cards()| == 75
    ensures IdsDistinct(Cards())
  {
    MoneyCardsDistinct();
    PropertyCardsShape();
    ActionCardsFacts();
    ShapesDisjoint(MoneyCards(), PropertyCards(PropertyTable), ActionRuns(ActionTable));
  }

  /** `getCardById`: the deck's card with that id, if there is one. */
  function GetCardById(id: string): (r: Option<Card>)
    ensures r.Some? <==> exists c :: c in Cards() && c.id == id
    ensures r.Some? ==> r.value in Cards() && r.value.id == id
  {
    FindCard(Cards(), id)
  }

  /** Because ids are distinct, a card of the deck is found by its own id and by no other. */
  lemma GetCardByIdFindsCard(id: string, c: Card)
    ensures GetCardById(id) == Some(c) <==> c in Cards() && c.id == id
  {
    DeckFacts();
    FindCardUnique(Cards(), id, c);
  }
}
