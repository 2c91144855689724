/**
 * The deck of the current version (`js/cards.js`, `initializeDeck`): 20 money
 * cards, 28 properties, 11 property wildcards, 36 action cards and 13 rent
 * cards, 108 in all, each with its own id.
 */
module Deck {
  import opened Wrappers
  import opened CardIds
  import opened CardModel
  import opened DeckParts

  const PropertyTable: seq<PropertyEntry> := [
    PropertyEntry("brown", "Baltic Avenue", 1),
    PropertyEntry("brown", "Mediterranean Avenue", 1),
    PropertyEntry("light-blue", "Connecticut Avenue", 1),
    PropertyEntry("light-blue", "Vermont Avenue", 1),
    PropertyEntry("light-blue", "Oriental Avenue", 1),
    PropertyEntry("pink", "St. Charles Place", 2),
    PropertyEntry("pink", "Virginia Avenue", 2),
    PropertyEntry("pink", "States Avenue", 2),
    PropertyEntry("orange", "New York Avenue", 2),
    PropertyEntry("orange", "St. James Place", 2),
    PropertyEntry("orange", "Tennessee Avenue", 2),
    PropertyEntry("red", "Kentucky Avenue", 3),
    PropertyEntry("red", "Indiana Avenue", 3),
    PropertyEntry("red", "Illinois Avenue", 3),
    PropertyEntry("yellow", "Ventnor Avenue", 3),
    PropertyEntry("yellow", "Marvin Gardens", 3),
    PropertyEntry("yellow", "Atlantic Avenue", 3),
    PropertyEntry("green", "Pacific Avenue", 4),
    PropertyEntry("green", "North Carolina Avenue", 4),
    PropertyEntry("green", "Pennsylvania Avenue", 4),
    PropertyEntry("blue", "Boardwalk", 4),
    PropertyEntry("blue", "Park Place", 4),
    PropertyEntry("utility", "Electric Company", 2),
    PropertyEntry("utility", "Water Works", 2),
    PropertyEntry("railroad", "Reading Railroad", 2),
    PropertyEntry("railroad", "Pennsylvania Railroad", 2),
    PropertyEntry("railroad", "B. & O. Railroad", 2),
    PropertyEntry("railroad", "Short Line", 2)
  ]

  /** The ten colours of the regular properties. */
  const StandardColors: set<string> :=
    {"brown", "light-blue", "pink", "orange", "red", "yellow", "green", "blue", "utility", "railroad"}

  /** An entry of `propertyWildcards`; `topColor` is "" where the entry has none. */
  datatype WildcardEntry = WildcardEntry(colors: seq<string>, name: string, value: nat, count: nat,
                                         imageCode: string, topColor: string)

  const WildcardTable: seq<WildcardEntry> := [
    WildcardEntry(["orange", "pink"], "Orange & Pink Wildcard", 2, 2, "wildop", "orange"),
    WildcardEntry(["light-blue", "brown"], "Light Blue & Brown Wildcard", 1, 1, "wildlbbr", "light-blue"),
    WildcardEntry(["light-blue", "railroad"], "Light Blue & Railroad Wildcard", 2, 1, "wildlbt", "light-blue"),
    WildcardEntry(["blue", "green"], "Blue & Green Wildcard", 4, 1, "wildbg", "blue"),
    WildcardEntry(["railroad", "green"], "Railroad & Green Wildcard", 4, 1, "wildgt", "green"),
    WildcardEntry(["red", "yellow"], "Red & Yellow Wildcard", 3, 2, "wildry", "red"),
    WildcardEntry(["utility", "railroad"], "Utility & Railroad Wildcard", 4, 1, "wildut", "utility"),
    WildcardEntry(["any"], "Property Wildcard (Any Color)", 0, 2, "propertywildcard", "")
  ]

  const ActionTable: seq<ActionEntry> := [
    ActionEntry("pass-go", "Pass Go", 1, 10),
    ActionEntry("deal-breaker", "Deal Breaker", 5, 2),
    ActionEntry("just-say-no", "Just Say No", 4, 3),
    ActionEntry("sly-deal", "Sly Deal", 3, 3),
    ActionEntry("forced-deal", "Force Deal", 3, 4),
    ActionEntry("debt-collector", "Debt Collector", 3, 3),
    ActionEntry("birthday", "It's My Birthday", 2, 3),
    ActionEntry("house", "House", 3, 3),
    ActionEntry("hotel", "Hotel", 4, 3),
    ActionEntry("double-rent", "Double The Rent", 1, 2)
  ]

  /** An entry of `rentCards`. */
  datatype RentEntry = RentEntry(action: string, rentType: string, name: string, value: nat, count: nat,
                                 colors: seq<string>)

  const RentTable: seq<RentEntry> := [
    RentEntry("property-rent", "purple-orange", "Rent: Pink & Orange", 1, 2, ["pink", "orange"]),
    RentEntry("property-rent", "railroad-utility", "Rent: Railroad & Utility", 1, 2, ["railroad", "utility"]),
    RentEntry("property-rent", "green-blue", "Rent: Green & Blue", 1, 2, ["green", "blue"]),
    RentEntry("property-rent", "brown-light-blue", "Rent: Brown & Light Blue", 1, 2, ["brown", "light-blue"]),
    RentEntry("property-rent", "red-yellow", "Rent: Red & Yellow", 1, 2, ["red", "yellow"]),
    RentEntry("wild-rent", "wild", "Wild Rent", 3, 3, ["any"])
  ]

  // ----- wildcards -----

  /** The first colour of the list other than `color`, or "" when every colour equals `color`. */
  function FirstOther(colors: seq<string>, color: string): (r: string)
    ensures (exists c :: c in colors && c != color) ==> r in colors && r != color
    ensures (forall c :: c in colors ==> c == color) ==> r == ""
    decreases |colors|
  {
    if colors == [] then ""
    else if colors[0] != color then colors[0]
    else
      assert forall c :: c in colors && c != color ==> c in colors[1..];
      FirstOther(colors[1..], color)
  }

  /** The wildcard pushed `k`-th: its colour is the top colour, or the first one when it has none. */
  function WildcardCard(e: WildcardEntry, k: nat): Card
  {
    var color := if e.topColor != "" then e.topColor else if e.colors != [] then e.colors[0] else "";
    var secondary :=
      if |e.colors| > 1 then (if e.topColor != "" then FirstOther(e.colors, e.topColor) else e.colors[1])
      else "";
    Card(Join(["property", "wildcard", NatStr(k)]), Property, e.value, e.name, color, secondary,
         e.colors, true, false, e.imageCode, "", "", [], "")
  }

  /** The copies of one entry, numbered on from `start`. */
  function WildcardRun(e: WildcardEntry, start: nat): (run: seq<Card>)
    ensures |run| == e.count
    ensures forall i :: 0 <= i < e.count ==> run[i] == WildcardCard(e, start + i)
  {
    seq(e.count, i requires 0 <= i < e.count => WildcardCard(e, start + i))
  }

  function WildcardRuns(table: seq<WildcardEntry>, start: nat): seq<Card>
    decreases |table|
  {
    if table == [] then []
    else WildcardRun(table[0], start) + WildcardRuns(table[1..], start + table[0].count)
  }

  function WildcardCount(table: seq<WildcardEntry>): nat
    decreases |table|
  {
    if table == [] then 0 else table[0].count + WildcardCount(table[1..])
  }

  /** The running `wildcardIndex` loop over `propertyWildcards`. */
  method PushWildcards(deck: seq<Card>, table: seq<WildcardEntry>) returns (r: seq<Card>)
    ensures r == deck + WildcardRuns(table, 0)
  {
    r := deck;
    var wildcardIndex: nat := 0;
    for k := 0 to |table|
      invariant r + WildcardRuns(table[k..], wildcardIndex) == deck + WildcardRuns(table, 0)
    {
      WildcardRunsStep(table, k, wildcardIndex);
      ghost var before := r;
      r, wildcardIndex := PushWildcardRun(r, table[k], wildcardIndex);
      ConcatAssoc(before, WildcardRun(table[k], wildcardIndex - table[k].count),
                  WildcardRuns(table[k + 1..], wildcardIndex));
    }
  }

  /** The inner loop: `count` copies of one entry, each taking the next `wildcardIndex`. */
  method PushWildcardRun(deck: seq<Card>, e: WildcardEntry, start: nat) returns (r: seq<Card>, next: nat)
    ensures r == deck + WildcardRun(e, start)
    ensures next == start + e.count
  {
    r, next := deck, start;
    for i := 0 to e.count
      invariant r == deck + WildcardRun(e, start)[..i]
      invariant next == start + i
    {
      assert WildcardRun(e, start)[..i + 1] == WildcardRun(e, start)[..i] + [WildcardCard(e, next)];
      r := r + [WildcardCard(e, next)];
      next := next + 1;
    }
    assert WildcardRun(e, start)[..e.count] == WildcardRun(e, start);
  }

  lemma WildcardRunsStep(table: seq<WildcardEntry>, k: nat, start: nat)
    requires k < |table|
    ensures WildcardRuns(table[k..], start) ==
            WildcardRun(table[k], start) + WildcardRuns(table[k + 1..], start + table[k].count)
  {
    assert table[k..][1..] == table[k + 1..];
  }

  function WildcardId(k: nat): string
  {
    Join(["property", "wildcard", NatStr(k)])
  }

  /** The wildcards are numbered consecutively from `start`. */
  lemma {:induction false} WildcardRunsIds(table: seq<WildcardEntry>, start: nat)
    ensures |WildcardRuns(table, start)| == WildcardCount(table)
    ensures forall i :: 0 <= i < |WildcardRuns(table, start)| ==>
              WildcardRuns(table, start)[i].id == WildcardId(start + i)
    decreases |table|
  {
    if table != [] {
      var run: seq<Card>, rest: seq<Card> := WildcardRun(table[0], start), WildcardRuns(table[1..], start + table[0].count);
      WildcardRunsIds(table[1..], start + table[0].count);
      forall i | 0 <= i < |run + rest| ensures (run + rest)[i].id == WildcardId(start + i) {
        if i >= |run| {
          assert (run + rest)[i] == rest[i - |run|];
        }
      }
    }
  }

  predicate WildcardShaped(x: Card)
  {
    |Split(x.id)| == 3 && Split(x.id)[0] == "property" && Split(x.id)[1] == "wildcard"
  }

  lemma WildcardIdSplit(k: nat)
    ensures Split(WildcardId(k)) == ["property", "wildcard", NatStr(k)]
  {
    NatStrIsSegment(k);
    SplitJoin(["property", "wildcard", NatStr(k)]);
  }

  lemma WildcardTableCount()
    ensures WildcardCount(WildcardTable) == 11
  {
  }

  lemma WildcardRunsDistinct(table: seq<WildcardEntry>, start: nat)
    ensures IdsDistinct(WildcardRuns(table, start))
    ensures forall x :: x in WildcardRuns(table, start) ==> WildcardShaped(x)
  {
    var w := WildcardRuns(table, start);
    WildcardRunsIds(table, start);
    forall i, j | 0 <= i < j < |w| ensures w[i].id != w[j].id {
      WildcardIdSplit(start + i);
      WildcardIdSplit(start + j);
      NatStrInjective(start + i, start + j);
    }
    forall x | x in w ensures WildcardShaped(x) {
      var i :| 0 <= i < |w| && w[i] == x;
      WildcardIdSplit(start + i);
    }
  }

  lemma WildcardCardsDistinct()
    ensures |WildcardRuns(WildcardTable, 0)| == 11
    ensures IdsDistinct(WildcardRuns(WildcardTable, 0))
    ensures forall x :: x in WildcardRuns(WildcardTable, 0) ==> WildcardShaped(x)
  {
    WildcardRunsDistinct(WildcardTable, 0);
    WildcardRunsIds(WildcardTable, 0);
    WildcardTableCount();
  }

  /** A table entry whose cards come out as the source intends. */
  predicate WildcardEntryOk(e: WildcardEntry)
  {
    e.colors != [] && |e.colors| <= 2 &&
    (e.topColor == "" || e.topColor in e.colors) &&
    (|e.colors| == 2 ==> e.colors[0] != e.colors[1] && e.colors[0] != "" && e.colors[1] != "")
  }

  /**
   * Every wildcard is an unflipped property wildcard whose colour is one of
   * its colours; a two-colour wildcard's secondary colour is its other
   * colour, and a one-colour ("any") wildcard has none.
   */
  lemma WildcardCardsFacts()
    ensures forall x :: x in WildcardRuns(WildcardTable, 0) ==>
      x.kind == Property && x.wildcard && !x.isFlipped && x.color in x.colors &&
      (|x.colors| == 2 ==> x.secondaryColor in x.colors && x.secondaryColor != x.color) &&
      (|x.colors| == 1 ==> x.secondaryColor == "")
  {
    assert forall e :: e in WildcardTable ==> WildcardEntryOk(e);
    WildcardRunsFacts(WildcardTable, 0);
  }

  lemma {:induction false} WildcardRunsFacts(table: seq<WildcardEntry>, start: nat)
    requires forall e :: e in table ==> WildcardEntryOk(e)
    ensures forall x :: x in WildcardRuns(table, start) ==>
      x.kind == Property && x.wildcard && !x.isFlipped && x.color in x.colors &&
      (|x.colors| == 2 ==> x.secondaryColor in x.colors && x.secondaryColor != x.color) &&
      (|x.colors| == 1 ==> x.secondaryColor == "")
    decreases |table|
  {
    if table != [] {
      var e := table[0];
      assert e in table;
      assert forall f :: f in table[1..] ==> f in table;
      WildcardRunsFacts(table[1..], start + e.count);
      forall x | x in WildcardRun(e, start)
        ensures x.kind == Property && x.wildcard && !x.isFlipped && x.color in x.colors &&
                (|x.colors| == 2 ==> x.secondaryColor in x.colors && x.secondaryColor != x.color) &&
                (|x.colors| == 1 ==> x.secondaryColor == "")
      {
        var i :| 0 <= i < e.count && WildcardRun(e, start)[i] == x;
        if |e.colors| == 2 && e.topColor != "" {
          var other := FirstOther(e.colors, e.topColor);
          assert e.colors[0] != e.topColor || e.colors[1] != e.topColor;
          assert e.colors[0] in e.colors && e.colors[1] in e.colors;
          assert other in e.colors && other != e.topColor;
        }
      }
    }
  }

  // ----- rent cards -----

  /** `{ type: 'action', ...rentCard, id: `action_${action}_${rentType}_${i}` }`. */
  function RentCard(e: RentEntry, i: nat): Card
  {
    Card(Join(["action", e.action, e.rentType, NatStr(i)]), Action, e.value, e.name, "", "",
         e.colors, false, false, "", e.action, e.rentType, [], "")
  }

  function RentRun(e: RentEntry): (run: seq<Card>)
    ensures |run| == e.count
    ensures forall i :: 0 <= i < e.count ==> run[i] == RentCard(e, i)
  {
    seq(e.count, i requires 0 <= i < e.count => RentCard(e, i))
  }

  function RentRuns(table: seq<RentEntry>): seq<Card>
    decreases |table|
  {
    if table == [] then [] else RentRun(table[0]) + RentRuns(table[1..])
  }

  function RentCount(table: seq<RentEntry>): nat
    decreases |table|
  {
    if table == [] then 0 else table[0].count + RentCount(table[1..])
  }

  /** The rent loop: each rent entry pushes its card the number of times the entry says. */
  method PushRents(deck: seq<Card>, table: seq<RentEntry>) returns (r: seq<Card>)
    ensures r == deck + RentRuns(table)
  {
    r := deck;
    for k := 0 to |table|
      invariant r + RentRuns(table[k..]) == deck + RentRuns(table)
    {
      assert RentRuns(table[k..]) == RentRun(table[k]) + RentRuns(table[k + 1..]) by {
        assert table[k..][1..] == table[k + 1..];
      }
      var e := table[k];
      ghost var before := r;
      for i := 0 to e.count
        invariant r == before + RentRun(e)[..i]
      {
        assert RentRun(e)[..i + 1] == RentRun(e)[..i] + [RentCard(e, i)];
        r := r + [RentCard(e, i)];
      }
      assert RentRun(e)[..e.count] == RentRun(e);
    }
  }

  predicate RentShaped(x: Card)
  {
    x.kind == Action && |Split(x.id)| == 4 && Split(x.id)[0] == "action" && Split(x.id)[2] == x.rentType
  }

  predicate RentTableOk(table: seq<RentEntry>)
  {
    (forall k :: 0 <= k < |table| ==> IsSegment(table[k].action) && IsSegment(table[k].rentType)) &&
    (forall k, l :: 0 <= k < l < |table| ==> table[k].rentType != table[l].rentType)
  }

  lemma RentRunFacts(e: RentEntry)
    requires IsSegment(e.action) && IsSegment(e.rentType)
    ensures IdsDistinct(RentRun(e))
    ensures forall x :: x in RentRun(e) ==> RentShaped(x) && x.rentType == e.rentType
  {
    var run := RentRun(e);
    forall i | 0 <= i < e.count ensures Split(run[i].id) == ["action", e.action, e.rentType, NatStr(i)] {
      NatStrIsSegment(i);
      SplitJoin(["action", e.action, e.rentType, NatStr(i)]);
    }
    forall i, j | 0 <= i < j < e.count ensures run[i].id != run[j].id {
      NatStrInjective(i, j);
    }
  }

  lemma {:induction false} RentRunsFacts(table: seq<RentEntry>)
    requires RentTableOk(table)
    ensures |RentRuns(table)| == RentCount(table)
    ensures IdsDistinct(RentRuns(table))
    ensures forall x :: x in RentRuns(table) ==> RentShaped(x) && exists k :: 0 <= k < |table| && table[k].rentType == x.rentType
    decreases |table|
  {
    if table != [] {
      var rest := table[1..];
      assert RentTableOk(rest) by {
        forall k | 0 <= k < |rest| ensures IsSegment(rest[k].action) && IsSegment(rest[k].rentType) {
          assert rest[k] == table[k + 1];
        }
        forall k, l | 0 <= k < l < |rest| ensures rest[k].rentType != rest[l].rentType {
          assert rest[k] == table[k + 1] && rest[l] == table[l + 1];
        }
      }
      RentRunsFacts(rest);
      RentRunFacts(table[0]);
      forall x: Card, y: Card | x in RentRun(table[0]) && y in RentRuns(rest) ensures x.id != y.id {
        var l :| 0 <= l < |rest| && rest[l].rentType == y.rentType;
        assert rest[l] == table[l + 1];
      }
      DistinctConcat(RentRun(table[0]), RentRuns(rest));
      forall x | x in RentRuns(table)
        ensures RentShaped(x) && exists k :: 0 <= k < |table| && table[k].rentType == x.rentType
      {
        if x !in RentRun(table[0]) {
          var l :| 0 <= l < |rest| && rest[l].rentType == x.rentType;
          assert table[l + 1].rentType == x.rentType;
        }
      }
    }
  }

  // ----- the whole deck -----

  /** The deck `initializeDeck` returns, in push order. */
  function Cards(): seq<Card>
  {
    PropertySide() + ActionSide()
  }

  /** The money, property and wildcard sections. */
  function PropertySide(): seq<Card>
  {
    MoneyCards() + PropertyCards(PropertyTable) + WildcardRuns(WildcardTable, 0)
  }

  /** The action and rent sections. */
  function ActionSide(): seq<Card>
  {
    ActionRuns(ActionTable) + RentRuns(RentTable)
  }

  /** `initializeDeck`: the money loops, then the properties, wildcards, actions and rent cards. */
  method InitializeDeck() returns (deck: seq<Card>)
    ensures deck == Cards()
  {
    deck := PushMoneySection();
    deck := PushProperties(deck, PropertyTable);
    deck := PushWildcards(deck, WildcardTable);
    assert deck == PropertySide();
    deck := PushActions(deck, ActionTable);
    deck := PushRents(deck, RentTable);
    ConcatAssoc(PropertySide(), ActionRuns(ActionTable), RentRuns(RentTable));
  }

  /** The six money loops of `initializeDeck`, the last written as a single push. */
  method PushMoneySection() returns (deck: seq<Card>)
    ensures deck == MoneyCards()
  {
    deck := PushMoney([], 1, 6);
    deck := PushMoney(deck, 2, 5);
    deck := PushMoney(deck, 3, 3);
    deck := PushMoney(deck, 4, 3);
    deck := PushMoney(deck, 5, 2);
    TenIsOneRun();
    deck := deck + [PlainCard("money_10_0", Money, 10, "")];
  }

  /** The single $10M card pushed by hand is the one the loop would have pushed. */
  lemma TenIsOneRun()
    ensures MoneyRun(10, 1) == [PlainCard("money_10_0", Money, 10, "")]
  {
    assert NatStr(10) == "10";
    assert NatStr(0) == "0";
    assert Join(["money", "10", "0"]) == "money_10_0";
  }

  lemma ActionCardsFacts()
    ensures |ActionRuns(ActionTable)| == 36
    ensures IdsDistinct(ActionRuns(ActionTable))
    ensures forall x :: x in ActionRuns(ActionTable) ==> ActionShaped(x)
  {
    ActionTableIsOk();
    ActionRunsFacts(ActionTable);
    ActionTableCount();
  }

  lemma ActionTableCount()
    ensures TotalCount(ActionTable) == 36
  {
  }

  lemma RentTableIsOk()
    ensures RentTableOk(RentTable)
  {
    RentTableSegments();
    RentTypesDistinct();
  }

  lemma RentTableSegments()
    ensures forall k :: 0 <= k < |RentTable| ==> IsSegment(RentTable[k].action) && IsSegment(RentTable[k].rentType)
  {
    RentNamesSegments();
  }

  /** The action and rent-type names of `rentCards`, none holding an underscore. */
  lemma RentNamesSegments()
    ensures IsSegment("property-rent") && IsSegment("wild-rent") && IsSegment("wild")
    ensures IsSegment("purple-orange") && IsSegment("railroad-utility") && IsSegment("green-blue")
    ensures IsSegment("brown-light-blue") && IsSegment("red-yellow")
  {
  }

  lemma RentTypesDistinct()
    ensures forall k, l :: 0 <= k < l < |RentTable| ==> RentTable[k].rentType != RentTable[l].rentType
  {
  }

  lemma ActionTableIsOk()
    ensures ActionTableOk(ActionTable)
  {
    ActionTableSegments();
    ActionNamesDistinct();
  }

  lemma ActionTableSegments()
    ensures forall k :: 0 <= k < |ActionTable| ==> IsSegment(ActionTable[k].action)
  {
    ActionNamesSegments();
  }

  /** The action names of `actionCards`, none holding an underscore. */
  lemma ActionNamesSegments()
    ensures IsSegment("pass-go") && IsSegment("deal-breaker") && IsSegment("just-say-no") && IsSegment("sly-deal")
    ensures IsSegment("forced-deal") && IsSegment("debt-collector") && IsSegment("birthday")
    ensures IsSegment("house") && IsSegment("hotel") && IsSegment("double-rent")
  {
  }

  lemma ActionNamesDistinct()
    ensures forall k, l :: 0 <= k < l < |ActionTable| ==> ActionTable[k].action != ActionTable[l].action
  {
  }

  lemma RentTableCount()
    ensures RentCount(RentTable) == 13
  {
  }

  lemma RentCardsFacts()
    ensures |RentRuns(RentTable)| == 13
    ensures IdsDistinct(RentRuns(RentTable))
    ensures forall x :: x in RentRuns(RentTable) ==> RentShaped(x)
  {
    RentTableIsOk();
    RentRunsFacts(RentTable);
    RentTableCount();
  }

  lemma PropertyCardsShape()
    ensures |PropertyCards(PropertyTable)| == 28
    ensures IdsDistinct(PropertyCards(PropertyTable))
    ensures forall x :: x in PropertyCards(PropertyTable) ==> PropertyShaped(x) && x.color != "wildcard"
  {
    ColorNamesSegments();
    assert forall k :: 0 <= k < |PropertyTable| ==> PropertyTable[k].color in StandardColors;
    assert forall c :: c in StandardColors ==> IsSegment(c) && c != "wildcard";
    PropertyCardsFacts(PropertyTable);
  }

  /**
   * The deck holds 108 cards -- 20 money, 28 properties, 11 wildcards, 36
   * actions and 13 rent cards -- and no two of them share an id.
   */
  lemma DeckFacts()
    ensures |Cards()| == 108
    ensures IdsDistinct(Cards())
  {
    PropertySideDistinct();
    ActionSideDistinct();
    DistinctConcat(PropertySide(), ActionSide());
  }

  /** The action and rent sections: 49 cards with distinct ids, all action ids. */
  lemma ActionSideDistinct()
    ensures |ActionSide()| == 49
    ensures IdsDistinct(ActionSide())
    ensures forall x :: x in ActionSide() ==> Split(x.id)[0] == "action"
  {
    var a: seq<Card> := ActionRuns(ActionTable);
    var r: seq<Card> := RentRuns(RentTable);
    ActionCardsFacts();
    RentCardsFacts();
    forall x: Card, y: Card | x in a && y in r ensures x.id != y.id {
      SplitDiffers(x, y);
    }
    DistinctConcat(a, r);
  }

  lemma MoneyAndPropertiesDistinct()
    ensures IdsDistinct(MoneyCards() + PropertyCards(PropertyTable))
    ensures forall x :: x in MoneyCards() + PropertyCards(PropertyTable) ==>
              (MoneyShaped(x) || (PropertyShaped(x) && x.color != "wildcard"))
  {
    var m, p: seq<Card> := MoneyCards(), PropertyCards(PropertyTable);
    MoneyCardsDistinct();
    PropertyCardsShape();
    forall x: Card, y: Card | x in m && y in p ensures x.id != y.id {
      SplitDiffers(x, y);
    }
    DistinctConcat(m, p);
  }

  /** Money and regular property ids never clash with wildcard ids, and none is an action id. */
  lemma ShapesDisjoint(a: seq<Card>, b: seq<Card>)
    requires IdsDistinct(a) && IdsDistinct(b)
    requires forall x :: x in a ==> MoneyShaped(x) || (PropertyShaped(x) && x.color != "wildcard")
    requires forall y :: y in b ==> WildcardShaped(y)
    ensures IdsDistinct(a + b)
    ensures forall x :: x in a + b ==> |Split(x.id)| == 3 && Split(x.id)[0] != "action"
  {
    forall x: Card, y: Card | x in a && y in b ensures x.id != y.id {
      SplitDiffers(x, y);
    }
    DistinctConcat(a, b);
  }

  /** The money, property and wildcard sections: 59 cards with distinct ids, none an action id. */
  lemma PropertySideDistinct()
    ensures |PropertySide()| == 59
    ensures IdsDistinct(PropertySide())
    ensures forall x :: x in PropertySide() ==>
              |Split(x.id)| == 3 && Split(x.id)[0] != "action"
  {
    MoneyAndPropertiesDistinct();
    WildcardCardsDistinct();
    ShapesDisjoint(MoneyCards() + PropertyCards(PropertyTable), WildcardRuns(WildcardTable, 0));
  }

  /** `getCardById`: the deck's card with that id, if there is one. */
  function GetCardById(id: string): (r: Option<Card>)
    ensures r.Some? <==> exists c :: c in Cards() && c.id == id
    ensures r.Some? ==> r.value in Cards() && r.value.id == id
  {
    FindCard(Cards(), id)
  }

  /** Because ids are distinct, a card of the deck is found by its own id and by no other. */
  lemma GetCardByIdFindsCard(id: string, c: Card)
    ensures GetCardById(id) == Some(c) <==> c in Cards() && c.id == id
  {
    DeckFacts();
    FindCardUnique(Cards(), id, c);
  }
}
