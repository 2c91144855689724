/**
 * The pieces both versions of `initializeDeck` build the deck from: money
 * runs, the property table pushed with its index, and action cards pushed
 * `count` times each. Each piece is a specification function, a method that
 * builds it with the source's loop, and lemmas about its size, value and ids.
 */
module DeckParts {
  import opened CardIds
  import opened CardModel

  /** An entry of a `properties` table. */
  datatype PropertyEntry = PropertyEntry(color: string, name: string, value: nat)

  /** An entry of an `actions` table; each is pushed `count` times. */
  datatype ActionEntry = ActionEntry(action: string, name: string, value: nat, count: nat)

  /** The sum of the bank values of `cards`. */
  function SumValues(cards: seq<Card>): nat
    decreases |cards|
  {
    if cards == [] then 0 else cards[0].value + SumValues(cards[1..])
  }

  lemma {:induction false} SumValuesConcat(a: seq<Card>, b: seq<Card>)
    ensures SumValues(a + b) == SumValues(a) + SumValues(b)
    decreases |a|
  {
    if a == [] {
      assert a + b == b;
    } else {
      assert (a + b)[1..] == a[1..] + b;
      SumValuesConcat(a[1..], b);
    }
  }

  /** Cards that all have the same value sum to that value times their number. */
  lemma {:induction false} SumUniform(cards: seq<Card>, value: nat)
    requires forall i :: 0 <= i < |cards| ==> cards[i].value == value
    ensures SumValues(cards) == value * |cards|
    decreases |cards|
  {
    if cards != [] {
      SumUniform(cards[1..], value);
      assert value * |cards| == value + value * (|cards| - 1);
    }
  }

  /** Joining two decks whose ids are distinct and disjoint keeps them distinct. */
  lemma DistinctConcat(a: seq<Card>, b: seq<Card>)
    requires IdsDistinct(a) && IdsDistinct(b)
    requires forall x, y :: x in a && y in b ==> x.id != y.id
    ensures IdsDistinct(a + b)
  {
    forall i, j | 0 <= i < j < |a + b| ensures (a + b)[i].id != (a + b)[j].id {
      if j < |a| {
        assert (a + b)[i] == a[i] && (a + b)[j] == a[j];
      } else if i >= |a| {
        assert (a + b)[i] == b[i - |a|] && (a + b)[j] == b[j - |a|];
      } else {
        assert (a + b)[i] in a && (a + b)[j] in b;
      }
    }
  }

  /** Ids cut into different segment lists are different. */
  lemma SplitDiffers(x: Card, y: Card)
    requires Split(x.id) != Split(y.id)
    ensures x.id != y.id
  {
  }

  // ----- money -----

  /** `{ type: 'money', value, id: `money_${value}_${i}` }`. */
  function MoneyCard(value: nat, i: nat): Card
  {
    PlainCard(Join(["money", NatStr(value), NatStr(i)]), Money, value, "")
  }

  /** The `count` money cards of one denomination, in push order. */
  function MoneyRun(value: nat, count: nat): (run: seq<Card>)
    ensures |run| == count
    ensures forall i :: 0 <= i < count ==> run[i] == MoneyCard(value, i)
  {
    seq(count, i requires 0 <= i < count => MoneyCard(value, i))
  }

  /** The money section of the deck: six denominations, 20 cards. */
  function MoneyCards(): seq<Card>
  {
    MoneyRun(1, 6) + MoneyRun(2, 5) + MoneyRun(3, 3) + MoneyRun(4, 3) + MoneyRun(5, 2) + MoneyRun(10, 1)
  }

  /** One money loop: `count` money cards of one value pushed in turn. */
  method PushMoney(deck: seq<Card>, value: nat, count: nat) returns (r: seq<Card>)
    ensures r == deck + MoneyRun(value, count)
  {
    r := deck;
    for i := 0 to count
      invariant r == deck + MoneyRun(value, i)
    {
      r := r + [MoneyCard(value, i)];
    }
  }

  /** What every money card's id looks like once cut at the underscores. */
  predicate MoneyShaped(x: Card)
  {
    x.kind == Money && Split(x.id) == ["money", NatStr(x.value), Split(x.id)[|Split(x.id)| - 1]]
  }

  lemma MoneyCardShape(value: nat, i: nat)
    ensures Split(MoneyCard(value, i).id) == ["money", NatStr(value), NatStr(i)]
    ensures MoneyShaped(MoneyCard(value, i))
  {
    NatStrIsSegment(value);
    NatStrIsSegment(i);
    SplitJoin(["money", NatStr(value), NatStr(i)]);
  }

  lemma MoneyRunDistinct(value: nat, count: nat)
    ensures IdsDistinct(MoneyRun(value, count))
    ensures forall x :: x in MoneyRun(value, count) ==> MoneyShaped(x) && x.value == value
  {
    var run := MoneyRun(value, count);
    forall i, j | 0 <= i < j < count ensures run[i].id != run[j].id {
      MoneyCardShape(value, i);
      MoneyCardShape(value, j);
      NatStrInjective(i, j);
    }
    forall x | x in run ensures MoneyShaped(x) && x.value == value {
      var i :| 0 <= i < count && run[i] == x;
      MoneyCardShape(value, i);
    }
  }

  /** Appending a run of a higher denomination keeps the money ids distinct. */
  lemma MoneyAppend(prefix: seq<Card>, value: nat, count: nat)
    requires IdsDistinct(prefix)
    requires forall x :: x in prefix ==> MoneyShaped(x) && x.value < value
    ensures IdsDistinct(prefix + MoneyRun(value, count))
    ensures forall x :: x in prefix + MoneyRun(value, count) ==> MoneyShaped(x) && x.value <= value
  {
    MoneyRunDistinct(value, count);
    forall x, y | x in prefix && y in MoneyRun(value, count) ensures x.id != y.id {
      NatStrInjective(x.value, y.value);
    }
    DistinctConcat(prefix, MoneyRun(value, count));
  }

  /** Twenty money cards with different ids. */
  lemma MoneyCardsDistinct()
    ensures |MoneyCards()| == 20
    ensures IdsDistinct(MoneyCards())
    ensures forall x :: x in MoneyCards() ==> MoneyShaped(x)
  {
    var p1 := MoneyRun(1, 6);
    var p2 := p1 + MoneyRun(2, 5);
    var p3 := p2 + MoneyRun(3, 3);
    var p4 := p3 + MoneyRun(4, 3);
    var p5 := p4 + MoneyRun(5, 2);
    MoneyRunDistinct(1, 6);
    MoneyAppend(p1, 2, 5);
    MoneyAppend(p2, 3, 3);
    MoneyAppend(p3, 4, 3);
    MoneyAppend(p4, 5, 2);
    MoneyAppend(p5, 10, 1);
  }

  lemma RunValue(value: nat, count: nat)
    ensures SumValues(MoneyRun(value, count)) == value * count
  {
    SumUniform(MoneyRun(value, count), value);
  }

  /** The money cards are worth 57 in total: 6x1, 5x2, 3x3, 3x4, 2x5 and 1x10. */
  lemma MoneyCardsValue()
    ensures SumValues(MoneyCards()) == 57
  {
    var r1, r2, r3, r4, r5, r6 := MoneyRun(1, 6), MoneyRun(2, 5), MoneyRun(3, 3), MoneyRun(4, 3), MoneyRun(5, 2), MoneyRun(10, 1);
    RunValue(1, 6);
    RunValue(2, 5);
    RunValue(3, 3);
    RunValue(4, 3);
    RunValue(5, 2);
    RunValue(10, 1);
    SumValuesConcat(r1, r2);
    SumValuesConcat(r1 + r2, r3);
    SumValuesConcat(r1 + r2 + r3, r4);
    SumValuesConcat(r1 + r2 + r3 + r4, r5);
    SumValuesConcat(r1 + r2 + r3 + r4 + r5, r6);
  }

  // ----- properties -----

  /** `{ type: 'property', ...prop, id: `property_${prop.color}_${index}` }`. */
  function PropertyCard(e: PropertyEntry, index: nat): Card
  {
    Card(Join(["property", e.color, NatStr(index)]), Property, e.value, e.name, e.color,
         "", [], false, false, "", "", "", [], "")
  }

  /** The table's properties, each tagged with its position in the table. */
  function PropertyCards(table: seq<PropertyEntry>): (cards: seq<Card>)
    ensures |cards| == |table|
    ensures forall i :: 0 <= i < |table| ==> cards[i] == PropertyCard(table[i], i)
  {
    seq(|table|, i requires 0 <= i < |table| => PropertyCard(table[i], i))
  }

  /** The property loop: each table entry pushed once, with its position in the table. */
  method PushProperties(deck: seq<Card>, table: seq<PropertyEntry>) returns (r: seq<Card>)
    ensures r == deck + PropertyCards(table)
  {
    r := deck;
    for index := 0 to |table|
      invariant r == deck + PropertyCards(table[..index])
    {
      assert PropertyCards(table[..index + 1]) == PropertyCards(table[..index]) + [PropertyCard(table[index], index)];
      r := r + [PropertyCard(table[index], index)];
    }
    assert table[..|table|] == table;
  }

  /** What a regular property card's id looks like once cut at the underscores. */
  predicate PropertyShaped(x: Card)
  {
    x.kind == Property && !x.wildcard && |Split(x.id)| == 3 &&
    Split(x.id)[0] == "property" && Split(x.id)[1] == x.color
  }

  lemma PropertyCardsFacts(table: seq<PropertyEntry>)
    requires forall e :: e in table ==> IsSegment(e.color)
    ensures IdsDistinct(PropertyCards(table))
    ensures forall x :: x in PropertyCards(table) ==> PropertyShaped(x) && exists e :: e in table && e.color == x.color
  {
    var cards := PropertyCards(table);
    forall i | 0 <= i < |table|
      ensures Split(cards[i].id) == ["property", table[i].color, NatStr(i)]
    {
      assert table[i] in table;
      NatStrIsSegment(i);
      SplitJoin(["property", table[i].color, NatStr(i)]);
    }
    forall i, j | 0 <= i < j < |table| ensures cards[i].id != cards[j].id {
      NatStrInjective(i, j);
    }
    forall x | x in cards ensures PropertyShaped(x) && exists e :: e in table && e.color == x.color {
      var i :| 0 <= i < |table| && cards[i] == x;
      assert table[i] in table;
    }
  }

  // ----- actions -----

  /** `{ type: 'action', ...actionCard, id: `action_${actionCard.action}_${i}` }`. */
  function ActionCard(e: ActionEntry, i: nat): Card
  {
    Card(Join(["action", e.action, NatStr(i)]), Action, e.value, e.name, "",
         "", [], false, false, "", e.action, "", [], "")
  }

  function ActionRun(e: ActionEntry): (run: seq<Card>)
    ensures |run| == e.count
    ensures forall i :: 0 <= i < e.count ==> run[i] == ActionCard(e, i)
  {
    seq(e.count, i requires 0 <= i < e.count => ActionCard(e, i))
  }

  /** Every entry's copies, entry after entry. */
  function ActionRuns(table: seq<ActionEntry>): seq<Card>
    decreases |table|
  {
    if table == [] then [] else ActionRun(table[0]) + ActionRuns(table[1..])
  }

  /** The number of cards a table describes. */
  function TotalCount(table: seq<ActionEntry>): nat
    decreases |table|
  {
    if table == [] then 0 else table[0].count + TotalCount(table[1..])
  }

  /** The action loop: each entry of the table pushes its card the number of times the entry says. */
  method PushActions(deck: seq<Card>, table: seq<ActionEntry>) returns (r: seq<Card>)
    ensures r == deck + ActionRuns(table)
  {
    r := deck;
    for k := 0 to |table|
      invariant r + ActionRuns(table[k..]) == deck + ActionRuns(table)
    {
      assert ActionRuns(table[k..]) == ActionRun(table[k]) + ActionRuns(table[k + 1..]) by {
        assert table[k..][1..] == table[k + 1..];
      }
      var e := table[k];
      ghost var before := r;
      for i := 0 to e.count
        invariant r == before + ActionRun(e)[..i]
      {
        assert ActionRun(e)[..i + 1] == ActionRun(e)[..i] + [ActionCard(e, i)];
        r := r + [ActionCard(e, i)];
      }
      assert ActionRun(e)[..e.count] == ActionRun(e);
    }
  }

  /** What an action card's id looks like once cut at the underscores. */
  predicate ActionShaped(x: Card)
  {
    x.kind == Action && |Split(x.id)| == 3 && Split(x.id)[0] == "action" && Split(x.id)[1] == x.action
  }

  /** A table whose action names are segments and pairwise different. */
  predicate ActionTableOk(table: seq<ActionEntry>)
  {
    (forall k :: 0 <= k < |table| ==> IsSegment(table[k].action)) &&
    (forall k, l :: 0 <= k < l < |table| ==> table[k].action != table[l].action)
  }

  lemma ActionRunFacts(e: ActionEntry)
    requires IsSegment(e.action)
    ensures IdsDistinct(ActionRun(e))
    ensures forall x :: x in ActionRun(e) ==> ActionShaped(x) && x.action == e.action && x.value == e.value
  {
    var run := ActionRun(e);
    forall i | 0 <= i < e.count ensures Split(run[i].id) == ["action", e.action, NatStr(i)] {
      NatStrIsSegment(i);
      SplitJoin(["action", e.action, NatStr(i)]);
    }
    forall i, j | 0 <= i < j < e.count ensures run[i].id != run[j].id {
      NatStrInjective(i, j);
    }
  }

  lemma {:induction false} ActionRunsFacts(table: seq<ActionEntry>)
    requires ActionTableOk(table)
    ensures |ActionRuns(table)| == TotalCount(table)
    ensures IdsDistinct(ActionRuns(table))
    ensures forall x :: x in ActionRuns(table) ==> ActionShaped(x) && exists k :: 0 <= k < |table| && table[k].action == x.action
    decreases |table|
  {
    if table != [] {
      var rest := table[1..];
      assert ActionTableOk(rest) by {
        forall k | 0 <= k < |rest| ensures IsSegment(rest[k].action) { assert rest[k] == table[k + 1]; }
        forall k, l | 0 <= k < l < |rest| ensures rest[k].action != rest[l].action {
          assert rest[k] == table[k + 1] && rest[l] == table[l + 1];
        }
      }
      ActionRunsFacts(rest);
      ActionRunFacts(table[0]);
      forall x, y | x in ActionRun(table[0]) && y in ActionRuns(rest) ensures x.id != y.id {
        var l :| 0 <= l < |rest| && rest[l].action == y.action;
        assert rest[l] == table[l + 1];
      }
      DistinctConcat(ActionRun(table[0]), ActionRuns(rest));
      forall x | x in ActionRuns(table)
        ensures ActionShaped(x) && exists k :: 0 <= k < |table| && table[k].action == x.action
      {
        if x in ActionRun(table[0]) {
        } else {
          var l :| 0 <= l < |rest| && rest[l].action == x.action;
          assert table[l + 1].action == x.action;
        }
      }
    }
  }

  /** The ten property colours, none holding an underscore and none named "wildcard". */
  lemma ColorNamesSegments()
    ensures IsSegment("brown") && IsSegment("light-blue") && IsSegment("pink") && IsSegment("orange")
    ensures IsSegment("red") && IsSegment("yellow") && IsSegment("green") && IsSegment("blue")
    ensures IsSegment("utility") && IsSegment("railroad")
    ensures "wildcard" !in ["brown", "light-blue", "pink", "orange", "red", "yellow", "green", "blue", "utility", "railroad"]
  {
  }
}
