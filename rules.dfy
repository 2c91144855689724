/**
 * Property-set arithmetic shared by both versions of the game: how many
 * cards complete each colour, the base rent of each colour, the rent a
 * colour group charges, and how many complete sets a property map holds.
 */
module Rules {
  import opened Wrappers
  import opened CardModel
  import opened Holdings

  /** `requiredProperties`: the size of a complete set, per colour. */
  const RequiredProperties: map<string, nat> := map[
    "brown" := 2, "blue" := 2, "green" := 3, "red" := 3, "yellow" := 3,
    "orange" := 3, "pink" := 3, "light-blue" := 3, "utility" := 2, "railroad" := 4]

  /** `baseRentValues`: the rent of a single card, per colour. */
  const BaseRentValues: map<string, nat> := map[
    "brown" := 1, "light-blue" := 1, "pink" := 2, "orange" := 2, "red" := 3,
    "yellow" := 3, "green" := 4, "blue" := 4, "utility" := 1, "railroad" := 2]

  /** The ten colours that have a set size. */
  const SetColors: set<string> := {"brown", "blue", "green", "red", "yellow", "orange", "pink",
                                   "light-blue", "utility", "railroad"}

  /** `requiredProperties[color]`, which is undefined for any other colour. */
  function RequiredSize(color: string): (r: Option<nat>)
    ensures r.Some? <==> color in SetColors
    ensures r.Some? ==> 2 <= r.value <= 4
  {
    if color in RequiredProperties then Some(RequiredProperties[color]) else None
  }

  /** `baseRentValues[color] || 1`. */
  function BaseRent(color: string): (r: nat)
    ensures 1 <= r <= 4
    ensures color !in BaseRentValues ==> r == 1
  {
    if color in BaseRentValues && BaseRentValues[color] != 0 then BaseRentValues[color] else 1
  }

  /**
   * `properties.length >= requiredProperties[color]`: a comparison with
   * undefined is false, so a colour without a set size is never complete.
   */
  predicate IsComplete(color: string, count: nat)
  {
    RequiredSize(color).Some? && count >= RequiredSize(color).value
  }

  /**
   * `calculateRentForProperties`: nothing for a missing or empty group; four
   * times the base rent for a complete set; twice the base rent for an
   * incomplete group of two or more; the base rent for a single card.
   */
  function RentFor(properties: map<string, seq<Card>>, color: string): (r: nat)
    ensures var n := |Group(properties, color)|;
      && (r == 0 <==> n == 0)
      && (n > 0 && IsComplete(color, n) ==> r == 4 * BaseRent(color))
      && (n > 1 && !IsComplete(color, n) ==> r == 2 * BaseRent(color))
      && (n == 1 && !IsComplete(color, n) ==> r == BaseRent(color))
  {
    var n := |Group(properties, color)|;
    if n == 0 then 0
    else if IsComplete(color, n) then BaseRent(color) * 4
    else if n > 1 then BaseRent(color) * 2
    else BaseRent(color)
  }

  /** Rent never exceeds four times the base rent, so never 16M. */
  lemma RentAtMost(properties: map<string, seq<Card>>, color: string)
    ensures RentFor(properties, color) <= 4 * BaseRent(color) <= 16
  {
  }

  /** The full rent is charged exactly for a complete set. */
  lemma RentFullIffComplete(properties: map<string, seq<Card>>, color: string)
    requires |Group(properties, color)| > 0
    ensures RentFor(properties, color) == 4 * BaseRent(color) <==>
            IsComplete(color, |Group(properties, color)|)
  {
  }

  /** Playing one more card of a colour never lowers that colour's rent. */
  lemma RentMonotone(properties: map<string, seq<Card>>, color: string, c: Card)
    ensures RentFor(properties, color) <= RentFor(AddToGroup(properties, color, c), color)
  {
    var n := |Group(properties, color)|;
    assert |Group(AddToGroup(properties, color, c), color)| == n + 1;
    if n > 0 && IsComplete(color, n) {
      assert IsComplete(color, n + 1);
    }
  }

  /** The colours of a property map whose groups are complete sets. */
  function CompleteColors(properties: map<string, seq<Card>>): (r: set<string>)
    ensures r <= properties.Keys
    ensures forall c :: c in r <==> c in properties && IsComplete(c, |properties[c]|)
  {
    set c | c in properties && IsComplete(c, |properties[c]|)
  }

  /**
   * `countCompleteSets`: walks the colour groups and counts those that meet
   * their set size.
   */
  method CountCompleteSets(properties: map<string, seq<Card>>) returns (n: nat)
    ensures n == |CompleteColors(properties)|
  {
    n := CountMeeting(properties, RequiredProperties);
    assert CompleteColors(properties) == Meeting(properties, RequiredProperties, properties.Keys);
  }

  /** The colours among `keys` whose groups reach the size `sizes` gives them. */
  function Meeting(properties: map<string, seq<Card>>, sizes: map<string, nat>, keys: set<string>): set<string>
  {
    set c | c in keys && c in properties && c in sizes && |properties[c]| >= sizes[c]
  }

  /** The counting loop of `countCompleteSets`, for any table of set sizes. */
  method CountMeeting(properties: map<string, seq<Card>>, sizes: map<string, nat>) returns (n: nat)
    ensures n == |Meeting(properties, sizes, properties.Keys)|
  {
    n := 0;
    var rest := properties.Keys;
    ghost var counted: set<string> := {};
    while rest != {}
      invariant rest + counted == properties.Keys && rest !! counted
      invariant n == |Meeting(properties, sizes, counted)|
      decreases |rest|
    {
      var color :| color in rest;
      MeetingAdd(properties, sizes, counted, color);
      if color in sizes && |properties[color]| >= sizes[color] {
        n := n + 1;
      }
      rest := rest - {color};
      counted := counted + {color};
    }
  }

  lemma MeetingAdd(properties: map<string, seq<Card>>, sizes: map<string, nat>, keys: set<string>, color: string)
    requires color !in keys && color in properties
    ensures color in sizes && |properties[color]| >= sizes[color] ==>
      |Meeting(properties, sizes, keys + {color})| == |Meeting(properties, sizes, keys)| + 1
    ensures !(color in sizes && |properties[color]| >= sizes[color]) ==>
      Meeting(properties, sizes, keys + {color}) == Meeting(properties, sizes, keys)
  {
    if color in sizes && |properties[color]| >= sizes[color] {
      assert Meeting(properties, sizes, keys + {color}) == Meeting(properties, sizes, keys) + {color};
    }
  }

  /** Only the ten set colours can be complete, so no one holds more than ten sets. */
  lemma CompleteSetsAtMostTen(properties: map<string, seq<Card>>)
    ensures CompleteColors(properties) <= SetColors
    ensures |CompleteColors(properties)| <= 10
  {
    SubsetCard(CompleteColors(properties), SetColors);
  }

  lemma SubsetCard(a: set<string>, b: set<string>)
    requires a <= b
    ensures |a| <= |b|
  {
    if a != {} {
      var x :| x in a;
      SubsetCard(a - {x}, b - {x});
    }
  }

  /** Adding a card to a group never breaks a complete set. */
  lemma AddKeepsComplete(properties: map<string, seq<Card>>, color: string, c: Card)
    ensures CompleteColors(properties) <= CompleteColors(AddToGroup(properties, color, c))
  {
    var after := AddToGroup(properties, color, c);
    forall k | k in CompleteColors(properties) ensures k in CompleteColors(after) {
      if k == color {
        assert |after[k]| == |properties[k]| + 1;
      }
    }
  }

  /** `checkWinCondition`'s test: three complete sets win. */
  predicate HasWon(properties: map<string, seq<Card>>)
  {
    |CompleteColors(properties)| >= 3
  }

  /** A player who has won still has won after playing another property. */
  lemma WinIsStable(properties: map<string, seq<Card>>, color: string, c: Card)
    requires HasWon(properties)
    ensures HasWon(AddToGroup(properties, color, c))
  {
    AddKeepsComplete(properties, color, c);
    SubsetCard(CompleteColors(properties), CompleteColors(AddToGroup(properties, color, c)));
  }
}
