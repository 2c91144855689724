/**
 * `getCardImagePath` of the current version: the image file a card is drawn
 * with, chosen by type -- by denomination for money, by image code or name
 * for properties, by action (and rent type) for action cards -- or none.
 */
module Images {
  import opened Wrappers
  import opened CardModel
  import opened CardIds
  import opened DeckParts
  import Deck

  const Prefix := "images/cards/"
  const Suffix := ".jpg"

  /** `images/cards/${filename}.jpg`. */
  function ImagePath(stem: string): (path: string)
    ensures |path| == |Prefix| + |stem| + |Suffix|
    ensures path[..|Prefix|] == Prefix && path[|Prefix|..|Prefix| + |stem|] == stem
    ensures path[|Prefix| + |stem|..] == Suffix
  {
    Prefix + stem + Suffix
  }

  /** Different file stems give different paths. */
  lemma ImagePathInjective(a: string, b: string)
    ensures ImagePath(a) == ImagePath(b) <==> a == b
  {
    if ImagePath(a) == ImagePath(b) {
      assert |a| == |b|;
      assert a == ImagePath(a)[|Prefix|..|Prefix| + |a|];
    }
  }

  /** The six denominations that have an image. */
  const Denominations: set<nat> := {1, 2, 3, 4, 5, 10}

  /** The money image of a denomination: `1million` for 1, `10million` for 10, and so on. */
  function MoneyStem(value: nat): string
  {
    NatStr(value) + "million"
  }

  /** Different denominations have different money images. */
  lemma MoneyStemInjective(a: nat, b: nat)
    ensures MoneyStem(a) == MoneyStem(b) ==> a == b
  {
    if MoneyStem(a) == MoneyStem(b) {
      assert NatStr(a) == MoneyStem(a)[..|MoneyStem(a)| - 7];
      NatStrInjective(a, b);
    }
  }

  /** `propertyNameMap`: the image of each regular property, by name. */
  const PropertyImages: map<string, string> := map[
    "St. James Place" := "stjamesplace",
    "St. Charles Place" := "stcharlesplace",
    "States Avenue" := "statesavenue",
    "Virginia Avenue" := "virginiaavenue",
    "Tennessee Avenue" := "tennesseeavenue",
    "New York Avenue" := "newyorkavenue",
    "Kentucky Avenue" := "kentuckyavenue",
    "Indiana Avenue" := "indianaavenue",
    "Illinois Avenue" := "illinoisavenue",
    "Atlantic Avenue" := "atlanticavenue",
    "Ventnor Avenue" := "ventnoravenue",
    "Marvin Gardens" := "marvingardens",
    "Pacific Avenue" := "pacificavenue",
    "North Carolina Avenue" := "northcarolinaavenue",
    "Pennsylvania Avenue" := "pennsylvaniaavenue",
    "Park Place" := "parkplace",
    "Boardwalk" := "boardwalk",
    "Reading Railroad" := "readingrailroad",
    "Pennsylvania Railroad" := "pennsylvaniarailroad",
    "B. & O. Railroad" := "b&orailroad",
    "Short Line" := "shortline",
    "Electric Company" := "electriccompany",
    "Water Works" := "waterworks",
    "Mediterranean Avenue" := "mediterraneanavenue",
    "Baltic Avenue" := "balticavenue",
    "Oriental Avenue" := "orientalavenue",
    "Vermont Avenue" := "vermontavenue",
    "Connecticut Avenue" := "connecticutavenue"]

  /** The image of each action other than a property rent, by action. */
  const ActionImages: map<string, string> := map[
    PassGo := "passgo", DealBreaker := "dealbreaker", SlyDeal := "slydeal", ForcedDeal := "forceddeal",
    DebtCollector := "debtcollector", Birthday := "itsmybirthday", JustSayNo := "justsayno",
    House := "house", Hotel := "hotel", DoubleRent := "doubletherent", WildRent := "rentwild"]

  /** The image of each two-colour rent card, by rent type. */
  const RentImages: map<string, string> := map[
    "brown-light-blue" := "rentlbbr", "purple-orange" := "rentop", "red-yellow" := "rentry",
    "green-blue" := "rentbg", "railroad-utility" := "rentut"]

  /**
   * A wildcard's file stem: its image code, with `_flipped` when flipped;
   * without an image code, `propertywildcard` for an any-colour card, and
   * otherwise the stem is left undefined, which the path spells `undefined`.
   */
  function WildcardStem(card: Card): (stem: string)
    ensures |stem| > 0
    ensures card.imageCode != "" ==>
      |stem| == |card.imageCode| + (if card.isFlipped then 8 else 0) && stem[..|card.imageCode|] == card.imageCode
  {
    if card.imageCode != "" then card.imageCode + (if card.isFlipped then "_flipped" else "")
    else if |card.colors| > 0 && card.colors[0] == "any" then "propertywildcard"
    else "undefined"
  }

  /** `getCardImagePath`: the image of a card, or None where the source returns null. */
  function GetCardImagePath(card: Card): (r: Option<string>)
    ensures card.kind == Money ==> (r.Some? <==> card.value in Denominations)
    ensures card.kind == Property && card.wildcard ==> r == Some(ImagePath(WildcardStem(card)))
    ensures card.kind == Property && !card.wildcard ==> (r.Some? <==> card.name in PropertyImages)
    ensures card.kind == Action ==>
      (r.Some? <==> card.action in ActionImages || (card.action == PropertyRent && card.rentType in RentImages))
    ensures card.kind == Unknown ==> r.None?
  {
    match card.kind
    case Money =>
      if card.value in Denominations then Some(ImagePath(MoneyStem(card.value))) else None
    case Property =>
      if card.wildcard then Some(ImagePath(WildcardStem(card)))
      else if card.name in PropertyImages then Some(ImagePath(PropertyImages[card.name]))
      else None
    case Action =>
      if card.action in ActionImages then Some(ImagePath(ActionImages[card.action]))
      else if card.action == PropertyRent && card.rentType in RentImages then Some(ImagePath(RentImages[card.rentType]))
      else None
    case Unknown => None
  }

  /** The six denominations are drawn with six different images. */
  lemma MoneyImagesDistinct(a: Card, b: Card)
    requires a.kind == Money && b.kind == Money && a.value in Denominations && b.value in Denominations
    requires a.value != b.value
    ensures GetCardImagePath(a) != GetCardImagePath(b)
  {
    ImagePathInjective(MoneyStem(a.value), MoneyStem(b.value));
    MoneyStemInjective(a.value, b.value);
  }

  /** Flipping a wildcard that has an image code changes the image it is drawn with. */
  lemma FlipChangesImage(card: Card)
    requires card.kind == Property && card.wildcard && card.imageCode != ""
    ensures GetCardImagePath(card.(isFlipped := !card.isFlipped)) != GetCardImagePath(card)
  {
    var other := card.(isFlipped := !card.isFlipped);
    ImagePathInjective(WildcardStem(other), WildcardStem(card));
  }

  /** Every regular property of the current deck has an image. */
  lemma DeckPropertiesHaveImages()
    ensures forall e :: e in Deck.PropertyTable ==> e.name in PropertyImages
  {
  }

  /** So does every action card. */
  lemma DeckActionsHaveImages()
    ensures forall e :: e in Deck.ActionTable ==> e.action in ActionImages
  {
  }

  /** And every rent card. */
  lemma DeckRentsHaveImages()
    ensures forall e :: e in Deck.RentTable ==>
      e.action in ActionImages || (e.action == PropertyRent && e.rentType in RentImages)
  {
  }
}
