/**
 * The payer's selection of cards to pay with: money indices and
 * (colour, index) property picks, `togglePaymentAsset` and
 * `calculateSelectedPaymentTotal`.
 */
module PaymentSelection {
  import opened CardModel
  import opened Holdings

  /** `{ color, index }`: a property of the payer, by colour group and position. */
  datatype Pick = Pick(color: string, index: int)

  /** `selectedPaymentAssets`. */
  datatype Selection = Selection(money: seq<int>, properties: seq<Pick>)

  const NoSelection := Selection([], [])

  /** The asset a toggle names: `type` 'money' with an index, or 'property' with a colour and an index. */
  datatype Asset = MoneyAsset(index: int) | PropertyAsset(color: string, index: int)

  // ----- generic list surgery -----

  /** The sequence with every occurrence of `v` filtered out. */
  function Without<T(==,!new)>(s: seq<T>, v: T): (r: seq<T>)
    ensures forall x :: x in r <==> x in s && x != v
    ensures |r| <= |s|
    decreases |s|
  {
    if s == [] then [] else (if s[0] == v then [] else [s[0]]) + Without(s[1..], v)
  }

  /** Select `v` when it is not selected, otherwise drop every copy of it. */
  function Toggle<T(==,!new)>(s: seq<T>, v: T): (r: seq<T>)
    ensures v in r <==> v !in s
    ensures forall x :: x != v ==> (x in r <==> x in s)
  {
    if v in s then Without(s, v) else s + [v]
  }

  predicate NoDuplicates<T(==,!new)>(s: seq<T>)
  {
    forall i, j :: 0 <= i < j < |s| ==> s[i] != s[j]
  }

  /** A list without repeats: its head is not in its tail, and the tail has no repeats either. */
  lemma NoDuplicatesTail<T(!new)>(s: seq<T>)
    requires NoDuplicates(s) && s != []
    ensures s[0] !in s[1..] && NoDuplicates(s[1..])
  {
    forall k | 0 <= k < |s[1..]| ensures s[1..][k] != s[0] {
      assert s[1..][k] == s[k + 1];
    }
    forall i, j | 0 <= i < j < |s[1..]| ensures s[1..][i] != s[1..][j] {
      assert s[1..][i] == s[i + 1] && s[1..][j] == s[j + 1];
    }
  }

  lemma {:induction false} WithoutAbsent<T(!new)>(s: seq<T>, v: T)
    requires v !in s
    ensures Without(s, v) == s
    decreases |s|
  {
    if s != [] {
      WithoutAbsent(s[1..], v);
      assert s == [s[0]] + s[1..];
    }
  }

  lemma {:induction false} WithoutConcat<T(!new)>(a: seq<T>, b: seq<T>, v: T)
    ensures Without(a + b, v) == Without(a, v) + Without(b, v)
    decreases |a|
  {
    if a != [] {
      assert (a + b)[1..] == a[1..] + b;
      WithoutConcat(a[1..], b, v);
    } else {
      assert a + b == b;
    }
  }

  /** Dropping an element that occurs once removes exactly that element. */
  lemma {:induction false} WithoutOnce<T(!new)>(s: seq<T>, v: T)
    requires NoDuplicates(s) && v in s
    ensures multiset(Without(s, v)) + multiset{v} == multiset(s)
    decreases |s|
  {
    assert s == [s[0]] + s[1..];
    if s[0] == v {
      NoDuplicatesTail(s);
      WithoutAbsent(s[1..], v);
    } else {
      NoDuplicatesTail(s);
      WithoutOnce(s[1..], v);
    }
  }

  lemma {:induction false} WithoutKeepsDistinct<T(!new)>(s: seq<T>, v: T)
    requires NoDuplicates(s)
    ensures NoDuplicates(Without(s, v))
    decreases |s|
  {
    if s != [] {
      NoDuplicatesTail(s);
      WithoutKeepsDistinct(s[1..], v);
    }
  }

  /** Toggling never creates a duplicate selection. */
  lemma ToggleKeepsDistinct<T(!new)>(s: seq<T>, v: T)
    requires NoDuplicates(s)
    ensures NoDuplicates(Toggle(s, v))
  {
    if v in s {
      WithoutKeepsDistinct(s, v);
    }
  }

  /** Selecting and then deselecting an asset gives back the selection exactly. */
  lemma ToggleTwiceUnselected<T(!new)>(s: seq<T>, v: T)
    requires v !in s
    ensures Toggle(Toggle(s, v), v) == s
  {
    WithoutConcat(s, [v], v);
    WithoutAbsent(s, v);
    assert Without([v], v) == [];
  }

  /**
   * Deselecting and then selecting an asset gives back the same assets; the
   * asset is now the last one selected.
   */
  lemma ToggleTwiceSelected<T(!new)>(s: seq<T>, v: T)
    requires NoDuplicates(s) && v in s
    ensures multiset(Toggle(Toggle(s, v), v)) == multiset(s)
    ensures Toggle(Toggle(s, v), v) == Without(s, v) + [v]
  {
    WithoutOnce(s, v);
  }

  // ----- the selection of one payer -----

  /** The card an asset names, when the payer holds it. */
  predicate Holds(payer: Player, a: Asset)
  {
    match a
    case MoneyAsset(i) => 0 <= i < |payer.money|
    case PropertyAsset(c, i) => c in payer.properties && 0 <= i < |payer.properties[c]|
  }

  function ValueOf(payer: Player, a: Asset): nat
  {
    match a
    case MoneyAsset(i) => if 0 <= i < |payer.money| then payer.money[i].value else 0
    case PropertyAsset(c, i) =>
      if c in payer.properties && 0 <= i < |payer.properties[c]| then payer.properties[c][i].value else 0
  }

  predicate Selected(sel: Selection, a: Asset)
  {
    match a
    case MoneyAsset(i) => i in sel.money
    case PropertyAsset(c, i) => Pick(c, i) in sel.properties
  }

  predicate Distinct(sel: Selection)
  {
    NoDuplicates(sel.money) && NoDuplicates(sel.properties)
  }

  /**
   * `togglePaymentAsset` once a payment request exists: an asset the payer
   * does not hold leaves the selection alone; any other asset flips between
   * selected and not selected, and no other asset's selection changes.
   */
  function ToggleAsset(sel: Selection, payer: Player, a: Asset): (r: Selection)
    ensures !Holds(payer, a) ==> r == sel
    ensures Holds(payer, a) ==> (Selected(r, a) <==> !Selected(sel, a))
    ensures forall b :: b != a ==> (Selected(r, b) <==> Selected(sel, b))
    ensures Distinct(sel) ==> Distinct(r)
  {
    if !Holds(payer, a) then sel
    else match a
      case MoneyAsset(i) =>
        assert Distinct(sel) ==> NoDuplicates(Toggle(sel.money, i)) by {
          if Distinct(sel) { ToggleKeepsDistinct(sel.money, i); }
        }
        sel.(money := Toggle(sel.money, i))
      case PropertyAsset(c, i) =>
        assert Distinct(sel) ==> NoDuplicates(Toggle(sel.properties, Pick(c, i))) by {
          if Distinct(sel) { ToggleKeepsDistinct(sel.properties, Pick(c, i)); }
        }
        sel.(properties := Toggle(sel.properties, Pick(c, i)))
  }

  /** Toggling an unselected asset twice restores the selection. */
  lemma ToggleAssetTwice(sel: Selection, payer: Player, a: Asset)
    requires !Selected(sel, a)
    ensures ToggleAsset(ToggleAsset(sel, payer, a), payer, a) == sel
  {
    match a
    case MoneyAsset(i) =>
      if Holds(payer, a) { ToggleTwiceUnselected(sel.money, i); }
    case PropertyAsset(c, i) =>
      if Holds(payer, a) { ToggleTwiceUnselected(sel.properties, Pick(c, i)); }
  }

  // ----- the selected total -----

  /** The money part of `calculateSelectedPaymentTotal`: indices without a card add nothing. */
  function MoneyTotal(indices: seq<int>, money: seq<Card>): nat
    decreases |indices|
  {
    if indices == [] then 0
    else
      var i := indices[0];
      (if 0 <= i < |money| then money[i].value else 0) + MoneyTotal(indices[1..], money)
  }

  /** The property part: picks without a card add nothing. */
  function PickTotal(picks: seq<Pick>, properties: map<string, seq<Card>>): nat
    decreases |picks|
  {
    if picks == [] then 0
    else
      var p := picks[0];
      (if p.color in properties && 0 <= p.index < |properties[p.color]|
       then properties[p.color][p.index].value else 0) + PickTotal(picks[1..], properties)
  }

  /** `calculateSelectedPaymentTotal`. */
  function SelectedTotal(sel: Selection, payer: Player): nat
  {
    MoneyTotal(sel.money, payer.money) + PickTotal(sel.properties, payer.properties)
  }

  lemma {:induction false} MoneyTotalConcat(a: seq<int>, b: seq<int>, money: seq<Card>)
    ensures MoneyTotal(a + b, money) == MoneyTotal(a, money) + MoneyTotal(b, money)
    decreases |a|
  {
    if a == [] {
      assert a + b == b;
    } else {
      assert (a + b)[1..] == a[1..] + b;
      MoneyTotalConcat(a[1..], b, money);
    }
  }

  lemma {:induction false} MoneyTotalWithout(s: seq<int>, v: int, money: seq<Card>)
    requires NoDuplicates(s) && v in s
    ensures MoneyTotal(Without(s, v), money) + ValueOf(Player([], money, map[]), MoneyAsset(v)) ==
            MoneyTotal(s, money)
    decreases |s|
  {
    NoDuplicatesTail(s);
    if s[0] == v {
      WithoutAbsent(s[1..], v);
      assert Without(s, v) == s[1..];
    } else {
      var rest := Without(s[1..], v);
      assert Without(s, v) == [s[0]] + rest;
      assert ([s[0]] + rest)[1..] == rest;
      MoneyTotalWithout(s[1..], v, money);
    }
  }

  lemma {:induction false} PickTotalConcat(a: seq<Pick>, b: seq<Pick>, properties: map<string, seq<Card>>)
    ensures PickTotal(a + b, properties) == PickTotal(a, properties) + PickTotal(b, properties)
    decreases |a|
  {
    if a == [] {
      assert a + b == b;
    } else {
      assert (a + b)[1..] == a[1..] + b;
      PickTotalConcat(a[1..], b, properties);
    }
  }

  lemma {:induction false} PickTotalWithout(s: seq<Pick>, v: Pick, properties: map<string, seq<Card>>)
    requires NoDuplicates(s) && v in s
    ensures PickTotal(Without(s, v), properties) +
            ValueOf(Player([], [], properties), PropertyAsset(v.color, v.index)) ==
            PickTotal(s, properties)
    decreases |s|
  {
    NoDuplicatesTail(s);
    if s[0] == v {
      WithoutAbsent(s[1..], v);
      assert Without(s, v) == s[1..];
    } else {
      var rest := Without(s[1..], v);
      assert Without(s, v) == [s[0]] + rest;
      assert ([s[0]] + rest)[1..] == rest;
      PickTotalWithout(s[1..], v, properties);
    }
  }

  /**
   * Selecting a held asset raises the selected total by that card's value;
   * deselecting it lowers the total by the same amount.
   */
  lemma ToggleAssetTotal(sel: Selection, payer: Player, a: Asset)
    requires Distinct(sel) && Holds(payer, a)
    ensures !Selected(sel, a) ==>
      SelectedTotal(ToggleAsset(sel, payer, a), payer) == SelectedTotal(sel, payer) + ValueOf(payer, a)
    ensures Selected(sel, a) ==>
      SelectedTotal(ToggleAsset(sel, payer, a), payer) + ValueOf(payer, a) == SelectedTotal(sel, payer)
  {
    match a
    case MoneyAsset(i) =>
      if Selected(sel, a) {
        MoneyTotalWithout(sel.money, i, payer.money);
      } else {
        MoneyTotalConcat(sel.money, [i], payer.money);
      }
    case PropertyAsset(c, i) =>
      if Selected(sel, a) {
        PickTotalWithout(sel.properties, Pick(c, i), payer.properties);
      } else {
        PickTotalConcat(sel.properties, [Pick(c, i)], payer.properties);
      }
  }

  /**
   * The two `forEach` loops of `calculateSelectedPaymentTotal`: add the
   * value of every selected money index and every selected property that
   * names a card.
   */
  method SumSelected(sel: Selection, payer: Player) returns (total: nat)
    ensures total == SelectedTotal(sel, payer)
  {
    var money: nat := 0;
    for k := 0 to |sel.money|
      invariant money == MoneyTotal(sel.money[..k], payer.money)
    {
      var i := sel.money[k];
      MoneyTotalConcat(sel.money[..k], [i], payer.money);
      assert sel.money[..k + 1] == sel.money[..k] + [i];
      if 0 <= i < |payer.money| {
        money := money + payer.money[i].value;
      }
    }
    assert sel.money[..|sel.money|] == sel.money;
    var props: nat := 0;
    for k := 0 to |sel.properties|
      invariant props == PickTotal(sel.properties[..k], payer.properties)
    {
      var p := sel.properties[k];
      PickTotalConcat(sel.properties[..k], [p], payer.properties);
      assert sel.properties[..k + 1] == sel.properties[..k] + [p];
      if p.color in payer.properties && 0 <= p.index < |payer.properties[p.color]| {
        props := props + payer.properties[p.color][p.index].value;
      }
    }
    assert sel.properties[..|sel.properties|] == sel.properties;
    total := money + props;
  }
}
