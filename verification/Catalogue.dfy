/** Choosing prices from the catalogue (client.go, selectProductPricesByCategory and
    getUpgradeItemPriceForSecondDisk). Capacities are real numbers. */
module Catalogue {
  import opened Common
  import opened Text

  datatype Item = Item(keyName: Option<string>, description: Option<string>, capacity: Option<real>)

  /** `categories` are the codes of the price's categories. */
  datatype Price = Price(id: int, item: Item, categories: seq<string>)

  datatype Wanted = Wanted(publicNetwork: bool, publicCores: bool, dedicatedHost: bool)

  const CPU: string := "guest_core"
  const NIC_SPEED: string := "port_speed"
  const MEMORY: string := "ram"

  function OrElse(s: Option<string>, default: string): string {
    if s.Some? then s.value else default
  }

  predicate IsPrivate(item: Item) {
    Contains(OrElse(item.keyName, ""), "PRIVATE")
  }

  predicate IsPublic(item: Item) {
    Contains(OrElse(item.description, "Public"), "Public")
  }

  predicate IsDedicated(item: Item) {
    Contains(OrElse(item.keyName, ""), "DEDICATED")
  }

  predicate IsDisk(code: string) {
    HasPrefix(code, "guest_disk")
  }

  /** The switch on the category code. */
  predicate PassesSwitch(item: Item, code: string, w: Wanted) {
    if code == CPU then w.publicCores != IsPrivate(item) && w.dedicatedHost == IsDedicated(item)
    else if code == NIC_SPEED then w.publicNetwork == IsPublic(item) && w.dedicatedHost == IsDedicated(item)
    else if code == MEMORY then w.dedicatedHost == IsDedicated(item)
    else true
  }

  /** The tests of one price against one requested category. */
  predicate Meets(item: Item, code: string, capacity: real, w: Wanted) {
    item.capacity == Some(capacity) && PassesSwitch(item, code, w)
  }

  predicate Offers(p: Price, code: string, options: map<string, real>, w: Wanted) {
    code in options && code in p.categories && Meets(p.item, code, options[code], w)
  }

  function Only(categories: seq<string>, code: string): seq<string> {
    if categories == [] then []
    else if categories[0] == code then [categories[0]] + Only(categories[1..], code)
    else Only(categories[1..], code)
  }

  lemma {:induction false} OnlyMembers(categories: seq<string>, code: string)
    ensures code in Only(categories, code) <==> code in categories
    ensures forall c :: c in Only(categories, code) ==> c == code
    ensures multiset(Only(categories, code))[code] == multiset(categories)[code]
  {
    if categories != [] {
      OnlyMembers(categories[1..], code);
      assert categories == [categories[0]] + categories[1..];
    }
  }

  // ----- the selection as a function of the lists alone

  /** The selected prices, the category each was selected for, the index of the catalogue price it
      was taken from, and the price in hand, whose categories are cut down for a disk. */
  datatype Selection = Selection(prices: seq<Price>, codes: seq<string>, origins: seq<nat>, current: Price)

  predicate Takes(s: Selection, code: string, options: map<string, real>, w: Wanted) {
    code in options && code !in s.codes && Meets(s.current.item, code, options[code], w)
  }

  function Taken(p: Price, code: string): Price {
    if IsDisk(code) then p.(categories := Only(p.categories, code)) else p
  }

  function Consider(s: Selection, i: nat, code: string, options: map<string, real>, w: Wanted): Selection {
    if Takes(s, code, options, w) then
      Selection(s.prices + [Taken(s.current, code)], s.codes + [code], s.origins + [i], Taken(s.current, code))
    else s
  }

  /** After the first j categories of price i. */
  function Within(s: Selection, i: nat, p: Price, j: nat, options: map<string, real>, w: Wanted): Selection
    requires j <= |p.categories|
  {
    if j == 0 then s.(current := p)
    else Consider(Within(s, i, p, j - 1, options, w), i, p.categories[j - 1], options, w)
  }

  const NO_PRICE: Price := Price(0, Item(None, None, None), [])

  /** After the first n prices. */
  function Selected(items: seq<Price>, n: nat, options: map<string, real>, w: Wanted): Selection
    requires n <= |items|
  {
    if n == 0 then Selection([], [], [], NO_PRICE)
    else
      var s := Selected(items, n - 1, options, w);
      Within(s, n - 1, items[n - 1], |items[n - 1].categories|, options, w)
  }

  /** selectProductPricesByCategory. The innermost loop visits the options in any order; the result
      is the same for all of them. */
  method SelectProductPricesByCategory(items: seq<Price>, options: map<string, real>, w: Wanted)
    returns (prices: seq<Price>)
    ensures prices == Selected(items, |items|, options, w).prices
  {
    prices := [];
    var priceCheck: set<string> := {};
    ghost var s := Selection([], [], [], NO_PRICE);
    for i := 0 to |items|
      invariant s == Selected(items, i, options, w)
      invariant prices == s.prices && priceCheck == set c | c in s.codes
    {
      var price := items[i];
      var categories := price.categories;
      s := s.(current := price);
      for j := 0 to |categories|
        invariant s == Within(Selected(items, i, options, w), i, items[i], j, options, w)
        invariant prices == s.prices && priceCheck == (set c | c in s.codes) && price == s.current
      {
        var todo := options.Keys;
        ghost var before := s;
        while todo != {}
          invariant todo <= options.Keys
          invariant s == if categories[j] in todo then before else Consider(before, i, categories[j], options, w)
          invariant categories[j] !in options ==> s == before
          invariant prices == s.prices && priceCheck == (set c | c in s.codes) && price == s.current
        {
          var code :| code in todo;
          todo := todo - {code};
          if code !in priceCheck && price.item.capacity.Some? && categories[j] == code
             && price.item.capacity.value == options[code] && PassesSwitch(price.item, code, w)
          {
            if IsDisk(code) {
              price := price.(categories := Only(price.categories, code));
            }
            prices := prices + [price];
            priceCheck := priceCheck + {code};
            s := Consider(s, i, code, options, w);
          }
        }
      }
    }
  }

  // ----- what is selected

  /** Price i is the first of the first n that offers the category. */
  ghost predicate FirstOffer(items: seq<Price>, i: nat, code: string, options: map<string, real>, w: Wanted) {
    i < |items| && Offers(items[i], code, options, w)
    && forall k :: 0 <= k < i ==> !Offers(items[k], code, options, w)
  }

  /** Each selected entry is for a category of its own, from the first price that offers it. */
  ghost predicate Sound(s: Selection, items: seq<Price>, options: map<string, real>, w: Wanted) {
    && |s.prices| == |s.codes| == |s.origins|
    && (forall a, b :: 0 <= a < b < |s.codes| ==> s.codes[a] != s.codes[b])
    && (forall a :: 0 <= a < |s.codes| ==> FirstOffer(items, s.origins[a], s.codes[a], options, w))
    && (forall a :: 0 <= a < |s.codes| ==>
          s.prices[a].id == items[s.origins[a]].id && s.prices[a].item == items[s.origins[a]].item)
  }

  /** Every category offered by one of the first n prices is selected. */
  ghost predicate Complete(s: Selection, items: seq<Price>, n: nat, options: map<string, real>, w: Wanted)
    requires n <= |items|
  {
    forall i, code :: 0 <= i < n && Offers(items[i], code, options, w) ==> code in s.codes
  }

  ghost predicate CompleteWithin(s: Selection, p: Price, j: nat, options: map<string, real>, w: Wanted)
    requires j <= |p.categories|
  {
    forall k :: 0 <= k < j && Offers(p, p.categories[k], options, w) ==> p.categories[k] in s.codes
  }

  lemma {:induction false} WithinSelects(s: Selection, items: seq<Price>, i: nat, j: nat, options: map<string, real>,
                                         w: Wanted)
    requires i < |items| && j <= |items[i].categories|
    requires Sound(s, items, options, w) && Complete(s, items, i, options, w)
    ensures var t := Within(s, i, items[i], j, options, w);
            && Sound(t, items, options, w) && Complete(t, items, i, options, w)
            && CompleteWithin(t, items[i], j, options, w)
            && t.current.id == items[i].id && t.current.item == items[i].item
  {
    if j > 0 {
      WithinSelects(s, items, i, j - 1, options, w);
      var t := Within(s, i, items[i], j - 1, options, w);
      var code := items[i].categories[j - 1];
      if Takes(t, code, options, w) {
        assert FirstOffer(items, i, code, options, w);
      }
    }
  }

  lemma {:induction false} SelectedIsSound(items: seq<Price>, n: nat, options: map<string, real>, w: Wanted)
    requires n <= |items|
    ensures Sound(Selected(items, n, options, w), items, options, w)
    ensures Complete(Selected(items, n, options, w), items, n, options, w)
  {
    if n > 0 {
      SelectedIsSound(items, n - 1, options, w);
      var p := items[n - 1];
      WithinSelects(Selected(items, n - 1, options, w), items, n - 1, |p.categories|, options, w);
      var t := Selected(items, n, options, w);
      forall code | Offers(p, code, options, w) ensures code in t.codes {
        var k :| 0 <= k < |p.categories| && p.categories[k] == code;
        assert Offers(p, p.categories[k], options, w);
      }
    }
  }

  /** At most one price for each requested category; one exactly if some price meets its tests; and
      then the first such price of the list. */
  lemma SelectionCorrect(items: seq<Price>, options: map<string, real>, w: Wanted, code: string)
    ensures var s := Selected(items, |items|, options, w);
            && |s.prices| == |s.codes| == |s.origins|
            && (code in s.codes <==> exists i :: 0 <= i < |items| && Offers(items[i], code, options, w))
            && (forall a, b :: 0 <= a < b < |s.codes| ==> s.codes[a] != s.codes[b])
            && (forall a :: 0 <= a < |s.codes| && s.codes[a] == code ==>
                  FirstOffer(items, s.origins[a], code, options, w)
                  && s.prices[a].id == items[s.origins[a]].id && s.prices[a].item == items[s.origins[a]].item)
  {
    SelectedIsSound(items, |items|, options, w);
    var s := Selected(items, |items|, options, w);
    if code in s.codes {
      var a :| 0 <= a < |s.codes| && s.codes[a] == code;
      assert FirstOffer(items, s.origins[a], code, options, w);
    }
  }

  /** What was asked for in terms of the item: its capacity and the words in its key name and description. */
  ghost predicate Fits(item: Item, code: string, capacity: real, w: Wanted) {
    var keyName := if item.keyName.Some? then item.keyName.value else "";
    var description := if item.description.Some? then item.description.value else "Public";
    && item.capacity == Some(capacity)
    && (code == "guest_core" ==> (Occurs(keyName, "PRIVATE") <==> !w.publicCores))
    && (code == "port_speed" ==> (Occurs(description, "Public") <==> w.publicNetwork))
    && (code == "guest_core" || code == "port_speed" || code == "ram" ==>
          (Occurs(keyName, "DEDICATED") <==> w.dedicatedHost))
  }

  lemma MeetsIffFits(item: Item, code: string, capacity: real, w: Wanted)
    ensures Meets(item, code, capacity, w) <==> Fits(item, code, capacity, w)
  {
    ContainsIffOccurs(OrElse(item.keyName, ""), "PRIVATE");
    ContainsIffOccurs(OrElse(item.keyName, ""), "DEDICATED");
    ContainsIffOccurs(OrElse(item.description, "Public"), "Public");
  }

  /** Every selected price is for a requested category that it listed, and fits what was asked for. */
  lemma SelectedFits(items: seq<Price>, options: map<string, real>, w: Wanted, a: nat)
    requires a < |Selected(items, |items|, options, w).codes|
    ensures var s := Selected(items, |items|, options, w);
            && |s.prices| == |s.codes| == |s.origins| && s.codes[a] in options && s.origins[a] < |items|
            && s.codes[a] in items[s.origins[a]].categories
            && s.prices[a].id == items[s.origins[a]].id && s.prices[a].item == items[s.origins[a]].item
            && Fits(s.prices[a].item, s.codes[a], options[s.codes[a]], w)
  {
    SelectedIsSound(items, |items|, options, w);
    var s := Selected(items, |items|, options, w);
    assert FirstOffer(items, s.origins[a], s.codes[a], options, w);
    MeetsIffFits(s.prices[a].item, s.codes[a], options[s.codes[a]], w);
  }

  /** A price that lists a requested category and fits makes the category selected, from it or from an
      earlier price. */
  lemma FittingIsSelected(items: seq<Price>, options: map<string, real>, w: Wanted, i: nat, code: string)
    requires i < |items| && code in options && code in items[i].categories
    requires Fits(items[i].item, code, options[code], w)
    ensures var s := Selected(items, |items|, options, w);
            |s.codes| == |s.origins| && exists a :: 0 <= a < |s.codes| && s.codes[a] == code && s.origins[a] <= i
  {
    MeetsIffFits(items[i].item, code, options[code], w);
    assert Offers(items[i], code, options, w);
    SelectedIsSound(items, |items|, options, w);
    var s := Selected(items, |items|, options, w);
    assert code in s.codes;
    var a :| 0 <= a < |s.codes| && s.codes[a] == code;
    assert FirstOffer(items, s.origins[a], code, options, w);
  }

  // ----- the categories left on a selected price

  /** An earlier entry was taken from the same price for a disk. */
  ghost predicate CutBefore(s: Selection, a: nat, i: nat) {
    exists b :: 0 <= b < a && b < |s.codes| && b < |s.origins| && s.origins[b] == i && IsDisk(s.codes[b])
  }

  /** While price i is in hand: it is whole until a disk is taken from it, and then it lists only
      categories that are taken already. */
  ghost predicate InHand(s: Selection, i: nat, p: Price) {
    && |s.prices| == |s.codes| == |s.origins|
    && (!CutBefore(s, |s.codes|, i) ==> s.current == p)
    && (CutBefore(s, |s.codes|, i) ==> forall c :: c in s.current.categories ==> c in s.codes)
  }

  ghost predicate Labelled(s: Selection) {
    forall a :: 0 <= a < |s.codes| && a < |s.prices| && a < |s.origins| ==>
      (s.codes[a] in s.prices[a].categories <==> !CutBefore(s, a, s.origins[a]))
  }

  lemma CutBeforePrefix(s: Selection, t: Selection, a: nat, i: nat)
    requires s.codes <= t.codes && s.origins <= t.origins && a <= |s.codes| == |s.origins|
    ensures CutBefore(t, a, i) == CutBefore(s, a, i)
  {
    if CutBefore(s, a, i) {
      var b :| 0 <= b < a && s.origins[b] == i && IsDisk(s.codes[b]);
      assert t.origins[b] == i && IsDisk(t.codes[b]);
    }
    if CutBefore(t, a, i) {
      var b :| 0 <= b < a && b < |t.codes| && b < |t.origins| && t.origins[b] == i && IsDisk(t.codes[b]);
      assert s.origins[b] == i && IsDisk(s.codes[b]);
    }
  }

  lemma ConsiderLabels(s: Selection, i: nat, p: Price, code: string, options: map<string, real>, w: Wanted)
    requires InHand(s, i, p) && Labelled(s) && code in p.categories
    ensures InHand(Consider(s, i, code, options, w), i, p) && Labelled(Consider(s, i, code, options, w))
  {
    if Takes(s, code, options, w) {
      var t := Consider(s, i, code, options, w);
      var n := |s.codes|;
      OnlyMembers(s.current.categories, code);
      forall a, k: nat | 0 <= a <= n ensures CutBefore(t, a, k) == CutBefore(s, a, k) {
        CutBeforePrefix(s, t, a, k);
      }
      if IsDisk(code) {
        assert t.origins[n] == i && IsDisk(t.codes[n]);
        assert CutBefore(t, n + 1, i);
      } else {
        assert CutBefore(t, n + 1, i) == CutBefore(s, n, i);
      }
    }
  }

  ghost predicate OriginsBelow(s: Selection, n: nat) {
    forall a :: 0 <= a < |s.origins| ==> s.origins[a] < n
  }

  lemma {:induction false} WithinLabels(s: Selection, i: nat, p: Price, j: nat, options: map<string, real>, w: Wanted)
    requires j <= |p.categories| && |s.prices| == |s.codes| == |s.origins| && Labelled(s)
    requires OriginsBelow(s, i)
    ensures InHand(Within(s, i, p, j, options, w), i, p) && Labelled(Within(s, i, p, j, options, w))
    ensures OriginsBelow(Within(s, i, p, j, options, w), i + 1)
  {
    if j == 0 {
      var t := s.(current := p);
      forall a, k: nat | 0 <= a <= |s.codes| ensures CutBefore(t, a, k) == CutBefore(s, a, k) {
        CutBeforePrefix(s, t, a, k);
      }
    } else {
      WithinLabels(s, i, p, j - 1, options, w);
      ConsiderLabels(Within(s, i, p, j - 1, options, w), i, p, p.categories[j - 1], options, w);
    }
  }

  lemma {:induction false} SelectedLabels(items: seq<Price>, n: nat, options: map<string, real>, w: Wanted)
    requires n <= |items|
    ensures var s := Selected(items, n, options, w);
            && |s.prices| == |s.codes| == |s.origins| && Labelled(s)
            && OriginsBelow(s, n)
  {
    if n > 0 {
      SelectedLabels(items, n - 1, options, w);
      WithinLabels(Selected(items, n - 1, options, w), n - 1, items[n - 1], |items[n - 1].categories|, options, w);
    }
  }

  /** An entry taken before any disk from its price is the whole price, or its disk's part of it. */
  ghost predicate Uncut(s: Selection, items: seq<Price>) {
    forall a :: 0 <= a < |s.codes| && a < |s.prices| && a < |s.origins| ==>
      s.origins[a] < |items|
      && (!CutBefore(s, a, s.origins[a]) ==> s.prices[a] == Taken(items[s.origins[a]], s.codes[a]))
  }

  lemma ConsiderUncut(s: Selection, items: seq<Price>, i: nat, code: string, options: map<string, real>, w: Wanted)
    requires i < |items| && InHand(s, i, items[i]) && Uncut(s, items)
    ensures Uncut(Consider(s, i, code, options, w), items)
  {
    if Takes(s, code, options, w) {
      var t := Consider(s, i, code, options, w);
      forall a, k: nat | 0 <= a <= |s.codes| ensures CutBefore(t, a, k) == CutBefore(s, a, k) {
        CutBeforePrefix(s, t, a, k);
      }
    }
  }

  lemma {:induction false} WithinUncut(s: Selection, items: seq<Price>, i: nat, j: nat, options: map<string, real>,
                                       w: Wanted)
    requires i < |items| && j <= |items[i].categories| && |s.prices| == |s.codes| == |s.origins|
    requires Labelled(s) && OriginsBelow(s, i) && Uncut(s, items)
    ensures Uncut(Within(s, i, items[i], j, options, w), items)
  {
    if j == 0 {
      var t := s.(current := items[i]);
      forall a, k: nat | 0 <= a <= |s.codes| ensures CutBefore(t, a, k) == CutBefore(s, a, k) {
        CutBeforePrefix(s, t, a, k);
      }
    } else {
      WithinUncut(s, items, i, j - 1, options, w);
      WithinLabels(s, i, items[i], j - 1, options, w);
      ConsiderUncut(Within(s, i, items[i], j - 1, options, w), items, i, items[i].categories[j - 1], options, w);
    }
  }

  lemma {:induction false} SelectedUncut(items: seq<Price>, n: nat, options: map<string, real>, w: Wanted)
    requires n <= |items|
    ensures Uncut(Selected(items, n, options, w), items)
  {
    if n > 0 {
      SelectedUncut(items, n - 1, options, w);
      SelectedLabels(items, n - 1, options, w);
      WithinUncut(Selected(items, n - 1, options, w), items, n - 1, |items[n - 1].categories|, options, w);
    }
  }

  // ----- the order of the entries taken from one price

  /** The position of the first `code`, or the length if there is none. */
  function Position(categories: seq<string>, code: string): (k: nat)
    ensures k <= |categories| && code !in categories[..k]
    ensures k < |categories| ==> categories[k] == code
    decreases |categories|
  {
    if categories == [] || categories[0] == code then 0
    else
      var k := 1 + Position(categories[1..], code);
      assert categories[..k] == [categories[0]] + categories[1..][..k - 1];
      k
  }

  lemma {:induction false} PositionOfEntry(categories: seq<string>, j: nat)
    requires j < |categories|
    ensures Position(categories, categories[j]) <= j
  {
    if categories[0] != categories[j] {
      PositionOfEntry(categories[1..], j - 1);
    }
  }

  ghost predicate Located(s: Selection, items: seq<Price>, n: nat) {
    |s.codes| == |s.origins| && OriginsBelow(s, n) && n <= |items|
  }

  /** Entries taken from the same price are in the order of its categories. */
  ghost predicate InCategoryOrder(s: Selection, items: seq<Price>)
    requires Located(s, items, |items|)
  {
    forall a, b :: 0 <= b < a < |s.codes| && s.origins[a] == s.origins[b] ==>
      Position(items[s.origins[a]].categories, s.codes[b]) < Position(items[s.origins[a]].categories, s.codes[a])
  }

  /** What was taken from price i so far is among its first j categories. */
  ghost predicate TakenBefore(s: Selection, items: seq<Price>, i: nat, j: nat)
    requires i < |items| && |s.codes| == |s.origins|
  {
    forall a :: 0 <= a < |s.codes| && s.origins[a] == i ==> Position(items[i].categories, s.codes[a]) < j
  }

  /** A category that is taken when the loop comes to it was not met before on that price. */
  lemma FirstMeeting(s: Selection, p: Price, j: nat, options: map<string, real>, w: Wanted)
    requires j < |p.categories| && s.current.item == p.item
    requires CompleteWithin(s, p, j, options, w) && Takes(s, p.categories[j], options, w)
    ensures Position(p.categories, p.categories[j]) == j
  {
    var k := Position(p.categories, p.categories[j]);
    PositionOfEntry(p.categories, j);
    if k < j {
      assert Offers(p, p.categories[k], options, w);
    }
  }

  lemma ConsiderInOrder(t: Selection, items: seq<Price>, i: nat, j: nat, options: map<string, real>, w: Wanted)
    requires i < |items| && j < |items[i].categories| && t.current.item == items[i].item
    requires CompleteWithin(t, items[i], j, options, w)
    requires Located(t, items, i + 1) && InCategoryOrder(t, items) && TakenBefore(t, items, i, j)
    ensures var u := Consider(t, i, items[i].categories[j], options, w);
            Located(u, items, i + 1) && InCategoryOrder(u, items) && TakenBefore(u, items, i, j + 1)
  {
    if Takes(t, items[i].categories[j], options, w) {
      FirstMeeting(t, items[i], j, options, w);
    }
  }

  lemma NoneTakenYet(s: Selection, items: seq<Price>, i: nat)
    requires i < |items| && Located(s, items, i) && InCategoryOrder(s, items)
    ensures var t := s.(current := items[i]);
            Located(t, items, i + 1) && InCategoryOrder(t, items) && TakenBefore(t, items, i, 0)
  {
  }

  lemma {:induction false} WithinInOrder(s: Selection, items: seq<Price>, i: nat, j: nat, options: map<string, real>,
                                         w: Wanted)
    requires i < |items| && j <= |items[i].categories|
    requires Sound(s, items, options, w) && Complete(s, items, i, options, w)
    requires Located(s, items, i) && InCategoryOrder(s, items)
    ensures var t := Within(s, i, items[i], j, options, w);
            Located(t, items, i + 1) && InCategoryOrder(t, items) && TakenBefore(t, items, i, j)
    decreases j
  {
    if j == 0 {
      NoneTakenYet(s, items, i);
    } else {
      WithinInOrder(s, items, i, j - 1, options, w);
      WithinCompletes(s, items, i, j - 1, options, w);
      ConsiderInOrder(Within(s, i, items[i], j - 1, options, w), items, i, j - 1, options, w);
    }
  }

  lemma WithinCompletes(s: Selection, items: seq<Price>, i: nat, j: nat, options: map<string, real>, w: Wanted)
    requires i < |items| && j <= |items[i].categories|
    requires Sound(s, items, options, w) && Complete(s, items, i, options, w)
    ensures var t := Within(s, i, items[i], j, options, w);
            CompleteWithin(t, items[i], j, options, w) && t.current.item == items[i].item
  {
    WithinSelects(s, items, i, j, options, w);
  }

  lemma {:induction false} SelectedInOrder(items: seq<Price>, n: nat, options: map<string, real>, w: Wanted)
    requires n <= |items|
    ensures var s := Selected(items, n, options, w);
            Located(s, items, n) && InCategoryOrder(s, items)
  {
    if n > 0 {
      SelectedInOrder(items, n - 1, options, w);
      SelectedIsSound(items, n - 1, options, w);
      WithinInOrder(Selected(items, n - 1, options, w), items, n - 1, |items[n - 1].categories|, options, w);
    }
  }

  /** Price i is also the first to offer a disk that stands before `code` among its categories. */
  ghost predicate DiskBefore(items: seq<Price>, i: nat, code: string, options: map<string, real>, w: Wanted)
    requires i < |items|
  {
    exists d :: HasPrefix(d, "guest_disk") && FirstOffer(items, i, d, options, w)
                && Position(items[i].categories, d) < Position(items[i].categories, code)
  }

  lemma EntryFor(items: seq<Price>, i: nat, code: string, options: map<string, real>, w: Wanted) returns (a: nat)
    requires FirstOffer(items, i, code, options, w)
    ensures var s := Selected(items, |items|, options, w);
            a < |s.codes| == |s.origins| && s.codes[a] == code && s.origins[a] == i
  {
    SelectedIsSound(items, |items|, options, w);
    var s := Selected(items, |items|, options, w);
    assert code in s.codes;
    a :| 0 <= a < |s.codes| && s.codes[a] == code;
    assert FirstOffer(items, s.origins[a], code, options, w);
  }

  lemma CutMeansDisk(items: seq<Price>, s: Selection, a: nat, i: nat, options: map<string, real>, w: Wanted)
    requires Sound(s, items, options, w) && Located(s, items, |items|) && InCategoryOrder(s, items)
    requires a < |s.codes| && s.origins[a] == i && CutBefore(s, a, i)
    ensures DiskBefore(items, i, s.codes[a], options, w)
  {
    var b :| 0 <= b < a && s.origins[b] == i && IsDisk(s.codes[b]);
    assert FirstOffer(items, i, s.codes[b], options, w);
  }

  lemma EarlierCategoryFirst(s: Selection, items: seq<Price>, a: nat, b: nat)
    requires Located(s, items, |items|) && InCategoryOrder(s, items)
    requires a < |s.codes| && b < |s.codes| && s.origins[a] == s.origins[b]
    requires Position(items[s.origins[a]].categories, s.codes[b]) < Position(items[s.origins[a]].categories, s.codes[a])
    ensures b < a
  {
  }

  lemma CutBeforeIffDisk(items: seq<Price>, i: nat, a: nat, options: map<string, real>, w: Wanted)
    requires var s := Selected(items, |items|, options, w);
             a < |s.codes| == |s.origins| && s.origins[a] == i < |items|
    ensures var s := Selected(items, |items|, options, w);
            CutBefore(s, a, i) <==> DiskBefore(items, i, s.codes[a], options, w)
  {
    SelectedIsSound(items, |items|, options, w);
    SelectedInOrder(items, |items|, options, w);
    var s := Selected(items, |items|, options, w);
    var categories := items[i].categories;
    if CutBefore(s, a, i) {
      CutMeansDisk(items, s, a, i, options, w);
    }
    if DiskBefore(items, i, s.codes[a], options, w) {
      var d :| IsDisk(d) && FirstOffer(items, i, d, options, w)
               && Position(categories, d) < Position(categories, s.codes[a]);
      var b := EntryFor(items, i, d, options, w);
      EarlierCategoryFirst(s, items, a, b);
    }
  }

  /** The price selected for a category still lists it, unless it is also the first to offer a disk
      that it lists earlier: then it no longer does. */
  lemma SelectedKeepsCategory(items: seq<Price>, i: nat, code: string, options: map<string, real>, w: Wanted)
    requires FirstOffer(items, i, code, options, w)
    ensures var s := Selected(items, |items|, options, w);
            |s.codes| == |s.prices| == |s.origins|
            && exists a :: 0 <= a < |s.codes| && s.codes[a] == code && s.origins[a] == i
                           && (code in s.prices[a].categories <==> !DiskBefore(items, i, code, options, w))
                           && (!DiskBefore(items, i, code, options, w) ==>
                                 s.prices[a].categories == if HasPrefix(code, "guest_disk")
                                                           then Only(items[i].categories, code)
                                                           else items[i].categories)
  {
    SelectedIsSound(items, |items|, options, w);
    SelectedLabels(items, |items|, options, w);
    SelectedUncut(items, |items|, options, w);
    var a := EntryFor(items, i, code, options, w);
    CutBeforeIffDisk(items, i, a, options, w);
  }

  /** So a price for two disks, if it is the only one, is selected for both but listed as the first. */
  lemma SecondDiskLosesCategory(id: int, item: Item, size: real, w: Wanted)
    requires item.capacity == Some(size)
    ensures var disks := ["guest_disk0", "guest_disk1"];
            var options := map["guest_disk0" := size, "guest_disk1" := size];
            var s := Selected([Price(id, item, disks)], 1, options, w);
            |s.codes| == |s.prices|
            && exists a :: 0 <= a < |s.codes| && s.codes[a] == disks[1] && disks[1] !in s.prices[a].categories
  {
    var disks := ["guest_disk0", "guest_disk1"];
    var options := map["guest_disk0" := size, "guest_disk1" := size];
    var items := [Price(id, item, disks)];
    assert disks[0] == "guest_disk0" && disks[1] == "guest_disk1" && disks[0][10] != disks[1][10];
    assert FirstOffer(items, 0, disks[0], options, w) && FirstOffer(items, 0, disks[1], options, w);
    assert IsDisk(disks[0]) && Position(disks, disks[0]) == 0;
    assert Position(disks, disks[1]) > 0;
    assert DiskBefore(items, 0, disks[1], options, w);
    SelectedKeepsCategory(items, 0, disks[1], options, w);
  }

  // ----- the second disk

  const EPHEMERAL_DISK: string := "guest_disk1"

  /** Go's conversion of a floating-point number to an integer truncates. */
  function Truncate(r: real): int {
    if r >= 0.0 then r.Floor else -(-r).Floor
  }

  /** A price for a second disk; the query fills in its description and capacity. */
  datatype DiskPrice = DiskPrice(id: int, description: string, capacity: real, categories: seq<string>)

  predicate OfType(p: DiskPrice, local: bool) {
    Contains(p.description, if local then "(LOCAL)" else "(SAN)")
  }

  predicate Suits(p: DiskPrice, local: bool, size: int) {
    EPHEMERAL_DISK in p.categories && OfType(p, local) && Truncate(p.capacity) >= size
  }

  /** For a positive size truncation does not matter. */
  lemma TruncateAtLeast(r: real, n: int)
    ensures Truncate(r) >= n <==> if n >= 1 then r >= n as real else r > (n - 1) as real
  {
  }

  /** What suits: a price for the second disk whose description names the type asked for, and that has
      the size. */
  lemma SuitsMeans(p: DiskPrice, local: bool, size: int)
    ensures Suits(p, local, size)
       <==> "guest_disk1" in p.categories && Occurs(p.description, if local then "(LOCAL)" else "(SAN)")
            && (if size >= 1 then p.capacity >= size as real else p.capacity > (size - 1) as real)
  {
    TruncateAtLeast(p.capacity, size);
    ContainsIffOccurs(p.description, if local then "(LOCAL)" else "(SAN)");
  }

  method HasCategory(categories: seq<string>, code: string) returns (flag: bool)
    ensures flag <==> code in categories
  {
    flag := false;
    for j := 0 to |categories|
      invariant !flag && code !in categories[..j]
    {
      if categories[j] == code {
        return true;
      }
    }
  }

  /** getUpgradeItemPriceForSecondDisk over the catalogue: a suitable price of least capacity, the
      last of several; none exactly if no price suits. */
  method SelectSecondDisk(prices: seq<DiskPrice>, local: bool, size: int) returns (r: Option<nat>)
    ensures r.None? <==> forall i :: 0 <= i < |prices| ==> !Suits(prices[i], local, size)
    ensures r.Some? ==> r.value < |prices| && Suits(prices[r.value], local, size)
    ensures r.Some? ==> forall i :: 0 <= i < |prices| && Suits(prices[i], local, size) ==>
              Truncate(prices[r.value].capacity) <= Truncate(prices[i].capacity)
              && (i > r.value ==> Truncate(prices[r.value].capacity) < Truncate(prices[i].capacity))
  {
    r := None;
    var capacity := 0;
    for i := 0 to |prices|
      invariant r.None? <==> forall k :: 0 <= k < i ==> !Suits(prices[k], local, size)
      invariant r.Some? ==> r.value < i && Suits(prices[r.value], local, size)
      invariant r.Some? ==> capacity == Truncate(prices[r.value].capacity)
      invariant r.Some? ==> forall k :: 0 <= k < i && Suits(prices[k], local, size) ==>
                  capacity <= Truncate(prices[k].capacity) && (k > r.value ==> capacity < Truncate(prices[k].capacity))
    {
      var flag := HasCategory(prices[i].categories, EPHEMERAL_DISK);
      if flag && OfType(prices[i], local) {
        if Truncate(prices[i].capacity) >= size {
          if r.None? || capacity >= Truncate(prices[i].capacity) {
            r := Some(i);
            capacity := Truncate(prices[i].capacity);
          }
        }
      }
    }
  }

  // ----- the price with the most operations per second

  datatype IopsPrice = IopsPrice(id: int, location: Option<int>, capacity: real)

  /** The prices for every location, in list order. */
  function Unlocated(prices: seq<IopsPrice>): seq<IopsPrice> {
    if prices == [] then []
    else
      var p := prices[|prices| - 1];
      Unlocated(prices[..|prices| - 1]) + (if p.location.None? then [p] else [])
  }

  lemma {:induction false} UnlocatedMembers(prices: seq<IopsPrice>, p: IopsPrice)
    ensures p in Unlocated(prices) <==> p in prices && p.location.None?
  {
    if prices != [] {
      var n := |prices| - 1;
      assert prices == prices[..n] + [prices[n]];
      UnlocatedMembers(prices[..n], p);
    }
  }

  /** Their order and number are the list's. */
  lemma {:induction false} UnlocatedKeepsOrder(prices: seq<IopsPrice>, p: IopsPrice, more: seq<IopsPrice>)
    ensures Unlocated(prices + [p] + more)
         == Unlocated(prices) + (if p.location == None then [p] else []) + Unlocated(more)
  {
    var all := prices + [p] + more;
    if more == [] {
      assert all[..|all| - 1] == prices;
    } else {
      var n := |more| - 1;
      assert all[..|all| - 1] == prices + [p] + more[..n];
      UnlocatedKeepsOrder(prices, p, more[..n]);
    }
  }

  ghost predicate Ascending(s: seq<IopsPrice>) {
    forall i, j :: 0 <= i < j < |s| ==> s[i].capacity <= s[j].capacity
  }

  /** What a library sort, which need not be stable, may leave in place of `s`. */
  ghost predicate IsSorting(sorted: seq<IopsPrice>, s: seq<IopsPrice>) {
    multiset(sorted) == multiset(s) && Ascending(sorted)
  }

  method ItemsFilter(prices: seq<IopsPrice>) returns (candidates: seq<IopsPrice>)
    ensures candidates == Unlocated(prices)
  {
    candidates := [];
    for i := 0 to |prices|
      invariant candidates == Unlocated(prices[..i])
    {
      assert prices[..i + 1][..i] == prices[..i];
      if prices[i].location.None? {
        candidates := candidates + [prices[i]];
      }
    }
    assert prices[..|prices|] == prices;
  }

  /** selectMaximunIopsItemPriceIdOnSize over the catalogue; `sorted` is what the sort makes of the
      candidates. */
  method SelectMaximumIops(prices: seq<IopsPrice>, sorted: seq<IopsPrice>) returns (r: Option<IopsPrice>)
    requires IsSorting(sorted, Unlocated(prices))
    ensures r.None? <==> forall p :: p in prices ==> p.location.Some?
    ensures r.Some? ==> r.value in prices && r.value.location.None?
    ensures r.Some? ==> forall p :: p in prices && p.location.None? ==> p.capacity <= r.value.capacity
  {
    forall p ensures p in sorted <==> p in prices && p.location.None? {
      UnlocatedMembers(prices, p);
      assert p in sorted <==> p in multiset(sorted);
    }
    var candidates := ItemsFilter(prices);
    assert |sorted| == |multiset(sorted)| == |candidates|;
    if |candidates| > 0 {
      r := Some(sorted[|sorted| - 1]);
      assert r.value in sorted;
    } else {
      r := None;
    }
  }

  ghost predicate CanComeLast(p: IopsPrice, s: seq<IopsPrice>) {
    exists sorted :: IsSorting(sorted, s) && sorted != [] && sorted[|sorted| - 1] == p
  }

  /** The choice among equals is the sort's: a price can come last exactly if it is for every
      location and none of those has more. */
  lemma LastOfSorting(prices: seq<IopsPrice>, p: IopsPrice)
    ensures CanComeLast(p, Unlocated(prices))
       <==> p in prices && p.location.None?
            && forall q :: q in prices && q.location.None? ==> q.capacity <= p.capacity
  {
    forall q ensures q in multiset(Unlocated(prices)) <==> q in prices && q.location.None? {
      UnlocatedMembers(prices, q);
    }
    LastIffMost(p, Unlocated(prices));
  }

  lemma LastIffMost(p: IopsPrice, s: seq<IopsPrice>)
    ensures CanComeLast(p, s) <==> IsMost(p, multiset(s))
  {
    if CanComeLast(p, s) {
      var sorted :| IsSorting(sorted, s) && sorted != [] && sorted[|sorted| - 1] == p;
      LastIsMost(sorted);
    }
    if IsMost(p, multiset(s)) {
      var rest := Sorting(multiset(s) - multiset{p});
      AppendMost(rest, p, multiset(s));
      assert IsSorting(rest + [p], s);
    }
  }

  ghost predicate IsMost(p: IopsPrice, c: multiset<IopsPrice>) {
    p in c && forall q :: q in c ==> q.capacity <= p.capacity
  }

  lemma LastIsMost(sorted: seq<IopsPrice>)
    requires Ascending(sorted) && sorted != []
    ensures IsMost(sorted[|sorted| - 1], multiset(sorted))
  {
    forall q | q in multiset(sorted) ensures q.capacity <= sorted[|sorted| - 1].capacity {
      assert q in sorted;
    }
  }

  lemma AppendMost(rest: seq<IopsPrice>, p: IopsPrice, c: multiset<IopsPrice>)
    requires IsMost(p, c) && multiset(rest) == c - multiset{p} && Ascending(rest)
    ensures multiset(rest + [p]) == c && Ascending(rest + [p])
  {
    forall k | 0 <= k < |rest| ensures rest[k].capacity <= p.capacity {
      assert rest[k] in multiset(rest);
    }
  }

  lemma Sorting(c: multiset<IopsPrice>) returns (sorted: seq<IopsPrice>)
    ensures multiset(sorted) == c && Ascending(sorted)
    decreases |c|
  {
    if c == multiset{} {
      sorted := [];
    } else {
      var p := Most(c);
      var rest := Sorting(c - multiset{p});
      AppendMost(rest, p, c);
      sorted := rest + [p];
    }
  }

  lemma Most(c: multiset<IopsPrice>) returns (p: IopsPrice)
    requires c != multiset{}
    ensures IsMost(p, c)
    decreases |c|
  {
    var q :| q in c;
    p := q;
    if c != multiset{q} {
      var rest := Most(c - multiset{q});
      p := if q.capacity <= rest.capacity then rest else q;
    }
  }
}
