/** The list updates behind addToCart, updateQuantity and removeItem, as
    pure functions from the old list of line items to the new one, with the
    properties each one keeps. */
module CartOps {
  import opened CartModel

  /** A line matches a key when its id, gender, category and size are the key's. */
  predicate Matches(item: CartItem, key: Key) {
    KeyOf(item) == key
  }

  /** `findIndex` on the identity key: the first matching position, or -1. */
  function FindIndex(items: seq<CartItem>, key: Key): (r: int)
    ensures -1 <= r < |items|
    ensures r == -1 <==> forall i :: 0 <= i < |items| ==> !Matches(items[i], key)
    ensures 0 <= r ==> Matches(items[r], key)
    ensures forall i :: 0 <= i < r ==> !Matches(items[i], key)
  {
    if items == [] then -1
    else if Matches(items[0], key) then 0
    else
      var r := FindIndex(items[1..], key);
      if r == -1 then -1 else r + 1
  }

  /** The new list addToCart computes: the first line with the same key gets
      one more unit, otherwise the item is appended with quantity 1. */
  function AddToItems(items: seq<CartItem>, item: NewItem): (r: seq<CartItem>)
    ensures |items| <= |r| <= |items| + 1
    ensures exists j :: 0 <= j < |r| && Matches(r[j], NewKeyOf(item))
    ensures HasGift(items) ==> HasGift(r)
  {
    var i := FindIndex(items, NewKeyOf(item));
    if i >= 0 then
      var r := items[i := items[i].(quantity := items[i].quantity + 1)];
      assert Matches(r[i], NewKeyOf(item));
      assert forall j :: 0 <= j < |r| ==> r[j].isFreeGift == items[j].isFreeGift;
      r
    else
      var r := items + [item.WithQuantity(1)];
      assert Matches(r[|items|], NewKeyOf(item));
      assert forall j :: 0 <= j < |items| ==> r[j] == items[j];
      r
  }

  /** The `map` of updateQuantity: every line with the key gets quantity `q`. */
  function SetQuantity(items: seq<CartItem>, key: Key, q: nat): (r: seq<CartItem>)
    ensures |r| == |items|
    ensures forall i :: 0 <= i < |r| ==> KeyOf(r[i]) == KeyOf(items[i]) && r[i].isFreeGift == items[i].isFreeGift
  {
    if items == [] then []
    else [if Matches(items[0], key) then items[0].(quantity := q) else items[0]]
         + SetQuantity(items[1..], key, q)
  }

  /** The `filter` of removeItem: drop every line with the key. */
  function RemoveMatching(items: seq<CartItem>, key: Key): (r: seq<CartItem>)
    ensures |r| <= |items|
    ensures forall i :: 0 <= i < |r| ==> !Matches(r[i], key)
  {
    if items == [] then []
    else (if Matches(items[0], key) then [] else [items[0]]) + RemoveMatching(items[1..], key)
  }

  // ---------------------------------------------------------------- addToCart

  /** Re-adding an existing line: same length, that line gains exactly one
      unit and keeps every stored field (the incoming name and price are
      dropped), and every other line is untouched. */
  lemma {:induction false} AddToExisting(items: seq<CartItem>, item: NewItem, i: nat)
    requires i < |items| && Matches(items[i], NewKeyOf(item))
    requires forall j :: 0 <= j < i ==> !Matches(items[j], NewKeyOf(item))
    ensures |AddToItems(items, item)| == |items|
    ensures AddToItems(items, item)[i] == items[i].(quantity := items[i].quantity + 1)
    ensures forall j :: 0 <= j < |items| && j != i ==> AddToItems(items, item)[j] == items[j]
  {
    assert FindIndex(items, NewKeyOf(item)) == i;
  }

  /** Adding an item whose key is absent appends it with quantity 1 and
      leaves the existing prefix as it was. */
  lemma {:induction false} AddToAbsent(items: seq<CartItem>, item: NewItem)
    requires forall j :: 0 <= j < |items| ==> !Matches(items[j], NewKeyOf(item))
    ensures AddToItems(items, item) == items + [item.WithQuantity(1)]
    ensures AddToItems(items, item)[..|items|] == items
  {
  }

  /** Adding the same item twice to a cart without its key gives one line of
      quantity 2, not two lines. */
  lemma {:induction false} AddTwice(items: seq<CartItem>, item: NewItem)
    requires forall j :: 0 <= j < |items| ==> !Matches(items[j], NewKeyOf(item))
    ensures AddToItems(AddToItems(items, item), item) == items + [item.WithQuantity(2)]
  {
    var once := items + [item.WithQuantity(1)];
    AddToAbsent(items, item);
    AddToExisting(once, item, |items|);
  }

  /** Every addToCart raises the item count by exactly one. */
  lemma {:induction false} AddCount(items: seq<CartItem>, item: NewItem)
    ensures CartCount(AddToItems(items, item)) == CartCount(items) + 1
  {
    var i := FindIndex(items, NewKeyOf(item));
    if i >= 0 {
      CartCountUpdate(items, i, items[i].(quantity := items[i].quantity + 1));
    } else {
      CartCountAppend(items, [item.WithQuantity(1)]);
    }
  }

  /** Every addToCart raises the subtotal by one unit price: the stored one
      when the line existed, the incoming one otherwise. */
  lemma {:induction false} AddSubtotal(items: seq<CartItem>, item: NewItem)
    ensures var i := FindIndex(items, NewKeyOf(item));
            Subtotal(AddToItems(items, item))
              == Subtotal(items) + (if i >= 0 then items[i].price else item.price)
  {
    var i := FindIndex(items, NewKeyOf(item));
    if i >= 0 {
      var x := items[i].(quantity := items[i].quantity + 1);
      SubtotalUpdate(items, i, x);
      var p, n := items[i].price, items[i].quantity as real;
      assert x.quantity as real == n + 1.0;
      assert p * (n + 1.0) == p * n + p;
      assert LineTotal(x) == LineTotal(items[i]) + p;
    } else {
      SubtotalAppend(items, [item.WithQuantity(1)]);
    }
  }

  /** addToCart keeps at most one line per key; it also keeps the gift key
      reserved for gift lines when the incoming item respects that itself. */
  lemma {:induction false} AddWellFormed(items: seq<CartItem>, item: NewItem)
    requires UniqueKeys(items)
    ensures UniqueKeys(AddToItems(items, item))
    ensures GiftKeyReserved(items) && (item.isFreeGift <==> NewKeyOf(item) == GiftKey)
            ==> GiftKeyReserved(AddToItems(items, item))
  {
    var r := AddToItems(items, item);
    var i := FindIndex(items, NewKeyOf(item));
    if i >= 0 {
      assert forall j :: 0 <= j < |r| ==> KeyOf(r[j]) == KeyOf(items[j]) && r[j].isFreeGift == items[j].isFreeGift;
    } else {
      assert forall j :: 0 <= j < |items| ==> r[j] == items[j];
    }
  }

  // ----------------------------------------------------------- updateQuantity

  /** updateQuantity's `map`: same length and order; matching lines get
      quantity `q` exactly (not added to), every other line is untouched. */
  lemma {:induction false} SetQuantityAt(items: seq<CartItem>, key: Key, q: nat)
    ensures |SetQuantity(items, key, q)| == |items|
    ensures forall i :: 0 <= i < |items| ==>
      SetQuantity(items, key, q)[i]
        == if Matches(items[i], key) then items[i].(quantity := q) else items[i]
  {
    if items != [] {
      SetQuantityAt(items[1..], key, q);
    }
  }

  /** A key with no line is a silent no-op. */
  lemma {:induction false} SetQuantityAbsent(items: seq<CartItem>, key: Key, q: nat)
    requires forall i :: 0 <= i < |items| ==> !Matches(items[i], key)
    ensures SetQuantity(items, key, q) == items
  {
    SetQuantityAt(items, key, q);
  }

  /** Setting the quantity twice is the same as setting it once: the update
      replaces rather than accumulates. */
  lemma {:induction false} SetQuantityIdempotent(items: seq<CartItem>, key: Key, q: nat)
    ensures SetQuantity(SetQuantity(items, key, q), key, q) == SetQuantity(items, key, q)
  {
    var once := SetQuantity(items, key, q);
    SetQuantityAt(items, key, q);
    SetQuantityAt(once, key, q);
  }

  /** Keys and gift flags are untouched, so the cart's shape is kept. */
  lemma {:induction false} SetQuantityWellFormed(items: seq<CartItem>, key: Key, q: nat)
    requires WellFormed(items)
    ensures WellFormed(SetQuantity(items, key, q))
  {
    SetQuantityAt(items, key, q);
  }

  // --------------------------------------------------------------- removeItem

  /** removeItem's `filter` keeps exactly the lines without the key; in
      particular no line with the key is left. */
  lemma {:induction false} RemoveMatchingMembers(items: seq<CartItem>, key: Key)
    ensures forall x :: x in RemoveMatching(items, key) <==> x in items && !Matches(x, key)
  {
    if items != [] {
      RemoveMatchingMembers(items[1..], key);
      assert items == [items[0]] + items[1..];
    }
  }

  /** The filter works piecewise, so the kept lines stay in their original
      relative order. */
  lemma {:induction false} RemoveMatchingAppend(a: seq<CartItem>, b: seq<CartItem>, key: Key)
    ensures RemoveMatching(a + b, key) == RemoveMatching(a, key) + RemoveMatching(b, key)
  {
    if a == [] {
      assert a + b == b;
    } else {
      assert (a + b)[1..] == a[1..] + b;
      RemoveMatchingAppend(a[1..], b, key);
    }
  }

  /** A key with no line leaves the cart unchanged. */
  lemma {:induction false} RemoveMatchingAbsent(items: seq<CartItem>, key: Key)
    requires forall i :: 0 <= i < |items| ==> !Matches(items[i], key)
    ensures RemoveMatching(items, key) == items
  {
    if items != [] {
      RemoveMatchingAbsent(items[1..], key);
    }
  }

  /** Exactly the matching lines go: the length drops by their number. */
  lemma {:induction false} RemoveMatchingLength(items: seq<CartItem>, key: Key)
    ensures |RemoveMatching(items, key)| == |items| - MatchCount(items, key)
  {
    if items != [] {
      RemoveMatchingLength(items[1..], key);
    }
  }

  function MatchCount(items: seq<CartItem>, key: Key): nat {
    if items == [] then 0 else (if Matches(items[0], key) then 1 else 0) + MatchCount(items[1..], key)
  }

  /** Dropping lines keeps the cart's shape. */
  lemma {:induction false} RemoveMatchingWellFormed(items: seq<CartItem>, key: Key)
    requires WellFormed(items)
    ensures WellFormed(RemoveMatching(items, key))
  {
    if items != [] {
      var rest := items[1..];
      WellFormedTail(items);
      RemoveMatchingWellFormed(rest, key);
      RemoveMatchingMembers(rest, key);
      var r := RemoveMatching(items, key);
      if !Matches(items[0], key) {
        assert r == [items[0]] + RemoveMatching(rest, key);
        forall j | 0 < j < |r| ensures KeyOf(r[0]) != KeyOf(r[j]) {
          assert r[j] in rest;
          var k :| 0 <= k < |rest| && rest[k] == r[j];
          assert items[k + 1] == r[j];
        }
      }
    }
  }

  // ------------------------------------------------ gift lines that survive

  /** Updating a quantity keeps every gift line a gift line. */
  lemma {:induction false} SetQuantityKeepsGift(items: seq<CartItem>, key: Key, q: nat)
    requires HasGift(items)
    ensures HasGift(SetQuantity(items, key, q))
  {
    var i :| 0 <= i < |items| && items[i].isFreeGift;
    assert SetQuantity(items, key, q)[i].isFreeGift;
  }

  /** Removing any key other than the gift key keeps the gift lines, as long
      as only gift lines carry the gift key. */
  lemma {:induction false} RemoveOtherKeepsGift(items: seq<CartItem>, key: Key)
    requires GiftKeyReserved(items) && key != GiftKey && HasGift(items)
    ensures HasGift(RemoveMatching(items, key))
  {
    var i :| 0 <= i < |items| && items[i].isFreeGift;
    RemoveMatchingMembers(items, key);
    var r := RemoveMatching(items, key);
    assert items[i] in r;
    var k :| 0 <= k < |r| && r[k] == items[i];
    assert r[k].isFreeGift;
  }
}
