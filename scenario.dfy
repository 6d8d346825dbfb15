/** A worked run of the cart: a jacket at 100 added twice, a shirt at 60
    added three times, then the shirt removed. The disc arrives with the
    first shirt (subtotal 260), stays while the subtotal reaches 380 without
    being duplicated, and goes when the subtotal falls back to 200. */
module CartScenario {
  import opened CartModel
  import opened CartOps
  import opened GiftRule

  const Jacket: NewItem := NewItem(1, "Jacket", 100.0, "jacket.jpg", Men, "rock", "M", false)
  const Shirt: NewItem := NewItem(2, "Shirt", 60.0, "shirt.jpg", Men, "rock", "L", false)

  /** Add, then run the effect, as addToCart does. */
  function Add(st: CartState, item: NewItem, pick: DiscIndex): CartState {
    GiftStep(CartState(AddToItems(st.items, item), st.hasFreeDisc), pick)
  }

  /** Two jackets make one line of quantity 2; 200 is below the threshold. */
  lemma {:induction false} JacketTwice(pick: DiscIndex)
    ensures Add(Add(CartState([], false), Jacket, pick), Jacket, pick)
            == CartState([Jacket.WithQuantity(2)], false)
  {
    var j1 := Jacket.WithQuantity(1);
    AddTwice([], Jacket);
    assert Add(CartState([], false), Jacket, pick) == CartState([j1], false);
  }

  /** The first shirt takes the subtotal to 260 and brings the disc. */
  lemma {:induction false} FirstShirt(pick: DiscIndex)
    ensures Add(CartState([Jacket.WithQuantity(2)], false), Shirt, pick)
            == CartState([Jacket.WithQuantity(2), Shirt.WithQuantity(1), FreeDisc(pick)], true)
  {
    var j2 := Jacket.WithQuantity(2);
    var one := [j2, Shirt.WithQuantity(1)];
    AddToAbsent([j2], Shirt);
    assert Subtotal(one) == 260.0 by {
      SubtotalAppend([j2], [Shirt.WithQuantity(1)]);
      assert Subtotal([j2]) == 200.0 by { assert [j2][1..] == []; }
      assert Subtotal([Shirt.WithQuantity(1)]) == 60.0 by { assert [Shirt.WithQuantity(1)][1..] == []; }
    }
    GiftAdded(CartState(one, false), pick);
  }

  /** Further shirts only raise the shirt line; the disc is not duplicated. */
  lemma {:induction false} MoreShirts(pick: DiscIndex, q: nat)
    requires 1 <= q
    ensures Add(CartState([Jacket.WithQuantity(2), Shirt.WithQuantity(q), FreeDisc(pick)], true), Shirt, pick)
            == CartState([Jacket.WithQuantity(2), Shirt.WithQuantity(q + 1), FreeDisc(pick)], true)
  {
    var before := [Jacket.WithQuantity(2), Shirt.WithQuantity(q), FreeDisc(pick)];
    var after := [Jacket.WithQuantity(2), Shirt.WithQuantity(q + 1), FreeDisc(pick)];
    AddToExisting(before, Shirt, 1);
    assert AddToItems(before, Shirt) == after;
    assert HasGift(after) by { assert after[2].isFreeGift; }
    assert Subtotal(after) >= 250.0 by {
      SubtotalAppend([Jacket.WithQuantity(2)], after[1..]);
      assert [Jacket.WithQuantity(2)] + after[1..] == after;
      assert Subtotal([Jacket.WithQuantity(2)]) == 200.0 by { assert [Jacket.WithQuantity(2)][1..] == []; }
      assert LineTotal(Shirt.WithQuantity(q + 1)) >= 60.0;
      SubtotalAppend([Shirt.WithQuantity(q + 1)], [FreeDisc(pick)]);
      assert [Shirt.WithQuantity(q + 1)] + [FreeDisc(pick)] == after[1..];
      assert Subtotal([Shirt.WithQuantity(q + 1)]) == LineTotal(Shirt.WithQuantity(q + 1)) by {
        assert [Shirt.WithQuantity(q + 1)][1..] == [];
      }
    }
  }

  /** Removing the shirts drops the subtotal to 200 and the disc with it. */
  lemma {:induction false} ShirtRemoved(pick: DiscIndex)
    ensures var three := [Jacket.WithQuantity(2), Shirt.WithQuantity(3), FreeDisc(pick)];
            GiftStep(CartState(RemoveMatching(three, NewKeyOf(Shirt)), true), pick)
              == CartState([Jacket.WithQuantity(2)], false)
  {
    var j2 := Jacket.WithQuantity(2);
    var disc := FreeDisc(pick);
    var three := [j2, Shirt.WithQuantity(3), disc];
    assert RemoveMatching(three, NewKeyOf(Shirt)) == [j2, disc] by {
      assert three[1..] == [Shirt.WithQuantity(3), disc];
      assert three[1..][1..] == [disc];
      assert [disc][1..] == [];
      assert !Matches(j2, NewKeyOf(Shirt)) && !Matches(disc, NewKeyOf(Shirt));
      assert RemoveMatching([disc], NewKeyOf(Shirt)) == [disc];
    }
    assert HasGift([j2, disc]) by { assert [j2, disc][1].isFreeGift; }
    assert Subtotal([j2, disc]) == 200.0 by {
      SubtotalAppend([j2], [disc]);
      assert Subtotal([j2]) == 200.0 by { assert [j2][1..] == []; }
      assert Subtotal([disc]) == 0.0 by { assert [disc][1..] == []; }
    }
    GiftRemoved(CartState([j2, disc], true), pick);
    assert RemoveGifts([j2, disc]) == [j2];
  }

  /** The whole run. */
  lemma {:induction false} Scenario(pick: DiscIndex)
    ensures var s1 := Add(Add(CartState([], false), Jacket, pick), Jacket, pick);
            var s2 := Add(Add(Add(s1, Shirt, pick), Shirt, pick), Shirt, pick);
            var s3 := GiftStep(CartState(RemoveMatching(s2.items, NewKeyOf(Shirt)), s2.hasFreeDisc), pick);
            s1.items == [Jacket.WithQuantity(2)]
            && s2 == CartState([Jacket.WithQuantity(2), Shirt.WithQuantity(3), FreeDisc(pick)], true)
            && s3 == CartState([Jacket.WithQuantity(2)], false)
  {
    JacketTwice(pick);
    FirstShirt(pick);
    MoreShirts(pick, 1);
    MoreShirts(pick, 2);
    ShirtRemoved(pick);
  }
}
