/** The useCart hook as an object: its three pieces of state are fields, each
    exposed operation is a method that replaces them, and the free-gift
    effect is run explicitly at the end of every method that changes the
    list. */
module UseCart {
  import opened CartModel
  import opened CartOps
  import opened GiftRule

  datatype Option<T> = None | Some(value: T)

  class Cart {
    var items: seq<CartItem>
    var isLoading: bool
    var hasFreeDisc: bool

    /** The state the gift rule works on. */
    function State(): CartState
      reads this
    {
      CartState(items, hasFreeDisc)
    }

    /** The gift effect has nothing left to do. */
    ghost predicate Valid()
      reads this
    {
      Settled(State())
    }

    /** Saving to storage is skipped until the initial load has finished. */
    predicate SavesOnChange()
      reads this
    {
      !isLoading
    }

    /** getSubtotal: the left fold of the source, which is the sum of price
        times quantity. */
    function GetSubtotal(): (r: real)
      reads this
      ensures r == Subtotal(items)
    {
      SubtotalFromIsSubtotal(items, 0.0);
      SubtotalFrom(items, 0.0)
    }

    /** getCartCount: the left fold of the source, which is the sum of the
        quantities. */
    function GetCartCount(): (r: nat)
      reads this
      ensures r == CartCount(items)
    {
      CartCountFromIsCartCount(items, 0);
      CartCountFrom(items, 0)
    }

    /** The hook's first render: an empty cart, still loading, no disc given. */
    constructor ()
      ensures Valid()
      ensures items == [] && isLoading && !hasFreeDisc
      ensures !SavesOnChange() && FlagHonest(State())
    {
      items := [];
      isLoading := true;
      hasFreeDisc := false;
    }

    /** The load effect: `saved` is what parsing the stored cart gave, `None`
        when nothing was stored or it could not be read. A loaded list is
        taken as it is and the gift effect then runs on it. */
    method Load(saved: Option<seq<CartItem>>, pick: DiscIndex)
      modifies this
      ensures !isLoading && SavesOnChange()
      ensures old(!hasFreeDisc) ==> FlagHonest(State())
      ensures saved.None? ==> items == old(items) && hasFreeDisc == old(hasFreeDisc)
      ensures saved.Some? ==> State() == GiftStep(CartState(saved.value, old(hasFreeDisc)), pick)
      ensures saved.Some? || old(Valid()) ==> Valid()
    {
      if saved.Some? {
        items := saved.value;
        ApplyGiftRule(pick);
      }
      isLoading := false;
    }

    /** addFreeMusicDisc. */
    method AddFreeMusicDisc(pick: DiscIndex)
      modifies this
      ensures State() == WithFreeDisc(old(State()), pick)
      ensures isLoading == old(isLoading)
    {
      if hasFreeDisc {
        return;
      }
      items := items + [FreeDisc(pick)];
      hasFreeDisc := true;
    }

    /** removeFreeMusicDisc. */
    method RemoveFreeMusicDisc()
      modifies this
      ensures State() == WithoutFreeDisc(old(State()))
      ensures isLoading == old(isLoading)
    {
      items := RemoveGifts(items);
      hasFreeDisc := false;
    }

    /** The threshold effect; afterwards it has nothing left to do. */
    method ApplyGiftRule(pick: DiscIndex)
      modifies this
      ensures State() == GiftStep(old(State()), pick)
      ensures Valid()
      ensures isLoading == old(isLoading)
      ensures old(FlagHonest(State())) ==> FlagHonest(State())
    {
      var subtotal := GetSubtotal();
      var hasDisc := HasGift(items);
      if subtotal >= Threshold && !hasDisc {
        AddFreeMusicDisc(pick);
      } else if subtotal < Threshold && hasDisc {
        RemoveFreeMusicDisc();
      }
      GiftStepSettles(old(State()), pick);
    }

    /** addToCart, followed by the gift effect. */
    method AddToCart(item: NewItem, pick: DiscIndex)
      modifies this
      ensures State() == GiftStep(CartState(AddToItems(old(items), item), old(hasFreeDisc)), pick)
      ensures Valid()
      ensures isLoading == old(isLoading)
      ensures old(WellFormed(items)) && (item.isFreeGift <==> NewKeyOf(item) == GiftKey)
              ==> WellFormed(items)
      ensures old(FlagHonest(State())) ==> FlagHonest(State())
    {
      ghost var before := items;
      items := AddToItems(items, item);
      ghost var added := items;
      ApplyGiftRule(pick);
      if WellFormed(before) && (item.isFreeGift <==> NewKeyOf(item) == GiftKey) {
        AddWellFormed(before, item);
        GiftStepWellFormed(CartState(added, old(hasFreeDisc)), pick);
      }
    }

    /** updateQuantity, followed by the gift effect; a quantity below 1 is
        ignored without touching the cart. */
    method UpdateQuantity(itemId: int, gender: Gender, category: string, size: string,
                          newQuantity: int, pick: DiscIndex)
      modifies this
      ensures newQuantity < 1 ==> items == old(items) && hasFreeDisc == old(hasFreeDisc)
      ensures newQuantity >= 1 ==>
        State() == GiftStep(CartState(SetQuantity(old(items), Key(itemId, gender, category, size), newQuantity),
                                      old(hasFreeDisc)), pick)
      ensures newQuantity >= 1 || old(Valid()) ==> Valid()
      ensures isLoading == old(isLoading)
      ensures old(WellFormed(items)) ==> WellFormed(items)
      ensures old(FlagHonest(State())) ==> FlagHonest(State())
    {
      if newQuantity < 1 {
        return;
      }
      ghost var before := items;
      var key := Key(itemId, gender, category, size);
      items := SetQuantity(items, key, newQuantity);
      ghost var updated := items;
      if HasGift(before) {
        SetQuantityKeepsGift(before, key, newQuantity);
      }
      ApplyGiftRule(pick);
      if WellFormed(before) {
        SetQuantityWellFormed(before, key, newQuantity);
        GiftStepWellFormed(CartState(updated, old(hasFreeDisc)), pick);
      }
    }

    /** removeItem, followed by the gift effect. */
    method RemoveItem(itemId: int, gender: Gender, category: string, size: string, pick: DiscIndex)
      modifies this
      ensures State() == GiftStep(CartState(RemoveMatching(old(items), Key(itemId, gender, category, size)),
                                            old(hasFreeDisc)), pick)
      ensures Valid()
      ensures isLoading == old(isLoading)
      ensures old(WellFormed(items)) ==> WellFormed(items)
      ensures old(FlagHonest(State()) && GiftKeyReserved(items)) && Key(itemId, gender, category, size) != GiftKey
              ==> FlagHonest(State())
    {
      ghost var before := items;
      var key := Key(itemId, gender, category, size);
      items := RemoveMatching(items, key);
      if GiftKeyReserved(before) && key != GiftKey && HasGift(before) {
        RemoveOtherKeepsGift(before, key);
      }
      ghost var kept := items;
      ApplyGiftRule(pick);
      if WellFormed(before) {
        RemoveMatchingWellFormed(before, key);
        GiftStepWellFormed(CartState(kept, old(hasFreeDisc)), pick);
      }
    }

    /** clearCart: no lines, no disc, nothing to pay. The gift effect that
        follows finds an empty cart below the threshold and does nothing, so
        the flavour it is handed never matters. */
    method ClearCart()
      modifies this
      ensures items == [] && !hasFreeDisc && FlagHonest(State())
      ensures GetSubtotal() == 0.0 && GetCartCount() == 0
      ensures Valid()
      ensures isLoading == old(isLoading)
    {
      items := [];
      hasFreeDisc := false;
      ApplyGiftRule(0);
    }
  }
}
