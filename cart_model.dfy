/** The data model of the shopping cart: line items, their identity key,
    the two derived sums (subtotal and item count) and the shape invariants
    that the list operations keep. */
module CartModel {

  /** Who a line item is for; `FreeGift` is used only by the promotional disc. */
  datatype Gender = Men | Women | FreeGift

  /** Unit prices are exact and never negative. */
  type Price = r: real | 0.0 <= r

  /** One line of the cart. The source's optional `isFreeGift` flag is
      `false` when absent. */
  datatype CartItem = CartItem(
    id: int,
    name: string,
    price: Price,
    image: string,
    gender: Gender,
    category: string,
    size: string,
    quantity: nat,
    isFreeGift: bool)

  /** What a caller hands to addToCart: a line item without its quantity. */
  datatype NewItem = NewItem(
    id: int,
    name: string,
    price: Price,
    image: string,
    gender: Gender,
    category: string,
    size: string,
    isFreeGift: bool)
  {
    /** The line item `{ ...item, quantity: q }`. */
    function WithQuantity(q: nat): CartItem {
      CartItem(id, name, price, image, gender, category, size, q, isFreeGift)
    }
  }

  /** The identity of a line: quantity, name, price and image play no part. */
  datatype Key = Key(id: int, gender: Gender, category: string, size: string)

  function KeyOf(item: CartItem): Key {
    Key(item.id, item.gender, item.category, item.size)
  }

  function NewKeyOf(item: NewItem): Key {
    Key(item.id, item.gender, item.category, item.size)
  }

  /** The key every free disc carries: id 999, `free-gift`, `disc`, `ONE SIZE`. */
  const GiftKey: Key := Key(999, FreeGift, "disc", "ONE SIZE")

  /** At most one line per identity key. */
  predicate UniqueKeys(items: seq<CartItem>) {
    forall i, j :: 0 <= i < j < |items| ==> KeyOf(items[i]) != KeyOf(items[j])
  }

  /** A line is flagged as a gift exactly when it carries the gift key. */
  predicate GiftKeyReserved(items: seq<CartItem>) {
    forall i :: 0 <= i < |items| ==> (items[i].isFreeGift <==> KeyOf(items[i]) == GiftKey)
  }

  /** The shape a cart built only through the operations keeps. */
  predicate WellFormed(items: seq<CartItem>) {
    UniqueKeys(items) && GiftKeyReserved(items)
  }

  /** What one line costs: its unit price times its quantity. */
  function LineTotal(item: CartItem): (r: real)
    ensures 0.0 <= r
    ensures item.quantity == 0 || item.price == 0.0 <==> r == 0.0
  {
    item.price * item.quantity as real
  }

  /** The sum of price times quantity over the cart, as a specification. */
  function Subtotal(items: seq<CartItem>): (r: real)
    ensures 0.0 <= r
  {
    if items == [] then 0.0 else LineTotal(items[0]) + Subtotal(items[1..])
  }

  /** The sum of the quantities, as a specification. */
  function CartCount(items: seq<CartItem>): (r: nat)
    ensures (forall i :: 0 <= i < |items| ==> items[i].quantity >= 1) ==> r >= |items|
  {
    if items == [] then 0 else items[0].quantity + CartCount(items[1..])
  }

  /** getSubtotal as written: `reduce((sum, item) => sum + item.price * item.quantity, acc)`,
      adding from the left. */
  function SubtotalFrom(items: seq<CartItem>, acc: real): real {
    if items == [] then acc else SubtotalFrom(items[1..], acc + LineTotal(items[0]))
  }

  /** getCartCount as written: `reduce((count, item) => count + item.quantity, acc)`. */
  function CartCountFrom(items: seq<CartItem>, acc: nat): nat {
    if items == [] then acc else CartCountFrom(items[1..], acc + items[0].quantity)
  }

  /** The left fold from `acc` is `acc` plus the sum. */
  lemma {:induction false} SubtotalFromIsSubtotal(items: seq<CartItem>, acc: real)
    ensures SubtotalFrom(items, acc) == acc + Subtotal(items)
  {
    if items != [] {
      SubtotalFromIsSubtotal(items[1..], acc + LineTotal(items[0]));
    }
  }

  lemma {:induction false} CartCountFromIsCartCount(items: seq<CartItem>, acc: nat)
    ensures CartCountFrom(items, acc) == acc + CartCount(items)
  {
    if items != [] {
      CartCountFromIsCartCount(items[1..], acc + items[0].quantity);
    }
  }

  /** Some line carries the gift flag. */
  predicate HasGift(items: seq<CartItem>) {
    exists i :: 0 <= i < |items| && items[i].isFreeGift
  }

  /** How many gift lines the cart holds. */
  function GiftCount(items: seq<CartItem>): nat {
    if items == [] then 0 else (if items[0].isFreeGift then 1 else 0) + GiftCount(items[1..])
  }

  lemma {:induction false} SubtotalAppend(a: seq<CartItem>, b: seq<CartItem>)
    ensures Subtotal(a + b) == Subtotal(a) + Subtotal(b)
  {
    if a != [] {
      assert (a + b)[1..] == a[1..] + b;
      SubtotalAppend(a[1..], b);
    } else {
      assert a + b == b;
    }
  }

  lemma {:induction false} CartCountAppend(a: seq<CartItem>, b: seq<CartItem>)
    ensures CartCount(a + b) == CartCount(a) + CartCount(b)
  {
    if a != [] {
      assert (a + b)[1..] == a[1..] + b;
      CartCountAppend(a[1..], b);
    } else {
      assert a + b == b;
    }
  }

  lemma {:induction false} GiftCountAppend(a: seq<CartItem>, b: seq<CartItem>)
    ensures GiftCount(a + b) == GiftCount(a) + GiftCount(b)
  {
    if a != [] {
      assert (a + b)[1..] == a[1..] + b;
      GiftCountAppend(a[1..], b);
    } else {
      assert a + b == b;
    }
  }

  /** The gift count is zero exactly when no line is a gift. */
  lemma {:induction false} GiftCountZero(items: seq<CartItem>)
    ensures GiftCount(items) == 0 <==> !HasGift(items)
  {
    if items != [] {
      GiftCountZero(items[1..]);
      if HasGift(items[1..]) {
        var i :| 0 <= i < |items[1..]| && items[1..][i].isFreeGift;
        assert items[i + 1].isFreeGift;
      }
      if HasGift(items) && !items[0].isFreeGift {
        var i :| 0 <= i < |items| && items[i].isFreeGift;
        assert items[1..][i - 1].isFreeGift;
      }
    }
  }

  /** Replacing one line changes the count by the difference of the two
      quantities. */
  lemma {:induction false} CartCountUpdate(items: seq<CartItem>, i: nat, x: CartItem)
    requires i < |items|
    ensures CartCount(items[i := x]) + items[i].quantity == CartCount(items) + x.quantity
  {
    if i == 0 {
      assert items[i := x][1..] == items[1..];
    } else {
      assert items[i := x][1..] == items[1..][i - 1 := x];
      CartCountUpdate(items[1..], i - 1, x);
    }
  }

  /** Replacing one line changes the subtotal by the difference of the two
      line totals. */
  lemma {:induction false} SubtotalUpdate(items: seq<CartItem>, i: nat, x: CartItem)
    requires i < |items|
    ensures Subtotal(items[i := x]) + LineTotal(items[i]) == Subtotal(items) + LineTotal(x)
  {
    if i == 0 {
      assert items[i := x][1..] == items[1..];
    } else {
      assert items[i := x][1..] == items[1..][i - 1 := x];
      SubtotalUpdate(items[1..], i - 1, x);
    }
  }

  /** In a well-formed cart there is at most one gift line. */
  lemma {:induction false} WellFormedOneGift(items: seq<CartItem>)
    requires WellFormed(items)
    ensures GiftCount(items) <= 1
  {
    if items != [] {
      var rest := items[1..];
      WellFormedTail(items);
      WellFormedOneGift(rest);
      if items[0].isFreeGift {
        assert !HasGift(rest) by {
          forall i | 0 <= i < |rest| ensures !rest[i].isFreeGift {
            assert rest[i] == items[i + 1];
          }
        }
        GiftCountZero(rest);
      }
    }
  }

  /** Dropping the first line keeps the cart's shape. */
  lemma {:induction false} WellFormedTail(items: seq<CartItem>)
    requires items != [] && WellFormed(items)
    ensures WellFormed(items[1..])
  {
    var rest := items[1..];
    forall i, j | 0 <= i < j < |rest| ensures KeyOf(rest[i]) != KeyOf(rest[j]) {
      assert rest[i] == items[i + 1] && rest[j] == items[j + 1];
    }
  }
}
