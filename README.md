# Shopping-cart state manager of the CultureDrop storefront

This project models the `useCart` hook of the storefront (`hooks/useCart.tsx`)
and proves properties of that model in Dafny.

The hook keeps an ordered list of line items, a flag `hasFreeDisc` and a
loading flag. It offers these operations:

- `addToCart` merges on the identity key (id, gender, category, size).
- `updateQuantity` sets a quantity exactly, and ignores requests below 1.
- `removeItem` filters out the lines with a key.
- `clearCart` empties the cart.
- Two derived sums: the subtotal (price × quantity) and the item count.

A promotion runs after every change of the list. At a subtotal of 250 or
more with no gift line, it appends a free music disc (id 999, price 0,
quantity 1). Below 250, it removes every gift line.

Layout, one module per concern:

- `cart_model.dfy` (`CartModel`): the line item, its key, the subtotal and
  count, and the shape invariants (unique keys, gift key reserved for gifts).
- `cart_ops.dfy` (`CartOps`): the `findIndex`/`map`/`filter` updates behind
  add, update and remove, as pure functions with their lemmas.
- `gift_rule.dfy` (`GiftRule`): the disc, `addFreeMusicDisc`,
  `removeFreeMusicDisc` and the threshold effect as the pure step
  `GiftStep`, with its upward, downward, settling and idempotence lemmas.
- `use_cart.dfy` (`UseCart`): the hook as class `Cart`. Its fields are
  `items`, `isLoading` and `hasFreeDisc`. Each method assigns new values
  and then runs the gift effect explicitly (`ApplyGiftRule`). Its contracts
  tie the new state to the pure functions above.
- `scenario.dfy` (`CartScenario`): a worked run. A jacket at 100 is added
  twice and a shirt at 60 three times, then the shirt is removed.

Modelling choices:

- Prices are exact non-negative reals (`Price`) and quantities are `nat`.
- `Math.random()` becomes a caller-supplied `DiscIndex` in 0..3, which picks
  one of the four disc flavours.
- The React effect that watches the list becomes the explicit step
  `GiftStep`. It runs at the end of every mutating method.
- The stored cart that the load effect reads becomes the argument of
  `Cart.Load`. It is an `Option`: `None` when nothing was stored or the
  stored data could not be parsed.

What the code does at the edges, and what the model proves about it:

- The disc is added only while `hasFreeDisc` is false
  (`hooks/useCart.tsx:63`). If the disc line is removed by hand with
  `removeItem` while the flag is up, no disc comes back until `clearCart` or a
  reload lowers the flag: `hasFreeDisc` is not stored, so it starts down
  again after a reload (`hooks/useCart.tsx:21`), and a restored list at 250
  or more without the disc gets it back. `GiftRule.StaleFlagKeepsGiftOut` states this.
- The flag is up only while a gift line is present (`GiftRule.FlagHonest`).
  The flag starts down and a reload keeps it down. Adding, updating,
  clearing and the effect keep the property. `removeItem` keeps it when the
  removed key is not the disc's and only gift lines carry the disc's key;
  removing the disc line by hand, or removing a restored gift line that
  carries some other key, can break it. In a state at rest with an honest
  flag, a gift line is present exactly when the subtotal is at least 250
  (`GiftRule.GiftPresentIffThreshold`).
- Nothing stops `updateQuantity` or `addToCart` from changing the quantity
  of the disc line, and the model does not stop it either.
- `updateQuantity` and `removeItem` act on every line with the key, and
  `addToCart` on the first one only.
- In the worked run, the disc arrives with the first shirt, at a subtotal
  of 260 (`CartScenario.FirstShirt`).

## Model

| member | source | states |
|---|---|---|
| CartModel.LineTotal | hooks/useCart.tsx:53 | a line's total is never negative, and it is 0 exactly when the quantity or the price is 0 |
| CartModel.CartCount | hooks/useCart.tsx:56-58 | when every line has quantity at least 1, the count is at least the number of lines |
| CartModel.SubtotalFrom | hooks/useCart.tsx:52-54 | the source's left-to-right `reduce` from a starting sum |
| CartModel.SubtotalFromIsSubtotal | hooks/useCart.tsx:52-54 | the left fold from a starting sum is that sum plus the subtotal, so the fold from 0 is the subtotal |
| CartModel.CartCountFrom | hooks/useCart.tsx:56-58 | the source's left-to-right `reduce` of the quantities from a starting count |
| CartModel.CartCountFromIsCartCount | hooks/useCart.tsx:56-58 | the left fold from a starting count is that count plus the item count |
| CartModel.HasGift | hooks/useCart.tsx:93 | some line carries the gift flag |
| CartModel.KeyOf | hooks/useCart.tsx:104-108 | the identity of a line is its id, gender, category and size |
| CartModel.NewKeyOf | hooks/useCart.tsx:105-108 | the incoming item's side of the key comparison: its id, gender, category and size |
| CartModel.GiftKey | hooks/useCart.tsx:69-75 | the disc's identity: id 999, gender free-gift, category disc, size ONE SIZE |
| CartModel.NewItem.WithQuantity | hooks/useCart.tsx:119 | the incoming item with a quantity attached |
| CartModel.Subtotal | hooks/useCart.tsx:52-54 | the subtotal is never negative |
| CartModel.SubtotalAppend | hooks/useCart.tsx:52-54 | the subtotal of a concatenation is the sum of the two subtotals |
| CartModel.SubtotalUpdate | hooks/useCart.tsx:52-54 | replacing one line changes the subtotal by the difference of the two line totals |
| CartModel.CartCountAppend | hooks/useCart.tsx:56-58 | the count of a concatenation is the sum of the two counts |
| CartModel.CartCountUpdate | hooks/useCart.tsx:56-58 | replacing one line changes the count by the difference of the two quantities |
| CartModel.GiftCountAppend | hooks/useCart.tsx:93 | gift lines of a concatenation add up |
| CartModel.GiftCountZero | hooks/useCart.tsx:93 | no gift line is counted exactly when `some(isFreeGift)` is false |
| CartModel.WellFormedOneGift | hooks/useCart.tsx:68-78 | with unique keys and the gift key reserved for gift lines, at most one gift line is present |
| CartOps.AddToItems | hooks/useCart.tsx:102-121 | the list grows by at most one line, some line then has the item's key, and a gift line present before is still present |
| CartOps.SetQuantity | hooks/useCart.tsx:127-133 | same length; every line keeps its key and its gift flag |
| CartOps.RemoveMatching | hooks/useCart.tsx:137-141 | the list does not grow and no line with the key is left |
| CartOps.SetQuantityKeepsGift | hooks/useCart.tsx:127-133 | updating a quantity never removes a gift line |
| CartOps.RemoveOtherKeepsGift | hooks/useCart.tsx:136-142 | removing a key other than the disc's keeps a gift line present, when only gift lines carry the disc's key |
| CartOps.Matches | hooks/useCart.tsx:105-108 | a line matches a key when its id, gender, category and size all equal the key's, the test shared by add, update and remove |
| CartOps.FindIndex | hooks/useCart.tsx:104-109 | the result is -1 exactly when no line has the key; otherwise it is the first line with the key |
| CartOps.AddToExisting | hooks/useCart.tsx:104-117 | re-adding a present key keeps the length, adds exactly one unit to the first matching line, keeps its other stored fields, and leaves every other line unchanged |
| CartOps.AddToAbsent | hooks/useCart.tsx:118-119 | adding an absent key appends the item with quantity 1 and leaves the old list as the prefix |
| CartOps.AddTwice | hooks/useCart.tsx:102-121 | adding the same new item twice yields one line of quantity 2 at the end |
| CartOps.AddCount | hooks/useCart.tsx:102-121 | every add raises the item count by exactly 1 |
| CartOps.AddSubtotal | hooks/useCart.tsx:102-121 | every add raises the subtotal by one unit price: the stored line's price when merging, the incoming price when appending |
| CartOps.AddWellFormed | hooks/useCart.tsx:104-119 | adding keeps keys unique; it keeps the gift key reserved when the incoming item does |
| CartOps.SetQuantityAt | hooks/useCart.tsx:127-133 | same length and order; each matching line gets exactly the new quantity and every other line is unchanged |
| CartOps.SetQuantityAbsent | hooks/useCart.tsx:127-133 | a key with no line leaves the list unchanged |
| CartOps.SetQuantityIdempotent | hooks/useCart.tsx:128-131 | setting the same quantity twice equals setting it once (the update is not additive) |
| CartOps.SetQuantityWellFormed | hooks/useCart.tsx:128-131 | keys stay unique and the gift key stays reserved |
| CartOps.RemoveMatchingMembers | hooks/useCart.tsx:136-142 | a line survives exactly when it was present and does not have the key; no line with the key is left |
| CartOps.RemoveMatchingAppend | hooks/useCart.tsx:137-141 | the filter distributes over concatenation, so the kept lines stay in their original relative order |
| CartOps.RemoveMatchingAbsent | hooks/useCart.tsx:136-142 | a key with no line leaves the list unchanged |
| CartOps.RemoveMatchingLength | hooks/useCart.tsx:138-140 | the length drops by exactly the number of matching lines |
| CartOps.RemoveMatchingWellFormed | hooks/useCart.tsx:138-140 | removing keeps keys unique and the gift key reserved |
| GiftRule.Settled | hooks/useCart.tsx:91-100 | the effect has nothing to do: at 250 or more a gift line is present or the flag is up, and below 250 no gift line is present; this is the class invariant `Cart.Valid` |
| GiftRule.Threshold | hooks/useCart.tsx:95-97 | the promotion threshold is 250 |
| GiftRule.DiscTypes | hooks/useCart.tsx:65 | the four flavours folk, jpop, rap and rock, in that order |
| GiftRule.UpperAscii | hooks/useCart.tsx:70 | `toUpperCase` on one character, for ASCII letters |
| GiftRule.RemoveGiftsAppend | hooks/useCart.tsx:86 | the gift filter distributes over concatenation, so the other lines keep their relative order |
| GiftRule.Capitalize | hooks/useCart.tsx:70 | capitalising keeps the length, upper-cases the first character and keeps every character after it |
| GiftRule.RemoveGifts | hooks/useCart.tsx:86 | the list does not grow and no gift line is left |
| GiftRule.WithFreeDisc | hooks/useCart.tsx:61-82 | with the flag up nothing changes; otherwise exactly the disc of the draw is appended after the unchanged list; the flag ends up, the subtotal is unchanged and the flag stays honest |
| GiftRule.WithoutFreeDisc | hooks/useCart.tsx:85-88 | the flag ends down, no gift line is left, and the subtotal does not rise |
| GiftRule.GiftStep | hooks/useCart.tsx:91-100 | the effect never raises the subtotal and keeps the flag honest |
| GiftRule.FlagHonest | hooks/useCart.tsx:21-88 | the flag is up only while a gift line is present |
| GiftRule.FreeDisc | hooks/useCart.tsx:68-78 | the disc is a gift line with id 999, gender free-gift, category disc, size ONE SIZE, price 0 and quantity 1 |
| GiftRule.FreeDiscNames | hooks/useCart.tsx:65-72 | the four possible names ("Folk Music Disc" … "Rock Music Disc") and images ("folk.jpg" … "rock.jpg") |
| GiftRule.FolkDisc | hooks/useCart.tsx:65-72 | the folk draw gives the name "Folk Music Disc" and the image "folk.jpg" |
| GiftRule.JpopDisc | hooks/useCart.tsx:65-72 | the jpop draw gives the name "Jpop Music Disc" and the image "jpop.jpg" |
| GiftRule.RapDisc | hooks/useCart.tsx:65-72 | the rap draw gives the name "Rap Music Disc" and the image "rap.jpg" |
| GiftRule.RockDisc | hooks/useCart.tsx:65-72 | the rock draw gives the name "Rock Music Disc" and the image "rock.jpg" |
| GiftRule.RemoveGiftsMembers | hooks/useCart.tsx:86 | exactly the non-gift lines survive and no gift line is left |
| GiftRule.RemoveGiftsSubtotal | hooks/useCart.tsx:86 | dropping the gift lines never raises the subtotal |
| GiftRule.RemoveGiftsShorter | hooks/useCart.tsx:86 | with a gift present the filter removes at least one line |
| GiftRule.RemoveGiftsWellFormed | hooks/useCart.tsx:86 | dropping gift lines keeps keys unique and the gift key reserved |
| GiftRule.GiftAdded | hooks/useCart.tsx:91-96 | at 250 or more, with no gift line and the flag down, exactly one disc is appended, the flag goes up and the subtotal is unchanged |
| GiftRule.GiftRemoved | hooks/useCart.tsx:97-98 | below 250 with a gift line present, all gift lines go, all others stay, the flag goes down and the subtotal does not rise |
| GiftRule.GiftStepSettles | hooks/useCart.tsx:91-100 | after one run of the effect, from any state, it has nothing left to do |
| GiftRule.SettledIsFixpoint | hooks/useCart.tsx:91-100 | a state is at rest exactly when the effect leaves it unchanged |
| GiftRule.GiftStepIdempotent | hooks/useCart.tsx:91-100 | running the effect twice gives the state of running it once, for any two disc draws |
| GiftRule.GiftStepWellFormed | hooks/useCart.tsx:91-100 | the effect keeps keys unique and the gift key reserved |
| GiftRule.GiftPresentIffThreshold | hooks/useCart.tsx:91-100 | at rest, with the flag up only while a gift line is present, a gift line is present exactly when the subtotal is at least 250 |
| GiftRule.ReloadGiftIffThreshold | hooks/useCart.tsx:91-100 | after a reload (flag down) and one run of the effect, a gift line is present exactly when the subtotal is at least 250, whatever list was restored |
| GiftRule.GiftStepSyncs | hooks/useCart.tsx:61-88 | when the flag matches the list before the effect, it still matches afterwards |
| GiftRule.StaleFlagKeepsGiftOut | hooks/useCart.tsx:63 | with the flag up and no gift line, the effect adds nothing whatever the subtotal |
| UseCart.Cart.GetSubtotal | hooks/useCart.tsx:52-54 | the left fold is the subtotal of the current list |
| UseCart.Cart.GetCartCount | hooks/useCart.tsx:56-58 | the left fold is the item count of the current list |
| UseCart.Cart.SavesOnChange | hooks/useCart.tsx:42-50 | saving happens only once loading is done |
| UseCart.Cart.constructor | hooks/useCart.tsx:19-21 | the first state is an empty list, still loading (so nothing is saved), with the flag down |
| UseCart.Cart.Load | hooks/useCart.tsx:24-39 | a parsed cart replaces the list and the gift effect runs; nothing stored keeps the state; loading ends and saving starts either way; with the flag down before, the flag is honest after |
| UseCart.Cart.AddFreeMusicDisc | hooks/useCart.tsx:61-82 | nothing when the flag is up; otherwise the disc is appended and the flag raised |
| UseCart.Cart.RemoveFreeMusicDisc | hooks/useCart.tsx:85-88 | the gift lines are filtered out and the flag lowered |
| UseCart.Cart.ApplyGiftRule | hooks/useCart.tsx:91-100 | the new state is one gift step of the old one, is at rest, and keeps the flag honest |
| UseCart.Cart.AddToCart | hooks/useCart.tsx:102-122 | the new state is the merged-or-appended list followed by the gift step; it is at rest and keeps the flag honest; a well-formed list stays well formed when the incoming item is a gift exactly when it carries the gift key |
| UseCart.Cart.UpdateQuantity | hooks/useCart.tsx:124-134 | below 1 nothing changes; otherwise the new state is the quantity update followed by the gift step; the flag stays honest |
| UseCart.Cart.RemoveItem | hooks/useCart.tsx:136-142 | the new state is the filtered list followed by the gift step; it is at rest and stays well formed; removing a key other than the disc's keeps the flag honest when only gift lines carry the disc's key |
| UseCart.Cart.ClearCart | hooks/useCart.tsx:144-147 | the list is empty, the flag is down (so honest), and subtotal and count are 0 |
| CartScenario.JacketTwice | hooks/useCart.tsx:102-121 | two adds of one item give a single line of quantity 2 and no disc |
| CartScenario.FirstShirt | hooks/useCart.tsx:91-121 | a new line at 60 lifts the subtotal from 200 to 260 and brings the disc |
| CartScenario.MoreShirts | hooks/useCart.tsx:91-117 | further adds above the threshold only raise the line; the disc is not duplicated |
| CartScenario.ShirtRemoved | hooks/useCart.tsx:91-142 | removing the shirt line drops the subtotal to 200 and the disc with it |
| CartScenario.Scenario | hooks/useCart.tsx:91-142 | the whole run ends with one jacket line of quantity 2 and no disc |

## Left out

- Persistence: the `localStorage` read and write, `JSON.parse`/`JSON.stringify` and the error logging (`hooks/useCart.tsx:24-50`) are browser I/O. `Cart.Load` takes the parse outcome as an argument. `Cart.SavesOnChange` records only that saving waits until loading is done.
- Floating point: prices are exact reals, while the source adds JavaScript numbers from the left. `Cart.GetSubtotal` follows that order through `SubtotalFrom`, but without rounding. Where rounding puts the float sum just below 250 although the exact sum is 250 (lines at 0.01, 249.98 and 0.01, say), the source gives no disc and the model gives one.
- Randomness: `Math.random` is replaced by the `DiscIndex` argument of the mutating methods.
- React scheduling: renders, batching and the order in which effects fire are not modelled. The gift effect runs synchronously at the end of each method, and `GiftRule.GiftStepIdempotent` shows that a second run changes nothing.
- Types: `gender` is the three-valued `Gender` rather than an arbitrary string. Quantities are whole numbers, so a fractional `newQuantity` is not modelled.
- Capitalisation: `GiftRule.Capitalize` upper-cases ASCII letters only, which covers the four flavour names.
- The catalog loader (`app/utils/products.ts`, `utils/products.ts`) is network I/O and is not part of this model.
- The React context wrapper (`components/CartProvider.tsx`) and its callers are not part of this model. Their call sites pass no `size` to `updateQuantity` and `removeItem`.
- Dark mode, the hero animation and the pages and components that only render markup are not part of this model.
- The class does not keep unique keys as an invariant: `Load` accepts any stored list. The methods promise that a well-formed list stays well formed; for `AddToCart` only when the incoming item is a gift exactly when it carries the gift key.
