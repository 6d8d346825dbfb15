/** The free-gift promotion: a music disc is added once the subtotal reaches
    250 and taken away when it falls below. The source runs this check as a
    React effect after every change of the list; here it is the explicit
    step `GiftStep`, applied after each mutation. */
module GiftRule {
  import opened CartModel

  /** The spend at which the disc is given. */
  const Threshold: real := 250.0

  /** The four disc flavours, in the source's order. */
  const DiscTypes: seq<string> := ["folk", "jpop", "rap", "rock"]

  /** Which flavour the random draw picked: `Math.floor(Math.random() * 4)`. */
  type DiscIndex = i: nat | i < 4

  /** The part of the hook's state the gift rule reads and writes. */
  datatype CartState = CartState(items: seq<CartItem>, hasFreeDisc: bool)

  /** `toUpperCase` on one character, for the ASCII letters the flavours use. */
  function UpperAscii(c: char): char {
    if 'a' <= c <= 'z' then (c as int - 'a' as int + 'A' as int) as char else c
  }

  /** The word with its first character upper-cased and the rest kept. */
  function Capitalize(s: string): (r: string)
    ensures |r| == |s|
    ensures |s| > 0 ==> r[0] == UpperAscii(s[0]) && r[1..] == s[1..]
  {
    if s == [] then [] else [UpperAscii(s[0])] + s[1..]
  }

  /** The synthesized gift line for flavour `pick`. */
  function FreeDisc(pick: DiscIndex): (r: CartItem)
    ensures r.isFreeGift && KeyOf(r) == GiftKey
    ensures r.id == 999 && r.gender == FreeGift && r.category == "disc" && r.size == "ONE SIZE"
    ensures r.price == 0.0 && r.quantity == 1 && LineTotal(r) == 0.0
  {
    var disc := DiscTypes[pick];
    CartItem(999, Capitalize(disc) + " Music Disc", 0.0, disc + ".jpg",
             FreeGift, "disc", "ONE SIZE", 1, true)
  }

  /** The four possible discs, spelled out. */
  lemma {:induction false} FreeDiscNames(pick: DiscIndex)
    ensures pick == 0 ==> FreeDisc(pick).name == "Folk Music Disc" && FreeDisc(pick).image == "folk.jpg"
    ensures pick == 1 ==> FreeDisc(pick).name == "Jpop Music Disc" && FreeDisc(pick).image == "jpop.jpg"
    ensures pick == 2 ==> FreeDisc(pick).name == "Rap Music Disc" && FreeDisc(pick).image == "rap.jpg"
    ensures pick == 3 ==> FreeDisc(pick).name == "Rock Music Disc" && FreeDisc(pick).image == "rock.jpg"
  {
    if pick == 0 {
      FolkDisc();
    } else if pick == 1 {
      JpopDisc();
    } else if pick == 2 {
      RapDisc();
    } else {
      RockDisc();
    }
  }

  lemma {:induction false} FolkDisc()
    ensures FreeDisc(0).name == "Folk Music Disc" && FreeDisc(0).image == "folk.jpg"
  {
    assert DiscTypes[0] == "folk";
    CapitalizeWord("folk", "Folk");
  }

  lemma {:induction false} JpopDisc()
    ensures FreeDisc(1).name == "Jpop Music Disc" && FreeDisc(1).image == "jpop.jpg"
  {
    assert DiscTypes[1] == "jpop";
    CapitalizeWord("jpop", "Jpop");
  }

  lemma {:induction false} RapDisc()
    ensures FreeDisc(2).name == "Rap Music Disc" && FreeDisc(2).image == "rap.jpg"
  {
    assert DiscTypes[2] == "rap";
    CapitalizeWord("rap", "Rap");
  }

  lemma {:induction false} RockDisc()
    ensures FreeDisc(3).name == "Rock Music Disc" && FreeDisc(3).image == "rock.jpg"
  {
    assert DiscTypes[3] == "rock";
    CapitalizeWord("rock", "Rock");
  }

  lemma {:induction false} CapitalizeWord(s: string, t: string)
    requires |s| > 0 && |t| == |s| && t[0] == UpperAscii(s[0]) && t[1..] == s[1..]
    ensures Capitalize(s) == t
  {
    assert Capitalize(s) == [t[0]] + t[1..];
  }

  /** The list without its gift lines, in the original order. */
  function RemoveGifts(items: seq<CartItem>): (r: seq<CartItem>)
    ensures |r| <= |items|
    ensures forall i :: 0 <= i < |r| ==> !r[i].isFreeGift
  {
    if items == [] then []
    else (if items[0].isFreeGift then [] else [items[0]]) + RemoveGifts(items[1..])
  }

  /** addFreeMusicDisc: nothing when the flag says a disc was already given,
      otherwise append one disc and raise the flag. */
  function WithFreeDisc(st: CartState, pick: DiscIndex): (r: CartState)
    ensures r.hasFreeDisc
    ensures |st.items| <= |r.items| && r.items[..|st.items|] == st.items
    ensures Subtotal(r.items) == Subtotal(st.items)
    ensures FlagHonest(st) ==> FlagHonest(r)
    ensures st.hasFreeDisc <==> r == st
    ensures !st.hasFreeDisc ==> r.items == st.items + [FreeDisc(pick)]
  {
    if st.hasFreeDisc then st
    else
      var items := st.items + [FreeDisc(pick)];
      SubtotalAppend(st.items, [FreeDisc(pick)]);
      assert Subtotal([FreeDisc(pick)]) == 0.0;
      assert items[|st.items|].isFreeGift;
      CartState(items, true)
  }

  /** removeFreeMusicDisc: drop every gift line and lower the flag. */
  function WithoutFreeDisc(st: CartState): (r: CartState)
    ensures !r.hasFreeDisc && !HasGift(r.items)
    ensures Subtotal(r.items) <= Subtotal(st.items)
  {
    RemoveGiftsSubtotal(st.items);
    CartState(RemoveGifts(st.items), false)
  }

  /** One run of the threshold effect. */
  function GiftStep(st: CartState, pick: DiscIndex): (r: CartState)
    ensures Subtotal(r.items) <= Subtotal(st.items)
    ensures FlagHonest(st) ==> FlagHonest(r)
  {
    var subtotal := Subtotal(st.items);
    var hasDisc := HasGift(st.items);
    if subtotal >= Threshold && !hasDisc then WithFreeDisc(st, pick)
    else if subtotal < Threshold && hasDisc then WithoutFreeDisc(st)
    else st
  }

  /** The effect is at rest: running it would change nothing. */
  predicate Settled(st: CartState) {
    (Subtotal(st.items) >= Threshold ==> HasGift(st.items) || st.hasFreeDisc)
    && (Subtotal(st.items) < Threshold ==> !HasGift(st.items))
  }

  // ------------------------------------------------------------ RemoveGifts

  /** The filter keeps exactly the non-gift lines. */
  lemma {:induction false} RemoveGiftsMembers(items: seq<CartItem>)
    ensures forall x :: x in RemoveGifts(items) <==> x in items && !x.isFreeGift
    ensures !HasGift(RemoveGifts(items))
  {
    if items != [] {
      RemoveGiftsMembers(items[1..]);
      assert items == [items[0]] + items[1..];
    }
    var r := RemoveGifts(items);
    forall i | 0 <= i < |r| ensures !r[i].isFreeGift {
      assert r[i] in r;
    }
  }

  /** The filter distributes over concatenation, so the lines it keeps stay
      in their original relative order. */
  lemma {:induction false} RemoveGiftsAppend(a: seq<CartItem>, b: seq<CartItem>)
    ensures RemoveGifts(a + b) == RemoveGifts(a) + RemoveGifts(b)
  {
    if a == [] {
      assert a + b == b;
    } else {
      assert (a + b)[1..] == a[1..] + b;
      RemoveGiftsAppend(a[1..], b);
    }
  }

  /** Dropping lines never raises the subtotal (prices are non-negative). */
  lemma {:induction false} RemoveGiftsSubtotal(items: seq<CartItem>)
    ensures Subtotal(RemoveGifts(items)) <= Subtotal(items)
  {
    if items != [] {
      RemoveGiftsSubtotal(items[1..]);
      var x := items[0];
      assert 0.0 <= x.price * x.quantity as real;
      if !x.isFreeGift {
        assert RemoveGifts(items) == [x] + RemoveGifts(items[1..]);
        assert ([x] + RemoveGifts(items[1..]))[1..] == RemoveGifts(items[1..]);
      } else {
        assert RemoveGifts(items) == RemoveGifts(items[1..]);
      }
    }
  }

  /** With a gift present the filter really removes something. */
  lemma {:induction false} RemoveGiftsShorter(items: seq<CartItem>)
    requires HasGift(items)
    ensures |RemoveGifts(items)| < |items|
  {
    if !items[0].isFreeGift {
      var i :| 0 <= i < |items| && items[i].isFreeGift;
      assert items[1..][i - 1].isFreeGift;
      RemoveGiftsShorter(items[1..]);
    }
  }

  // ----------------------------------------------------------- the gift step

  /** Upward crossing: with the subtotal at 250 or more, no gift line and the
      flag down, exactly one disc line is appended, the flag goes up and the
      subtotal stays what it was. */
  lemma {:induction false} GiftAdded(st: CartState, pick: DiscIndex)
    requires Subtotal(st.items) >= Threshold && !HasGift(st.items) && !st.hasFreeDisc
    ensures GiftStep(st, pick).items == st.items + [FreeDisc(pick)]
    ensures GiftStep(st, pick).hasFreeDisc
    ensures Subtotal(GiftStep(st, pick).items) == Subtotal(st.items)
    ensures GiftCount(GiftStep(st, pick).items) == 1
  {
    SubtotalAppend(st.items, [FreeDisc(pick)]);
    GiftCountAppend(st.items, [FreeDisc(pick)]);
    GiftCountZero(st.items);
  }

  /** Downward crossing: with the subtotal below 250 and a gift line present,
      every gift line is dropped, all others are kept, and the flag goes down. */
  lemma {:induction false} GiftRemoved(st: CartState, pick: DiscIndex)
    requires Subtotal(st.items) < Threshold && HasGift(st.items)
    ensures GiftStep(st, pick) == CartState(RemoveGifts(st.items), false)
    ensures !HasGift(GiftStep(st, pick).items)
    ensures forall x :: x in GiftStep(st, pick).items <==> x in st.items && !x.isFreeGift
    ensures Subtotal(GiftStep(st, pick).items) <= Subtotal(st.items)
  {
    RemoveGiftsMembers(st.items);
    RemoveGiftsSubtotal(st.items);
  }

  /** After one run the effect is at rest, whatever the state before. */
  lemma {:induction false} GiftStepSettles(st: CartState, pick: DiscIndex)
    ensures Settled(GiftStep(st, pick))
  {
    var subtotal := Subtotal(st.items);
    if subtotal >= Threshold && !HasGift(st.items) {
      if !st.hasFreeDisc {
        GiftAdded(st, pick);
      }
    } else if subtotal < Threshold && HasGift(st.items) {
      GiftRemoved(st, pick);
    }
  }

  /** A state is at rest exactly when the effect leaves it unchanged. */
  lemma {:induction false} SettledIsFixpoint(st: CartState, pick: DiscIndex)
    ensures Settled(st) <==> GiftStep(st, pick) == st
  {
    var subtotal := Subtotal(st.items);
    if subtotal >= Threshold && !HasGift(st.items) && !st.hasFreeDisc {
      assert |GiftStep(st, pick).items| == |st.items| + 1;
    } else if subtotal < Threshold && HasGift(st.items) {
      RemoveGiftsShorter(st.items);
    }
  }

  /** Running the effect twice gives the state of running it once, whichever
      flavours the two draws pick. */
  lemma {:induction false} GiftStepIdempotent(st: CartState, pick: DiscIndex, pick2: DiscIndex)
    ensures GiftStep(GiftStep(st, pick), pick2) == GiftStep(st, pick)
  {
    GiftStepSettles(st, pick);
    SettledIsFixpoint(GiftStep(st, pick), pick2);
  }

  /** The effect keeps the cart's shape: the disc it appends carries the gift
      key, which no line held before. */
  lemma {:induction false} GiftStepWellFormed(st: CartState, pick: DiscIndex)
    requires WellFormed(st.items)
    ensures WellFormed(GiftStep(st, pick).items)
  {
    var subtotal := Subtotal(st.items);
    if subtotal >= Threshold && !HasGift(st.items) && !st.hasFreeDisc {
      var r := st.items + [FreeDisc(pick)];
      forall i | 0 <= i < |st.items| ensures KeyOf(r[i]) != GiftKey {
        assert r[i] == st.items[i];
        assert !st.items[i].isFreeGift;
      }
    } else if subtotal < Threshold && HasGift(st.items) {
      RemoveGiftsWellFormed(st.items);
    }
  }

  lemma {:induction false} RemoveGiftsWellFormed(items: seq<CartItem>)
    requires WellFormed(items)
    ensures WellFormed(RemoveGifts(items))
  {
    if items != [] {
      var rest := items[1..];
      WellFormedTail(items);
      RemoveGiftsWellFormed(rest);
      RemoveGiftsMembers(rest);
      var r := RemoveGifts(items);
      if !items[0].isFreeGift {
        assert r == [items[0]] + RemoveGifts(rest);
        forall j | 0 < j < |r| ensures KeyOf(r[0]) != KeyOf(r[j]) {
          assert r[j] in RemoveGifts(rest);
          var k :| 0 <= k < |rest| && rest[k] == r[j];
          assert items[k + 1] == r[j];
        }
      }
    }
  }

  // ------------------------------------------------- the hasFreeDisc flag

  /** The flag is up only while a gift line is present. It starts down
      (hooks/useCart.tsx:21), so a reload that restores a disc line keeps
      it; only removing the disc line by hand breaks it. */
  predicate FlagHonest(st: CartState) {
    st.hasFreeDisc ==> HasGift(st.items)
  }

  /** The flag agrees with the list: it is up exactly when a gift line is
      present. The effect never breaks this (`GiftStepSyncs`), but a reload
      can: a restored disc line comes back with the flag down, and at 250 or
      more the effect leaves it so. The class therefore keeps only the
      weaker `FlagHonest`. */
  predicate InSync(st: CartState) {
    st.hasFreeDisc <==> HasGift(st.items)
  }

  /** A state at rest whose flag is up only while a gift line is present
      holds a gift line exactly when the subtotal is at least 250. */
  lemma {:induction false} GiftPresentIffThreshold(st: CartState)
    requires Settled(st) && FlagHonest(st)
    ensures HasGift(st.items) <==> Subtotal(st.items) >= Threshold
  {
  }

  /** After a reload the flag is down, so once the effect has run a gift
      line is present exactly when the subtotal is at least 250, whatever
      list was restored. */
  lemma {:induction false} ReloadGiftIffThreshold(saved: seq<CartItem>, pick: DiscIndex)
    ensures var st := GiftStep(CartState(saved, false), pick);
            HasGift(st.items) <==> Subtotal(st.items) >= Threshold
  {
    GiftStepSettles(CartState(saved, false), pick);
    GiftPresentIffThreshold(GiftStep(CartState(saved, false), pick));
  }

  /** The effect brings the flag back in line whenever it acts. */
  lemma {:induction false} GiftStepSyncs(st: CartState, pick: DiscIndex)
    requires InSync(st)
    ensures InSync(GiftStep(st, pick))
  {
    var subtotal := Subtotal(st.items);
    if subtotal >= Threshold && !HasGift(st.items) {
      assert GiftStep(st, pick).items[|st.items|] == FreeDisc(pick);
    } else if subtotal < Threshold && HasGift(st.items) {
      RemoveGiftsMembers(st.items);
    }
  }

  /** When the flag is up but no gift line is left (the disc was removed by
      hand), addFreeMusicDisc's early return means the effect adds nothing,
      however high the subtotal. */
  lemma {:induction false} StaleFlagKeepsGiftOut(st: CartState, pick: DiscIndex)
    requires st.hasFreeDisc && !HasGift(st.items)
    ensures GiftStep(st, pick) == st
    ensures Settled(st)
  {
  }
}
