/**
  The product hierarchy of labs.pm.data: the abstract Product and its two variants Drink and
  Food, as one closed datatype. Products are immutable; "re-rating" builds a new value.
*/
module Products {
  import opened Numerals
  import opened Decimals
  import opened Ratings
  import opened Calendar

  /** Product.DISCOUNT_RATE = BigDecimal.valueOf(0.1), whose text is "0.1": unscaled 1, scale 1. */
  const DiscountRate := Decimal(1, 1)

  /** The four final fields Product's constructors set; `equals` compares exactly these. */
  datatype Identity = Identity(id: Int32, name: string, price: Decimal, rating: Rating)

  /** A Drink has nothing beyond the shared fields; a Food also has its best-before date. */
  datatype Product = Drink(base: Identity) | Food(base: Identity, bestBefore: Date)

  /** Product(id, name, price): the rating starts as NOT_RATED. */
  function Unrated(id: Int32, name: string, price: Decimal): (b: Identity)
    ensures b.rating == NotRated
    ensures b.id == id && b.name == name && b.price == price
  {
    Identity(id, name, price, NotRated)
  }

  /** Product(): delegates to Product(0, "no name", BigDecimal.ZERO). */
  function DefaultIdentity(): (b: Identity)
    ensures b.id == 0 && b.name == "no name" && b.price == Zero && b.rating == NotRated
  {
    Unrated(0, "no name", Zero)
  }

  /** Product.getDiscount(): price × DISCOUNT_RATE, then setScale(2, HALF_UP). */
  function TenPercentDiscount(price: Decimal): (r: Decimal)
    ensures r.scale == 2
    ensures price.unscaled >= 0 ==> r.unscaled >= 0
    ensures price.unscaled <= 0 ==> r.unscaled <= 0
  {
    SetScaleHalfUp(Multiply(price, DiscountRate), 2)
  }

  /**
    The discount is a tenth of the price rounded to cents, half up: measured at the finer of
    scale 2 and the exact product's scale, it lies within half a cent of price / 10, and a
    tie is resolved away from zero.
  */
  lemma DiscountIsTenthHalfUp(price: Decimal)
    ensures var r, e := TenPercentDiscount(price), Max(price.scale + 1, 2);
      && r.scale == 2
      && 2 * Abs(r.unscaled * Pow10(e - 2) - price.unscaled * Pow10(e - price.scale - 1)) <= Pow10(e - 2)
      && (2 * Abs(r.unscaled * Pow10(e - 2) - price.unscaled * Pow10(e - price.scale - 1)) == Pow10(e - 2) ==>
            Abs(r.unscaled * Pow10(e - 2)) > Abs(price.unscaled * Pow10(e - price.scale - 1)))
  {
    var exact := Multiply(price, DiscountRate);
    assert exact == Decimal(price.unscaled, price.scale + 1);
    SetScaleHalfUpRounds(exact, 2);
  }

  /** A price of 1.99 has a discount of 0.20. */
  lemma DiscountOfOneNinetyNine()
    ensures TenPercentDiscount(Decimal(199, 2)) == Decimal(20, 2)
  {
    assert Pow10(1) == 10;
  }

  /** For a price that is not negative, the discount is neither negative nor above the price. */
  lemma DiscountWithinPrice(price: Decimal)
    requires price.unscaled >= 0
    ensures TenPercentDiscount(price).unscaled >= 0
    ensures AtMost(TenPercentDiscount(price), price)
  {
    var exact := Multiply(price, DiscountRate);
    assert exact == Decimal(price.unscaled, price.scale + 1);
    SetScaleHalfUpRounds(exact, 2);
    if price.scale <= 1 {
      ExactDiscountWithinPrice(price);
    } else {
      RoundedDiscountWithinPrice(price);
    }
  }

  /** With at most one decimal place the discount is exact, a tenth of the price. */
  lemma ExactDiscountWithinPrice(price: Decimal)
    requires price.unscaled >= 0 && price.scale <= 1
    ensures AtMost(TenPercentDiscount(price), price)
  {
    var r := TenPercentDiscount(price);
    var p := Pow10(1 - price.scale);
    assert r.unscaled == price.unscaled * p;
    assert Pow10(2 - price.scale) == 10 * p;
    assert ScaledTo(r, 2) == r.unscaled;
    assert ScaledTo(price, 2) == price.unscaled * (10 * p);
    MulMonotone(1, 10, price.unscaled * p);
  }

  /** With two or more decimal places the discount is a rounded division, below the price. */
  lemma RoundedDiscountWithinPrice(price: Decimal)
    requires price.unscaled >= 0 && price.scale >= 2
    ensures AtMost(TenPercentDiscount(price), price)
  {
    var r := TenPercentDiscount(price);
    var small := Pow10(price.scale - 2);
    var d := Pow10(price.scale - 1);
    assert d == 10 * small;
    assert r.unscaled == HalfUpDivide(price.unscaled, d);
    HalfUpDivideRounds(price.unscaled, d);
    assert ScaledTo(price, price.scale) == price.unscaled;
    assert ScaledTo(r, price.scale) == r.unscaled * small;
    CentsBelowPrice(price.unscaled, r.unscaled, small);
  }

  /** If `q` is `n / (10 × small)` rounded to nearest, then `q × small` does not exceed `n`. */
  lemma CentsBelowPrice(n: nat, q: nat, small: nat)
    requires small >= 1
    requires 2 * Abs(n - q * (10 * small)) <= 10 * small
    ensures q * small <= n
  {
    var t := q * small;
    assert q * (10 * small) == 10 * t;
    if q >= 1 {
      MulMonotone(1, q, small);
    }
  }

  /** Food.getDiscount() applies the flat rule only strictly after 16:30 and strictly before 17:30. */
  const WindowOpens: NanoOfDay := TimeOf(16, 30)
  const WindowCloses: NanoOfDay := TimeOf(17, 30)

  /**
    getDiscount() dispatched on the variant. Drink inherits Product's flat rule; Food applies
    it inside the window and otherwise returns BigDecimal.ZERO. `now` stands for the value
    LocalTime.now() reads.
  */
  function Discount(p: Product, now: NanoOfDay): (r: Decimal)
    ensures r == TenPercentDiscount(p.base.price) || r == Zero
    ensures p.base.price.unscaled >= 0 ==> r.unscaled >= 0 && AtMost(r, p.base.price)
  {
    if p.Food? && !(WindowOpens < now < WindowCloses) then
      ZeroAtMost(p.base.price);
      Zero
    else
      DiscountBounded(p.base.price);
      TenPercentDiscount(p.base.price)
  }

  /** BigDecimal.ZERO is at most every price that is not negative. */
  lemma ZeroAtMost(x: Decimal)
    ensures x.unscaled >= 0 ==> AtMost(Zero, x)
  {
  }

  lemma DiscountBounded(price: Decimal)
    ensures price.unscaled >= 0 ==> AtMost(TenPercentDiscount(price), price)
  {
    if price.unscaled >= 0 {
      DiscountWithinPrice(price);
    }
  }

  /** A Food inside the window gets exactly what a Drink with the same fields gets. */
  lemma FoodDiscountInWindow(b: Identity, bestBefore: Date, now: NanoOfDay)
    requires WindowOpens < now < WindowCloses
    ensures Discount(Food(b, bestBefore), now) == Discount(Drink(b), now)
  {
  }

  /**
    Outside the open window, including at 16:30 and at 17:30 exactly, a Food's discount is
    BigDecimal.ZERO, whose scale is 0, so it is not `equals` to a computed 0.00.
  */
  lemma FoodDiscountOutsideWindow(b: Identity, bestBefore: Date, now: NanoOfDay)
    requires now <= WindowOpens || now >= WindowCloses
    ensures Discount(Food(b, bestBefore), now) == Zero
    ensures Discount(Food(b, bestBefore), now) != TenPercentDiscount(Zero)
  {
  }

  /** At the two boundary instants the Food discount is zero. */
  lemma FoodDiscountAtBoundaries(b: Identity, bestBefore: Date)
    ensures Discount(Food(b, bestBefore), TimeOf(16, 30)) == Zero
    ensures Discount(Food(b, bestBefore), TimeOf(17, 30)) == Zero
  {
  }

  /** A Drink's discount does not depend on the time of day. */
  lemma DrinkDiscountIgnoresClock(b: Identity, t1: NanoOfDay, t2: NanoOfDay)
    ensures Discount(Drink(b), t1) == Discount(Drink(b), t2)
    ensures Discount(Drink(b), t1) == TenPercentDiscount(b.price)
  {
  }

  /**
    getBestBefore(): a Food's stored date; a Drink inherits Product's LocalDate.now(), whose
    value is the parameter `today`.
  */
  function BestBefore(p: Product, today: Date): (d: Date)
    ensures p.Drink? ==> d == today
    ensures p.Food? ==> d == p.bestBefore
  {
    match p
    case Drink(_) => today
    case Food(_, bestBefore) => bestBefore
  }

  /**
    applyRating(rating): a new product of the same variant with the same id, name, price
    and best-before date, and the given rating. The receiver is a value and is unchanged.
  */
  function ApplyRating(p: Product, rating: Rating): (q: Product)
    ensures q.base.id == p.base.id && q.base.name == p.base.name && q.base.price == p.base.price
    ensures q.base.rating == rating
    ensures q.Drink? == p.Drink?
    ensures q.Food? ==> q.bestBefore == p.bestBefore
  {
    match p
    case Drink(b) => Drink(Identity(b.id, b.name, b.price, rating))
    case Food(b, bestBefore) => Food(Identity(b.id, b.name, b.price, rating), bestBefore)
  }

  /** Re-rating twice is re-rating once with the last rating. */
  lemma ApplyRatingLastWins(p: Product, r1: Rating, r2: Rating)
    ensures ApplyRating(ApplyRating(p, r1), r2) == ApplyRating(p, r2)
  {
  }

  /** Re-rating with the rating a product already has gives the same product back. */
  lemma ApplyRatingOwnRating(p: Product)
    ensures ApplyRating(p, p.base.rating) == p
  {
  }

  /**
    Product.equals: id, name, price (BigDecimal.equals, so the scale counts) and rating;
    the variant and the best-before date play no part.
  */
  predicate Equals(p: Product, q: Product)
    ensures Equals(p, q) ==> HashCode(p) == HashCode(q)
  {
    p.base.id == q.base.id && p.base.name == q.base.name
    && p.base.price == q.base.price && p.base.rating == q.base.rating
  }

  /** Two products are equal exactly when their shared fields are, the key the catalogue uses. */
  lemma EqualsIsSameIdentity(p: Product, q: Product)
    ensures Equals(p, q) <==> p.base == q.base
  {
  }

  /** equals is reflexive, symmetric and transitive. */
  lemma EqualsIsEquivalence(p: Product, q: Product, o: Product)
    ensures Equals(p, p)
    ensures Equals(p, q) ==> Equals(q, p)
    ensures Equals(p, q) && Equals(q, o) ==> Equals(p, o)
  {
  }

  /** A Drink and a Food with the same shared fields are equal though they are different values. */
  lemma EqualsIgnoresVariant(b: Identity, bestBefore: Date)
    ensures Equals(Drink(b), Food(b, bestBefore))
    ensures Drink(b) != Food(b, bestBefore)
  {
  }

  /** The same price at another scale makes a different product: 2.0 is not 2.00. */
  lemma EqualsSeesScale(id: Int32, name: string, rating: Rating)
    ensures !Equals(Drink(Identity(id, name, Decimal(20, 1), rating)),
                    Drink(Identity(id, name, Decimal(200, 2), rating)))
  {
  }

  /** Product.hashCode(): 23 * 5 + id in int arithmetic. */
  function HashCode(p: Product): (h: Int32)
    ensures (h - (115 + p.base.id)) % 0x1_0000_0000 == 0
    ensures p.base.id <= MaxInt32 - 115 ==> h == 115 + p.base.id
    ensures p.base.id > MaxInt32 - 115 ==> h == 115 + p.base.id - 0x1_0000_0000
  {
    Wrap32(23 * 5 + p.base.id)
  }

  /** hashCode is consistent with equals. */
  lemma HashCodeConsistent(p: Product, q: Product)
    requires Equals(p, q)
    ensures HashCode(p) == HashCode(q)
  {
  }

  /** hashCode tells ids apart and nothing else: equal hashes exactly when the ids are equal. */
  lemma HashCodeIsId(p: Product, q: Product)
    ensures HashCode(p) == HashCode(q) <==> p.base.id == q.base.id
  {
    HashOfId(p.base.id);
    HashOfId(q.base.id);
  }

  /** 115 + id wraps past the top of int exactly when id > MAX_VALUE - 115. */
  lemma HashOfId(id: Int32)
    ensures Wrap32(23 * 5 + id) == if id <= MaxInt32 - 115 then 115 + id else 115 + id - 0x1_0000_0000
  {
    if id > MaxInt32 - 115 {
      var x := 115 + id + 0x8000_0000;
      ModOfDecomposition(x, 0x1_0000_0000, 1, x - 0x1_0000_0000);
    }
  }

  /** Unequal products can share a hash: the same id under two names. */
  lemma HashCodeCollision()
    ensures var tea, coffee := Drink(Identity(101, "Tea", Decimal(199, 2), NotRated)),
                               Drink(Identity(101, "Coffee", Decimal(199, 2), NotRated));
      HashCode(tea) == HashCode(coffee) && !Equals(tea, coffee)
  {
  }
}
