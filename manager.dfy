/**
  labs.pm.data.ProductManager: the in-memory catalogue, a hash map from Product to the list of
  its reviews. Because Product.equals compares id, name, price and rating, re-rating a
  product changes its key: reviewProduct takes the entry out, appends the review, and files
  the list again under the re-rated product.
*/
module Manager {
  import opened Wrappers
  import opened Numerals
  import opened Decimals
  import opened Ratings
  import opened Calendar
  import opened Products

  /** One map entry: the product object that is the key, and its reviews in insertion order. */
  datatype Entry = Entry(product: Product, reviews: seq<Review>)

  /**
    HashMap<Product, List<Review>> under Product.equals: a lookup finds the entry whose key
    has the same shared fields, so the map is indexed by those fields, and each entry
    remembers which product object is its key.
  */
  type Catalogue = map<Identity, Entry>

  /** Every entry is filed under the shared fields of its own key object. */
  predicate Keyed(c: Catalogue) {
    forall b :: b in c ==> c[b].product.base == b
  }

  /** The ids of the keys. */
  function Ids(c: Catalogue): set<Int32> {
    set b | b in c :: b.id
  }

  /** Some key has this id. */
  predicate HasId(c: Catalogue, id: Int32) {
    id in Ids(c)
  }

  /** Map.putIfAbsent(p, new ArrayList<>()): an equal key already present keeps its entry. */
  function PutIfAbsent(c: Catalogue, p: Product): (r: Catalogue)
    ensures r.Keys == c.Keys + {p.base}
    ensures p.base !in c ==> r[p.base] == Entry(p, [])
    ensures forall b :: b in c ==> r[b] == c[b]
  {
    if p.base in c then c else c[p.base := Entry(p, [])]
  }

  /** Map.put(p, reviews): an equal key already present keeps its key object and takes the list. */
  function Put(c: Catalogue, p: Product, reviews: seq<Review>): (r: Catalogue)
    ensures r.Keys == c.Keys + {p.base}
    ensures r[p.base].reviews == reviews
    ensures r[p.base].product == (if p.base in c then c[p.base].product else p)
    ensures forall b :: b in c && b != p.base ==> r[b] == c[b]
  {
    if p.base in c then c[p.base := Entry(c[p.base].product, reviews)] else c[p.base := Entry(p, reviews)]
  }

  /** Creating a product files it, with no reviews, unless an equal product is already there. */
  lemma PutIfAbsentFiles(c: Catalogue, p: Product)
    requires Keyed(c)
    ensures var r := PutIfAbsent(c, p);
      && Keyed(r)
      && p.base in r
      && r.Keys == c.Keys + {p.base}
      && (p.base in c ==> r == c)
      && (p.base !in c ==> r[p.base] == Entry(p, []) && forall b :: b in c ==> r[b] == c[b])
      && Ids(r) == Ids(c) + {p.base.id}
  {
    var r := PutIfAbsent(c, p);
    forall id | id in Ids(r) ensures id in Ids(c) + {p.base.id} {
      var b :| b in r && b.id == id;
    }
    forall id | id in Ids(c) + {p.base.id} ensures id in Ids(r) {
      if id == p.base.id {
        assert p.base in r;
      } else {
        var b :| b in c && b.id == id;
        assert b in r;
      }
    }
  }

  /** The sum of the ordinals of the ratings of `reviews`. */
  function OrdinalSum(reviews: seq<Review>): (s: nat)
    ensures s <= 5 * |reviews|
  {
    if reviews == [] then 0
    else OrdinalSum(reviews[..|reviews| - 1]) + reviews[|reviews| - 1].rating.Ordinal()
  }

  /**
    (int) Math.round(average of the ordinals): the average of a non-empty list of ordinals
    rounded to the nearest integer, halves upwards (floor(mean + 1/2)); it lies in 0..5.
  */
  function RoundedMean(reviews: seq<Review>): (r: nat)
    requires |reviews| > 0
    ensures 2 * |reviews| * r <= 2 * OrdinalSum(reviews) + |reviews| < 2 * |reviews| * (r + 1)
    ensures r <= 5
  {
    var n, s := |reviews|, OrdinalSum(reviews);
    var r := (2 * s + n) / (2 * n);
    assert 2 * s + n < 2 * n * 6 by {
      assert 2 * n * 6 == 12 * n;
    }
    BelowQuotientBound(2 * s + n, 2 * n, r, 6);
    r
  }

  lemma BelowQuotientBound(x: nat, d: nat, q: nat, k: nat)
    requires d > 0 && q == x / d && x < d * k
    ensures q < k && d * q <= x < d * (q + 1)
  {
    assert x == d * q + x % d;
    assert k * d == d * k && q * d == d * q;
    assert d * (q + 1) == d * q + d;
    if q >= k {
      MulMonotone(k, q, d);
    }
  }

  /** The rounded mean is Math.round of the real-valued mean: within a half, halves upwards. */
  lemma RoundedMeanIsNearest(reviews: seq<Review>)
    requires |reviews| > 0
    ensures RoundedMean(reviews) as real - 0.5 <= Mean(reviews) < RoundedMean(reviews) as real + 0.5
  {
    NearestOfBounds(|reviews|, OrdinalSum(reviews), RoundedMean(reviews));
  }

  /** IntStream.average() of the ordinals, exactly. */
  function Mean(reviews: seq<Review>): real
    requires |reviews| > 0
  {
    OrdinalSum(reviews) as real / |reviews| as real
  }

  lemma NearestOfBounds(n: nat, s: nat, r: nat)
    requires n > 0 && 2 * n * r <= 2 * s + n < 2 * n * (r + 1)
    ensures r as real - 0.5 <= s as real / n as real < r as real + 0.5
  {
    var nr, sr, rr := n as real, s as real, r as real;
    OddMultiplesAsReal(n, s, r);
    HalveBounds(rr, sr, nr);
    AtLeastQuotient(sr, rr - 0.5, nr);
    BelowQuotient(sr, rr + 0.5, nr);
  }

  lemma OddMultiples(n: nat, s: nat, r: nat)
    requires 2 * n * r <= 2 * s + n < 2 * n * (r + 1)
    ensures (2 * r - 1) * n <= 2 * s < (2 * r + 1) * n
  {
    assert (2 * r - 1) * n == 2 * n * r - n;
    assert (2 * r + 1) * n == 2 * n * (r + 1) - n;
  }

  lemma OddMultiplesAsReal(n: nat, s: nat, r: nat)
    requires 2 * n * r <= 2 * s + n < 2 * n * (r + 1)
    ensures (2.0 * r as real - 1.0) * n as real <= 2.0 * s as real < (2.0 * r as real + 1.0) * n as real
  {
    OddMultiples(n, s, r);
    var lo, hi := 2 * r - 1, 2 * r + 1;
    IntProductAsReal(lo, n);
    IntProductAsReal(hi, n);
    assert lo as real == 2.0 * r as real - 1.0 && hi as real == 2.0 * r as real + 1.0;
  }

  lemma IntProductAsReal(a: int, b: int)
    ensures (a * b) as real == a as real * b as real
  {
  }

  lemma HalveBounds(r: real, s: real, n: real)
    requires (2.0 * r - 1.0) * n <= 2.0 * s < (2.0 * r + 1.0) * n
    ensures (r - 0.5) * n <= s < (r + 0.5) * n
  {
  }

  lemma AtLeastQuotient(x: real, c: real, n: real)
    requires n > 0.0 && c * n <= x
    ensures c <= x / n
  {
  }

  lemma BelowQuotient(x: real, c: real, n: real)
    requires n > 0.0 && x < c * n
    ensures x / n < c
  {
  }

  /** The rounded mean of ratings that all lie in lo..hi lies in lo..hi too. */
  lemma RoundedMeanBetween(reviews: seq<Review>, lo: nat, hi: nat)
    requires |reviews| > 0
    requires forall i :: 0 <= i < |reviews| ==> lo <= reviews[i].rating.Ordinal() <= hi
    ensures lo <= RoundedMean(reviews) <= hi
  {
    var n, s, r := |reviews|, OrdinalSum(reviews), RoundedMean(reviews);
    OrdinalSumBetween(reviews, lo, hi);
    assert 2 * n * r <= 2 * s + n < 2 * n * (r + 1);
    RoundedAtMost(n, s, r, hi);
    RoundedAtLeast(n, s, r, lo);
  }

  /** A sum of at most n·hi rounds, over n, to at most hi. */
  lemma RoundedAtMost(n: nat, s: nat, r: nat, hi: nat)
    requires n > 0 && 2 * n * r <= 2 * s + n && s <= n * hi
    ensures r <= hi
  {
    assert (hi + 1) * (2 * n) == 2 * (n * hi) + 2 * n;
    assert r * (2 * n) == 2 * n * r;
    if r > hi {
      MulMonotone(hi + 1, r, 2 * n);
    }
  }

  /** A sum of at least n·lo rounds, over n, to at least lo. */
  lemma RoundedAtLeast(n: nat, s: nat, r: nat, lo: nat)
    requires n > 0 && 2 * s + n < 2 * n * (r + 1) && n * lo <= s
    ensures lo <= r
  {
    assert (r + 1) * (2 * n) == 2 * n * (r + 1);
    assert lo * (2 * n) == 2 * (n * lo);
    if r < lo {
      MulMonotone(r + 1, lo, 2 * n);
    }
  }

  lemma {:induction false} OrdinalSumBetween(reviews: seq<Review>, lo: nat, hi: nat)
    requires forall i :: 0 <= i < |reviews| ==> lo <= reviews[i].rating.Ordinal() <= hi
    ensures |reviews| * lo <= OrdinalSum(reviews) <= |reviews| * hi
  {
    if reviews != [] {
      var init, last := reviews[..|reviews| - 1], reviews[|reviews| - 1];
      assert forall i :: 0 <= i < |init| ==> init[i] == reviews[i];
      OrdinalSumBetween(init, lo, hi);
      assert lo <= last.rating.Ordinal() <= hi;
      MulSucc(|init|, lo);
      MulSucc(|init|, hi);
    }
  }

  lemma MulSucc(n: nat, a: nat)
    ensures (n + 1) * a == n * a + a
  {
  }

  /**
    Rateable.convert((int) Math.round(average)) after the new review: the rating whose ordinal
    is the rounded mean. The list is never empty here, so average().orElse(0) never applies.
  */
  function AggregateRating(reviews: seq<Review>): (r: Rating)
    requires |reviews| > 0
    ensures r.Ordinal() == RoundedMean(reviews)
  {
    FromOrdinal(RoundedMean(reviews))
  }

  /**
    reviewProduct(product, rating, comments) on a product with an equal key: the entry is
    removed, the review appended to its list, the product re-rated by the rounded mean, and
    the list filed under the re-rated product. Yields the new catalogue and that product.
  */
  function Reviewed(c: Catalogue, p: Product, rating: Rating, comments: string): (r: (Catalogue, Product))
    requires p.base in c
    ensures r.1.base.id == p.base.id && r.1.base.name == p.base.name && r.1.base.price == p.base.price
    ensures r.1.Drink? == p.Drink?
    ensures r.1.base.rating.Ordinal() == RoundedMean(c[p.base].reviews + [Review(rating, comments)])
    ensures r.1.base in r.0 && r.0[r.1.base].reviews == c[p.base].reviews + [Review(rating, comments)]
    ensures r.0.Keys == c.Keys - {p.base} + {r.1.base}
    ensures r.1 == ApplyRating(p, AggregateRating(c[p.base].reviews + [Review(rating, comments)]))
  {
    var reviews := c[p.base].reviews + [Review(rating, comments)];
    var rated := ApplyRating(p, AggregateRating(reviews));
    (Put(c - {p.base}, rated, reviews), rated)
  }

  /**
    After a review the re-rated product maps to the old list with the new review at its end;
    the reviewed key is gone unless the re-rated product equals it; every other entry is as
    it was, except that a different key equal to the re-rated product keeps its key object
    and has its list replaced.
  */
  lemma ReviewedEntries(c: Catalogue, p: Product, rating: Rating, comments: string)
    requires Keyed(c) && p.base in c
    ensures var (c', q) := Reviewed(c, p, rating, comments);
      && Keyed(c')
      && q.base in c'
      && c'[q.base].reviews == c[p.base].reviews + [Review(rating, comments)]
      && c'.Keys == c.Keys - {p.base} + {q.base}
      && (p.base in c' <==> Equals(q, p))
      && (forall b :: b in c && b != p.base && b != q.base ==> b in c' && c'[b] == c[b])
      && (q.base !in c || q.base == p.base ==> c'[q.base].product == q)
      && (q.base in c && q.base != p.base ==> c'[q.base].product == c[q.base].product)
  {
  }

  /**
    The re-rated product differs from the reviewed one in its rating alone: a Food keeps its
    best-before date, so getBestBefore gives the same answer for both on every day.
  */
  lemma ReviewedRating(c: Catalogue, p: Product, rating: Rating, comments: string, today: Date)
    requires p.base in c
    ensures var (_, q) := Reviewed(c, p, rating, comments);
      && (p.Food? ==> q.Food? && q.bestBefore == p.bestBefore)
      && BestBefore(q, today) == BestBefore(p, today)
      && q == ApplyRating(p, q.base.rating)
  {
  }

  /** Reviewing never adds or loses an id, so findProduct keeps finding a re-rated product. */
  lemma ReviewedKeepsIds(c: Catalogue, p: Product, rating: Rating, comments: string)
    requires Keyed(c) && p.base in c
    ensures Ids(Reviewed(c, p, rating, comments).0) == Ids(c)
  {
    var (c', q) := Reviewed(c, p, rating, comments);
    ReviewedEntries(c, p, rating, comments);
    forall id | id in Ids(c') ensures id in Ids(c) {
      var b :| b in c' && b.id == id;
      if b == q.base {
        assert p.base in c && p.base.id == id;
      } else {
        assert b in c;
      }
    }
    forall id | id in Ids(c) ensures id in Ids(c') {
      var b :| b in c && b.id == id;
      if b == p.base {
        assert q.base in c' && q.base.id == id;
      } else {
        assert b in c';
      }
    }
  }

  /**
    The demo order of reviews (four, two, four, four, five, three stars) leaves a product
    rated four stars: 22 / 6 rounds to 4.
  */
  lemma DemoReviewsRateFourStars()
    ensures var rs := [Review(FourStar, "Nice hot cup of tea"), Review(TwoStar, "Rather weak tea"),
                       Review(FourStar, "Fine tea"), Review(FourStar, "Good tea"),
                       Review(FiveStar, "Perfect tea"), Review(ThreeStar, "Just add some lemon")];
      AggregateRating(rs) == FourStar
  {
    var rs := [Review(FourStar, "Nice hot cup of tea"), Review(TwoStar, "Rather weak tea"),
               Review(FourStar, "Fine tea"), Review(FourStar, "Good tea"),
               Review(FiveStar, "Perfect tea"), Review(ThreeStar, "Just add some lemon")];
    assert OrdinalSum(rs[..1]) == 4 by { assert rs[..1][..0] == []; }
    assert OrdinalSum(rs[..2]) == 6 by { assert rs[..2][..1] == rs[..1]; }
    assert OrdinalSum(rs[..3]) == 10 by { assert rs[..3][..2] == rs[..2]; }
    assert OrdinalSum(rs[..4]) == 14 by { assert rs[..4][..3] == rs[..3]; }
    assert OrdinalSum(rs[..5]) == 19 by { assert rs[..5][..4] == rs[..4]; }
    assert OrdinalSum(rs) == 22 by { assert rs[..5] == rs[..|rs| - 1]; }
  }

  /** Ratings 2, 4, 4 average 3.33 and round to three stars; ratings 1, 2 tie at 1.5 and round up. */
  lemma RoundingExamples()
    ensures AggregateRating([Review(TwoStar, ""), Review(FourStar, ""), Review(FourStar, "")]) == ThreeStar
    ensures AggregateRating([Review(OneStar, ""), Review(TwoStar, "")]) == TwoStar
  {
    var a := [Review(TwoStar, ""), Review(FourStar, ""), Review(FourStar, "")];
    assert a[..2][..1] == [a[0]];
    assert OrdinalSum(a) == 10;
    var b := [Review(OneStar, ""), Review(TwoStar, "")];
    assert b[..1] == [b[0]];
    assert OrdinalSum(b) == 3;
  }

  /** The language tags of ProductManager.formatters. */
  const SupportedLocales: set<string> := {"en-GB", "en-US", "es-US", "fr-FR", "fr-CA", "ru-RU", "zh-CN", "nl-NL"}

  /** changeLocale: formatters.getOrDefault(tag, the UK formatter). */
  function LocaleFor(languageTag: string): (r: string)
    ensures r in SupportedLocales
    ensures languageTag in SupportedLocales ==> r == languageTag
    ensures languageTag !in SupportedLocales ==> r == "en-GB"
  {
    if languageTag in SupportedLocales then languageTag else "en-GB"
  }

  /** What the catalogue reports instead of a product. */
  datatype ManagerError =
    | ProductNotFound(id: Int32)   // ProductManagerException("Product with id ... not found")
    | NullReviewList               // NullPointerException: no equal key, so get(product) was null

  class ProductManager {
    var products: Catalogue
    /** The language tag of the ResourceFormatter in use. */
    var locale: string

    ghost predicate Valid()
      reads this
    {
      Keyed(products) && locale in SupportedLocales
    }

    /**
      ProductManager(languageTag): picks the formatter, then loadAllData, whose directory
      reading is not part of this model; the catalogue starts empty, as when no product file
      is found.
    */
    constructor (languageTag: string)
      ensures Valid()
      ensures products == map[] && locale == LocaleFor(languageTag)
    {
      products := map[];
      locale := LocaleFor(languageTag);
    }

    /** changeLocale(languageTag): an unsupported tag falls back to the UK formatter. */
    method ChangeLocale(languageTag: string)
      requires Valid()
      modifies this`locale
      ensures Valid()
      ensures locale == LocaleFor(languageTag)
    {
      locale := LocaleFor(languageTag);
    }

    /**
      createProduct(id, name, price, rating, bestBefore): builds a Food and files it with no
      reviews unless an equal product is already there; the new Food is returned either way.
    */
    method CreateFood(id: Int32, name: string, price: Decimal, rating: Rating, bestBefore: Date)
      returns (p: Product)
      requires Valid()
      modifies this`products
      ensures Valid()
      ensures p == Food(Identity(id, name, price, rating), bestBefore)
      ensures products == PutIfAbsent(old(products), p)
    {
      p := Food(Identity(id, name, price, rating), bestBefore);
      PutIfAbsentFiles(products, p);
      products := PutIfAbsent(products, p);
    }

    /** createProduct(id, name, price, rating): the same with a Drink. */
    method CreateDrink(id: Int32, name: string, price: Decimal, rating: Rating)
      returns (p: Product)
      requires Valid()
      modifies this`products
      ensures Valid()
      ensures p == Drink(Identity(id, name, price, rating))
      ensures products == PutIfAbsent(old(products), p)
    {
      p := Drink(Identity(id, name, price, rating));
      PutIfAbsentFiles(products, p);
      products := PutIfAbsent(products, p);
    }

    /**
      reviewProduct(product, rating, comments). Without an equal key, get returns null,
      remove(product, null) removes nothing, and appending to the null list throws: the
      catalogue is unchanged.
    */
    method ReviewProduct(product: Product, rating: Rating, comments: string)
      returns (r: Result<Product, ManagerError>)
      requires Valid()
      modifies this`products
      ensures Valid()
      ensures product.base !in old(products) ==> r == Failure(NullReviewList) && products == old(products)
      ensures product.base in old(products) ==>
        r.Success? && (products, r.value) == Reviewed(old(products), product, rating, comments)
    {
      if product.base !in products {
        return Failure(NullReviewList);
      }
      ReviewedEntries(products, product, rating, comments);
      var reviews := products[product.base].reviews;
      products := products - {product.base};
      reviews := reviews + [Review(rating, comments)];
      var rated := ApplyRating(product, AggregateRating(reviews));
      products := Put(products, rated, reviews);
      r := Success(rated);
    }

    /**
      findProduct(id): some key with that id (which one depends on the hash map's iteration
      order), or ProductManagerException when there is none.
    */
    method FindProduct(id: Int32) returns (r: Result<Product, ManagerError>)
      requires Valid()
      ensures r.Success? ==>
        r.value.base in products && products[r.value.base].product == r.value && r.value.base.id == id
      ensures r.Failure? <==> !HasId(products, id)
      ensures r.Failure? ==> r.error == ProductNotFound(id)
    {
      if b :| b in products && b.id == id {
        r := Success(products[b].product);
      } else {
        r := Failure(ProductNotFound(id));
      }
    }

    /**
      reviewProduct(id, rating, comments): finds a product with that id and reviews it; when
      there is none the exception is logged, null returned and the catalogue left as it was.
    */
    method ReviewProductById(id: Int32, rating: Rating, comments: string) returns (r: Option<Product>)
      requires Valid()
      modifies this`products
      ensures Valid()
      ensures !HasId(old(products), id) ==> r == None && products == old(products)
      ensures HasId(old(products), id) ==>
        && r.Some? && r.value.base.id == id
        && exists b :: b in old(products) && b.id == id &&
             (products, r.value) == Reviewed(old(products), old(products)[b].product, rating, comments)
    {
      var found := FindProduct(id);
      if found.Failure? {
        return None;
      }
      var p := found.value;
      var reviewed := ReviewProduct(p, rating, comments);
      r := Some(reviewed.value);
    }
  }
}
