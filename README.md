# ProductManagement catalogue, modelled in Dafny

This project models the in-memory core of the ProductManagement application (`labs.pm.data`
and the older `labs.data`):

- the product hierarchy: the abstract `Product` with its `Drink` and `Food` variants. This covers
  the constructors and their defaults, the 10 % discount rounded HALF_UP to cents, the
  tea-time window in which a `Food` gets that discount, the best-before date, `applyRating`,
  `equals` and `hashCode`;
- the older mutable `labs.data.Product`: a class whose price can be set, with the same discount rule;
- `ProductManager`: a hash map from a product to the list of its reviews. The model covers
  `createProduct` (both overloads), `reviewProduct` (both overloads), `findProduct`,
  `changeLocale`, and `parseProduct` / `parseReview` over the fields of one text line.

The values the Java code takes from libraries are written out:

- `BigDecimal` is an unscaled integer plus a scale. Its `equals` counts the scale, and
  `setScale(2, HALF_UP)` rounds exactly (`decimals.dfy`).
- `int` arithmetic wraps around at 32 bits where `hashCode` needs it (`numerals.dfy`).
- `LocalDate` follows the ISO calendar with `LocalDate.parse`'s strict check that the day exists
  (`calendar.dfy`).
- `Integer.parseInt` and `toString` are modelled on ASCII digits (`numerals.dfy`).

The clock is an input, not something the model reads. The time of day is a `NanoOfDay` and
"today" is a `Date`.

`ProductManager` is a class whose `products` field holds a `map` from the shared fields of a
product (`Identity`, exactly what `equals` compares) to an `Entry`. An entry holds the product
object that is the key and its reviews, in insertion order. `createProduct` and
`reviewProduct` reassign that field. Each of them is specified by a function on the old map
(`PutIfAbsent`, `Reviewed`), and lemmas state what those functions do to every entry.

Files:

- `wrappers.dfy`: `Option` and `Result`.
- `numerals.dfy`: `int` range, wrap-around, decimal digit strings, `parseInt`.
- `decimals.dfy`: `BigDecimal`.
- `ratings.dfy`: `Rating` and `Review`.
- `calendar.dfy`: dates and times of day.
- `products.dfy`: `labs.pm.data.Product`, `Drink` and `Food`.
- `legacy_product.dfy`: `labs.data.Product`.
- `manager.dfy`: the catalogue.
- `parsing.dfy`: `parseProduct` and `parseReview`.

## Model

| member | source | states |
|---|---|---|
| Numerals.Wrap32 | src/labs/pm/data/Product.java:84-87 | int arithmetic: the result is in int range, agrees with the exact value modulo 2^32, and is the exact value when that fits |
| Numerals.ParseInt | src/labs/pm/data/ProductManager.java:266 | an accepted text is an optional sign followed by digits; a minus sign gives a value at most 0, otherwise the value is at least 0 |
| Numerals.ParseIntText | src/labs/pm/data/ProductManager.java:266 | Integer.parseInt reads back the decimal text of every int, and rejects the text of every integer outside int |
| Numerals.ParseIntRejects | src/labs/pm/data/ProductManager.java:266 | an empty text, a lone sign and a trailing letter are NumberFormatExceptions |
| Decimals.Multiply | src/labs/pm/data/Product.java:46 | BigDecimal.multiply: the scale of the product is the sum of the scales, and it is zero exactly when a factor is |
| Decimals.MultiplyIsExact | src/labs/pm/data/Product.java:46 | the product is exact: counted at scale e + f it is the product of the factors counted at e and f |
| Decimals.SetScaleHalfUp | src/labs/pm/data/Product.java:46 | setScale gives the new scale, keeps the value when the scale gets finer, and keeps the sign |
| Decimals.HalfUpDivideRounds | src/labs/pm/data/Product.java:46 | HALF_UP division is within half a divisor of the exact value, a tie goes away from zero, and the sign follows the dividend |
| Decimals.SetScaleHalfUpRounds | src/labs/pm/data/Product.java:46 | setScale(n, HALF_UP) keeps the value to within half a unit of scale n, goes away from zero on a tie, is exact for a finer scale, and keeps a nonnegative value nonnegative |
| Ratings.Convert | src/labs/pm/data/ProductManager.java:98 | a level in 0..5 converts to the rating with that ordinal; other levels are left open |
| Ratings.ConvertOrdinal | src/labs/pm/data/ProductManager.java:98-101 | converting the ordinal of a rating gives that rating back |
| Calendar.TimeOf | src/labs/pm/data/Food.java:28-29 | LocalTime.of(hour, minute) is a whole number of minutes after midnight, hour × 60 + minute of them |
| Calendar.ParseIsoDate | src/labs/pm/data/ProductManager.java:275 | LocalDate.parse accepts only a date that exists, with a four-digit year |
| Calendar.ParseDateText | src/labs/pm/data/ProductManager.java:275 | a text yyyy-MM-dd parses to the date it spells exactly when that date exists, and is rejected otherwise |
| Calendar.LeapDayParses | src/labs/pm/data/ProductManager.java:275 | the 29th of February parses exactly in a leap year |
| Calendar.NoThirtyFirstOfApril | src/labs/pm/data/ProductManager.java:275 | the 31st of April never parses |
| Products.Unrated | src/labs/pm/data/Product.java:29-31 | the three-argument constructor keeps id, name and price and sets NOT_RATED |
| Products.DefaultIdentity | src/labs/pm/data/Product.java:18-20 | the no-argument constructor gives id 0, "no name", BigDecimal.ZERO and NOT_RATED |
| Products.TenPercentDiscount | src/labs/pm/data/Product.java:45-47 | the discount has scale 2 and the sign of the price |
| Products.DiscountIsTenthHalfUp | src/labs/pm/data/Product.java:45-47 | the discount has scale 2, lies within half a cent of a tenth of the price, and goes away from zero on a tie |
| Products.DiscountOfOneNinetyNine | src/labs/pm/data/Product.java:45-47 | a price of 1.99 has a discount of 0.20 |
| Products.DiscountWithinPrice | src/labs/pm/data/Product.java:45-47 | for a nonnegative price the discount is nonnegative and at most the price |
| Products.Discount | src/labs/pm/data/Food.java:26-31 | the discount is the flat rule or BigDecimal.ZERO, and for a nonnegative price lies between zero and the price |
| Products.FoodDiscountInWindow | src/labs/pm/data/Food.java:26-31 | strictly between 16:30 and 17:30 a Food gets the same discount as a Drink with the same fields |
| Products.FoodDiscountOutsideWindow | src/labs/pm/data/Food.java:26-31 | outside that window a Food's discount is BigDecimal.ZERO, which has scale 0 and is not equal to a computed 0.00 |
| Products.FoodDiscountAtBoundaries | src/labs/pm/data/Food.java:28-29 | at 16:30 and at 17:30 exactly a Food's discount is zero |
| Products.DrinkDiscountIgnoresClock | src/labs/pm/data/Drink.java:5-20 | a Drink's discount is the flat rule at every time of day |
| Products.BestBefore | src/labs/pm/data/Product.java:49-51 | a Drink's best-before date is today; a Food's is the date it was built with (Food.java:15-17) |
| Products.ApplyRating | src/labs/pm/data/Food.java:33-42 | re-rating keeps id, name, price, variant and best-before date, and sets the new rating; Drink.java:11-19 is the Drink case |
| Products.ApplyRatingLastWins | src/labs/pm/data/Drink.java:11-19 | re-rating twice equals re-rating once with the last rating |
| Products.ApplyRatingOwnRating | src/labs/pm/data/Food.java:33-42 | re-rating with a product's own rating gives an equal value back |
| Products.Equals | src/labs/pm/data/Product.java:70-81 | equal products have equal hashes |
| Products.EqualsIsSameIdentity | src/labs/pm/data/Product.java:70-81 | equals holds exactly when id, name, price (scale included) and rating agree |
| Products.EqualsIsEquivalence | src/labs/pm/data/Product.java:70-81 | equals is reflexive, symmetric and transitive |
| Products.EqualsIgnoresVariant | src/labs/pm/data/Product.java:73-78 | a Drink and a Food with the same fields are equal, though they are different objects |
| Products.EqualsSeesScale | src/labs/pm/data/Product.java:77 | prices 2.0 and 2.00 make unequal products |
| Products.HashCode | src/labs/pm/data/Product.java:83-87 | the hash agrees with 115 + id modulo 2^32: it is 115 + id up to Integer.MAX_VALUE - 115, and 115 + id - 2^32 above |
| Products.HashCodeConsistent | src/labs/pm/data/Product.java:83-87 | equal products have equal hashes |
| Products.HashCodeIsId | src/labs/pm/data/Product.java:83-87 | two hashes are equal exactly when the ids are, including across int overflow |
| Products.HashOfId | src/labs/pm/data/Product.java:86 | 23 * 5 + id is 115 + id, minus 2^32 once it passes Integer.MAX_VALUE |
| Products.HashCodeCollision | src/labs/pm/data/Product.java:83-87 | unequal products with the same id share a hash |
| LegacyProducts.Product.Default | src/labs/data/Product.java:16-18 | the no-argument constructor gives id 0, "no name", BigDecimal.ZERO and NOT_RATED |
| LegacyProducts.Product.Unrated | src/labs/data/Product.java:27-29 | the three-argument constructor keeps its arguments and sets NOT_RATED |
| LegacyProducts.Product.constructor | src/labs/data/Product.java:20-25 | the getters return the four constructor arguments |
| LegacyProducts.Product.GetId | src/labs/data/Product.java:31-33 | returns the id field, which no method changes after construction |
| LegacyProducts.Product.GetName | src/labs/data/Product.java:35-37 | returns the name field, which no method changes after construction |
| LegacyProducts.Product.GetPrice | src/labs/data/Product.java:39-41 | returns the current price, the one the last setPrice set |
| LegacyProducts.Product.GetRating | src/labs/data/Product.java:51-53 | returns the rating field, which no method changes after construction |
| LegacyProducts.Product.SetPrice | src/labs/data/Product.java:43-45 | the price is the new one, id, name and rating are unchanged, and the discount follows the new price |
| LegacyProducts.Product.GetDiscount | src/labs/data/Product.java:47-49 | the discount is the same cents rule as labs.pm.data.Product, with scale 2, and lies between zero and a nonnegative price |
| Manager.PutIfAbsent | src/labs/pm/data/ProductManager.java:83-89 | putIfAbsent adds the product's key, gives it an empty list only when no equal key was there, and leaves every existing entry as it was |
| Manager.Put | src/labs/pm/data/ProductManager.java:104 | put files the list under the product's key, keeps an equal existing key's object, and leaves every other entry as it was |
| Manager.PutIfAbsentFiles | src/labs/pm/data/ProductManager.java:83 | putIfAbsent adds the product with no reviews when no equal key exists, and otherwise leaves the map as it was |
| Manager.RoundedMean | src/labs/pm/data/ProductManager.java:99-103 | Math.round of the average is the integer r with 2n·r ≤ 2·sum + n < 2n·(r + 1), and lies in 0..5 |
| Manager.RoundedMeanIsNearest | src/labs/pm/data/ProductManager.java:99-103 | the rounded mean lies within one half of the real mean, and halves round up |
| Manager.RoundedMeanBetween | src/labs/pm/data/ProductManager.java:99-103 | when every rating lies between two ordinals, the rounded mean lies between them too |
| Manager.OrdinalSumBetween | src/labs/pm/data/ProductManager.java:100-102 | the sum of n ordinals, each between lo and hi, lies between n·lo and n·hi |
| Manager.AggregateRating | src/labs/pm/data/ProductManager.java:97-103 | the new rating's ordinal is the rounded mean, so the orElse(0) default never applies |
| Manager.Reviewed | src/labs/pm/data/ProductManager.java:93-106 | the re-rated product is applyRating of the reviewed one, so it keeps id, name, price, variant and best-before date; its ordinal is the rounded mean of the old reviews plus the new one, that list is filed under it, and the reviewed key is replaced by the re-rated one |
| Manager.ReviewedEntries | src/labs/pm/data/ProductManager.java:93-106 | the re-rated product maps to the old list with the new review at its end; the old key is gone unless it equals the re-rated product; every other entry is kept; an equal key that was already there keeps its key object |
| Manager.ReviewedRating | src/labs/pm/data/ProductManager.java:97-103 | the re-rated product differs from the reviewed one in its rating alone: a Food keeps its best-before date, and getBestBefore answers the same for both on every day |
| Manager.ReviewedKeepsIds | src/labs/pm/data/ProductManager.java:93-106 | a review neither adds nor loses an id among the keys |
| Manager.DemoReviewsRateFourStars | src/labs/pm/app/Shop.java:25-30 | the ratings 4, 2, 4, 4, 5, 3 average 22/6 and give four stars |
| Manager.RoundingExamples | src/labs/pm/data/ProductManager.java:99 | 2, 4, 4 gives three stars; the tie 1, 2 rounds up to two stars |
| Manager.LocaleFor | src/labs/pm/data/ProductManager.java:71-74 | a supported language tag is kept; any other tag falls back to en-GB |
| Manager.ProductManager.constructor | src/labs/pm/data/ProductManager.java:66-69 | the locale is chosen as changeLocale chooses it, and the catalogue starts empty |
| Manager.ProductManager.ChangeLocale | src/labs/pm/data/ProductManager.java:71-74 | the locale becomes the tag, or en-GB for an unsupported tag, and the catalogue is untouched |
| Manager.ProductManager.CreateFood | src/labs/pm/data/ProductManager.java:81-85 | returns the new Food and files it with putIfAbsent |
| Manager.ProductManager.CreateDrink | src/labs/pm/data/ProductManager.java:87-91 | returns the new Drink and files it with putIfAbsent |
| Manager.ProductManager.ReviewProduct | src/labs/pm/data/ProductManager.java:93-106 | for a present key the new map and the returned product are those of Reviewed; for an absent key the list is null, the map is unchanged and the call fails |
| Manager.ProductManager.FindProduct | src/labs/pm/data/ProductManager.java:307-318 | returns a key object with that id, and fails with "not found" exactly when no key has that id |
| Manager.ProductManager.ReviewProductById | src/labs/pm/data/ProductManager.java:108-116 | an unknown id gives null and an unchanged map; otherwise some key with that id is reviewed as ReviewProduct does |
| ProductParsing.IndexOf | src/labs/pm/data/ProductManager.java:268 | the first position of a character, or none when it does not occur |
| ProductParsing.Canonical | src/labs/pm/data/ProductManager.java:268 | BigDecimal.valueOf's form of a decimal: scale at least 1, no trailing zero beyond the first fraction digit, and the same value |
| ProductParsing.ParsePrice | src/labs/pm/data/ProductManager.java:268 | an accepted price is in BigDecimal.valueOf's form |
| ProductParsing.ParseMagnitude | src/labs/pm/data/ProductManager.java:268 | an accepted magnitude ends in as many digits as its scale, preceded by the point when the scale is positive; with no point it is all digits and has scale 0 |
| ProductParsing.WholePriceGetsOnePlace | src/labs/pm/data/ProductManager.java:268 | a price written without a point reads with one decimal place, as BigDecimal.valueOf of a double gives it: 2 becomes 2.0 |
| ProductParsing.LeadingPointPrice | src/labs/pm/data/ProductManager.java:268 | a price with a point and no whole part, such as .5, reads with zero as its whole part |
| ProductParsing.TrailingZerosDropped | src/labs/pm/data/ProductManager.java:268 | trailing zeros beyond the first decimal place are dropped: 1.50 becomes 1.5 and 3.00 becomes 3.0 |
| ProductParsing.ParsePriceText | src/labs/pm/data/ProductManager.java:268 | every price in that form is read back from its plain text |
| ProductParsing.ParseMagnitudeText | src/labs/pm/data/ProductManager.java:268 | the plain text of a magnitude reads back as that magnitude and scale |
| ProductParsing.ParseProduct | src/labs/pm/data/ProductManager.java:261-282 | a parsed product is a Drink exactly for tag D and a Food exactly for tag F; its fields are the parsed id, name, price and rating, and a Food's date is the parsed date; any other tag gives no product; an id, price or level that does not parse gives null, before the level is converted |
| ProductParsing.ParseDrinkLine | src/labs/pm/data/ProductManager.java:264-272 | a D line whose id, price and level parse, with the level in 0..5, gives the Drink with those values, whatever their spelling |
| ProductParsing.ParseFoodLine | src/labs/pm/data/ProductManager.java:264-276 | an F line whose id, price and level parse, with the level in 0..5, and whose date parses, gives the Food with those values and that date |
| ProductParsing.ParseProductFields | src/labs/pm/data/ProductManager.java:261-282 | parsing the fields of a product gives that product back |
| ProductParsing.NonNumericIdRejected | src/labs/pm/data/ProductManager.java:261-282 | an id that is not a number makes the line rejected |
| ProductParsing.InvalidDateRejected | src/labs/pm/data/ProductManager.java:261-282 | a Food line dated 30 February gives no product, whatever its other fields |
| ProductParsing.ParseReview | src/labs/pm/data/ProductManager.java:153-168 | a parsed review has the parsed level as its rating and the second field as its comments; a level that is not a number, or a field list too short for the pattern, gives null; UnknownLevel only follows a parsed level outside 0..5 |
| ProductParsing.ParseReviewLine | src/labs/pm/data/ProductManager.java:157-160 | a review whose level parses to a number in 0..5 gives the review with that rating and the second field as its comments |
| ProductParsing.ParseReviewFields | src/labs/pm/data/ProductManager.java:153-168 | parsing the fields of a review gives that review back |
| ProductParsing.NonNumericLevelRejected | src/labs/pm/data/ProductManager.java:157-163 | a review whose level is "four" is rejected |

## Left out

- File and console I/O are not modelled: `loadAllData`, `loadProduct`, `loadReviews`, `dumpData`,
  `restoreData`, `printProductReport` and `printProducts`. The constructor's `loadAllData` is
  modelled as finding no product file, so the catalogue starts empty.
- `printProductReport` sorts the stored review list in place, which changes the order later
  reviews are appended after. `Review`'s ordering is not part of this model, so the model keeps
  insertion order.
- `getDiscounts` is not modelled: it sums discounts as `double` and formats them as currency.
- `ResourceFormatter` and its number, date and message formatting are not modelled. The locale is
  only the language tag that `changeLocale` picks.
- `MessageFormat.parse` splits a line using patterns in a configuration bundle that is not part
  of this model. The parsers take the fields it yields. A field list shorter than five (products)
  or two (reviews) stands for its `ParseException`.
- ProductParsing.ParseProduct: a Food line without a sixth field is rejected here. In the source,
  `values[5]` would be null or missing there, and the exception would not be caught; that outcome
  depends on the pattern, which is not part of this model.
- ProductParsing.ParsePrice: the price goes through `Double.parseDouble` and
  `BigDecimal.valueOf`. It is modelled as an exact decimal parse, normalised as `Double.toString`
  writes it. Exponents, surrounding whitespace, `NaN`, `Infinity`, hexadecimal and `f`/`d`
  suffixes are not accepted here. Prices with more than 15 significant digits can come back
  changed in the source (9.000000000000001 becomes 9.000000000000002) but keep their digits
  here. `Double.toString` writes magnitudes of 10^7 and above, and below 10^-3, in scientific
  notation, so `BigDecimal.valueOf` then gives a different scale: 10000000 becomes unscaled 10
  with scale -6 in the source, but `Decimal(100000000, 1)` here. Neither that rounding nor those
  scales are modelled. A digit string above `Double.MAX_VALUE` (about 1.8 × 10^308) becomes
  Infinity, on which `BigDecimal.valueOf` throws `NumberFormatException`, so the source returns
  null where the model accepts the price. A price too small for a double (400 leading zeros
  after the point, say) becomes 0.0 in the source, where the model keeps its exact value.
- ProductParsing.ParseProductFields: the round trip is stated for prices already in
  `BigDecimal.valueOf`'s form, and for Food dates with years 0..9999.
- Numerals.ParseInt accepts only ASCII digits. `Integer.parseInt` also accepts other Unicode
  decimal digits.
- Calendar.ParseIsoDate accepts only four-digit unsigned years. `LocalDate.parse` also reads
  signed years: a minus sign with four or more digits (`-0001-01-01`), or a plus sign with five
  or more.
- Ratings.Convert: `Rating`, `Rateable` and `Review` are not part of this model. That
  `Rateable.convert` maps a level in 0..5 to the rating with that ordinal is an assumption, on
  which Manager.AggregateRating and the parsers rely. For a level outside 0..5, what
  `Rateable.convert` does is unknown. The parsers then report
  `UnknownLevel(level)` and claim nothing more.
- Manager.ProductManager.FindProduct: the key it returns depends on the hash map's iteration
  order. The model returns any key with that id.
- Manager.ProductManager.ReviewProduct: for a product with no equal key, the source throws a
  `NullPointerException`. The model returns a failure, `NullReviewList`, and leaves the map as it was.
  Nothing had changed before the throw.
- Logging, `Shop.java` (a demonstration `main`), `getSupportedLocales` and `toString` are not
  modelled.
