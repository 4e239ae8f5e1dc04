/**
  ProductManager.parseProduct and parseReview: from the fields of one persisted line to a
  product or a review. MessageFormat.parse splits the line by a pattern kept in a
  configuration bundle; the fields it yields are the input here, and a field list too short
  for the pattern stands for its ParseException.
*/
module ProductParsing {
  import opened Wrappers
  import opened Numerals
  import opened Decimals
  import opened Ratings
  import opened Calendar
  import opened Products

  /**
    What a parse yields: a value; Rejected, when a parse, number-format or date exception was
    caught, logged, and null returned; or UnknownLevel, when the rating level parsed but lies
    outside 0..5, where what Rateable.convert does is not part of this model.
  */
  datatype Parsed<T> = Parsed(value: T) | Rejected | UnknownLevel(level: int)

  /** The first index of `c` in `s`. */
  function IndexOf(s: string, c: char): (r: Option<nat>)
    ensures r.Some? ==> r.value < |s| && s[r.value] == c && c !in s[..r.value]
    ensures r.None? ==> c !in s
  {
    if s == [] then None
    else if s[0] == c then Some(0)
    else
      match IndexOf(s[1..], c)
      case None => None
      case Some(i) => assert s[..i + 1] == [s[0]] + s[1..][..i]; Some(i + 1)
  }

  /** The BigDecimal that BigDecimal.valueOf of a double holds: scale at least 1, no trailing zero beyond it. */
  predicate CanonicalPrice(d: Decimal) {
    d.scale >= 1 && (d.scale == 1 || d.unscaled % 10 != 0)
  }

  /**
    BigDecimal.valueOf(x) goes through Double.toString(x), which writes at least one digit
    after the point and no trailing zeros beyond it: 2 becomes 2.0 and 1.50 becomes 1.5.
    Canonical(u, s) is that form of u × 10^(-s); the value does not change.
  */
  function Canonical(unscaled: int, scale: nat): (d: Decimal)
    ensures CanonicalPrice(d) && d.scale <= Max(scale, 1)
    ensures d.unscaled * Pow10(Max(scale, 1) - d.scale) == unscaled * Pow10(Max(scale, 1) - scale)
    decreases scale
  {
    if scale == 0 then Decimal(unscaled * 10, 1)
    else if scale > 1 && unscaled % 10 == 0 then
      var d := Canonical(unscaled / 10, scale - 1);
      assert Pow10(scale - d.scale) == 10 * Pow10(scale - 1 - d.scale);
      assert unscaled == 10 * (unscaled / 10);
      d
    else Decimal(unscaled, scale)
  }

  /**
    BigDecimal.valueOf(Double.parseDouble(s)) read as an exact decimal: an optional sign, then
    a magnitude; anything else is a NumberFormatException, here None.
  */
  function ParsePrice(s: string): (r: Option<Decimal>)
    ensures r.Some? ==> CanonicalPrice(r.value)
  {
    var signed := |s| > 0 && (s[0] == '-' || s[0] == '+');
    match ParseMagnitude(if signed then s[1..] else s)
    case None => None
    case Some((magnitude, scale)) =>
      Some(Canonical(if signed && s[0] == '-' then 0 - magnitude else magnitude, scale))
  }

  /**
    Digits, an optional point and more digits, at least one digit in all: the number they
    denote counted in units of the last digit, and how many digits follow the point.
  */
  function ParseMagnitude(body: string): (r: Option<(nat, nat)>)
    ensures r.Some? ==> r.value.1 < |body| && AllDigits(body[|body| - r.value.1..])
    ensures r.Some? && r.value.1 > 0 ==> body[|body| - 1 - r.value.1] == '.'
    ensures r.Some? && '.' !in body ==> r.value.1 == 0 && AllDigits(body)
  {
    match IndexOf(body, '.')
    case None =>
      if |body| > 0 && AllDigits(body) then Some((DigitsValue(body), 0)) else None
    case Some(i) =>
      var whole, fraction := body[..i], body[i + 1..];
      assert body[|body| - |fraction|..] == fraction && body[|body| - 1 - |fraction|] == '.';
      if |whole| + |fraction| == 0 || !AllDigits(whole) || !AllDigits(fraction) then None
      else Some((DigitsValue(whole) * Pow10(|fraction|) + DigitsValue(fraction), |fraction|))
  }

  /** A price written without a point reads with one decimal place: 2 becomes 2.0. */
  lemma WholePriceGetsOnePlace(digits: string)
    requires |digits| > 0 && AllDigits(digits)
    ensures ParsePrice(digits) == Some(Decimal(DigitsValue(digits) * 10, 1))
  {
    assert IsDigit(digits[0]);
    assert '.' !in digits by {
      assert forall i | 0 <= i < |digits| :: digits[i] != '.';
    }
  }

  /** A price written with a point but no whole part reads with zero as its whole part: .5 is 0.5. */
  lemma LeadingPointPrice(fraction: string)
    requires |fraction| > 0 && AllDigits(fraction)
    ensures ParsePrice("." + fraction) == Some(Canonical(DigitsValue(fraction), |fraction|))
  {
    var body := "." + fraction;
    assert body[0] == '.';
    LeadingPointMagnitude(fraction);
  }

  lemma {:induction false} LeadingPointMagnitude(fraction: string)
    requires |fraction| > 0 && AllDigits(fraction)
    ensures ParseMagnitude("." + fraction) == Some((DigitsValue(fraction), |fraction|))
  {
    var body := "." + fraction;
    IndexOfAfter("", '.', fraction);
    assert "" + ['.'] + fraction == body;
    assert body[..0] == "" && body[1..] == fraction;
    var p := Pow10(|fraction|);
    assert DigitsValue("") * p == 0;
  }

  /** Trailing zeros beyond the first decimal place are dropped: 1.50 becomes 1.5, 3.00 becomes 3.0. */
  lemma TrailingZerosDropped()
    ensures Canonical(150, 2) == Decimal(15, 1)
    ensures Canonical(300, 2) == Decimal(30, 1)
  {
  }

  /** BigDecimal.toPlainString for a positive scale: sign, whole part, point, all `scale` digits. */
  function PriceText(d: Decimal): string
    requires d.scale >= 1
  {
    (if d.unscaled < 0 then "-" else "") + PlainDigits(Abs(d.unscaled), Pow10(d.scale), d.scale)
  }

  /** The digits of m / p, a point, and m % p written out in `width` digits. */
  function PlainDigits(m: nat, p: nat, width: nat): string
    requires p >= 1
  {
    var (whole, fraction) := DivMod(m, p);
    NatText(whole) + "." + PaddedText(fraction, width)
  }

  /** Quotient and remainder of m by p. */
  function DivMod(m: nat, p: nat): (r: (nat, nat))
    requires p >= 1
    ensures r.0 * p + r.1 == m && r.1 < p
  {
    (m / p, m % p)
  }

  /** Every price in the form BigDecimal.valueOf gives is read back from its own text. */
  lemma ParsePriceText(d: Decimal)
    requires CanonicalPrice(d)
    ensures ParsePrice(PriceText(d)) == Some(d)
  {
    var m, p := Abs(d.unscaled), Pow10(d.scale);
    var body := PlainDigits(m, p, d.scale);
    var s := PriceText(d);
    ParseMagnitudeText(m, p, d.scale);
    var signed := |s| > 0 && (s[0] == '-' || s[0] == '+');
    if d.unscaled < 0 {
      assert s == "-" + body;
      assert signed && s[1..] == body;
    } else {
      assert s == body;
      assert !signed;
    }
    var v := if signed && s[0] == '-' then 0 - m as int else m as int;
    assert v == d.unscaled;
    assert Canonical(v, d.scale) == d;
  }

  /** The plain text of a magnitude reads back as that magnitude and scale, when p = 10^width. */
  lemma {:induction false} ParseMagnitudeText(m: nat, p: nat, width: nat)
    requires p == Pow10(width)
    ensures ParseMagnitude(PlainDigits(m, p, width)) == Some((m, width))
  {
    var (q, r) := DivMod(m, p);
    ModOfDecomposition(r, p, 0, r);
    var whole, fraction := NatText(q), PaddedText(r, width);
    var body := whole + "." + fraction;
    assert body == PlainDigits(m, p, width);
    assert '.' !in whole by {
      assert forall i | 0 <= i < |whole| :: whole[i] != '.';
    }
    IndexOfAfter(whole, '.', fraction);
    assert body[..|whole|] == whole && body[|whole| + 1..] == fraction;
    assert DigitsValue(whole) * p + DigitsValue(fraction) == m;
  }

  /** The first `c` in a + [c] + b, when `a` has none, is at |a|. */
  lemma {:induction false} IndexOfAfter(a: string, c: char, b: string)
    requires c !in a
    ensures IndexOf(a + [c] + b, c) == Some(|a|)
  {
    if a == [] {
      assert a + [c] + b == [c] + b;
    } else {
      assert (a + [c] + b)[1..] == a[1..] + [c] + b;
      IndexOfAfter(a[1..], c, b);
    }
  }

  /**
    parseProduct: type tag, id, name, price, rating level and, for a Food, an ISO date. The
    numbers are parsed first; the tag decides the variant; any other tag leaves null.
  */
  function ParseProduct(fields: seq<string>): (r: Parsed<Product>)
    ensures r.Parsed? ==>
      && |fields| >= 5
      && (r.value.Drink? <==> fields[0] == "D")
      && (r.value.Food? <==> fields[0] == "F")
      && ParseInt(fields[1]) == Some(r.value.base.id)
      && r.value.base.name == fields[2]
      && ParsePrice(fields[3]) == Some(r.value.base.price)
      && ParseInt(fields[4]) == Some(r.value.base.rating.Ordinal())
      && (r.value.Food? ==> |fields| >= 6 && ParseIsoDate(fields[5]) == Some(r.value.bestBefore))
    ensures |fields| >= 1 && fields[0] != "D" && fields[0] != "F" ==> !r.Parsed?
    ensures |fields| >= 5 && (ParseInt(fields[1]).None? || ParsePrice(fields[3]).None? || ParseInt(fields[4]).None?)
      ==> r == Rejected
    ensures r.UnknownLevel? ==> |fields| >= 5 && ParseInt(fields[4]) == Some(r.level) && !(0 <= r.level <= 5)
  {
    if |fields| < 5 then Rejected
    else
      match (ParseInt(fields[1]), ParsePrice(fields[3]), ParseInt(fields[4]))
      case (Some(id), Some(price), Some(level)) =>
        (match Convert(level)
         case None => UnknownLevel(level)
         case Some(rating) =>
           var b := Identity(id, fields[2], price, rating);
           if fields[0] == "D" then Parsed(Drink(b))
           else if fields[0] == "F" then
             if |fields| < 6 then Rejected
             else
               match ParseIsoDate(fields[5])
               case None => Rejected
               case Some(bestBefore) => Parsed(Food(b, bestBefore))
           else Rejected)
      case _ => Rejected
  }

  /**
    parseReview: rating level and comments, Review(convert(parseInt(level)), comments); a
    malformed level is rejected.
  */
  function ParseReview(fields: seq<string>): (r: Parsed<Review>)
    ensures r.Parsed? ==>
      && |fields| >= 2
      && ParseInt(fields[0]) == Some(r.value.rating.Ordinal())
      && r.value.comments == fields[1]
    ensures |fields| >= 2 && ParseInt(fields[0]).None? ==> r == Rejected
    ensures |fields| < 2 ==> r == Rejected
    ensures r.UnknownLevel? ==> |fields| >= 2 && ParseInt(fields[0]) == Some(r.level) && !(0 <= r.level <= 5)
  {
    if |fields| < 2 then Rejected
    else
      match ParseInt(fields[0])
      case None => Rejected
      case Some(level) =>
        match Convert(level)
        case None => UnknownLevel(level)
        case Some(rating) => Parsed(Review(rating, fields[1]))
  }

  /** The fields of the persisted product line: D or F, id, name, price, level, and a Food's date. */
  function ProductFields(p: Product): seq<string>
    requires p.base.price.scale >= 1
    requires p.Food? ==> ValidDate(p.bestBefore) && 0 <= p.bestBefore.year <= 9999
  {
    match p
    case Drink(b) => ["D", IntText(b.id), b.name, PriceText(b.price), IntText(b.rating.Ordinal())]
    case Food(b, bestBefore) =>
      ["F", IntText(b.id), b.name, PriceText(b.price), IntText(b.rating.Ordinal()), DateText(bestBefore)]
  }

  /**
    Parsing the fields of a product gives the product back, for every Drink and every Food
    whose price has the form BigDecimal.valueOf yields and whose date has a four-digit year.
  */
  lemma ParseProductFields(p: Product)
    requires CanonicalPrice(p.base.price)
    requires p.Food? ==> ValidDate(p.bestBefore) && 0 <= p.bestBefore.year <= 9999
    ensures ParseProduct(ProductFields(p)) == Parsed(p)
  {
    match p
    case Drink(b) => ParseDrinkFields(b);
    case Food(b, bestBefore) => ParseFoodFields(b, bestBefore);
  }

  lemma ParseDrinkFields(b: Identity)
    requires CanonicalPrice(b.price)
    ensures ParseProduct(["D", IntText(b.id), b.name, PriceText(b.price), IntText(b.rating.Ordinal())])
      == Parsed(Drink(b))
  {
    SharedFieldsParse(b);
    ParseDrinkOf(b, IntText(b.id), PriceText(b.price), IntText(b.rating.Ordinal()));
  }

  lemma ParseFoodFields(b: Identity, bestBefore: Date)
    requires CanonicalPrice(b.price)
    requires ValidDate(bestBefore) && 0 <= bestBefore.year <= 9999
    ensures ParseProduct(["F", IntText(b.id), b.name, PriceText(b.price), IntText(b.rating.Ordinal()),
                          DateText(bestBefore)]) == Parsed(Food(b, bestBefore))
  {
    SharedFieldsParse(b);
    ParseDateText(bestBefore);
    ParseFoodOf(b, bestBefore, IntText(b.id), PriceText(b.price), IntText(b.rating.Ordinal()), DateText(bestBefore));
  }

  /** Id, price and rating level each read back from their text. */
  lemma SharedFieldsParse(b: Identity)
    requires CanonicalPrice(b.price)
    ensures ParseInt(IntText(b.id)) == Some(b.id)
    ensures ParsePrice(PriceText(b.price)) == Some(b.price)
    ensures ParseInt(IntText(b.rating.Ordinal())) == Some(b.rating.Ordinal())
    ensures Convert(b.rating.Ordinal()) == Some(b.rating)
  {
    ParseIntText(b.id);
    ParseIntText(b.rating.Ordinal());
    ParsePriceText(b.price);
    ConvertOrdinal(b.rating);
  }

  /** A D line whose id, price and level read back as those of `b` gives the Drink around `b`. */
  lemma ParseDrinkOf(b: Identity, idText: string, priceText: string, levelText: string)
    requires ParseInt(idText) == Some(b.id) && ParsePrice(priceText) == Some(b.price)
    requires ParseInt(levelText) == Some(b.rating.Ordinal())
    ensures ParseProduct(["D", idText, b.name, priceText, levelText]) == Parsed(Drink(b))
  {
    ParseDrinkLine(["D", idText, b.name, priceText, levelText], b.id, b.price, b.rating.Ordinal());
    assert FromOrdinal(b.rating.Ordinal()) == b.rating by { ConvertOrdinal(b.rating); }
  }

  /** An F line whose fields read back as those of `b` and `bestBefore` gives that Food. */
  lemma ParseFoodOf(b: Identity, bestBefore: Date, idText: string, priceText: string, levelText: string,
                    dateText: string)
    requires ParseInt(idText) == Some(b.id) && ParsePrice(priceText) == Some(b.price)
    requires ParseInt(levelText) == Some(b.rating.Ordinal()) && ParseIsoDate(dateText) == Some(bestBefore)
    ensures ParseProduct(["F", idText, b.name, priceText, levelText, dateText]) == Parsed(Food(b, bestBefore))
  {
    ParseFoodLine(["F", idText, b.name, priceText, levelText, dateText], b.id, b.price, b.rating.Ordinal(),
                  bestBefore);
    assert FromOrdinal(b.rating.Ordinal()) == b.rating by { ConvertOrdinal(b.rating); }
  }

  /**
    A D line whose id, price and level parse, with the level in 0..5, gives the Drink with
    those values, however the numbers are spelled (007, +3, 1.50).
  */
  lemma ParseDrinkLine(fields: seq<string>, id: int, price: Decimal, level: int)
    requires |fields| >= 5 && fields[0] == "D"
    requires ParseInt(fields[1]) == Some(id) && ParsePrice(fields[3]) == Some(price)
    requires ParseInt(fields[4]) == Some(level) && 0 <= level <= 5
    ensures ParseProduct(fields) == Parsed(Drink(Identity(id, fields[2], price, FromOrdinal(level))))
  {
  }

  /**
    An F line whose id, price and level parse, with the level in 0..5, and whose sixth field
    is an ISO date, gives the Food with those values and that date.
  */
  lemma ParseFoodLine(fields: seq<string>, id: int, price: Decimal, level: int, bestBefore: Date)
    requires |fields| >= 6 && fields[0] == "F"
    requires ParseInt(fields[1]) == Some(id) && ParsePrice(fields[3]) == Some(price)
    requires ParseInt(fields[4]) == Some(level) && 0 <= level <= 5
    requires ParseIsoDate(fields[5]) == Some(bestBefore)
    ensures ParseProduct(fields) == Parsed(Food(Identity(id, fields[2], price, FromOrdinal(level)), bestBefore))
  {
  }

  /** The fields of the persisted review line: level and comments. */
  function ReviewFields(r: Review): seq<string> {
    [IntText(r.rating.Ordinal()), r.comments]
  }

  /** Parsing the fields of a review gives the review back. */
  lemma ParseReviewFields(r: Review)
    ensures ParseReview(ReviewFields(r)) == Parsed(r)
  {
    ParseIntText(r.rating.Ordinal());
    ParseReviewLine(ReviewFields(r), r.rating.Ordinal());
    assert FromOrdinal(r.rating.Ordinal()) == r.rating by { ConvertOrdinal(r.rating); }
  }

  /**
    A review whose level parses to a number in 0..5 gives the review with that rating and the
    second field as its comments, however the level is spelled.
  */
  lemma ParseReviewLine(fields: seq<string>, level: int)
    requires |fields| >= 2 && ParseInt(fields[0]) == Some(level) && 0 <= level <= 5
    ensures ParseReview(fields) == Parsed(Review(FromOrdinal(level), fields[1]))
  {
  }

  /** A line whose id is not a number is rejected. */
  lemma NonNumericIdRejected()
    ensures ParseProduct(["D", "abc", "Tea", "1.99", "3"]) == Rejected
  {
    assert ParseInt("abc") == None by { assert !IsDigit("abc"[0]); }
  }

  /** A Food dated 30 February is rejected, whatever its other fields. */
  lemma InvalidDateRejected(fields: seq<string>)
    requires |fields| == 6 && fields[0] == "F" && fields[5] == DateText(Date(2019, 2, 30))
    ensures !ParseProduct(fields).Parsed?
  {
    ParseDateText(Date(2019, 2, 30));
  }

  /** A review whose level is not a number is rejected. */
  lemma NonNumericLevelRejected()
    ensures ParseReview(["four", "Fine tea"]) == Rejected
  {
    assert ParseInt("four") == None by { assert !IsDigit("four"[0]); }
  }
}
