/**
  labs.data.Product: the earlier, mutable product class. Its fields are private and only the
  price has a setter; the discount follows whatever the price currently is.
*/
module LegacyProducts {
  import opened Numerals
  import opened Decimals
  import opened Ratings
  import Products

  class Product {
    var id: Int32
    var name: string
    var price: Decimal
    var rating: Rating

    /** Product(): delegates to Product(0, "no name", BigDecimal.ZERO). */
    constructor Default()
      ensures GetId() == 0 && GetName() == "no name" && GetPrice() == Zero && GetRating() == NotRated
    {
      id, name, price, rating := 0, "no name", Zero, NotRated;
    }

    /** Product(id, name, price): delegates with NOT_RATED. */
    constructor Unrated(id: Int32, name: string, price: Decimal)
      ensures GetId() == id && GetName() == name && GetPrice() == price && GetRating() == NotRated
    {
      this.id, this.name, this.price, this.rating := id, name, price, NotRated;
    }

    /** Product(id, name, price, rating). */
    constructor (id: Int32, name: string, price: Decimal, rating: Rating)
      ensures GetId() == id && GetName() == name && GetPrice() == price && GetRating() == rating
    {
      this.id, this.name, this.price, this.rating := id, name, price, rating;
    }

    function GetId(): (r: Int32)
      reads this
      ensures r == id
    {
      id
    }

    function GetName(): (r: string)
      reads this
      ensures r == name
    {
      name
    }

    function GetPrice(): (r: Decimal)
      reads this
      ensures r == price
    {
      price
    }

    function GetRating(): (r: Rating)
      reads this
      ensures r == rating
    {
      rating
    }

    /**
      setPrice(price): the price is replaced, id, name and rating stay, and the discount
      from now on is the one of the new price.
    */
    method SetPrice(price: Decimal)
      modifies this
      ensures GetPrice() == price
      ensures GetId() == old(GetId()) && GetName() == old(GetName()) && GetRating() == old(GetRating())
      ensures GetDiscount() == Products.TenPercentDiscount(price)
    {
      this.price := price;
    }

    /**
      getDiscount(): the same rule as labs.pm.data.Product, a tenth of the current price
      rounded HALF_UP to two places; for a price that is not negative it lies between zero
      and the price.
    */
    function GetDiscount(): (r: Decimal)
      reads this
      ensures r == Products.TenPercentDiscount(price)
      ensures r.scale == 2
      ensures price.unscaled >= 0 ==> r.unscaled >= 0 && AtMost(r, price)
    {
      if price.unscaled >= 0 then Products.DiscountWithinPrice(price); Products.TenPercentDiscount(price)
      else Products.TenPercentDiscount(price)
    }
  }
}
