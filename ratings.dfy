/**
  Ratings and reviews. Rating, Rateable and Review are not part of this model's source; this
  module keeps only what the catalogue relies on: six ratings ordered from NOT_RATED to five
  stars, the conversion from a level in 0..5, and a review as a rating with comments.
*/
module Ratings {
  import opened Wrappers

  datatype Rating = NotRated | OneStar | TwoStar | ThreeStar | FourStar | FiveStar {

    /** Enum.ordinal(): NOT_RATED is 0, FIVE_STAR is 5. */
    function Ordinal(): (n: nat)
      ensures n <= 5
    {
      match this
      case NotRated => 0
      case OneStar => 1
      case TwoStar => 2
      case ThreeStar => 3
      case FourStar => 4
      case FiveStar => 5
    }
  }

  /** The rating whose ordinal is `n`. */
  function FromOrdinal(n: nat): (r: Rating)
    requires n <= 5
    ensures r.Ordinal() == n
  {
    [NotRated, OneStar, TwoStar, ThreeStar, FourStar, FiveStar][n]
  }

  /**
    Rateable.convert(level) for a level in 0..5; for any other level its result is not part
    of this model, and Convert says None.
  */
  function Convert(level: int): (r: Option<Rating>)
    ensures r.Some? <==> 0 <= level <= 5
    ensures r.Some? ==> r.value.Ordinal() == level
  {
    if 0 <= level <= 5 then Some(FromOrdinal(level)) else None
  }

  /** Ordinal and conversion are inverse: every rating is the conversion of its own level. */
  lemma ConvertOrdinal(r: Rating)
    ensures Convert(r.Ordinal()) == Some(r)
  {
  }

  /** labs.pm.data.Review: a rating and free-text comments. */
  datatype Review = Review(rating: Rating, comments: string)
}
