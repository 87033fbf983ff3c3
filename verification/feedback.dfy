/** Customer reviews and the rating gate of `leaveReview`. */
module Feedback {

  import opened Options

  datatype Review = Review(customer: string, text: string, rating: int)

  /** The only ratings a review can carry. */
  predicate RatingInRange(rating: int) {
    1 <= rating <= 5
  }

  /**
   The rating prompt re-asks until an in-range rating is typed: the index of
   the first in-range attempt, or `None` if every attempt is out of range
   (the prompt would still be waiting).
   */
  function FirstValidRating(attempts: seq<int>): (r: Option<nat>)
    ensures r.None? <==> forall i :: 0 <= i < |attempts| ==> !RatingInRange(attempts[i])
    ensures r.Some? ==>
              && r.value < |attempts|
              && RatingInRange(attempts[r.value])
              && forall i :: 0 <= i < r.value ==> !RatingInRange(attempts[i])
    decreases |attempts|
  {
    if |attempts| == 0 then None
    else if RatingInRange(attempts[0]) then Some(0)
    else
      match FirstValidRating(attempts[1..])
      case None => None
      case Some(i) => Some(i + 1)
  }

  /** The review log's invariant: every recorded rating is in range. */
  ghost predicate AllRated(reviews: seq<Review>) {
    forall i :: 0 <= i < |reviews| ==> RatingInRange(reviews[i].rating)
  }

  /** Appends one review with the first in-range rating attempt; `None` while no such attempt exists. */
  function Record(reviews: seq<Review>, customer: string, text: string, attempts: seq<int>): (r: Option<seq<Review>>)
    ensures r.None? <==> forall i :: 0 <= i < |attempts| ==> !RatingInRange(attempts[i])
    ensures r.Some? ==>
              && |r.value| == |reviews| + 1
              && r.value[..|reviews|] == reviews
              && r.value[|reviews|].customer == customer
              && r.value[|reviews|].text == text
              && RatingInRange(r.value[|reviews|].rating)
              && exists j :: 0 <= j < |attempts| && r.value[|reviews|].rating == attempts[j]
                             && forall i :: 0 <= i < j ==> !RatingInRange(attempts[i])
    ensures AllRated(reviews) && r.Some? ==> AllRated(r.value)
  {
    match FirstValidRating(attempts)
    case None => None
    case Some(i) => Some(reviews + [Review(customer, text, attempts[i])])
  }

}
