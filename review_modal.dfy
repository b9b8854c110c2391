/** The review dialog (src/components/ReviewModal.jsx): five stars picked by
    click or previewed by hover, a label for the rating, and a submit that
    refuses a missing rating. */
module ReviewModal {
  import opened Wrappers

  /** `hoverRating || rating`: the hovered star wins while there is one. */
  function Effective(hoverRating: int, rating: int): (e: int)
    ensures hoverRating != 0 ==> e == hoverRating
    ensures hoverRating == 0 ==> e == rating
  {
    if hoverRating != 0 then hoverRating else rating
  }

  /** Star `star` is drawn filled. */
  predicate StarFilled(effective: int, star: int) {
    effective >= star
  }

  /** The text under the stars. */
  function Label(effective: int): (r: string)
    ensures effective == 0 ==> r == "Select Stars"
    ensures effective == 5 ==> r == "Excellent!"
    ensures effective == 4 ==> r == "Great Job"
    ensures effective == 3 ==> r == "Good"
    ensures effective == 2 ==> r == "Fair"
    ensures effective !in {0, 2, 3, 4, 5} ==> r == "Poor"
  {
    if effective == 0 then "Select Stars"
    else if effective == 5 then "Excellent!"
    else if effective == 4 then "Great Job"
    else if effective == 3 then "Good"
    else if effective == 2 then "Fair"
    else "Poor"
  }

  /** The filled stars are exactly the first `e` of the five, so a rating of
      3 fills stars 1 to 3 and no others. */
  lemma FilledStarsArePrefix(e: int, star: int)
    requires 0 <= e <= 5 && 1 <= star <= 5
    ensures StarFilled(e, star) <==> star <= e
    ensures StarFilled(e, star) ==> forall s :: 1 <= s < star ==> StarFilled(e, s)
  {
  }

  /** Distinct ratings 1 to 5 get distinct labels, none of them 'Select Stars',
      which is shown only when neither a hover nor a rating is set. */
  lemma LabelRule(hoverRating: int, rating: int, a: int, b: int)
    requires 0 <= hoverRating <= 5 && 0 <= rating <= 5
    requires 1 <= a <= 5 && 1 <= b <= 5 && a != b
    ensures Label(a) != Label(b) && Label(a) != "Select Stars"
    ensures Label(Effective(hoverRating, rating)) == "Select Stars" <==> hoverRating == 0 && rating == 0
  {
  }

  /** The Submit button is disabled while saving and while no star is set. */
  predicate SubmitDisabled(loading: bool, rating: int) {
    loading || rating == 0
  }

  /** The row a submit inserts into `reviews`. */
  datatype Review = Review(task_id: string, reviewer_id: string, worker_id: string, rating: int, comment: string)

  /** The open dialog with the reviews it writes; `lastAlert` is the last
      message shown with `alert`. */
  class Dialog {
    const taskId: string
    const workerId: string
    const reviewerId: string
    var rating: int
    var hoverRating: int
    var comment: string
    var loading: bool
    var closed: bool
    var lastAlert: Option<string>
    var reviews: seq<Review>

    /** Ratings stay between 0 and 5 and every stored review carries a star
        count from 1 to 5. */
    predicate Valid()
      reads this
    {
      0 <= rating <= 5 && 0 <= hoverRating <= 5
      && forall k :: 0 <= k < |reviews| ==> 1 <= reviews[k].rating <= 5
    }

    constructor (task: string, worker: string, reviewer: string)
      ensures Valid() && taskId == task && workerId == worker && reviewerId == reviewer
      ensures rating == 0 && hoverRating == 0 && comment == "" && !loading && !closed
      ensures lastAlert.None? && reviews == []
    {
      taskId := task;
      workerId := worker;
      reviewerId := reviewer;
      rating := 0;
      hoverRating := 0;
      comment := "";
      loading := false;
      closed := false;
      lastAlert := None;
      reviews := [];
    }

    /** A click on star `star` selects it. */
    method ClickStar(star: int)
      requires Valid() && 1 <= star <= 5
      modifies this
      ensures Valid() && rating == star && hoverRating == old(hoverRating)
      ensures comment == old(comment) && loading == old(loading) && closed == old(closed)
      ensures lastAlert == old(lastAlert) && reviews == old(reviews)
    {
      rating := star;
    }

    /** The mouse enters star `star`: it previews. */
    method EnterStar(star: int)
      requires Valid() && 1 <= star <= 5
      modifies this
      ensures Valid() && hoverRating == star && rating == old(rating)
      ensures comment == old(comment) && loading == old(loading) && closed == old(closed)
      ensures lastAlert == old(lastAlert) && reviews == old(reviews)
    {
      hoverRating := star;
    }

    /** The mouse leaves a star: the preview ends and the selection shows. */
    method LeaveStar()
      requires Valid()
      modifies this
      ensures Valid() && hoverRating == 0 && rating == old(rating)
      ensures Effective(hoverRating, rating) == old(rating)
      ensures comment == old(comment) && loading == old(loading) && closed == old(closed)
      ensures lastAlert == old(lastAlert) && reviews == old(reviews)
    {
      hoverRating := 0;
    }

    /** `handleSubmit()`. With no star it only alerts; otherwise the review is
        inserted (`error` when it fails), and success closes the dialog. */
    method HandleSubmit(error: bool)
      requires Valid()
      modifies this
      ensures Valid() && rating == old(rating) && hoverRating == old(hoverRating) && comment == old(comment)
      ensures old(rating) == 0 ==>
                lastAlert == Some("Please select a rating") && reviews == old(reviews)
                && loading == old(loading) && closed == old(closed)
      ensures old(rating) != 0 ==> !loading
      ensures old(rating) != 0 && error ==>
                lastAlert == Some("Failed to submit review") && reviews == old(reviews) && closed == old(closed)
      ensures old(rating) != 0 && !error ==>
                lastAlert == Some("Review submitted successfully!") && closed
                && reviews == old(reviews) + [Review(taskId, reviewerId, workerId, old(rating), old(comment))]
    {
      if rating == 0 {
        lastAlert := Some("Please select a rating");
        return;
      }
      loading := true;
      if error {
        lastAlert := Some("Failed to submit review");
      } else {
        reviews := reviews + [Review(taskId, reviewerId, workerId, rating, comment)];
        lastAlert := Some("Review submitted successfully!");
        closed := true;
      }
      loading := false;
    }
  }
}
