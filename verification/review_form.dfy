/**
 * The review form of an item page (components/review-form.tsx): hidden when
 * signed out, replaced by a notice when the user has already reviewed the
 * item, and otherwise five star buttons, a comment box and a submit handler
 * that hands the review to the store. The form's state cells are the fields
 * of `ReviewFormState`.
 */
module ReviewForm {
  import opened Collections
  import opened Domain
  import opened Store

  const StarCount: nat := 5

  function ReviewedBy(itemId: string, current: Option<User>): Review -> bool {
    (r: Review) => r.itemId == itemId && current.Some? && r.userId == current.value.id
  }

  /** `existingReview`: the signed-in user's first review of the item, if any. */
  function ExistingReview(reviews: seq<Review>, itemId: string, current: Option<User>): (r: Option<Review>)
    ensures r.Some? <==> current.Some? && exists i :: 0 <= i < |reviews| && reviews[i].itemId == itemId
                                                     && reviews[i].userId == current.value.id
    ensures r.Some? ==> exists k ::
      && 0 <= k < |reviews| && r.value == reviews[k]
      && reviews[k].itemId == itemId && reviews[k].userId == current.value.id
      && forall j :: 0 <= j < k ==> !(reviews[j].itemId == itemId && reviews[j].userId == current.value.id)
  {
    match FindIndex(reviews, ReviewedBy(itemId, current))
    case Some(k) =>
      assert forall j :: 0 <= j < k ==> !ReviewedBy(itemId, current)(reviews[j]);
      Some(reviews[k])
    case None => None
  }

  /** What the component renders. */
  datatype View = Hidden | AlreadyReviewed | Form

  function ViewOf(reviews: seq<Review>, itemId: string, current: Option<User>): (v: View)
    ensures v == Hidden <==> current.None?
    ensures v == Form <==>
      && current.Some?
      && forall i :: 0 <= i < |reviews| ==> !(reviews[i].itemId == itemId && reviews[i].userId == current.value.id)
  {
    if current.None? then Hidden
    else if ExistingReview(reviews, itemId, current).Some? then AlreadyReviewed
    else Form
  }

  /** Star `i` (counted from 0) is drawn filled: the hovered rating wins over the chosen one. */
  predicate StarFilled(i: int, hoverRating: int, rating: int) {
    (if hoverRating != 0 then hoverRating else rating) > i
  }

  /** With nothing hovered, exactly the first `rating` stars are filled. */
  lemma StarsShowRating(rating: int)
    requires 0 <= rating <= StarCount
    ensures forall i :: 0 <= i < StarCount ==> (StarFilled(i, 0, rating) <==> i < rating)
  {
  }

  /**
   * Appending a review for an (item, reviewer) pair that has none keeps one
   * review per pair, and appending one for a pair that has one breaks it.
   */
  lemma AppendReviewSpec(reviews: seq<Review>, r: Review)
    requires OneReviewPerUser(reviews)
    ensures OneReviewPerUser(reviews + [r]) <==>
      forall i :: 0 <= i < |reviews| ==> !(reviews[i].itemId == r.itemId && reviews[i].userId == r.userId)
  {
    var all := reviews + [r];
    if !OneReviewPerUser(all) {
      var i, j :| 0 <= i < j < |all| && all[i].itemId == all[j].itemId && all[i].userId == all[j].userId;
      assert j == |reviews|;
      assert all[i] == reviews[i];
    }
    if OneReviewPerUser(all) {
      forall i | 0 <= i < |reviews| ensures !(reviews[i].itemId == r.itemId && reviews[i].userId == r.userId) {
        assert all[i] == reviews[i] && all[|reviews|] == r;
      }
    }
  }

  class ReviewFormState {
    var rating: int
    var hoverRating: int
    var comment: string
    var isSubmitting: bool

    /** The chosen and the hovered rating each come from one of the five stars, or are 0 for none. */
    predicate Valid()
      reads this
    {
      0 <= rating <= StarCount && 0 <= hoverRating <= StarCount
    }

    constructor ()
      ensures Valid()
      ensures rating == 0 && hoverRating == 0 && comment == "" && !isSubmitting
    {
      rating := 0;
      hoverRating := 0;
      comment := "";
      isSubmitting := false;
    }

    /** The submit button's enabling condition. */
    predicate SubmitEnabled()
      reads this
    {
      rating != 0 && !isSubmitting
    }

    /** Clicking star `i` (counted from 0) chooses the rating `i + 1`, one to five stars. */
    method ClickStar(i: int)
      requires Valid() && 0 <= i < StarCount
      modifies this`rating
      ensures Valid()
      ensures rating == i + 1 && 1 <= rating <= StarCount
    {
      rating := i + 1;
    }

    /** Hovering star `i` previews the rating `i + 1`. */
    method HoverStar(i: int)
      requires Valid() && 0 <= i < StarCount
      modifies this`hoverRating
      ensures Valid()
      ensures hoverRating == i + 1 && 1 <= hoverRating <= StarCount
    {
      hoverRating := i + 1;
    }

    method LeaveStar()
      requires Valid()
      modifies this`hoverRating
      ensures Valid()
      ensures hoverRating == 0
    {
      hoverRating := 0;
    }

    method EditComment(text: string)
      requires Valid()
      modifies this`comment
      ensures Valid()
      ensures comment == text
    {
      comment := text;
    }

    /**
     * `handleSubmit`: without a rating nothing happens; otherwise the review
     * is added for the signed-in user and the form is reset. The rating it
     * submits is one of the five stars. Submitted from a shown form, it keeps
     * one review per item and reviewer.
     */
    method HandleSubmit(store: AppStore, itemId: string, newId: string, today: Timestamp)
      requires Valid()
      modifies this, store
      ensures Valid()
      ensures |store.reviews| > |old(store.reviews)| ==> 1 <= store.reviews[|store.reviews| - 1].rating <= StarCount
      ensures old(rating) == 0 ==>
        rating == 0 && comment == old(comment) && isSubmitting == old(isSubmitting) && store.reviews == old(store.reviews)
      ensures old(rating) != 0 ==>
        rating == 0 && comment == "" && !isSubmitting
        && (old(store.currentUser).None? ==> store.reviews == old(store.reviews))
        && (old(store.currentUser).Some? ==>
              store.reviews == old(store.reviews)
                + [NewReview(ReviewDraft(itemId, old(rating), old(comment)), newId, today, old(store.currentUser).value)])
      ensures old(ViewOf(store.reviews, itemId, store.currentUser)) == Form && OneReviewPerUser(old(store.reviews)) ==>
        OneReviewPerUser(store.reviews)
      ensures hoverRating == old(hoverRating)
      ensures store.currentUser == old(store.currentUser) && store.users == old(store.users) && store.items == old(store.items)
      ensures store.messages == old(store.messages) && store.conversations == old(store.conversations)
      ensures old(store.Consistent()) ==> store.Consistent()
    {
      if rating == 0 {
        return;
      }
      isSubmitting := true;
      ghost var guarded := store.currentUser.Some? && OneReviewPerUser(store.reviews);
      if guarded {
        AppendReviewSpec(store.reviews, NewReview(ReviewDraft(itemId, rating, comment), newId, today, store.currentUser.value));
      }
      store.AddReview(ReviewDraft(itemId, rating, comment), newId, today);
      rating := 0;
      comment := "";
      isSubmitting := false;
    }
  }
}
