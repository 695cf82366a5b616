/** The storefront view-model: the state the App component holds and the event
    handlers that change it. Alert.alert is modelled as an append to a log of
    notification messages. */
module Storefront {
  import opened Catalog
  import JsText
  import Wishlist
  import Reviews
  import Styles

  const AlreadyInWishlist: string := "Already in wishlist!"
  const AddedToWishlist: string := "Added to wishlist!"
  const ReviewSubmitted: string := "Review submitted!"

  class Storefront {
    var selected: Option<Product>
    var wishlist: seq<string>
    var reviewDraft: string
    var reviews: map<string, seq<string>>
    var darkMode: bool
    var notifications: seq<string>

    /** The wishlist never holds an id twice. */
    predicate Valid()
      reads this
    {
      Wishlist.NoDuplicates(wishlist)
    }

    /** The initial state: nothing selected, empty wishlist, empty draft, no
        reviews, light theme, no notification shown yet. */
    constructor ()
      ensures Valid()
      ensures selected == None && wishlist == [] && reviewDraft == ""
      ensures reviews == map[] && !darkMode && notifications == []
    {
      selected := None;
      wishlist := [];
      reviewDraft := "";
      reviews := map[];
      darkMode := false;
      notifications := [];
    }

    /** Tapping a catalog entry opens its detail view. */
    method SelectProduct(p: Product)
      requires Valid()
      modifies this
      ensures Valid()
      ensures selected == Some(p)
      ensures wishlist == old(wishlist) && reviewDraft == old(reviewDraft) && reviews == old(reviews)
      ensures darkMode == old(darkMode) && notifications == old(notifications)
    {
      selected := Some(p);
    }

    /** Closing the detail view clears the selection only; the draft and the
        reviews are kept. */
    method CloseDetail()
      requires Valid()
      modifies this
      ensures Valid()
      ensures selected == None
      ensures wishlist == old(wishlist) && reviewDraft == old(reviewDraft) && reviews == old(reviews)
      ensures darkMode == old(darkMode) && notifications == old(notifications)
    {
      selected := None;
    }

    /** Every change of the review input replaces the draft verbatim. */
    method SetReviewDraft(text: string)
      requires Valid()
      modifies this
      ensures Valid()
      ensures reviewDraft == text
      ensures selected == old(selected) && wishlist == old(wishlist) && reviews == old(reviews)
      ensures darkMode == old(darkMode) && notifications == old(notifications)
    {
      reviewDraft := text;
    }

    /** The theme switch sets the flag to the switch's value. */
    method SetDarkMode(value: bool)
      requires Valid()
      modifies this
      ensures Valid()
      ensures darkMode == value
      ensures selected == old(selected) && wishlist == old(wishlist) && reviewDraft == old(reviewDraft)
      ensures reviews == old(reviews) && notifications == old(notifications)
    {
      darkMode := value;
    }

    /** The wishlist button: a product already on the wishlist leaves it as it
        is and is answered "Already in wishlist!"; any other product's id is
        appended and answered "Added to wishlist!". Exactly one notification
        is sent either way. */
    method AddToWishlist(p: Product)
      requires Valid()
      modifies this
      ensures Valid()
      ensures wishlist == Wishlist.Add(old(wishlist), p.id)
      ensures old(p.id in wishlist) ==> wishlist == old(wishlist) && notifications == old(notifications) + [AlreadyInWishlist]
      ensures old(p.id !in wishlist) ==> wishlist == old(wishlist) + [p.id] && notifications == old(notifications) + [AddedToWishlist]
      ensures selected == old(selected) && reviewDraft == old(reviewDraft)
      ensures reviews == old(reviews) && darkMode == old(darkMode)
    {
      if p.id in wishlist {
        notifications := notifications + [AlreadyInWishlist];
      } else {
        wishlist := wishlist + [p.id];
        notifications := notifications + [AddedToWishlist];
      }
    }

    /** The submit button. A draft that trims to the empty string changes
        nothing and sends no notification. Otherwise the untrimmed draft is
        appended to the selected product's review list (created if absent),
        the draft is cleared and "Review submitted!" is sent. The handler reads
        the selected product's id only after the blank check, so a selection is
        needed only for a non-blank draft. */
    method SubmitReview()
      requires Valid()
      requires selected.Some? || JsText.IsBlank(reviewDraft)
      modifies this
      ensures Valid()
      ensures old(JsText.IsBlank(reviewDraft)) ==>
        reviews == old(reviews) && reviewDraft == old(reviewDraft) && notifications == old(notifications)
      ensures old(!JsText.IsBlank(reviewDraft)) ==>
        && reviews == Reviews.AppendReview(old(reviews), old(selected).value.id, old(reviewDraft))
        && reviewDraft == "" && notifications == old(notifications) + [ReviewSubmitted]
      ensures selected == old(selected) && wishlist == old(wishlist) && darkMode == old(darkMode)
      ensures old(!JsText.IsBlank(reviewDraft)) ==> ShownReviews() == old(ShownReviews()) + [old(reviewDraft)]
    {
      if JsText.Trim(reviewDraft) == "" {
        return;
      }
      var id := selected.value.id;
      var updated := reviews;
      if id !in updated {
        updated := updated[id := []];
      }
      updated := updated[id := updated[id] + [reviewDraft]];
      reviews := updated;
      reviewDraft := "";
      notifications := notifications + [ReviewSubmitted];
    }

    /** The style table the screen is drawn with: the light table while the
        flag is off; while it is on, every dark override in force, every
        style and property the dark table does not redefine taken from the
        light table, and no other property set. */
    function Theme(): (t: Styles.Table)
      reads this
      ensures t.Keys == Styles.LightStyles.Keys
      ensures !darkMode ==> t == Styles.LightStyles
      ensures darkMode ==> forall name, p :: name in Styles.DarkOverrides && p in Styles.DarkOverrides[name] ==>
        p in t[name] && t[name][p] == Styles.DarkOverrides[name][p]
      ensures darkMode ==> forall name, p :: name in t && p in t[name] ==>
        p in Styles.LightStyles[name] || (name in Styles.DarkOverrides && p in Styles.DarkOverrides[name])
      ensures forall name, p :: (name in Styles.LightStyles && p in Styles.LightStyles[name] &&
        (name !in Styles.DarkOverrides || p !in Styles.DarkOverrides[name])) ==>
        p in t[name] && t[name][p] == Styles.LightStyles[name][p]
    {
      Styles.Resolve(darkMode)
    }

    /** The reviews listed in the open detail view: the selected product's
        list, or none while no review has been submitted for it. */
    function ShownReviews(): seq<string>
      reads this
      requires selected.Some?
    {
      Reviews.ReviewsOf(reviews, selected.value.id)
    }
  }
}
