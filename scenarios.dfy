/** Runs of the storefront's handlers from a freshly mounted screen, as a user
    would drive them, with what each run leaves behind. */
module Scenarios {
  import opened Catalog
  import JsText
  import Styles
  import opened Storefront

  /** Pressing the wishlist button of the same product twice adds its id once
      and answers first "Added to wishlist!", then "Already in wishlist!". */
  method WishlistTwice(p: Product) returns (wishlist: seq<string>, log: seq<string>)
    ensures wishlist == [p.id]
    ensures log == [AddedToWishlist, AlreadyInWishlist]
  {
    var s := new Storefront();
    s.AddToWishlist(p);
    var first := s.wishlist;
    s.AddToWishlist(p);
    assert s.wishlist == first;
    wishlist, log := s.wishlist, s.notifications;
  }

  /** Selecting a product, typing a non-blank review and submitting it lists
      exactly that review under the product, clears the draft and sends one
      "Review submitted!". */
  method SubmitOneReview(p: Product, text: string) returns (shown: seq<string>, draft: string, log: seq<string>)
    requires !JsText.IsBlank(text)
    ensures shown == [text] && draft == "" && log == [ReviewSubmitted]
  {
    var s := new Storefront();
    s.SelectProduct(p);
    s.SetReviewDraft(text);
    s.SubmitReview();
    shown, draft, log := s.ShownReviews(), s.reviewDraft, s.notifications;
  }

  /** Submitting a blank draft ("" or only white space) stores nothing, keeps
      the draft and sends no notification. */
  method SubmitBlankReview(p: Product, text: string) returns (reviews: map<string, seq<string>>, draft: string, log: seq<string>)
    requires JsText.IsBlank(text)
    ensures reviews == map[] && draft == text && log == []
  {
    var s := new Storefront();
    s.SelectProduct(p);
    s.SetReviewDraft(text);
    s.SubmitReview();
    reviews, draft, log := s.reviews, s.reviewDraft, s.notifications;
  }

  /** Reviewing the smart watch, closing its detail view and opening it again
      still lists the review. */
  method SmartWatchReview() returns (shown: seq<string>)
    ensures shown == ["Great watch!"]
  {
    SeedCatalog();
    var watch := Products[2];
    var s := new Storefront();
    s.SelectProduct(watch);
    s.SetReviewDraft("Great watch!");
    assert !JsText.IsWhitespace("Great watch!"[0]);
    s.SubmitReview();
    s.CloseDetail();
    s.SelectProduct(watch);
    shown := s.ShownReviews();
  }

  /** Closing the detail view does not clear the draft: a draft typed for one
      product is still in the input when another product is opened. */
  method DraftSurvivesClose(p: Product, q: Product, text: string) returns (draft: string)
    ensures draft == text
  {
    var s := new Storefront();
    s.SelectProduct(p);
    s.SetReviewDraft(text);
    s.CloseDetail();
    s.SelectProduct(q);
    draft := s.reviewDraft;
  }

  /** Switching dark, light and dark again draws the screen with the dark
      table, exactly as a single switch to dark does; its image style is the
      light one. */
  method ToggleThemeThrice() returns (theme: Styles.Table)
    ensures theme == Styles.DarkStyles
    ensures theme[Styles.Image] == Styles.LightStyles[Styles.Image]
  {
    var s := new Storefront();
    s.SetDarkMode(true);
    s.SetDarkMode(false);
    s.SetDarkMode(true);
    assert s.darkMode;
    theme := s.Theme();
    assert theme == Styles.Resolve(true);
    assert Styles.Image in Styles.LightStyles;
  }
}
