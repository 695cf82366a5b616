# ShopEasy storefront view-model in Dafny

ShopEasy is a single-screen React Native storefront. It has a catalog of five
products, a wishlist button on each product and a detail view where the user
writes reviews. A switch chooses between a light and a dark theme. All state
is held in memory by the `App` component in `App.js`.

This project models that component's state and its event handlers:

- `catalog.dfy` (module `Catalog`) holds the product record and the seed catalog.
- `text.dfy` (module `JsText`) holds JavaScript's `trim`. The submit handler
  uses it to reject blank drafts.
- `wishlist.dfy` (module `Wishlist`) holds the duplicate-free append that the
  wishlist button performs, and the invariant it keeps over any run of presses.
- `reviews.dfy` (module `Reviews`) holds the per-product review store. It has
  the lookup the detail view displays and the lazily created, append-only list
  the submit handler extends.
- `styles.dfy` (module `Styles`) holds the light style table and the dark
  table derived from it by object spread, plus the theme choice.
- `storefront.dfy` (module `Storefront`) holds the class `Storefront`. Its
  fields are the five `useState` slices (selected product, wishlist, review
  draft, reviews, dark-mode flag) plus a log of the messages passed to
  `Alert.alert`. Its methods are the handlers, and each states the whole new
  state.
- `scenarios.dfy` (module `Scenarios`) holds client methods that drive a fresh
  screen through typical usage runs.

Two points of the code shape the model:

- App.js has no guard for a submit with nothing selected. It returns early on
  a blank draft and otherwise reads `selectedProduct.id`, which throws on null.
  `SubmitReview` therefore requires a selection or a blank draft.
- The wishlist is an array in insertion order, so the model uses a sequence
  and proves it has no duplicates.

## Model

| member | source | states |
|---|---|---|
| Catalog.SeedCatalog | App.js:8-39 | the seed catalog has five products with distinct ids; the third is id "3", "Smart Watch", price 1800 |
| JsText.TrimStart | App.js:60 | the result is a suffix of the input; the dropped prefix is all white space; the result does not start with white space |
| JsText.TrimEnd | App.js:60 | the result is a prefix of the input; the dropped suffix is all white space; the result does not end with white space |
| JsText.Trim | App.js:60 | the result is a slice of `s` with only white space dropped at both ends; `s.trim() === ''` holds exactly when every character of `s` is white space; a non-empty result neither starts nor ends with white space |
| Wishlist.Add | App.js:50-56 | the id is in the result; the old wishlist is kept as a prefix and grows by at most one entry; the result holds exactly the old ids plus the new one; it is unchanged exactly when the id was already there; no duplicates is preserved |
| Wishlist.AddIdempotent | App.js:51-52 | adding an id a second time leaves the wishlist as the first add left it |
| Wishlist.AddAllInvariant | App.js:50-56 | from a duplicate-free wishlist, any sequence of adds stays duplicate-free, keeps earlier entries in order and grows by at most one per add |
| Wishlist.AddAllElements | App.js:50-56 | after any sequence of adds, an id is on the wishlist exactly when it was there before or was added |
| Wishlist.ReachableFromEmpty | App.js:43-56 | starting from the initial empty wishlist, every reachable wishlist is duplicate-free and no longer than the number of presses |
| Reviews.AppendReview | App.js:61-64 | the submitted product's key exists afterwards, and its displayed list is the old list (empty if absent) followed by the text; every other product's list is unchanged |
| Reviews.AppendOnly | App.js:61-64 | a submission is append-only: each product's displayed list before is a prefix of its list after, and only the submitted product's list grows, by one |
| Reviews.DisplayedIsSubmitted | App.js:114 | from the initially empty store, after any run of submissions, each product displays exactly the texts submitted for it, in order, and a product nobody reviewed displays nothing |
| Reviews.SubmitRunOrder | App.js:61-64 | after any run of submissions over any products, each product's displayed list is its old list followed by the texts submitted for it, in run order |
| Styles.Spread | App.js:148-158 | object spread `{...base, ...over}` has the keys of both; a key of `over` takes the value from `over`, any other key takes the value from `base` |
| Styles.DeriveDark | App.js:148-158 | the derived table has the base names plus the overridden names; a style that is not overridden is the base style; in an overridden style, each overridden property takes the override value and each other base property keeps its base value |
| Styles.Resolve | App.js:48 | the table chosen for either flag has the light table's style names and keeps every light property that is not overridden; with the flag on every dark override is in force and no property beyond the light ones and the overrides is set; with the flag off it is the light table |
| Styles.OverridesWithinLight | App.js:127-158 | every overridden style name is a light style name; the names not overridden are exactly header, list, image and imageLarge |
| Styles.DarkStyleAt | App.js:148-158 | each dark style is the light style spread with that style's overrides |
| Styles.OverrideChanges | App.js:150-157 | every override adds a property or changes a value, so it differs from its light style |
| Styles.DarkDiffersExactlyOnOverrides | App.js:127-158 | the dark table has the light table's style names, and a dark style equals its light style if and only if it is header, list, image or imageLarge |
| Styles.DarkContainer | App.js:128-150 | the dark container keeps flex 1 and paddingTop 40 from the light container and only changes the background |
| Styles.DarkInput | App.js:131-156 | the dark input keeps the light margin, padding, radius and border width, and takes background, text and border colours from its overrides |
| Storefront.Storefront.constructor | App.js:42-46 | initial state: nothing selected, empty wishlist, empty draft, no reviews, light theme, no notifications; the wishlist invariant holds |
| Storefront.Storefront.SelectProduct | App.js:70 | the tapped product becomes the selection; nothing else changes; the wishlist invariant is kept |
| Storefront.Storefront.CloseDetail | App.js:118 | the selection is cleared; draft, reviews, wishlist, theme and notifications are unchanged; the wishlist invariant is kept |
| Storefront.Storefront.SetReviewDraft | App.js:104-106 | the draft becomes the typed text verbatim; nothing else changes; the wishlist invariant is kept |
| Storefront.Storefront.SetDarkMode | App.js:84 | the theme flag becomes the switch value; nothing else changes; the wishlist invariant is kept |
| Storefront.Storefront.AddToWishlist | App.js:50-57 | an id already present leaves the wishlist unchanged and logs "Already in wishlist!"; otherwise the id is appended and "Added to wishlist!" is logged; exactly one message either way; the wishlist is `Wishlist.Add` of the old one and stays duplicate-free; other state is unchanged |
| Storefront.Storefront.SubmitReview | App.js:59-67 | a blank draft changes nothing and logs nothing; otherwise the reviews become `AppendReview` of the old store with the untrimmed draft, the draft is cleared, the open detail view shows the draft after the reviews it showed before, and one "Review submitted!" is logged; selection, wishlist and theme are unchanged and the wishlist invariant is kept; requires a selection unless the draft is blank |
| Storefront.Storefront.Theme | App.js:48 | the table the screen is drawn with has the light style names; it is the light table while the flag is off; while it is on, every dark override is in force and no other property is set; every property not overridden keeps its light value |
| Scenarios.WishlistTwice | App.js:50-57 | pressing a product's wishlist button twice adds its id once and logs "Added to wishlist!" then "Already in wishlist!" |
| Scenarios.SubmitOneReview | App.js:59-67 | select, type a non-blank text, submit: the product lists exactly that text, the draft is empty, one "Review submitted!" is logged |
| Scenarios.SubmitBlankReview | App.js:60 | select, type a blank text, submit: no reviews are stored, the draft is kept, nothing is logged |
| Scenarios.SmartWatchReview | App.js:114-118 | reviewing "Smart Watch" with "Great watch!", closing and reopening it lists exactly that review |
| Scenarios.DraftSurvivesClose | App.js:104-118 | a draft typed for one product is still the draft after closing and opening another product |
| Scenarios.ToggleThemeThrice | App.js:48-84 | switching dark, light, dark draws the screen with the dark table, the same as one switch to dark; its image style is the light one |

## Left out

- Rendering and layout (`SafeAreaView`, `FlatList`, `Modal`, `ScrollView`, `TouchableOpacity`, `Button`, `Image`, `Text`): this is presentation that only wires the handlers; `Theme` and `ShownReviews` give the values it reads.
- Product image URLs and image loading: loading is a network call to an external collaborator, so products keep only id, name and price.
- `Alert.alert` as a blocking dialog: each message is modelled only as an append to `notifications`.
- `StyleSheet.create`: its internals are in a library not part of this model, so it is taken as the identity on the light table.
- `placeholderTextColor`: it is a presentational ternary on the theme flag.
- React's `useState` batching and handler closures: the app is single-threaded and each event runs to completion, so each handler is one atomic method on the current state.
- Sharing in `submitReview`: `{ ...reviews }` is a shallow copy, so `push` also extends the array of the previous state object. That object is dropped right away, so the model treats the update as the new map value.
- JavaScript object keys: the review store is a map without a prototype, so ids such as "constructor" or "__proto__" do not behave as they would in JavaScript. The seed ids are "1" to "5".
- Property order of style objects: maps are unordered, so spread order matters only for which value wins.
- Strings are sequences of Unicode scalar values, not UTF-16 code units. Every white-space character `trim` removes is a single code unit, so this does not change which drafts are blank.
- JsText.IsWhitespace: follows the ECMAScript WhiteSpace and LineTerminator sets (with the Unicode "Zs" characters listed explicitly). No general lemma depends on which characters are in the set; Scenarios.SmartWatchReview uses only that 'G' is not white space.
- Storefront.Storefront.SubmitReview: a non-blank submit with nothing selected throws in the source. The model excludes it by a precondition instead of modelling the exception; the user interface offers the button only while a product is selected.
