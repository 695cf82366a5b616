/** The review store: for each product id, the reviews submitted for it, in the
    order they were submitted. A key exists only once a first review for that
    product has been submitted. */
module Reviews {

  /** The reviews displayed for a product: its list, or the empty list when no
      review has been submitted for it yet. */
  function ReviewsOf(reviews: map<string, seq<string>>, id: string): seq<string> {
    if id in reviews then reviews[id] else []
  }

  /** The store after the review text is submitted for id: the list of id is
      created if absent and text appended to it; every other product's list is
      kept as it was. */
  function AppendReview(reviews: map<string, seq<string>>, id: string, text: string): (r: map<string, seq<string>>)
    ensures r.Keys == reviews.Keys + {id}
    ensures ReviewsOf(r, id) == ReviewsOf(reviews, id) + [text]
    ensures forall k :: k in reviews && k != id ==> r[k] == reviews[k]
  {
    var existing := if id in reviews then reviews else reviews[id := []];
    existing[id := existing[id] + [text]]
  }

  /** Submission is append-only: the list shown for any product before a
      submission is a prefix of the list shown after it, and only the submitted
      product's list grows. */
  lemma AppendOnly(reviews: map<string, seq<string>>, id: string, text: string, k: string)
    ensures var before, after := ReviewsOf(reviews, k), ReviewsOf(AppendReview(reviews, id, text), k);
      |after| == |before| + (if k == id then 1 else 0) && after[..|before|] == before
  {
  }

  /** The store after a run of submissions, each a product id with the text
      submitted for it, starting from the store reviews. */
  function SubmitRun(reviews: map<string, seq<string>>, run: seq<(string, string)>): map<string, seq<string>>
    decreases |run|
  {
    if run == [] then reviews else SubmitRun(AppendReview(reviews, run[0].0, run[0].1), run[1..])
  }

  /** The texts of a run submitted for product k, in run order. */
  function TextsFor(run: seq<(string, string)>, k: string): seq<string>
    decreases |run|
  {
    if run == [] then [] else (if run[0].0 == k then [run[0].1] else []) + TextsFor(run[1..], k)
  }

  /** After any run of submissions over any products, each product displays
      its old list followed by the texts submitted for it, in order. */
  lemma {:induction false} SubmitRunOrder(reviews: map<string, seq<string>>, run: seq<(string, string)>, k: string)
    ensures ReviewsOf(SubmitRun(reviews, run), k) == ReviewsOf(reviews, k) + TextsFor(run, k)
    decreases |run|
  {
    if run != [] {
      var next := AppendReview(reviews, run[0].0, run[0].1);
      SubmitRunOrder(next, run[1..], k);
      AppendOnly(reviews, run[0].0, run[0].1, k);
      var head := if run[0].0 == k then [run[0].1] else [];
      assert ReviewsOf(next, k) == ReviewsOf(reviews, k) + head;
      assert ReviewsOf(reviews, k) + head + TextsFor(run[1..], k) == ReviewsOf(reviews, k) + (head + TextsFor(run[1..], k));
    }
  }

  /** From the initially empty store, after any run of submissions, each
      product displays exactly the texts submitted for it, in submission
      order, and a product nobody reviewed displays nothing. */
  lemma DisplayedIsSubmitted(run: seq<(string, string)>, k: string)
    ensures ReviewsOf(SubmitRun(map[], run), k) == TextsFor(run, k)
    ensures (forall i :: 0 <= i < |run| ==> run[i].0 != k) ==> ReviewsOf(SubmitRun(map[], run), k) == []
  {
    SubmitRunOrder(map[], run, k);
    NoTextsForUnreviewed(run, k);
  }

  /** A product that no submission of the run names gets no texts. */
  lemma {:induction false} NoTextsForUnreviewed(run: seq<(string, string)>, k: string)
    ensures (forall i :: 0 <= i < |run| ==> run[i].0 != k) ==> TextsFor(run, k) == []
    decreases |run|
  {
    if run != [] && (forall i :: 0 <= i < |run| ==> run[i].0 != k) {
      assert forall i :: 0 <= i < |run[1..]| ==> run[1..][i].0 != k by {
        forall i | 0 <= i < |run[1..]| ensures run[1..][i].0 != k {
          assert run[1..][i] == run[i + 1];
        }
      }
      NoTextsForUnreviewed(run[1..], k);
    }
  }
}
