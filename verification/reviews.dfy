/** Customer reviews on the product page: the review form, the record it
    inserts, and the average shown above the list. */
module Reviews {
  import opened Wrappers
  import opened Text
  import opened Seqs
  import opened Types
  import opened Uploads

  /** A row of the `reviews` table. */
  datatype Review = Review(
    id: string,
    productId: string,
    customerName: string,
    rating: int,
    comment: Option<string>,
    imageUrl: Option<string>)

  /** The columns `handleSubmit` inserts. */
  datatype ReviewRecord = ReviewRecord(
    productId: string,
    customerName: string,
    rating: int,
    comment: Option<string>,
    imageUrl: Option<string>)

  /** The form's state; `preview` is the chosen image read as a data URL. */
  datatype ReviewForm = ReviewForm(
    customerName: string,
    rating: int,
    comment: string,
    image: Option<FileInfo>,
    preview: Option<string>,
    shown: bool)

  /** The form on arrival and after a successful submit: five stars, nothing typed, hidden. */
  const InitialForm := ReviewForm("", 5, "", None, None, false)

  /** The ratings the star buttons offer. */
  const StarButtons := [1, 2, 3, 4, 5]

  /** `handleImageChange`: a file over 5 MiB is refused and nothing changes;
      otherwise it is kept, with `dataUrl` as its preview. There is no type check. */
  function ChooseImage(f: ReviewForm, file: Option<FileInfo>, dataUrl: string): (r: ReviewForm)
    ensures file.None? || file.value.size > ReviewImageLimit ==> r == f
    ensures file.Some? && file.value.size <= ReviewImageLimit ==>
      r == f.(image := file, preview := Some(dataUrl))
  {
    match file
    case None => f
    case Some(fi) => if fi.size > ReviewImageLimit then f else f.(image := file, preview := Some(dataUrl))
  }

  /** The star buttons: pressing star `k` sets the rating to `k`; there is no
      button for any other value. */
  function PressStar(f: ReviewForm, k: int): (r: ReviewForm)
    ensures k in StarButtons ==> r == f.(rating := k)
    ensures k !in StarButtons ==> r == f
  {
    if k in StarButtons then f.(rating := k) else f
  }

  /** Star `k` of the form is highlighted up to the chosen rating. */
  predicate StarLit(f: ReviewForm, k: int) { k <= f.rating }

  datatype SubmitError = NameRequired | UploadFailed | InsertFailed

  datatype SubmitOutcome = SubmitOutcome(form: ReviewForm, inserted: Option<ReviewRecord>, error: Option<SubmitError>)

  /** The record for the form, once the image (if any) is stored at `imageUrl`:
      the name trimmed, the comment trimmed or null when blank. */
  function RecordOf(f: ReviewForm, productId: string, imageUrl: Option<string>): (rec: ReviewRecord)
    ensures rec.productId == productId && rec.rating == f.rating && rec.imageUrl == imageUrl
    ensures rec.customerName == Trim(f.customerName)
    ensures rec.comment.None? <==> Blank(f.comment)
    ensures rec.comment.Some? ==> rec.comment.value == Trim(f.comment) && rec.comment.value != ""
  {
    var c := Trim(f.comment);
    ReviewRecord(productId, Trim(f.customerName), f.rating, if c == "" then None else Some(c), imageUrl)
  }

  /** `handleSubmit`. A blank name stops everything. With an image, `upload`
      is the storage answer (its public URL, or an error that stops the
      submit); `insertOk` is the insert's answer. Only a successful insert
      resets the form. */
  function Submit(f: ReviewForm, productId: string, upload: Result<string, string>, insertOk: bool): (r: SubmitOutcome)
    ensures Blank(f.customerName) ==> r == SubmitOutcome(f, None, Some(NameRequired))
    ensures !Blank(f.customerName) && f.image.Some? && upload.Err? ==> r == SubmitOutcome(f, None, Some(UploadFailed))
    ensures r.inserted.Some? ==> !Blank(r.inserted.value.customerName)
    ensures !Blank(f.customerName) && f.image.None? ==> r.inserted == Some(RecordOf(f, productId, None))
    ensures !Blank(f.customerName) && f.image.Some? && upload.Ok? ==> r.inserted == Some(RecordOf(f, productId, Some(upload.value)))
    ensures r.form == (if r.inserted.Some? && insertOk then InitialForm else f)
    ensures r.error.None? <==> r.inserted.Some? && insertOk
  {
    if Trim(f.customerName) == "" then SubmitOutcome(f, None, Some(NameRequired))
    else
      var url: Result<Option<string>, string> :=
        if f.image.None? then Ok(None)
        else if upload.Ok? then Ok(Some(upload.value))
        else Err(upload.error);
      if url.Err? then SubmitOutcome(f, None, Some(UploadFailed))
      else
        var rec := RecordOf(f, productId, url.value);
        if insertOk then SubmitOutcome(InitialForm, Some(rec), None)
        else SubmitOutcome(f, Some(rec), Some(InsertFailed))
  }

  /** The events the form reacts to. */
  datatype FormEvent =
    | TypeName(name: string)
    | TypeComment(comment: string)
    | Star(k: int)
    | PickImage(file: Option<FileInfo>, dataUrl: string)
    | Send(productId: string, upload: Result<string, string>, insertOk: bool)

  function Apply(f: ReviewForm, e: FormEvent): ReviewForm {
    match e
    case TypeName(n) => f.(customerName := n)
    case TypeComment(c) => f.(comment := c)
    case Star(k) => PressStar(f, k)
    case PickImage(file, url) => ChooseImage(f, file, url)
    case Send(pid, up, ok) => Submit(f, pid, up, ok).form
  }

  function ApplyAll(f: ReviewForm, es: seq<FormEvent>): ReviewForm
    decreases |es|
  {
    if |es| == 0 then f else ApplyAll(Apply(f, es[0]), es[1..])
  }

  /** Whatever the visitor does, the form's rating stays between 1 and 5, so
      every inserted review carries such a rating. */
  lemma {:induction false} RatingStaysInRange(f: ReviewForm, es: seq<FormEvent>)
    requires 1 <= f.rating <= 5
    ensures 1 <= ApplyAll(f, es).rating <= 5
    decreases |es|
  {
    if |es| > 0 {
      RatingStaysInRange(Apply(f, es[0]), es[1..]);
    }
  }

  lemma InsertedRatingInRange(f: ReviewForm, productId: string, upload: Result<string, string>, insertOk: bool)
    requires 1 <= f.rating <= 5
    ensures var r := Submit(f, productId, upload, insertOk);
      r.inserted.Some? ==> 1 <= r.inserted.value.rating <= 5
  {
  }

  function RatingOf(r: Review): int { r.rating }

  /** `averageRating`: 0 with no reviews, otherwise the mean rating. */
  function AverageRating(reviews: seq<Review>): (a: real)
    ensures |reviews| == 0 ==> a == 0.0
    ensures |reviews| > 0 ==> a * (|reviews| as real) == Sum(reviews, RatingOf) as real
  {
    if |reviews| > 0 then (Sum(reviews, RatingOf) as real) / (|reviews| as real) else 0.0
  }

  /** The average lies between any lower and upper bound of the ratings, so
      with ratings from 1 to 5 it lies between 1 and 5. */
  lemma AverageWithinBounds(reviews: seq<Review>, lo: int, hi: int)
    requires |reviews| > 0
    requires forall i :: 0 <= i < |reviews| ==> lo <= reviews[i].rating <= hi
    ensures lo as real <= AverageRating(reviews) <= hi as real
  {
    SumBounds(reviews, RatingOf, lo, hi);
    var n := |reviews| as real;
    var s := Sum(reviews, RatingOf) as real;
    assert n * (lo as real) <= s <= n * (hi as real);
    DivideBounds(s, n, lo as real, hi as real);
  }

  lemma DivideBounds(s: real, n: real, lo: real, hi: real)
    requires n > 0.0 && n * lo <= s <= n * hi
    ensures lo <= s / n <= hi
  {
    assert s / n * n == s;
  }

  /** When every review gives the same rating, that is the average. */
  lemma AverageOfEqualRatings(reviews: seq<Review>, v: int)
    requires |reviews| > 0
    requires forall i :: 0 <= i < |reviews| ==> reviews[i].rating == v
    ensures AverageRating(reviews) == v as real
  {
    AverageWithinBounds(reviews, v, v);
  }

  /** The count label under the average. */
  function CountLabel(n: nat): (s: string)
    ensures n == 1 ==> s == "review"
    ensures n != 1 ==> s == "reviews"
  {
    if n == 1 then "review" else "reviews"
  }
}
