/** The reviews page: customer reviews and farmer feedback, their generated ids, the
    respond-to-review update, the status tallies and chart data, the delete
    confirmation dialog and the name and e-mail validators of the review form. */
module Review {
  import opened Wrappers
  import opened Seqs
  import opened JsText
  import opened Patterns

  /** A customer review. `response` and `responseDate` are absent until the
      review is answered. */
  datatype CustomerReview = CustomerReview(
    id: string, customerName: string, customerEmail: string, category: string,
    rating: int, subject: string, comment: string, date: string, status: string,
    response: Option<string>, responseDate: Option<string>)

  /** A farmer's feedback entry. */
  datatype Feedback = Feedback(
    id: string, farmerName: string, farmerId: string, feedbackType: string,
    rating: int, message: string, date: string, priority: string, status: string)

  const EmptyReviewForm := CustomerReview("", "", "", "", 0, "", "", "", "New", None, None)
  const EmptyFeedbackForm := Feedback("", "", "", "", 0, "", "", "Medium", "Open")

  const ReviewCategories: seq<string> :=
    ["Product Quality", "Service", "Delivery", "Pricing", "Customer Support", "Overall Experience"]

  const InvalidEmailFormat := "Invalid email format"
  const RespondedStatus := "Responded"

  // ---------- generated ids ----------

  /** `id` is `prefix` followed by the decimal digits of `count + 1`, at least
      three of them and with a leading zero only as padding. */
  predicate IdFormat(prefix: string, count: nat, id: string) {
    && |id| >= |prefix| + 3
    && id[..|prefix|] == prefix
    && (forall k :: |prefix| <= k < |id| ==> IsDigit(id[k]))
    && FromBase(id[|prefix|..], 10) == count + 1
    && (|id| > |prefix| + 3 ==> id[|prefix|] != '0')
  }

  /** The id given to the next entry of a list of `count` entries: `prefix`, then
      `count + 1` in decimal, zero-padded to at least three digits and never
      truncated. */
  function SequenceId(prefix: string, count: nat): (id: string)
    ensures IdFormat(prefix, count, id)
  {
    var digits := PadStart(ToBase(count + 1, 10), 3, '0');
    PaddedDigitsValue(count + 1, 10, 3);
    PaddedDigitsAreDigits(ToBase(count + 1, 10), 3);
    var id := prefix + digits;
    assert id[..|prefix|] == prefix && id[|prefix|..] == digits;
    assert forall k :: |prefix| <= k < |id| ==> id[k] == digits[k - |prefix|];
    id
  }

  /** Padding a digit string with '0' keeps it a digit string. */
  lemma PaddedDigitsAreDigits(s: string, width: nat)
    requires forall k :: 0 <= k < |s| ==> IsDigit(s[k])
    ensures var r := PadStart(s, width, '0');
      forall k :: 0 <= k < |r| ==> IsDigit(r[k])
  {
    var r := PadStart(s, width, '0');
    forall k | 0 <= k < |r|
      ensures IsDigit(r[k])
    {
      var pad := |r| - |s|;
      if k >= pad {
        assert r[k] == r[pad..][k - pad];
      }
    }
  }

  /** Lists of different lengths get different ids with the same prefix. */
  lemma SequenceIdInjective(prefix: string, m: nat, n: nat)
    requires SequenceId(prefix, m) == SequenceId(prefix, n)
    ensures m == n
  {
  }

  /** The id of a new review or a new feedback entry. */
  function ReviewId(count: nat): string { SequenceId("REV", count) }
  function FeedbackId(count: nat): string { SequenceId("FB", count) }

  /** A review id is "REV" followed by `count + 1` in decimal, padded to three
      digits with zeros and never truncated. */
  lemma ReviewIdFormat(count: nat)
    ensures var id := ReviewId(count);
      && |id| >= 6 && id[..3] == "REV"
      && (forall k :: 3 <= k < |id| ==> IsDigit(id[k]))
      && FromBase(id[3..], 10) == count + 1
      && (|id| > 6 ==> id[3] != '0')
  {
  }

  /** A feedback id is "FB" followed by `count + 1` in decimal, padded in the same way. */
  lemma FeedbackIdFormat(count: nat)
    ensures var id := FeedbackId(count);
      && |id| >= 5 && id[..2] == "FB"
      && (forall k :: 2 <= k < |id| ==> IsDigit(id[k]))
      && FromBase(id[2..], 10) == count + 1
      && (|id| > 5 ==> id[2] != '0')
  {
  }

  /** The first review gets "REV001". */
  lemma FirstReviewId()
    ensures ReviewId(0) == "REV001"
  {
    assert ToBase(1, 10) == "1";
    assert PadStart("1", 3, '0') == "001" by {
      assert Repeat('0', 2) == "00";
    }
  }

  /** The forty-second feedback entry gets "FB042". */
  lemma FortySecondFeedbackId()
    ensures FeedbackId(41) == "FB042"
  {
    assert ToBase(42, 10) == "42" by {
      assert ToBase(4, 10) == "4";
    }
    assert PadStart("42", 3, '0') == "042" by {
      assert Repeat('0', 1) == "0";
    }
  }

  /** The thousandth review gets "REV1000": the counter widens beyond three digits
      rather than being cut. */
  lemma SequenceIdWidens()
    ensures ReviewId(999) == "REV1000"
  {
    assert ToBase(1000, 10) == "1000" by {
      assert ToBase(1, 10) == "1";
      assert ToBase(10, 10) == "10";
      assert ToBase(100, 10) == "100";
    }
  }

  // ---------- responding to a review ----------

  /** `reviews.findIndex(r => r.id === id)`: the first review with that id, or -1. */
  function FindReview(reviews: seq<CustomerReview>, id: string): (i: int)
    ensures -1 <= i < |reviews|
    ensures i == -1 <==> forall k :: 0 <= k < |reviews| ==> reviews[k].id != id
    ensures i >= 0 ==> reviews[i].id == id && forall k :: 0 <= k < i ==> reviews[k].id != id
  {
    if reviews == [] then -1
    else if reviews[0].id == id then 0
    else
      var i := FindReview(reviews[1..], id);
      if i == -1 then -1 else i + 1
  }

  /** The review answered with `response` on `date`. */
  function Answered(r: CustomerReview, response: string, date: string): (a: CustomerReview)
    ensures a.id == r.id && a.status == RespondedStatus
    ensures a.response == Some(response) && a.responseDate == Some(date)
    ensures a.(response := r.response, responseDate := r.responseDate, status := r.status) == r
  {
    r.(response := Some(response), responseDate := Some(date), status := RespondedStatus)
  }

  /** The list after `handleSaveResponse`: the first review with the id is
      answered, every other review is as it was, and nothing changes when no
      review has the id. */
  function RespondTo(reviews: seq<CustomerReview>, id: string, response: string, date: string): (r: seq<CustomerReview>)
    ensures |r| == |reviews|
    ensures (forall k :: 0 <= k < |reviews| ==> reviews[k].id != id) ==> r == reviews
    ensures forall k :: 0 <= k < |r| ==> r[k].id == reviews[k].id
    ensures forall k :: 0 <= k < |r| && k != FindReview(reviews, id) ==> r[k] == reviews[k]
    ensures FindReview(reviews, id) >= 0 ==>
      r[FindReview(reviews, id)] == Answered(reviews[FindReview(reviews, id)], response, date)
  {
    var i := FindReview(reviews, id);
    if i == -1 then reviews else reviews[i := Answered(reviews[i], response, date)]
  }

  /** Sending the same response twice leaves the list as sending it once. */
  lemma RespondToIdempotent(reviews: seq<CustomerReview>, id: string, response: string, date: string)
    ensures var once := RespondTo(reviews, id, response, date);
      RespondTo(once, id, response, date) == once
  {
    var once := RespondTo(reviews, id, response, date);
    var i := FindReview(reviews, id);
    if i >= 0 {
      assert FindReview(once, id) == i by {
        assert once[i].id == id;
        assert forall k :: 0 <= k < i ==> once[k].id == reviews[k].id;
      }
    }
  }

  /** After a response is saved, the review it was meant for shows it. */
  lemma RespondToShowsResponse(reviews: seq<CustomerReview>, id: string, response: string, date: string)
    requires exists k :: 0 <= k < |reviews| && reviews[k].id == id
    ensures var i := FindReview(RespondTo(reviews, id, response, date), id);
      && 0 <= i
      && RespondTo(reviews, id, response, date)[i].status == RespondedStatus
      && RespondTo(reviews, id, response, date)[i].response == Some(response)
  {
    var once := RespondTo(reviews, id, response, date);
    var i := FindReview(reviews, id);
    assert FindReview(once, id) == i by {
      assert once[i].id == id;
      assert forall k :: 0 <= k < i ==> once[k].id == reviews[k].id;
    }
  }

  // ---------- tallies ----------

  predicate IsPending(r: CustomerReview) { r.status == "New" || r.status == "In Progress" }
  predicate IsResolved(r: CustomerReview) { r.status == "Responded" || r.status == "Resolved" }

  /** `pendingReviews` and `resolvedReviews` count disjoint sets of reviews. */
  lemma PendingAndResolvedDisjoint(reviews: seq<CustomerReview>)
    ensures Count(reviews, IsPending) + Count(reviews, IsResolved) <= |reviews|
  {
    CountDisjoint(reviews, IsPending, IsResolved);
  }

  /** Answering a review moves it to the resolved tally. */
  lemma AnsweredIsResolved(r: CustomerReview, response: string, date: string)
    ensures IsResolved(Answered(r, response, date)) && !IsPending(Answered(r, response, date))
  {
  }

  // ---------- chart data ----------

  /** One bar of `ratingData`. */
  datatype RatingBucket = RatingBucket(rating: string, count: nat)

  function RatedAs(v: int): CustomerReview -> bool {
    (r: CustomerReview) => r.rating == v
  }

  /** A rating one of the five buckets counts. */
  predicate Rated(r: CustomerReview) { 1 <= r.rating <= 5 }
  predicate Unrated(r: CustomerReview) { !Rated(r) }

  function Bucket(reviews: seq<CustomerReview>, v: nat): RatingBucket
    requires 1 <= v <= 5
  {
    RatingBucket(ToBase(v, 10) + " Star", Count(reviews, RatedAs(v)))
  }

  /** `ratingData`: `[1, 2, 3, 4, 5].map(...)`, one bucket per rating in that order. */
  function RatingData(reviews: seq<CustomerReview>): (d: seq<RatingBucket>)
    ensures |d| == 5
    ensures forall k :: 0 <= k < 5 ==> d[k].count == Count(reviews, RatedAs(k + 1)) <= |reviews|
  {
    seq(5, k requires 0 <= k < 5 => Bucket(reviews, k + 1))
  }

  /** Bucket `k` is labelled with the digit of rating `k + 1` followed by " Star". */
  lemma RatingLabels(reviews: seq<CustomerReview>)
    ensures forall k :: 0 <= k < 5 ==>
      (var caption := RatingData(reviews)[k].rating;
       |caption| == 6 && DigitValue(caption[0]) == k + 1 && caption[1..] == " Star")
  {
    forall k | 0 <= k < 5
      ensures var caption := RatingData(reviews)[k].rating;
        |caption| == 6 && DigitValue(caption[0]) == k + 1 && caption[1..] == " Star"
    {
      assert ToBase(k + 1, 10) == [DigitChar(k + 1)];
    }
  }

  /** Every review with a rating from 1 to 5 is in exactly one bucket and every
      other review (the form's default 0, say) in none: the buckets and the
      unrated reviews add up to all reviews. */
  lemma RatingBucketsCover(reviews: seq<CustomerReview>)
    ensures var d := RatingData(reviews);
      && d[0].count + d[1].count + d[2].count + d[3].count + d[4].count == Count(reviews, Rated)
      && Count(reviews, Rated) + Count(reviews, Unrated) == |reviews|
  {
    BucketsSplit(reviews);
    CountComplement(reviews, Rated, Unrated);
  }

  /** The five rating counts add up to the count of rated reviews. */
  lemma {:induction false} BucketsSplit(reviews: seq<CustomerReview>)
    ensures Count(reviews, RatedAs(1)) + Count(reviews, RatedAs(2)) + Count(reviews, RatedAs(3))
      + Count(reviews, RatedAs(4)) + Count(reviews, RatedAs(5)) == Count(reviews, Rated)
  {
    if reviews != [] {
      BucketsSplit(reviews[1..]);
    }
  }

  /** Adding a review without a rating from 1 to 5 changes no bucket. */
  lemma UnratedInNoBucket(reviews: seq<CustomerReview>, r: CustomerReview)
    requires !Rated(r)
    ensures RatingData(reviews + [r]) == RatingData(reviews)
  {
    forall v | 1 <= v <= 5
      ensures Count(reviews + [r], RatedAs(v)) == Count(reviews, RatedAs(v))
    {
      CountAppend(reviews, [r], RatedAs(v));
    }
  }

  /** Adding a review rated `v` adds one to bucket `v` and to no other. */
  lemma RatedInItsBucket(reviews: seq<CustomerReview>, r: CustomerReview)
    requires Rated(r)
    ensures forall k :: 0 <= k < 5 ==>
      RatingData(reviews + [r])[k].count == RatingData(reviews)[k].count + (if k + 1 == r.rating then 1 else 0)
  {
    forall v | 1 <= v <= 5
      ensures Count(reviews + [r], RatedAs(v)) == Count(reviews, RatedAs(v)) + (if v == r.rating then 1 else 0)
    {
      CountAppend(reviews, [r], RatedAs(v));
    }
  }

  /** One entry of `categoryData`: the caption with its first space turned into a
      line break, the number of reviews and the category's name. */
  datatype CategoryPoint = CategoryPoint(category: string, count: nat, fullName: string)

  function InCategory(c: string): CustomerReview -> bool {
    (r: CustomerReview) => r.category == c
  }

  /** The `map` step of `categoryData`, over a list of categories. */
  function CategoryPoints(reviews: seq<CustomerReview>, cats: seq<string>): (d: seq<CategoryPoint>)
    ensures |d| == |cats|
    ensures forall k :: 0 <= k < |d| ==> d[k].fullName == cats[k]
    ensures forall k :: 0 <= k < |d| ==>
      d[k].count == Count(reviews, InCategory(cats[k])) && d[k].category == ReplaceFirst(cats[k], ' ', '\n')
  {
    if cats == [] then []
    else
      var head := CategoryPoint(ReplaceFirst(cats[0], ' ', '\n'), Count(reviews, InCategory(cats[0])), cats[0]);
      [head] + CategoryPoints(reviews, cats[1..])
  }

  predicate HasCount(p: CategoryPoint) { p.count > 0 }

  /** `categoryData`: the category points, then only those with reviews. */
  function CategoryData(reviews: seq<CustomerReview>): (d: seq<CategoryPoint>)
    ensures |d| <= |ReviewCategories|
    ensures forall k :: 0 <= k < |d| ==> d[k].count > 0
  {
    Filter(CategoryPoints(reviews, ReviewCategories), HasCount)
  }

  function FullNames(d: seq<CategoryPoint>): (names: seq<string>)
    ensures |names| == |d|
    ensures forall k :: 0 <= k < |d| ==> names[k] == d[k].fullName
  {
    if d == [] then [] else [d[0].fullName] + FullNames(d[1..])
  }

  function HasReviews(reviews: seq<CustomerReview>): string -> bool {
    (c: string) => Count(reviews, InCategory(c)) > 0
  }

  /** The chart shows exactly the categories that have reviews, in the order of
      the category list. */
  lemma CategoryDataOrder(reviews: seq<CustomerReview>)
    ensures FullNames(CategoryData(reviews)) == Filter(ReviewCategories, HasReviews(reviews))
  {
    CategoryFilterCommutes(reviews, ReviewCategories);
  }

  lemma {:induction false} CategoryFilterCommutes(reviews: seq<CustomerReview>, cats: seq<string>)
    ensures FullNames(Filter(CategoryPoints(reviews, cats), HasCount)) == Filter(cats, HasReviews(reviews))
  {
    if cats != [] {
      var d := CategoryPoints(reviews, cats);
      assert d[1..] == CategoryPoints(reviews, cats[1..]);
      CategoryFilterCommutes(reviews, cats[1..]);
      var rest := Filter(d[1..], HasCount);
      if HasCount(d[0]) {
        assert Filter(d, HasCount) == [d[0]] + rest;
        assert ([d[0]] + rest)[1..] == rest;
      }
    }
  }

  // ---------- form validators ----------

  /** The name field's message: any value, the empty one included, that is not one
      or more letters and spaces is flagged. */
  function NameFieldError(value: string): (e: string)
    ensures e == "" <==> LettersAndSpaces(value)
    ensures e != "" ==> e == OnlyAlphabets
  {
    if LettersAndSpaces(value) then "" else OnlyAlphabets
  }

  /** The e-mail field's message, with the same pattern as the sign-up form. */
  function EmailFieldError(value: string): (e: string)
    ensures e == "" <==> MatchesEmail(value)
    ensures e != "" ==> e == InvalidEmailFormat
  {
    if MatchesEmail(value) then "" else InvalidEmailFormat
  }

  /** Clearing the name field flags it, as does a name with a digit in it. */
  lemma NameFieldRejects(value: string)
    ensures NameFieldError("") == OnlyAlphabets
    ensures HasDigit(value) ==> NameFieldError(value) == OnlyAlphabets
  {
    if HasDigit(value) {
      var k :| 0 <= k < |value| && IsDigit(value[k]);
      assert !IsAsciiLetter(value[k]) && !IsWhitespace(value[k]);
    }
  }

  /** The review form fields `handleReviewChange` is wired to. */
  datatype ReviewField = CustomerName | CustomerEmail | Category | Subject | Comment | Status

  function ReviewFieldOf(f: CustomerReview, field: ReviewField): string {
    match field
    case CustomerName => f.customerName
    case CustomerEmail => f.customerEmail
    case Category => f.category
    case Subject => f.subject
    case Comment => f.comment
    case Status => f.status
  }

  /** `{ ...reviewForm, [name]: value }`: the named field takes the value; every
      other field, the id, rating, date and response included, is kept. */
  function WithReviewField(f: CustomerReview, field: ReviewField, value: string): (g: CustomerReview)
    ensures ReviewFieldOf(g, field) == value
    ensures forall other :: other != field ==> ReviewFieldOf(g, other) == ReviewFieldOf(f, other)
    ensures g.id == f.id && g.rating == f.rating && g.date == f.date
    ensures g.response == f.response && g.responseDate == f.responseDate
  {
    match field
    case CustomerName => f.(customerName := value)
    case CustomerEmail => f.(customerEmail := value)
    case Category => f.(category := value)
    case Subject => f.(subject := value)
    case Comment => f.(comment := value)
    case Status => f.(status := value)
  }

  /** The feedback form fields `handleFeedbackChange` is wired to. */
  datatype FeedbackField = FarmerName | FarmerId | FeedbackType | Message | Priority | FeedbackStatus

  function FeedbackFieldOf(f: Feedback, field: FeedbackField): string {
    match field
    case FarmerName => f.farmerName
    case FarmerId => f.farmerId
    case FeedbackType => f.feedbackType
    case Message => f.message
    case Priority => f.priority
    case FeedbackStatus => f.status
  }

  /** `{ ...feedbackForm, [name]: value }`: the named field takes the value; every
      other field, the id, rating and date included, is kept. */
  function WithFeedbackField(f: Feedback, field: FeedbackField, value: string): (g: Feedback)
    ensures FeedbackFieldOf(g, field) == value
    ensures forall other :: other != field ==> FeedbackFieldOf(g, other) == FeedbackFieldOf(f, other)
    ensures g.id == f.id && g.rating == f.rating && g.date == f.date
  {
    match field
    case FarmerName => f.(farmerName := value)
    case FarmerId => f.(farmerId := value)
    case FeedbackType => f.(feedbackType := value)
    case Message => f.(message := value)
    case Priority => f.(priority := value)
    case FeedbackStatus => f.(status := value)
  }

  /** The fields `handleAddReview` requires to be non-empty. */
  predicate ReviewFormComplete(f: CustomerReview) {
    f.customerName != "" && f.customerEmail != "" && f.category != "" && f.subject != "" && f.comment != ""
  }

  predicate FeedbackFormComplete(f: Feedback) {
    f.farmerName != "" && f.farmerId != "" && f.feedbackType != "" && f.message != ""
  }

  /** The respond dialog. */
  datatype ResponseDialog = ResponseDialog(open: bool, reviewId: string, response: string)
  const ClosedResponseDialog := ResponseDialog(false, "", "")

  /** What the delete dialog runs on confirmation: reviews are deleted by
      position, feedback entries by id. */
  datatype DeleteAction = DeleteReviewAt(index: nat) | DeleteFeedbackWithId(id: string)
  datatype ItemKind = ReviewItem | FeedbackItem
  datatype DeleteDialog = DeleteDialog(
    open: bool, kind: Option<ItemKind>, itemId: Option<string>, itemName: string, onConfirm: Option<DeleteAction>)
  const ClosedDeleteDialog := DeleteDialog(false, None, None, "", None)

  /** A call to `updateReview(index, review)`. */
  datatype ReviewUpdate = ReviewUpdate(index: nat, review: CustomerReview)

  /** The state of the reviews page. */
  class ReviewPage {
    var reviewForm: CustomerReview
    var nameError: string
    var emailError: string
    var feedbackForm: Feedback
    var responseDialog: ResponseDialog
    var deleteDialog: DeleteDialog

    constructor ()
      ensures reviewForm == EmptyReviewForm && feedbackForm == EmptyFeedbackForm
      ensures nameError == "" && emailError == ""
      ensures responseDialog == ClosedResponseDialog && deleteDialog == ClosedDeleteDialog
    {
      reviewForm, feedbackForm := EmptyReviewForm, EmptyFeedbackForm;
      nameError, emailError := "", "";
      responseDialog, deleteDialog := ClosedResponseDialog, ClosedDeleteDialog;
    }

    /** `handleReviewChange`: the name and e-mail fields are validated as they
        change; every field stores its value. */
    method HandleReviewChange(field: ReviewField, value: string)
      modifies this
      ensures reviewForm == WithReviewField(old(reviewForm), field, value)
      ensures nameError == (if field == CustomerName then NameFieldError(value) else old(nameError))
      ensures emailError == (if field == CustomerEmail then EmailFieldError(value) else old(emailError))
      ensures feedbackForm == old(feedbackForm)
      ensures responseDialog == old(responseDialog) && deleteDialog == old(deleteDialog)
    {
      if field == CustomerName {
        nameError := NameFieldError(value);
      }
      if field == CustomerEmail {
        emailError := EmailFieldError(value);
      }
      reviewForm := WithReviewField(reviewForm, field, value);
    }

    /** `handleAddReview` with `count` reviews on screen and `today`'s date: a
        complete form with no error set goes to `addReview` with a generated id
        and the date; the form is reset only when that call completes. */
    method HandleAddReview(count: nat, today: string, outcome: CallOutcome) returns (submitted: Option<CustomerReview>)
      modifies this
      ensures var f := old(reviewForm);
        submitted == (if ReviewFormComplete(f) && old(nameError) == "" && old(emailError) == ""
                      then Some(f.(id := ReviewId(count), date := today)) else None)
      ensures reviewForm == (if submitted.Some? && outcome == Completed then EmptyReviewForm else old(reviewForm))
      ensures nameError == old(nameError) && emailError == old(emailError)
      ensures feedbackForm == old(feedbackForm)
      ensures responseDialog == old(responseDialog) && deleteDialog == old(deleteDialog)
    {
      var f := reviewForm;
      if ReviewFormComplete(f) && nameError == "" && emailError == "" {
        var id := ReviewId(count);
        submitted := Some(f.(id := id, date := today));
        if outcome == Completed {
          reviewForm := EmptyReviewForm;
        }
      } else {
        submitted := None;
      }
    }

    /** `handleFeedbackChange`: stores the value in the named field. */
    method HandleFeedbackChange(field: FeedbackField, value: string)
      modifies this
      ensures feedbackForm == WithFeedbackField(old(feedbackForm), field, value)
      ensures reviewForm == old(reviewForm) && nameError == old(nameError) && emailError == old(emailError)
      ensures responseDialog == old(responseDialog) && deleteDialog == old(deleteDialog)
    {
      feedbackForm := WithFeedbackField(feedbackForm, field, value);
    }

    /** `handleAddFeedback` with `count` feedback entries on screen: like
        `handleAddReview` with its own required fields and the "FB" prefix. */
    method HandleAddFeedback(count: nat, today: string, outcome: CallOutcome) returns (submitted: Option<Feedback>)
      modifies this
      ensures var f := old(feedbackForm);
        submitted == (if FeedbackFormComplete(f) then Some(f.(id := FeedbackId(count), date := today)) else None)
      ensures feedbackForm == (if submitted.Some? && outcome == Completed then EmptyFeedbackForm else old(feedbackForm))
      ensures reviewForm == old(reviewForm) && nameError == old(nameError) && emailError == old(emailError)
      ensures responseDialog == old(responseDialog) && deleteDialog == old(deleteDialog)
    {
      var f := feedbackForm;
      if FeedbackFormComplete(f) {
        var id := FeedbackId(count);
        submitted := Some(f.(id := id, date := today));
        if outcome == Completed {
          feedbackForm := EmptyFeedbackForm;
        }
      } else {
        submitted := None;
      }
    }

    /** `handleOpenResponse`: opens the dialog for a review with an empty response. */
    method HandleOpenResponse(reviewId: string)
      modifies this
      ensures responseDialog == ResponseDialog(true, reviewId, "")
      ensures reviewForm == old(reviewForm) && nameError == old(nameError) && emailError == old(emailError)
      ensures feedbackForm == old(feedbackForm) && deleteDialog == old(deleteDialog)
    {
      responseDialog := ResponseDialog(true, reviewId, "");
    }

    /** Typing in the dialog's text field. */
    method HandleResponseChange(text: string)
      modifies this
      ensures responseDialog == old(responseDialog).(response := text)
      ensures reviewForm == old(reviewForm) && nameError == old(nameError) && emailError == old(emailError)
      ensures feedbackForm == old(feedbackForm) && deleteDialog == old(deleteDialog)
    {
      responseDialog := responseDialog.(response := text);
    }

    /** Cancelling or closing the dialog. */
    method HandleCloseResponse()
      modifies this
      ensures responseDialog == ClosedResponseDialog
      ensures reviewForm == old(reviewForm) && nameError == old(nameError) && emailError == old(emailError)
      ensures feedbackForm == old(feedbackForm) && deleteDialog == old(deleteDialog)
    {
      responseDialog := ClosedResponseDialog;
    }

    /** `handleSaveResponse` over the `reviews` on screen: the `updateReview` call
        it issues, if any, turns the list into `RespondTo` of it. The dialog is
        closed and emptied afterwards, unless that awaited call fails, which skips
        the reset. */
    method HandleSaveResponse(reviews: seq<CustomerReview>, today: string, outcome: CallOutcome)
      returns (update: Option<ReviewUpdate>)
      modifies this
      ensures var d := old(responseDialog);
        && (update.None? <==> FindReview(reviews, d.reviewId) == -1)
        && (update.Some? ==>
              && update.value.index < |reviews|
              && reviews[update.value.index := update.value.review] == RespondTo(reviews, d.reviewId, d.response, today))
      ensures responseDialog == if update.Some? && outcome == Failed then old(responseDialog) else ClosedResponseDialog
      ensures reviewForm == old(reviewForm) && nameError == old(nameError) && emailError == old(emailError)
      ensures feedbackForm == old(feedbackForm) && deleteDialog == old(deleteDialog)
    {
      var idx := FindReview(reviews, responseDialog.reviewId);
      update := None;
      if idx != -1 {
        update := Some(ReviewUpdate(idx, Answered(reviews[idx], responseDialog.response, today)));
        if outcome == Failed {
          return;
        }
      }
      responseDialog := ClosedResponseDialog;
    }

    /** `handleDeleteConfirm`: opens the dialog for one item and its action. */
    method HandleDeleteConfirm(kind: ItemKind, itemId: string, itemName: string, action: DeleteAction)
      modifies this
      ensures deleteDialog == DeleteDialog(true, Some(kind), Some(itemId), itemName, Some(action))
      ensures reviewForm == old(reviewForm) && nameError == old(nameError) && emailError == old(emailError)
      ensures feedbackForm == old(feedbackForm) && responseDialog == old(responseDialog)
    {
      deleteDialog := DeleteDialog(true, Some(kind), Some(itemId), itemName, Some(action));
    }

    /** `handleDeleteCancel`: the dialog goes back to closed and empty. */
    method HandleDeleteCancel()
      modifies this
      ensures deleteDialog == ClosedDeleteDialog
      ensures reviewForm == old(reviewForm) && nameError == old(nameError) && emailError == old(emailError)
      ensures feedbackForm == old(feedbackForm) && responseDialog == old(responseDialog)
    {
      deleteDialog := ClosedDeleteDialog;
    }

    /** `handleDeleteConfirmExecute`: runs the stored action, if there is one, and
        resets the dialog afterwards whether or not the action threw. */
    method HandleDeleteConfirmExecute() returns (ran: Option<DeleteAction>)
      modifies this
      ensures ran == old(deleteDialog).onConfirm
      ensures deleteDialog == ClosedDeleteDialog
      ensures reviewForm == old(reviewForm) && nameError == old(nameError) && emailError == old(emailError)
      ensures feedbackForm == old(feedbackForm) && responseDialog == old(responseDialog)
    {
      ran := None;
      if deleteDialog.onConfirm.Some? {
        // a throwing action is caught and logged; the reset below runs either way
        ran := deleteDialog.onConfirm;
      }
      HandleDeleteCancel();
    }

    /** `handleDeleteReview(idx)`: asks to delete the review at that position. */
    method HandleDeleteReview(reviews: seq<CustomerReview>, idx: nat)
      requires idx < |reviews|
      modifies this
      ensures deleteDialog == DeleteDialog(true, Some(ReviewItem), Some(reviews[idx].id),
        "review from " + reviews[idx].customerName, Some(DeleteReviewAt(idx)))
      ensures reviewForm == old(reviewForm) && nameError == old(nameError) && emailError == old(emailError)
      ensures feedbackForm == old(feedbackForm) && responseDialog == old(responseDialog)
    {
      var r := reviews[idx];
      HandleDeleteConfirm(ReviewItem, r.id, "review from " + r.customerName, DeleteReviewAt(idx));
    }

    /** `handleDeleteFeedback(idx)`: asks to delete that feedback entry by its id. */
    method HandleDeleteFeedback(feedback: seq<Feedback>, idx: nat)
      requires idx < |feedback|
      modifies this
      ensures deleteDialog == DeleteDialog(true, Some(FeedbackItem), Some(feedback[idx].id),
        "feedback from " + feedback[idx].farmerName, Some(DeleteFeedbackWithId(feedback[idx].id)))
      ensures reviewForm == old(reviewForm) && nameError == old(nameError) && emailError == old(emailError)
      ensures feedbackForm == old(feedbackForm) && responseDialog == old(responseDialog)
    {
      var f := feedback[idx];
      HandleDeleteConfirm(FeedbackItem, f.id, "feedback from " + f.farmerName, DeleteFeedbackWithId(f.id));
    }
  }
}
