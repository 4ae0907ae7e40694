/**
 * The ReviewRadar feedback server action: the caller must be signed in, the
 * form is validated field by field (title, description, category, rating),
 * and a valid form is stored as one feedback row with sentiment "Pending".
 */
module FeedbackAction {
  import opened Wrappers
  import Text

  datatype Category = Bug | Feature | UX | Performance | Other

  function CategoryName(c: Category): string {
    match c
    case Bug => "Bug"
    case Feature => "Feature"
    case UX => "UX"
    case Performance => "Performance"
    case Other => "Other"
  }

  /** The enum check of the category field. */
  function ParseCategory(s: string): (r: Option<Category>)
    ensures r.Some? ==> CategoryName(r.value) == s
    ensures r.None? ==> forall c :: CategoryName(c) != s
  {
    if s == "Bug" then Some(Bug)
    else if s == "Feature" then Some(Feature)
    else if s == "UX" then Some(UX)
    else if s == "Performance" then Some(Performance)
    else if s == "Other" then Some(Other)
    else None
  }

  /** A form field as FormData.get returns it: None is null, the value of a field that was not sent. */
  type FormField = Option<string>

  datatype FeedbackForm = FeedbackForm(title: FormField, description: FormField, category: FormField, rating: FormField)

  /** A JavaScript number as Number() produces it. */
  datatype JsNumber = NaN | Num(value: real)

  predicate AllDigits(s: string) {
    forall k :: 0 <= k < |s| ==> Text.IsDigit(s[k])
  }

  /** The value of a string of decimal digits. */
  function DigitsValue(s: string): (n: nat)
    requires AllDigits(s)
  {
    if s == [] then 0 else DigitsValue(s[..|s| - 1]) * 10 + (s[|s| - 1] as int - '0' as int)
  }

  function Pow10(k: nat): (p: nat)
    ensures p >= 1
  {
    if k == 0 then 1 else 10 * Pow10(k - 1)
  }

  /** The index of the first '.', or |s| when there is none. */
  function DotIndex(s: string): (i: nat)
    ensures i <= |s|
    ensures i < |s| ==> s[i] == '.'
    ensures forall k :: 0 <= k < i ==> s[k] != '.'
  {
    if s == [] then 0 else if s[0] == '.' then 0 else 1 + DotIndex(s[1..])
  }

  /** An unsigned decimal literal: digits, optionally a point and more digits, at least one digit in all. */
  predicate IsUnsignedDecimal(s: string) {
    var i := DotIndex(s);
    var frac := if i < |s| then s[i + 1..] else [];
    AllDigits(s[..i]) && AllDigits(frac) && i + |frac| >= 1
  }

  function UnsignedDecimalValue(s: string): (v: real)
    requires IsUnsignedDecimal(s)
    ensures v >= 0.0
  {
    var i := DotIndex(s);
    var frac := if i < |s| then s[i + 1..] else [];
    DigitsValue(s[..i]) as real + DigitsValue(frac) as real / Pow10(|frac|) as real
  }

  /**
   * Number(v) as z.coerce.number() applies it to a form field: null and a
   * string that is empty after trimming give 0, a decimal literal with an
   * optional sign gives its value, anything else gives NaN.
   */
  function ToNumber(v: FormField): (r: JsNumber)
    ensures v.None? ==> r == Num(0.0)
    ensures v.Some? && Text.AllSpace(v.value) ==> r == Num(0.0)
  {
    match v
    case None => Num(0.0)
    case Some(s) =>
      var t := Text.Trim(s);
      if t == [] then Num(0.0)
      else if t[0] == '-' && IsUnsignedDecimal(t[1..]) then Num(-UnsignedDecimalValue(t[1..]))
      else if t[0] == '+' && IsUnsignedDecimal(t[1..]) then Num(UnsignedDecimalValue(t[1..]))
      else if IsUnsignedDecimal(t) then Num(UnsignedDecimalValue(t))
      else NaN
  }

  /** One validation issue of a field. */
  datatype Issue =
    | InvalidType              // not a string (null), or for rating a NaN
    | Custom(message: string)  // a length rule with the message the schema sets
    | InvalidEnumValue         // category outside the five names
    | TooSmall                 // rating below 1
    | TooBig                   // rating above 5

  const TitleRequired := "Title is required"
  const DescriptionTooShort := "Description must be at least 10 characters"
  const MinDescriptionLength := 10

  /** The issues of the title field: a string of length at least 1. */
  function TitleIssues(v: FormField): (r: seq<Issue>)
    ensures r == [] <==> v.Some? && Text.Utf16Length(v.value) >= 1
    ensures v == Some("") ==> r == [Custom(TitleRequired)]
  {
    if v.None? then [InvalidType]
    else if Text.Utf16Length(v.value) < 1 then [Custom(TitleRequired)]
    else []
  }

  /** The issues of the description field: a string of length at least 10. */
  function DescriptionIssues(v: FormField): (r: seq<Issue>)
    ensures r == [] <==> v.Some? && Text.Utf16Length(v.value) >= MinDescriptionLength
    ensures v.Some? && Text.Utf16Length(v.value) < MinDescriptionLength ==> r == [Custom(DescriptionTooShort)]
  {
    if v.None? then [InvalidType]
    else if Text.Utf16Length(v.value) < MinDescriptionLength then [Custom(DescriptionTooShort)]
    else []
  }

  /** The issues of the category field: one of the five names. */
  function CategoryIssues(v: FormField): (r: seq<Issue>)
    ensures r == [] <==> v.Some? && exists c :: CategoryName(c) == v.value
  {
    if v.None? then [InvalidType]
    else if ParseCategory(v.value).None? then [InvalidEnumValue]
    else []
  }

  /**
   * The issues of the rating field: Number() of the field must lie in 1..5.
   * The schema's default of 0 applies only to an undefined input, and a form
   * field is never undefined (null when absent), so the default never fires.
   */
  function RatingIssues(v: FormField): (r: seq<Issue>)
    ensures r == [] <==> ToNumber(v).Num? && 1.0 <= ToNumber(v).value <= 5.0
    ensures v.None? ==> r == [TooSmall]
  {
    match ToNumber(v)
    case NaN => [InvalidType]
    case Num(x) => if x < 1.0 then [TooSmall] else if x > 5.0 then [TooBig] else []
  }

  /** flatten().fieldErrors: the issues of each field, empty for a field that passed. */
  datatype FieldErrors = FieldErrors(title: seq<Issue>, description: seq<Issue>, category: seq<Issue>, rating: seq<Issue>)

  datatype ValidFeedback = ValidFeedback(title: string, description: string, category: Category, rating: real)

  /** feedbackSchema.safeParse: the parsed fields, or the issues of every failing field. */
  function Validate(form: FeedbackForm): (r: Result<ValidFeedback, FieldErrors>)
    ensures r.Ok? <==>
      && form.title.Some? && Text.Utf16Length(form.title.value) >= 1
      && form.description.Some? && Text.Utf16Length(form.description.value) >= MinDescriptionLength
      && form.category.Some? && ParseCategory(form.category.value).Some?
      && ToNumber(form.rating).Num? && 1.0 <= ToNumber(form.rating).value <= 5.0
    ensures r.Ok? ==>
      && r.value.title == form.title.value
      && r.value.description == form.description.value
      && CategoryName(r.value.category) == form.category.value
      && r.value.rating == ToNumber(form.rating).value
      && 1.0 <= r.value.rating <= 5.0
    ensures r.Err? ==>
      && (r.error.title == [] <==> TitleIssues(form.title) == [])
      && (r.error.description == [] <==> DescriptionIssues(form.description) == [])
      && (r.error.category == [] <==> CategoryIssues(form.category) == [])
      && (r.error.rating == [] <==> RatingIssues(form.rating) == [])
  {
    var errors := FieldErrors(TitleIssues(form.title), DescriptionIssues(form.description),
                              CategoryIssues(form.category), RatingIssues(form.rating));
    if errors.title == [] && errors.description == [] && errors.category == [] && errors.rating == [] then
      Ok(ValidFeedback(form.title.value, form.description.value, ParseCategory(form.category.value).value,
                       ToNumber(form.rating).value))
    else Err(errors)
  }

  /** The value the form's hidden rating input holds for a star count, `${rating || 0}`. */
  function HiddenRating(stars: nat): FormField {
    Some(Text.Decimal(stars))
  }

  /** Number() reads a star count of 0..5 back from the hidden input unchanged. */
  lemma {:induction false} HiddenRatingRoundTrip(stars: nat)
    requires stars <= 5
    ensures ToNumber(HiddenRating(stars)) == Num(stars as real)
  {
    var s := Text.Decimal(stars);
    assert s == [Text.DigitChar(stars)];
    assert !Text.IsJsSpace(s[0]);
    assert Text.Trim(s) == s;
    assert DotIndex(s) == 1;
    assert s[..1] == s;
    assert DigitsValue(s) == stars;
  }

  /**
   * As written, a form sent without choosing a star is always refused: the
   * hidden input holds "0", and Number("0") is below the minimum of 1.
   */
  lemma NoStarIsRefused(title: FormField, description: FormField, category: FormField)
    ensures var r := Validate(FeedbackForm(title, description, category, HiddenRating(0)));
            r.Err? && r.error.rating == [TooSmall]
  {
    HiddenRatingRoundTrip(0);
  }

  /** Any star from 1 to 5 passes the rating rule, with that star count as the rating. */
  lemma ChosenStarPasses(stars: nat)
    requires 1 <= stars <= 5
    ensures RatingIssues(HiddenRating(stars)) == []
  {
    HiddenRatingRoundTrip(stars);
  }

  const NotSignedIn := "You must be logged in to submit feedback."
  const FixErrors := "Please fix the errors below."
  const Submitted := "Feedback submitted successfully!"
  const StoreFailed := "Failed to submit feedback. Please try again."

  /** The state the action returns to the form. */
  datatype FeedbackState = FeedbackState(errors: Option<FieldErrors>, message: string, success: bool)

  datatype FeedbackRow = FeedbackRow(
    title: string,
    description: string,
    category: Category,
    rating: real,
    sentiment: string,
    userId: string)

  const PendingSentiment := "Pending"

  /** Whether the session has a user: `!userId` treats an absent and an empty id alike. */
  predicate SignedIn(userId: Option<string>) {
    userId.Some? && userId.value != ""
  }

  /** The row createFeedback inserts for a signed-in caller and a valid form. */
  function RowFor(userId: string, v: ValidFeedback): FeedbackRow {
    FeedbackRow(v.title, v.description, v.category, v.rating, PendingSentiment, userId)
  }

  /**
   * The reply of createFeedback; `insertFails` is whether the database
   * insert throws. Success holds exactly when the caller is signed in, the
   * form is valid and the insert went through.
   */
  function Reply(userId: Option<string>, form: FeedbackForm, insertFails: bool): (r: FeedbackState)
    ensures !SignedIn(userId) ==> r == FeedbackState(None, NotSignedIn, false)
    ensures SignedIn(userId) && Validate(form).Err? ==> r == FeedbackState(Some(Validate(form).error), FixErrors, false)
    ensures r.success <==> SignedIn(userId) && Validate(form).Ok? && !insertFails
    ensures r.success ==> r == FeedbackState(None, Submitted, true)
    ensures SignedIn(userId) && Validate(form).Ok? && insertFails ==> r == FeedbackState(None, StoreFailed, false)
  {
    if !SignedIn(userId) then FeedbackState(None, NotSignedIn, false)
    else
      match Validate(form)
      case Err(errors) => FeedbackState(Some(errors), FixErrors, false)
      case Ok(_) => if insertFails then FeedbackState(None, StoreFailed, false) else FeedbackState(None, Submitted, true)
  }

  /** The feedback table. */
  class FeedbackTable {
    var rows: seq<FeedbackRow>

    /** Every stored row is pending, belongs to a signed-in user and passed validation's bounds. */
    ghost predicate Valid()
      reads this
    {
      forall k :: 0 <= k < |rows| ==>
        rows[k].sentiment == PendingSentiment && rows[k].userId != "" && 1.0 <= rows[k].rating <= 5.0
    }

    constructor ()
      ensures Valid() && rows == []
    {
      rows := [];
    }

    /**
     * createFeedback: at most one row is inserted, and only when the reply
     * reports success; that row holds the validated fields, sentiment
     * "Pending" and the caller's id.
     */
    method CreateFeedback(userId: Option<string>, form: FeedbackForm, insertFails: bool) returns (r: FeedbackState)
      requires Valid()
      modifies this
      ensures Valid()
      ensures r == Reply(userId, form, insertFails)
      ensures r.success ==> rows == old(rows) + [RowFor(userId.value, Validate(form).value)]
      ensures !r.success ==> rows == old(rows)
    {
      if userId.None? || userId.value == "" {
        return FeedbackState(None, NotSignedIn, false);
      }
      var validated := Validate(form);
      if validated.Err? {
        return FeedbackState(Some(validated.error), FixErrors, false);
      }
      if insertFails {
        return FeedbackState(None, StoreFailed, false);
      }
      rows := rows + [RowFor(userId.value, validated.value)];
      r := FeedbackState(None, Submitted, true);
    }
  }
}
