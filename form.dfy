/**
  The feedback form controller of `App`: a draft of seven string fields, a
  map of per-field error messages, the list of submitted entries (newest
  first) and a success message, with one operation per event handler.
 */
module Form {
  import opened Wrappers
  import opened JsString
  import opened JsNumber

  /** The `name` attribute of each input of the form. */
  datatype Field = FullName | Email | Batch | Course | Instructor | Rating | Feedback

  /** The `form` state: the raw value of every input. */
  datatype Draft = Draft(fullName: string, email: string, batch: string, course: string,
                         instructor: string, rating: string, feedback: string)
  {
    /** `form[name]` */
    function Get(f: Field): string {
      match f
      case FullName => fullName
      case Email => email
      case Batch => batch
      case Course => course
      case Instructor => instructor
      case Rating => rating
      case Feedback => feedback
    }

    /** `{ ...form, [name]: value }`: only field `f` changes. */
    function Set(f: Field, v: string): (d: Draft)
      ensures d.Get(f) == v
      ensures forall g :: g != f ==> d.Get(g) == Get(g)
    {
      match f
      case FullName => this.(fullName := v)
      case Email => this.(email := v)
      case Batch => this.(batch := v)
      case Course => this.(course := v)
      case Instructor => this.(instructor := v)
      case Rating => this.(rating := v)
      case Feedback => this.(feedback := v)
    }
  }

  /** The initial draft, also restored by a successful submit and by Reset. */
  const EmptyDraft := Draft("", "", "", "", "", "", "")

  /** The six course names offered by the course select. */
  const Courses: seq<string> := ["Data Structures", "Operating Systems", "Database Systems",
                                 "Software Engineering", "Computer Networks", "Discrete Mathematics"]

  /** The course select offers six distinct courses. */
  lemma CoursesOffered()
    ensures |Courses| == 6
    ensures forall i, j :: 0 <= i < j < |Courses| ==> Courses[i] != Courses[j]
  {
  }

  /** The values of the five rating radio buttons, `String(r)` for r in 1..5. */
  const RatingOptions: seq<string> := ["1", "2", "3", "4", "5"]

  const SuccessMessage := "Feedback submitted successfully!"

  /** A submitted entry. `rating` is `Number(form.rating)`, `None` for NaN. */
  datatype Entry = Entry(id: string, fullName: string, email: string, batch: string, course: string,
                         instructor: string, rating: Option<int>, feedback: string)

  /** The decimal spellings of the years 2020 to 2025. */
  lemma YearLabels()
    ensures StringOfNat(2020) == "2020" && StringOfNat(2021) == "2021" && StringOfNat(2022) == "2022"
    ensures StringOfNat(2023) == "2023" && StringOfNat(2024) == "2024" && StringOfNat(2025) == "2025"
  {
    // Not needed for soundness: naming the shared prefix cuts the solver's work to about a fifth.
    assert StringOfNat(202) == "202";
  }

  /** The `batches` memo: the year labels "2020" to "2025", built by a loop. */
  method Batches() returns (years: seq<string>)
    ensures years == ["2020", "2021", "2022", "2023", "2024", "2025"]
    ensures forall i :: 0 <= i < |years| ==> NumberOfString(years[i]) == Some(2020 + i)
  {
    years := [];
    for y := 2020 to 2026
      invariant |years| == y - 2020
      invariant forall i :: 0 <= i < |years| ==> years[i] == StringOfNat(2020 + i)
    {
      years := years + [StringOfNat(y)];
    }
    YearLabels();
    forall i | 0 <= i < |years| ensures NumberOfString(years[i]) == Some(2020 + i) {
      NumberOfStringOfNat(2020 + i);
    }
  }

  /** The message `validate` stores for a missing required field. */
  function ErrorMessage(f: Field): string
    requires f != FullName
  {
    match f
    case Email => "Email is required"
    case Batch => "Batch is required"
    case Course => "Course is required"
    case Instructor => "Instructor is required"
    case Rating => "Rating is required"
    case Feedback => "Feedback is required"
  }

  const AllFields: set<Field> := {FullName, Email, Batch, Course, Instructor, Rating, Feedback}

  /** The test `validate` applies to one field: `!form[f].trim()` for the
      text fields, `!form[f]` for the two selects and the rating. */
  predicate Missing(d: Draft, f: Field) {
    match f
    case FullName => false
    case Email => Trim(d.email) == ""
    case Batch => d.batch == ""
    case Course => d.course == ""
    case Instructor => Trim(d.instructor) == ""
    case Rating => d.rating == ""
    case Feedback => Trim(d.feedback) == ""
  }

  /** `validate()`: the text fields email, instructor and feedback are
      required after trimming; batch, course and rating must not be the empty
      string, whatever else they hold; the full name is never checked. */
  function Validate(d: Draft): (errs: map<Field, string>)
    ensures FullName !in errs
    ensures Email in errs <==> AllWhitespace(d.email)
    ensures Instructor in errs <==> AllWhitespace(d.instructor)
    ensures Feedback in errs <==> AllWhitespace(d.feedback)
    ensures Batch in errs <==> d.batch == ""
    ensures Course in errs <==> d.course == ""
    ensures Rating in errs <==> d.rating == ""
  {
    TrimEmptyIff(d.email);
    TrimEmptyIff(d.instructor);
    TrimEmptyIff(d.feedback);
    map f | f in AllFields && Missing(d, f) :: ErrorMessage(f)
  }

  /** Each reported field carries its own message. */
  lemma ValidateMessages(d: Draft)
    ensures forall f :: f in Validate(d) ==> f != FullName && Validate(d)[f] == ErrorMessage(f)
  {
  }

  /** The required-field constraints a draft must meet to be submitted. */
  predicate Complete(d: Draft) {
    && !AllWhitespace(d.email) && !AllWhitespace(d.instructor) && !AllWhitespace(d.feedback)
    && d.batch != "" && d.course != "" && d.rating != ""
  }

  /** `validate` reports no error exactly on complete drafts. */
  lemma ValidateEmptyIff(d: Draft)
    ensures Validate(d) == map[] <==> Complete(d)
  {
    if !Complete(d) {
      assert Validate(d) != map[] by {
        if AllWhitespace(d.email) { assert Email in Validate(d); }
        else if AllWhitespace(d.instructor) { assert Instructor in Validate(d); }
        else if AllWhitespace(d.feedback) { assert Feedback in Validate(d); }
        else if d.batch == "" { assert Batch in Validate(d); }
        else if d.course == "" { assert Course in Validate(d); }
        else { assert Rating in Validate(d); }
      }
    } else {
      assert Validate(d).Keys == {};
    }
  }

  /** `validate` only asks for a non-empty batch, course and rating: values
      outside the offered years, courses and radio values pass as well. */
  lemma ValidateAcceptsUnlistedChoices(d: Draft)
    requires d == Draft("", "a@b.com", "1999", "Astrology", "Dr. Z", "9", "Fine")
    ensures Validate(d) == map[]
    ensures d.batch !in ["2020", "2021", "2022", "2023", "2024", "2025"]
    ensures d.course !in Courses && d.rating !in RatingOptions
  {
    assert d.batch !in ["2020", "2021", "2022", "2023", "2024", "2025"];
    assert d.course !in Courses && d.rating !in RatingOptions;
    assert Validate(d) == map[] by {
      assert Complete(d) by {
        assert !IsWhitespace(d.email[0]) && !IsWhitespace(d.instructor[0]) && !IsWhitespace(d.feedback[0]);
      }
      ValidateEmptyIff(d);
    }
  }

  /** The entry object built by `handleSubmit` from a draft and a fresh id. */
  function MakeEntry(id: string, d: Draft): (e: Entry)
    ensures e.id == id && e.batch == d.batch && e.course == d.course
    ensures e.fullName != "" && Unpadded(e.fullName)
  {
    var name := Trim(d.fullName);
    Entry(id, if name != "" then name else "Anonymous", Trim(d.email), d.batch, d.course,
          Trim(d.instructor), NumberOfString(d.rating), Trim(d.feedback))
  }

  /** What every stored entry satisfies: a non-empty name and non-empty
      trimmed email, instructor and feedback, and a non-empty batch and course. */
  predicate EntryValid(e: Entry) {
    && e.fullName != "" && Unpadded(e.fullName)
    && e.email != "" && Unpadded(e.email)
    && e.instructor != "" && Unpadded(e.instructor)
    && e.feedback != "" && Unpadded(e.feedback)
    && e.batch != "" && e.course != ""
  }

  /** The name falls back to "Anonymous" exactly when the typed name is blank;
      otherwise it is the typed name without surrounding white space. */
  lemma EntryName(id: string, d: Draft)
    ensures AllWhitespace(d.fullName) ==> MakeEntry(id, d).fullName == "Anonymous"
    ensures !AllWhitespace(d.fullName) ==> MakeEntry(id, d).fullName == Trim(d.fullName) != ""
  {
    TrimEmptyIff(d.fullName);
  }

  /** The entry keeps the id, copies batch and course verbatim, and its text
      fields are the typed values trimmed: trimming them again changes nothing. */
  lemma EntryFields(id: string, d: Draft)
    ensures MakeEntry(id, d).id == id
    ensures MakeEntry(id, d).batch == d.batch && MakeEntry(id, d).course == d.course
    ensures Trim(MakeEntry(id, d).email) == MakeEntry(id, d).email == Trim(d.email)
    ensures Trim(MakeEntry(id, d).instructor) == MakeEntry(id, d).instructor == Trim(d.instructor)
    ensures Trim(MakeEntry(id, d).feedback) == MakeEntry(id, d).feedback == Trim(d.feedback)
  {
    TrimIdempotent(d.email);
    TrimIdempotent(d.instructor);
    TrimIdempotent(d.feedback);
  }

  /** A selected rating radio value is stored as the number it spells. */
  lemma EntryRating(id: string, d: Draft, k: nat)
    requires 1 <= k <= 5 && d.rating == RatingOptions[k - 1]
    ensures MakeEntry(id, d).rating == Some(k)
  {
    assert d.rating == StringOfNat(k);
    NumberOfStringOfNat(k);
  }

  /** No text field of an entry starts or ends with white space. */
  lemma EntryUnpadded(id: string, d: Draft)
    ensures Unpadded(MakeEntry(id, d).fullName) && Unpadded(MakeEntry(id, d).email)
    ensures Unpadded(MakeEntry(id, d).instructor) && Unpadded(MakeEntry(id, d).feedback)
  {
  }

  /** A complete draft yields non-empty required text fields. */
  lemma CompleteEntryNonEmpty(id: string, d: Draft)
    requires Complete(d)
    ensures MakeEntry(id, d).email != "" && MakeEntry(id, d).instructor != ""
    ensures MakeEntry(id, d).feedback != ""
  {
    TrimNotBlank(d.email);
    TrimNotBlank(d.instructor);
    TrimNotBlank(d.feedback);
  }

  /** An entry built from a draft that passed `validate` satisfies EntryValid. */
  lemma ValidDraftGivesValidEntry(id: string, d: Draft)
    requires Validate(d) == map[]
    ensures EntryValid(MakeEntry(id, d))
  {
    ValidateEmptyIff(d);
    EntryUnpadded(id, d);
    CompleteEntryNonEmpty(id, d);
  }

  /** The ids of the stored entries are pairwise distinct. */
  predicate DistinctIds(list: seq<Entry>) {
    forall i, j :: 0 <= i < j < |list| ==> list[i].id != list[j].id
  }

  /** The invariant of the list of submitted entries. */
  predicate ValidList(list: seq<Entry>) {
    (forall i :: 0 <= i < |list| ==> EntryValid(list[i])) && DistinctIds(list)
  }

  /** Prepending a valid entry with a fresh id keeps the list valid. */
  lemma PrependValid(e: Entry, list: seq<Entry>)
    requires ValidList(list) && EntryValid(e)
    requires forall i :: 0 <= i < |list| ==> list[i].id != e.id
    ensures ValidList([e] + list)
  {
    var l := [e] + list;
    forall i, j | 0 <= i < j < |l| ensures l[i].id != l[j].id {
      assert l[j] == list[j - 1];
      if i > 0 { assert l[i] == list[i - 1]; }
    }
  }

  /** The state of `App`, updated in place by its event handlers. */
  class FeedbackForm {
    var form: Draft
    var errors: map<Field, string>
    var feedbacks: seq<Entry>
    var success: string

    /** Every stored error is the canonical (non-empty) message of its field,
        every stored entry passed validation, and ids are unique. */
    ghost predicate Valid()
      reads this
    {
      && (forall f :: f in errors ==> f != FullName && errors[f] == ErrorMessage(f))
      && ValidList(feedbacks)
    }

    /** The initial `useState` values. */
    constructor ()
      ensures Valid()
      ensures form == EmptyDraft && errors == map[] && feedbacks == [] && success == ""
    {
      form := EmptyDraft;
      errors := map[];
      feedbacks := [];
      success := "";
    }

    /** `handleChange`: set one field; clear that field's error if one is shown. */
    method HandleChange(name: Field, value: string)
      requires Valid()
      modifies this
      ensures Valid()
      ensures form == old(form).Set(name, value)
      ensures errors == old(errors) - {name}
      ensures feedbacks == old(feedbacks) && success == old(success)
    {
      form := form.Set(name, value);
      if name in errors && errors[name] != "" {
        errors := errors - {name};
      }
    }

    /** `handleSubmit`: on a failed validation store its errors and clear the
        success message; otherwise prepend the entry built with the fresh `id`,
        clear the draft and the errors and announce success. */
    method HandleSubmit(id: string)
      requires Valid()
      requires forall i :: 0 <= i < |feedbacks| ==> feedbacks[i].id != id
      modifies this
      ensures Valid()
      ensures Validate(old(form)) != map[] ==>
        && errors == Validate(old(form)) && success == ""
        && form == old(form) && feedbacks == old(feedbacks)
      ensures Validate(old(form)) == map[] ==>
        && feedbacks == [MakeEntry(id, old(form))] + old(feedbacks)
        && form == EmptyDraft && errors == map[] && success == SuccessMessage
    {
      var newErr := Validate(form);
      if newErr != map[] {
        ValidateMessages(form);
        errors := newErr;
        success := "";
        return;
      }
      var entry := MakeEntry(id, form);
      ValidDraftGivesValidEntry(id, form);
      PrependValid(entry, feedbacks);
      feedbacks := [entry] + feedbacks;
      success := SuccessMessage;
      form := EmptyDraft;
      errors := map[];
    }

    /** The Reset button: clear draft, errors and success; keep the list. */
    method Reset()
      requires Valid()
      modifies this
      ensures Valid()
      ensures form == EmptyDraft && errors == map[] && success == ""
      ensures feedbacks == old(feedbacks)
    {
      form := EmptyDraft;
      errors := map[];
      success := "";
    }

    /** The deferred `setSuccess("")` of a successful submit, without its timer. */
    method ClearSuccess()
      requires Valid()
      modifies this
      ensures Valid()
      ensures success == ""
      ensures form == old(form) && errors == old(errors) && feedbacks == old(feedbacks)
    {
      success := "";
    }
  }

  /** The draft of the missing-email scenario fails on the email alone. */
  lemma MissingEmailDraft(d: Draft)
    requires d == Draft("", "", "2024", "Database Systems", "Dr. X", "4", "Great")
    ensures Validate(d) == map[Email := "Email is required"]
  {
    assert !IsWhitespace(d.instructor[0]) && !IsWhitespace(d.feedback[0]);
    ValidateMessages(d);
    assert Validate(d).Keys == {Email};
  }

  /** A draft with a blank email: the submit reports only the email and stores nothing. */
  method MissingEmailScenario() returns (errs: map<Field, string>, stored: nat)
    ensures errs == map[Email := "Email is required"]
    ensures stored == 0
  {
    var app := new FeedbackForm();
    app.HandleChange(Batch, "2024");
    app.HandleChange(Course, "Database Systems");
    app.HandleChange(Instructor, "Dr. X");
    app.HandleChange(Rating, "4");
    app.HandleChange(Feedback, "Great");
    MissingEmailDraft(app.form);
    app.HandleSubmit("id-1");
    errs := app.errors;
    stored := |app.feedbacks|;
  }

  /** The draft of the anonymous scenario passes validation and gives the expected entry. */
  lemma AnonymousDraft(d: Draft)
    requires d == Draft("", "a@b.com", "2023", "Computer Networks", "Dr. Y", "5", "Good course")
    ensures Validate(d) == map[]
    ensures MakeEntry("id-1", d) == Entry("id-1", "Anonymous", "a@b.com", "2023", "Computer Networks",
                                          "Dr. Y", Some(5), "Good course")
  {
    TrimUnpadded(d.email);
    TrimUnpadded(d.instructor);
    TrimUnpadded(d.feedback);
    assert Trim("") == "";
    EntryRating("id-1", d, 5);
    ValidateEmptyIff(d);
  }

  /** A complete draft with a blank name: the entry is stored as "Anonymous"
      with rating 5, and the draft and errors are cleared. */
  method AnonymousSubmissionScenario() returns (entries: seq<Entry>, errs: map<Field, string>, draft: Draft)
    ensures entries == [Entry("id-1", "Anonymous", "a@b.com", "2023", "Computer Networks",
                              "Dr. Y", Some(5), "Good course")]
    ensures errs == map[] && draft == EmptyDraft
  {
    var app := new FeedbackForm();
    app.HandleChange(Email, "a@b.com");
    app.HandleChange(Batch, "2023");
    app.HandleChange(Course, "Computer Networks");
    app.HandleChange(Instructor, "Dr. Y");
    app.HandleChange(Rating, "5");
    app.HandleChange(Feedback, "Good course");
    AnonymousDraft(app.form);
    app.HandleSubmit("id-1");
    entries := app.feedbacks;
    errs := app.errors;
    draft := app.form;
  }
}
