/**
  The `FeedbackList` component: a pure rendering of the submitted entries
  into rows, each with a five-position star indicator, or a placeholder when
  there is nothing to show. Markup and styling are abstracted into values.
 */
module FeedbackList {
  import opened Wrappers
  import opened JsNumber
  import opened Form

  const PlaceholderText := "No feedback yet. Be the first to share your thoughts!"
  const AnonymousName := "Anonymous"

  /** Distance between two integers. */
  function Dist(a: int, b: int): nat {
    if a <= b then b - a else a - b
  }

  /** The `v` of `Stars`: `Math.max(0, Math.min(5, Number(value) || 0))`.
      NaN and a missing rating count as 0; the result is the point of [0, 5]
      nearest to the rating. */
  function StarValue(value: Option<int>): (v: int)
    ensures 0 <= v <= 5
    ensures value.None? ==> v == 0
    ensures forall k :: 0 <= k <= 5 ==> Dist(value.GetOr(0), v) <= Dist(value.GetOr(0), k)
  {
    var n := value.GetOr(0);
    if n < 0 then 0 else if n > 5 then 5 else n
  }

  /** The number of filled positions. */
  function CountFilled(marks: seq<bool>): nat {
    if marks == [] then 0 else (if marks[0] then 1 else 0) + CountFilled(marks[1..])
  }

  /** A sequence whose filled positions are exactly those below `v` has `v` of them. */
  lemma {:induction false} CountFilledPrefix(marks: seq<bool>, v: int)
    requires 0 <= v <= |marks|
    requires forall i :: 0 <= i < |marks| ==> (marks[i] <==> i < v)
    ensures CountFilled(marks) == v
  {
    if marks != [] {
      var w := if v > 0 then v - 1 else 0;
      forall i | 0 <= i < |marks| - 1 ensures marks[1..][i] <==> i < w {
        assert marks[1..][i] == marks[i + 1];
      }
      CountFilledPrefix(marks[1..], w);
    }
  }

  /** `Stars`: five positions, left to right, the first StarValue of them
      filled; the filled ones form a prefix and there are StarValue of them. */
  function Stars(value: Option<int>): (marks: seq<bool>)
    ensures |marks| == 5
    ensures forall i :: 0 <= i < 5 ==> (marks[i] <==> i < StarValue(value))
    ensures forall i, j :: 0 <= i <= j < 5 && marks[j] ==> marks[i]
    ensures CountFilled(marks) == StarValue(value)
  {
    var v := StarValue(value);
    var marks := seq(5, i => i < v);
    CountFilledPrefix(marks, v);
    marks
  }

  /** One `<li>` of the list, without markup. */
  datatype Row = Row(key: string, name: string, stars: seq<bool>, email: string, batch: string,
                     course: string, instructor: string, text: string)

  /** What the list renders: the placeholder, or the rows in order. */
  datatype View = Placeholder(message: string) | Rows(rows: seq<Row>)

  /** The row of one entry: the name falls back to "Anonymous" when empty;
      the other texts are shown unchanged. */
  function RenderRow(fb: Entry): (row: Row)
    ensures row.key == fb.id && row.stars == Stars(fb.rating)
    ensures row.name != ""
    ensures fb.fullName != "" ==> row.name == fb.fullName
    ensures fb.fullName == "" ==> row.name == AnonymousName
    ensures row.email == fb.email && row.batch == fb.batch && row.course == fb.course
    ensures row.instructor == fb.instructor && row.text == fb.feedback
  {
    Row(fb.id, if fb.fullName != "" then fb.fullName else AnonymousName, Stars(fb.rating),
        fb.email, fb.batch, fb.course, fb.instructor, fb.feedback)
  }

  /** `items.map(...)`: one row per entry, in the same order. */
  function RenderRows(items: seq<Entry>): (rows: seq<Row>)
    ensures |rows| == |items|
    ensures forall i :: 0 <= i < |items| ==> rows[i] == RenderRow(items[i])
  {
    if items == [] then [] else [RenderRow(items[0])] + RenderRows(items[1..])
  }

  /** `FeedbackList({ items })` */
  function Render(items: seq<Entry>): (view: View)
    ensures view.Placeholder? <==> items == []
    ensures view.Placeholder? ==> view.message == PlaceholderText
    ensures view.Rows? ==> |view.rows| == |items|
    ensures view.Rows? ==> forall i :: 0 <= i < |items| ==> view.rows[i] == RenderRow(items[i])
  {
    if |items| == 0 then Placeholder(PlaceholderText) else Rows(RenderRows(items))
  }

  /** The rows of two lists are the rows of each, one after the other; in
      particular a newly prepended entry becomes the first row. */
  lemma {:induction false} RenderRowsAppend(a: seq<Entry>, b: seq<Entry>)
    ensures RenderRows(a + b) == RenderRows(a) + RenderRows(b)
  {
    if a != [] {
      assert (a + b)[1..] == a[1..] + b;
      RenderRowsAppend(a[1..], b);
    }
  }

  /** Entries stored by the form never trigger the name fallback: each row
      shows the stored name, which is itself "Anonymous" for a blank name. */
  lemma StoredNamesShown(items: seq<Entry>)
    requires ValidList(items)
    ensures forall i :: 0 <= i < |items| ==> RenderRows(items)[i].name == items[i].fullName
  {
  }

  /** A rating chosen with radio button `k` is shown with exactly `k` filled stars. */
  lemma RadioRatingStars(id: string, d: Draft, k: nat)
    requires 1 <= k <= 5 && d.rating == RatingOptions[k - 1]
    ensures CountFilled(RenderRow(MakeEntry(id, d)).stars) == k
  {
    EntryRating(id, d, k);
  }

  /** Stars for an unset rating, 0, 3 and the out-of-range 7. */
  lemma StarExamples()
    ensures CountFilled(Stars(None)) == 0 && CountFilled(Stars(Some(0))) == 0
    ensures Stars(Some(3)) == [true, true, true, false, false]
    ensures CountFilled(Stars(Some(7))) == 5
  {
    assert Stars(Some(3))[3] == false;
  }
}
