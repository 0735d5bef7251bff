/**
 * Entry into the quiz page: the query the form pushes arrives as URL
 * parameters; without a category the visitor is sent back home, otherwise the
 * parameters become the question-bank request, with the "no filter" sentinels
 * dropped.
 */
module QuizEntry {
  import opened Wrappers
  import opened JsNumbers
  import QuizForm

  /** The URL query the page receives; `None` is an absent parameter. */
  datatype UrlQuery = UrlQuery(questionNumber: Option<string>, category: Option<string>, questionType: Option<string>, difficulty: Option<string>)

  /** The question-bank request parameters; `None` is a parameter left out of the request (null or undefined). */
  datatype RequestParams = RequestParams(amount: Option<string>, category: Option<string>, questionType: Option<string>, difficulty: Option<string>)

  datatype EntryOutcome = Redirect(destination: string, permanent: bool) | Fetch(params: RequestParams)

  const Home := "/"
  const AnyCategory := "0"
  const AnyValue := "any"

  /** `v !== sentinel ? v : null`. */
  function Filter(v: Option<string>, sentinel: string): (p: Option<string>)
    ensures p.None? <==> v.None? || v == Some(sentinel)
    ensures p.Some? ==> p == v
  {
    if v == Some(sentinel) then None else v
  }

  /** The request parameters built from the query. */
  function RequestFor(q: UrlQuery): (p: RequestParams)
    ensures p.amount == q.questionNumber
    ensures p.category.None? <==> q.category.None? || q.category == Some(AnyCategory)
    ensures p.questionType.None? <==> q.questionType.None? || q.questionType == Some(AnyValue)
    ensures p.difficulty.None? <==> q.difficulty.None? || q.difficulty == Some(AnyValue)
    ensures p.category.Some? ==> p.category == q.category
    ensures p.questionType.Some? ==> p.questionType == q.questionType
    ensures p.difficulty.Some? ==> p.difficulty == q.difficulty
  {
    RequestParams(q.questionNumber, Filter(q.category, AnyCategory), Filter(q.questionType, AnyValue), Filter(q.difficulty, AnyValue))
  }

  /** getServerSideProps up to the fetch: redirect home, or the request to send. */
  function Entry(q: UrlQuery): (r: EntryOutcome)
    ensures r.Redirect? <==> q.category.None? || q.category == Some("")
    ensures r.Redirect? ==> r.destination == Home && !r.permanent
    ensures r.Fetch? ==> r.params == RequestFor(q) && r.params.amount == q.questionNumber
    ensures r.Fetch? ==> (r.params.category.None? <==> q.category == Some(AnyCategory))
  {
    // `Boolean(category)` is false exactly for an absent parameter and the empty string
    if q.category.None? || q.category.value == "" then Redirect(Home, false) else Fetch(RequestFor(q))
  }

  /** The form's query as the quiz page receives it: every value as its text. */
  function NavigationQuery(f: QuizForm.FormQuery): (q: UrlQuery)
    ensures q.questionNumber.Some? && ParseInt(q.questionNumber.value) == Some(f.questionNumber)
    ensures q.category == Some(f.category)
    ensures q.questionType == Some(f.questionType)
    ensures q.difficulty == Some(f.difficulty)
  {
    ParseIntToString(f.questionNumber);
    UrlQuery(Some(IntToString(f.questionNumber)), Some(f.category), Some(f.questionType), Some(f.difficulty))
  }

  /**
   * A submitted form with a category always reaches the fetch, and the amount
   * requested reads back as the form's count.
   */
  lemma SubmittedFormFetches(f: QuizForm.FormQuery)
    requires f.category != ""
    ensures Entry(NavigationQuery(f)).Fetch?
    ensures ParseInt(Entry(NavigationQuery(f)).params.amount.value) == Some(f.questionNumber)
  {
  }

  /** The untouched form asks for five questions with no filter at all. */
  lemma DefaultFormRequest()
    ensures Entry(NavigationQuery(QuizForm.FormQuery(5, "0", "any", "any")))
         == Fetch(RequestParams(Some("5"), None, None, None))
  {
    assert NatToString(5) == "5";
  }
}
