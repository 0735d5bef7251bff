/**
 * The quiz configuration form: a question count and three filter dropdowns
 * (category, type, difficulty), whose values are handed to the quiz page when
 * the form is submitted.
 */
module QuizForm {
  import opened Wrappers
  import opened JsNumbers

  const DefaultQuestionNumber: int := 5
  const MinQuestions: int := 1
  const MaxQuestions: int := 50

  /** The filter selections. `type` is a reserved word in Dafny, hence `questionType`. */
  datatype Options = Options(category: string, questionType: string, difficulty: string)

  /** No filter: any category, any type, any difficulty. */
  const DefaultOptions := Options("0", "any", "any")

  /** The dropdown a change comes from, as the handler's TARGET argument. */
  type Target = t: int | 0 <= t < 3

  /** The option key each dropdown writes. */
  const OptionKeys: seq<string> := ["category", "type", "difficulty"]

  /** The value stored under `key`, as a property read on the options object. */
  function OptionValue(o: Options, key: string): Option<string>
  {
    if key == "category" then Some(o.category)
    else if key == "type" then Some(o.questionType)
    else if key == "difficulty" then Some(o.difficulty)
    else None
  }

  /** `{ ...o, [key]: value }` for one of the three option keys. */
  function WithOption(o: Options, key: string, value: string): (r: Options)
    requires key in OptionKeys
    ensures OptionValue(r, key) == Some(value)
    ensures forall k :: k != key ==> OptionValue(r, k) == OptionValue(o, k)
  {
    if key == "category" then o.(category := value)
    else if key == "type" then o.(questionType := value)
    else o.(difficulty := value)
  }

  /** What the form holds. */
  datatype FormState = FormState(questionNumber: int, options: Options)

  const InitialForm := FormState(DefaultQuestionNumber, DefaultOptions)

  predicate CountInRange(v: int) {
    MinQuestions <= v <= MaxQuestions
  }

  /** The form invariant: the stored count is always an admissible one. */
  predicate FormInvariant(f: FormState) {
    CountInRange(f.questionNumber)
  }

  /**
   * The count after typing `input` over `current`: the parsed value when it is
   * a number in [1, 50], otherwise `current` (the edit is discarded).
   */
  function CountAfterEdit(current: int, input: string): (r: int)
    ensures ParseInt(input).Some? && CountInRange(ParseInt(input).value) ==> r == ParseInt(input).value
    ensures ParseInt(input).None? || !CountInRange(ParseInt(input).value) ==> r == current
    ensures CountInRange(current) ==> CountInRange(r)
  {
    var value := ParseInt(input);
    if value.None? || value.value < MinQuestions || value.value > MaxQuestions then current
    else value.value
  }

  /** One user edit on the form. */
  datatype FormEdit = CountInput(text: string) | DropDown(target: Target, value: string)

  function ApplyEdit(f: FormState, e: FormEdit): (g: FormState)
    ensures e.CountInput? ==> g.options == f.options && g.questionNumber == CountAfterEdit(f.questionNumber, e.text)
    ensures e.DropDown? ==> g.questionNumber == f.questionNumber
    ensures e.DropDown? ==> OptionValue(g.options, OptionKeys[e.target]) == Some(e.value)
    ensures e.DropDown? ==> forall k :: k != OptionKeys[e.target] ==> OptionValue(g.options, k) == OptionValue(f.options, k)
    ensures FormInvariant(f) ==> FormInvariant(g)
  {
    match e
    case CountInput(text) => f.(questionNumber := CountAfterEdit(f.questionNumber, text))
    case DropDown(target, value) => f.(options := WithOption(f.options, OptionKeys[target], value))
  }

  function ApplyEdits(f: FormState, edits: seq<FormEdit>): FormState
    decreases |edits|
  {
    if edits == [] then f else ApplyEdits(ApplyEdit(f, edits[0]), edits[1..])
  }

  /** Whatever the user types and picks, the count stays in [1, 50]. */
  lemma {:induction false} EditsKeepCountInRange(edits: seq<FormEdit>)
    ensures CountInRange(ApplyEdits(InitialForm, edits).questionNumber)
  {
    EditsPreserveInvariant(InitialForm, edits);
  }

  lemma {:induction false} EditsPreserveInvariant(f: FormState, edits: seq<FormEdit>)
    requires FormInvariant(f)
    ensures FormInvariant(ApplyEdits(f, edits))
    decreases |edits|
  {
    if edits != [] {
      EditsPreserveInvariant(ApplyEdit(f, edits[0]), edits[1..]);
    }
  }

  /** Count edits alone never change the options. */
  lemma {:induction false} CountEditsKeepOptions(f: FormState, edits: seq<FormEdit>)
    requires forall i :: 0 <= i < |edits| ==> edits[i].CountInput?
    ensures ApplyEdits(f, edits).options == f.options
    decreases |edits|
  {
    if edits != [] {
      CountEditsKeepOptions(ApplyEdit(f, edits[0]), edits[1..]);
    }
  }

  /** The query handed to the quiz page: `{ questionNumber, ...options }`. */
  datatype FormQuery = FormQuery(questionNumber: int, category: string, questionType: string, difficulty: string)

  /** The form component: its two pieces of state and its three handlers. */
  class ConfigurationForm {
    var questionNumber: int
    var options: Options

    function State(): FormState
      reads this
    {
      FormState(questionNumber, options)
    }

    ghost predicate Valid()
      reads this
    {
      FormInvariant(State())
    }

    constructor ()
      ensures questionNumber == 5
      ensures options.category == "0" && options.questionType == "any" && options.difficulty == "any"
      ensures State() == InitialForm && Valid()
    {
      questionNumber := DefaultQuestionNumber;
      options := DefaultOptions;
    }

    /** handleQuestionsNumberChange: `kept` is false when the edit is discarded. */
    method ChangeQuestionNumber(input: string) returns (kept: bool)
      requires Valid()
      modifies this
      ensures Valid()
      ensures kept <==> ParseInt(input).Some? && CountInRange(ParseInt(input).value)
      ensures kept ==> questionNumber == ParseInt(input).value
      ensures !kept ==> questionNumber == old(questionNumber)
      ensures options == old(options)
      ensures State() == ApplyEdit(old(State()), CountInput(input))
    {
      var value := ParseInt(input);
      if value.None? || value.value < MinQuestions || value.value > MaxQuestions {
        return false;
      }
      questionNumber := value.value;
      kept := true;
    }

    /** handleDropDownChange: the dropdown `target` now shows `value`. */
    method ChangeDropDown(target: Target, value: string)
      requires Valid()
      modifies this
      ensures Valid()
      ensures target == 0 ==> options == old(options).(category := value)
      ensures target == 1 ==> options == old(options).(questionType := value)
      ensures target == 2 ==> options == old(options).(difficulty := value)
      ensures questionNumber == old(questionNumber)
      ensures State() == ApplyEdit(old(State()), DropDown(target, value))
    {
      var key := OptionKeys[target];
      options := WithOption(options, key, value);
    }

    /** handleSubmitEvent: the query pushed to the quiz page. */
    method Submit() returns (q: FormQuery)
      requires Valid()
      ensures q.questionNumber == questionNumber && CountInRange(q.questionNumber)
      ensures q.category == options.category
      ensures q.questionType == options.questionType
      ensures q.difficulty == options.difficulty
    {
      q := FormQuery(questionNumber, options.category, options.questionType, options.difficulty);
    }
  }
}
