/**
 * The quiz rules of the server, apart from HTTP and SQL: the entities, the
 * validation of a submitted question, the construction of its four options,
 * the grading of a chosen option and the lookup of a question by id.
 */
module Quiz {
  import opened Wrappers
  import opened Strconv

  const MethodPost := "POST"

  const StatusOK := 200
  const StatusBadRequest := 400
  const StatusMethodNotAllowed := 405
  const StatusInternalServerError := 500

  /** One answer choice and whether it is the right one. */
  datatype Option = Option(text: string, isCorrect: bool)

  /** A stored quiz question; `id` is the value the table's SERIAL column assigned. */
  datatype Question = Question(id: int, title: string, options: seq<Option>, explanation: string)

  /**
   * An incoming request: its HTTP method (`verb`), the form fields that were
   * parsed (first value per key), and whether parsing the form reported an
   * error. Malformed pairs are skipped and the well-formed ones are still
   * parsed, so `fields` holds those even when `formError` is set.
   */
  datatype Request = Request(verb: string, fields: map<string, string>, formError: bool)

  /** `r.FormValue(key)`: the field's value, or "" when it is absent; parse errors are ignored. */
  function FormValue(req: Request, key: string): string {
    if key in req.fields then req.fields[key] else ""
  }

  /** The form field holding the text of option `k` (1-based): `option<k>`. */
  function OptionField(k: int): string {
    "option" + Itoa(k)
  }

  lemma OptionFieldsDistinct(j: int, k: int)
    requires j != k
    ensures OptionField(j) != OptionField(k)
  {
    if OptionField(j) == OptionField(k) {
      assert Itoa(j) == OptionField(j)[6..] == OptionField(k)[6..] == Itoa(k);
      ItoaInjective(j, k);
    }
  }

  /** The four options a submission builds: option i carries field `option<i+1>`. */
  function OptionsFor(req: Request, correctOpt: int): seq<Option> {
    seq(4, i requires 0 <= i < 4 => Option(FormValue(req, OptionField(i + 1)), i + 1 == correctOpt))
  }

  /**
   * Builds the options in place, one slot per loop round, as the handler
   * does with its four-element slice.
   */
  method BuildOptions(req: Request, correctOpt: int) returns (options: seq<Option>)
    ensures options == OptionsFor(req, correctOpt)
  {
    var slots := new Option[4];
    for i := 0 to 4
      invariant forall k :: 0 <= k < i ==> slots[k] == Option(FormValue(req, OptionField(k + 1)), k + 1 == correctOpt)
    {
      slots[i] := Option(FormValue(req, OptionField(i + 1)), i + 1 == correctOpt);
    }
    options := slots[..];
  }

  /** How many options are marked correct. */
  function CountCorrect(options: seq<Option>): (n: nat)
    ensures n <= |options|
  {
    if options == [] then 0 else (if options[0].isCorrect then 1 else 0) + CountCorrect(options[1..])
  }

  /** The shape every submitted question has: four options, exactly one correct. */
  predicate WellFormed(options: seq<Option>) {
    |options| == 4 && CountCorrect(options) == 1
  }

  lemma {:induction false} CountCorrectSingle(options: seq<Option>, k: int)
    requires 0 <= k < |options|
    requires forall i :: 0 <= i < |options| ==> (options[i].isCorrect <==> i == k)
    ensures CountCorrect(options) == 1
  {
    if k == 0 {
      CountCorrectNone(options[1..]);
    } else {
      CountCorrectSingle(options[1..], k - 1);
    }
  }

  lemma {:induction false} CountCorrectNone(options: seq<Option>)
    requires forall i :: 0 <= i < |options| ==> !options[i].isCorrect
    ensures CountCorrect(options) == 0
  {
    if options != [] {
      CountCorrectNone(options[1..]);
    }
  }

  /** With exactly one correct option, two correct positions are the same position. */
  lemma CorrectIndexUnique(options: seq<Option>, i: int, j: int)
    requires 0 <= i < |options| && 0 <= j < |options|
    ensures CountCorrect(options) == 1 && options[i].isCorrect && options[j].isCorrect ==> i == j
  {
    if i < j && options[i].isCorrect && options[j].isCorrect {
      CountCorrectAtLeastTwo(options, i, j);
    } else if j < i && options[i].isCorrect && options[j].isCorrect {
      CountCorrectAtLeastTwo(options, j, i);
    }
  }

  lemma {:induction false} CountCorrectAtLeastTwo(options: seq<Option>, i: int, j: int)
    requires 0 <= i < j < |options|
    requires options[i].isCorrect && options[j].isCorrect
    ensures CountCorrect(options) >= 2
  {
    if i == 0 {
      CountCorrectAtLeastOne(options[1..], j - 1);
    } else {
      CountCorrectAtLeastTwo(options[1..], i - 1, j - 1);
    }
  }

  lemma {:induction false} CountCorrectAtLeastOne(options: seq<Option>, i: int)
    requires 0 <= i < |options| && options[i].isCorrect
    ensures CountCorrect(options) >= 1
  {
    if i != 0 {
      CountCorrectAtLeastOne(options[1..], i - 1);
    }
  }

  /**
   * For a valid correct option the built options are four, exactly one is
   * correct and it is the one at position `correctOpt - 1`, and each text is
   * the matching form field in order.
   */
  lemma OptionsForShape(req: Request, correctOpt: int)
    requires 1 <= correctOpt <= 4
    ensures WellFormed(OptionsFor(req, correctOpt))
    ensures forall i :: 0 <= i < 4 ==> (OptionsFor(req, correctOpt)[i].isCorrect <==> i == correctOpt - 1)
    ensures forall i :: 0 <= i < 4 ==> OptionsFor(req, correctOpt)[i].text == FormValue(req, OptionField(i + 1))
  {
    CountCorrectSingle(OptionsFor(req, correctOpt), correctOpt - 1);
  }

  /** `correct_option` must parse as an integer between 1 and 4. */
  function ParseCorrectOption(s: string): (r: Maybe<int>)
    ensures r.Just? ==> 1 <= r.value <= 4 && Atoi(s) == Just(r.value)
    ensures r.Nothing? ==> Atoi(s).Nothing? || Atoi(s).value < 1 || Atoi(s).value > 4
  {
    match Atoi(s)
    case Just(c) => if 1 <= c <= 4 then Just(c) else Nothing
    case Nothing => Nothing
  }

  /** The printed numbers 1 to 4 are accepted as themselves; every other number is refused. */
  lemma CorrectOptionRange(c: int)
    requires MinInt64 <= c <= MaxInt64
    ensures ParseCorrectOption(Itoa(c)) == (if 1 <= c <= 4 then Just(c) else Nothing)
  {
    AtoiItoa(c);
  }

  /** A question as the submit handler builds it, before storage assigns its id. */
  datatype Draft = Draft(title: string, options: seq<Option>, explanation: string)

  /** Why a request was refused: the status and the message sent back. */
  datatype Rejection = Rejection(status: int, message: string)

  /**
   * The checks the submit handler makes before touching storage, in its
   * order: the method, the form body, then `correct_option`.
   */
  function ValidateSubmission(req: Request): (r: Result<Draft, Rejection>)
    ensures r.Ok? <==> req.verb == MethodPost && !req.formError
                       && ParseCorrectOption(FormValue(req, "correct_option")).Just?
    ensures r.Err? ==> r.error.status == (if req.verb != MethodPost then StatusMethodNotAllowed else StatusBadRequest)
    ensures r.Ok? ==> r.value.title == FormValue(req, "title") && r.value.explanation == FormValue(req, "explanation")
    ensures r.Ok? ==> WellFormed(r.value.options)
    ensures r.Ok? ==> forall i :: 0 <= i < 4 ==> r.value.options[i].text == FormValue(req, OptionField(i + 1))
    ensures r.Ok? ==> var c := ParseCorrectOption(FormValue(req, "correct_option")).value;
                      forall i :: 0 <= i < 4 ==> (r.value.options[i].isCorrect <==> i == c - 1)
  {
    if req.verb != MethodPost then
      Err(Rejection(StatusMethodNotAllowed, "Method not allowed"))
    else if req.formError then
      Err(Rejection(StatusBadRequest, "Failed to parse form"))
    else match ParseCorrectOption(FormValue(req, "correct_option"))
      case Nothing => Err(Rejection(StatusBadRequest, "Invalid correct option number"))
      case Just(c) =>
        OptionsForShape(req, c);
        Ok(Draft(FormValue(req, "title"), OptionsFor(req, c), FormValue(req, "explanation")))
  }

  /** What the check-answer handler reports back. */
  datatype Answer = Answer(correct: bool, explanation: string)

  /**
   * Grades the chosen option (the `option` field, 0-based): `Nothing` when it
   * is not an integer index into the options, otherwise whether that option
   * is correct, together with the stored explanation.
   */
  function Grade(options: seq<Option>, explanation: string, selected: string): (r: Maybe<Answer>)
    ensures r.Just? <==> Atoi(selected).Just? && 0 <= Atoi(selected).value < |options|
    ensures r.Just? ==> r.value.explanation == explanation
    ensures r.Just? ==> r.value.correct == options[Atoi(selected).value].isCorrect
  {
    match Atoi(selected)
    case Just(idx) =>
      if 0 <= idx < |options| then Just(Answer(options[idx].isCorrect, explanation)) else Nothing
    case Nothing => Nothing
  }

  /**
   * Grading a question built from `correctOpt`: every printed index 0..3 is
   * graded, correct exactly for `correctOpt - 1`, and the explanation is
   * echoed; every other printed index is refused.
   */
  lemma GradeSubmitted(req: Request, correctOpt: int, explanation: string, idx: int)
    requires 1 <= correctOpt <= 4
    requires MinInt64 <= idx <= MaxInt64
    ensures 0 <= idx < 4 ==> (Grade(OptionsFor(req, correctOpt), explanation, Itoa(idx))
                              == Just(Answer(idx == correctOpt - 1, explanation)))
    ensures !(0 <= idx < 4) ==> Grade(OptionsFor(req, correctOpt), explanation, Itoa(idx)) == Nothing
  {
    AtoiItoa(idx);
  }

  /** For any well-formed question at most one index is graded correct. */
  lemma GradeOneCorrect(options: seq<Option>, explanation: string, i: int, j: int)
    requires WellFormed(options)
    requires MinInt64 <= i <= MaxInt64 && MinInt64 <= j <= MaxInt64
    requires Grade(options, explanation, Itoa(i)) == Just(Answer(true, explanation))
    requires Grade(options, explanation, Itoa(j)) == Just(Answer(true, explanation))
    ensures i == j
  {
    AtoiItoa(i);
    AtoiItoa(j);
    CorrectIndexUnique(options, i, j);
  }

  /** `SELECT ... WHERE id = $1`: the stored question with that id, if any. */
  function FindById(rows: seq<Question>, id: int): (r: Maybe<Question>)
    ensures r.Just? ==> r.value in rows && r.value.id == id
    ensures r.Nothing? ==> forall k :: 0 <= k < |rows| ==> rows[k].id != id
  {
    if rows == [] then Nothing
    else if rows[0].id == id then Just(rows[0])
    else FindById(rows[1..], id)
  }

  /** Ids are a primary key: no two stored questions share one. */
  predicate IdsUnique(rows: seq<Question>) {
    forall i, j :: 0 <= i < j < |rows| ==> rows[i].id != rows[j].id
  }

  /**
   * Appending a question with a fresh id makes it retrievable by that id and
   * leaves the lookup of every other id as it was.
   */
  lemma {:induction false} FindAfterAppend(rows: seq<Question>, q: Question, id: int)
    requires forall k :: 0 <= k < |rows| ==> rows[k].id != q.id
    ensures FindById(rows + [q], id) == if id == q.id then Just(q) else FindById(rows, id)
  {
    if rows != [] {
      assert (rows + [q])[1..] == rows[1..] + [q];
      FindAfterAppend(rows[1..], q, id);
    }
  }
}
