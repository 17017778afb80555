/**
 * The question table and the HTTP handlers that use it. The table (an id
 * column filled by a SERIAL sequence, the title, the options and the
 * explanation) is held in memory by `QuestionStore`; the handlers are its
 * methods and answer with a status code and a body.
 *
 * Storage and template failures cannot be predicted from the inputs: each
 * handler receives them as `Faults`, which says which collaborator call
 * fails during this request.
 */
module QuizServer {
  import opened Wrappers
  import opened Strconv
  import opened Quiz

  /** Which external calls fail while one request is handled. */
  datatype Faults = Faults(
    insertFails: bool,            // the INSERT statement returns an error
    queryFails: bool,             // a SELECT (or scanning/decoding its rows) returns an error
    readStopsAfter: Maybe<nat>,   // iterating the rows of the full SELECT stops with an error after this many rows
    renderError: Maybe<string>    // executing the template fails with this error text
  )

  /**
   * How many rows the row loop of `getQuestions` gets through: all of them,
   * unless the iteration stops early. The loop never asks `rows.Err()`, so
   * an early stop is not reported.
   */
  function RowsRead(total: nat, stopsAfter: Maybe<nat>): (n: nat)
    ensures n <= total
    ensures stopsAfter.Nothing? ==> n == total
    ensures stopsAfter.Just? ==> n == total || n == stopsAfter.value
  {
    if stopsAfter.Just? && stopsAfter.value < total then stopsAfter.value else total
  }

  /** What a handler writes back. */
  datatype Body =
    | FullPage(questions: seq<Question>)      // the whole page with the question list
    | QuestionList(questions: seq<Question>)  // only the "question-list" fragment
    | AnswerFragment(answer: Answer)          // only the "answer-response" fragment
    | ErrorText(message: string)              // the text given to http.Error

  datatype Response = Response(status: int, body: Body)

  function Refusal(e: Rejection): Response {
    Response(e.status, ErrorText(e.message))
  }

  class QuestionStore {
    var rows: seq<Question>
    var nextId: int  // the next value of the SERIAL sequence behind `id`

    /** Ids are positive, unique, and all below the sequence's next value. */
    ghost predicate Valid()
      reads this
    {
      nextId >= 1 && IdsUnique(rows) && forall k :: 0 <= k < |rows| ==> 1 <= rows[k].id < nextId
    }

    constructor ()
      ensures Valid() && rows == [] && nextId == 1
    {
      rows := [];
      nextId := 1;
    }

    /** The INSERT: on success one new row with the next id; on failure no change. */
    method Insert(draft: Draft, fails: bool) returns (ok: bool)
      requires Valid()
      modifies this
      ensures Valid()
      ensures ok == !fails
      ensures ok ==> rows == old(rows) + [Question(old(nextId), draft.title, draft.options, draft.explanation)]
                     && nextId == old(nextId) + 1
      ensures !ok ==> rows == old(rows) && nextId == old(nextId)
    {
      if fails {
        return false;
      }
      rows := rows + [Question(nextId, draft.title, draft.options, draft.explanation)];
      nextId := nextId + 1;
      ok := true;
    }

    /**
     * `getQuestions`: reads the rows into a list. The query has no ORDER BY,
     * so only the contents, not the order, are promised. When the row
     * iteration stops early the rows read so far come back as a success,
     * because the loop's error is never consulted.
     */
    method List(fails: bool, stopsAfter: Maybe<nat>) returns (r: Maybe<seq<Question>>)
      ensures r.Nothing? <==> fails
      ensures r.Just? ==> multiset(r.value) <= multiset(rows) && |r.value| == RowsRead(|rows|, stopsAfter)
      ensures r.Just? && stopsAfter.Nothing? ==> multiset(r.value) == multiset(rows)
    {
      if fails {
        return Nothing;
      }
      var questions: seq<Question> := [];
      var i := 0;
      while i < |rows| && (stopsAfter.Nothing? || i < stopsAfter.value)
        invariant 0 <= i <= RowsRead(|rows|, stopsAfter)
        invariant questions == rows[..i]
      {
        questions := questions + [rows[i]];
        i := i + 1;
      }
      assert rows == rows[..i] + rows[i..];
      assert multiset(rows) == multiset(questions) + multiset(rows[i..]);
      r := Just(questions);
    }

    /**
     * `SELECT ... WHERE id = $1` with the id as the client sent it: text that
     * must read as an integer and name a stored row.
     */
    method Select(id: string, fails: bool) returns (q: Maybe<Question>)
      requires Valid()
      ensures q.Just? <==> !fails && Atoi(id).Just?
                           && exists k :: 0 <= k < |rows| && rows[k].id == Atoi(id).value
      ensures q.Just? ==> q.value in rows && Just(q.value.id) == Atoi(id)
    {
      var key := Atoi(id);
      if fails || key.Nothing? {
        return Nothing;
      }
      q := FindById(rows, key.value);
    }

    /** `handleHome`: the full page with the stored questions that were read. */
    method Home(faults: Faults) returns (resp: Response)
      ensures faults.queryFails ==> resp == Response(StatusInternalServerError, ErrorText("Error fetching questions"))
      ensures !faults.queryFails && faults.renderError.Just? ==>
                resp == Response(StatusInternalServerError, ErrorText(faults.renderError.value))
      ensures !faults.queryFails && faults.renderError.Nothing? ==>
                resp.status == StatusOK && resp.body.FullPage?
                && multiset(resp.body.questions) <= multiset(rows)
                && |resp.body.questions| == RowsRead(|rows|, faults.readStopsAfter)
      ensures !faults.queryFails && faults.renderError.Nothing? && faults.readStopsAfter.Nothing? ==>
                multiset(resp.body.questions) == multiset(rows)
    {
      var questions := List(faults.queryFails, faults.readStopsAfter);
      if questions.Nothing? {
        return Response(StatusInternalServerError, ErrorText("Error fetching questions"));
      }
      if faults.renderError.Just? {
        return Response(StatusInternalServerError, ErrorText(faults.renderError.value));
      }
      resp := Response(StatusOK, FullPage(questions.value));
    }

    /**
     * `handleSubmitQuestion`. A refused request (wrong method, unparsable
     * form, bad `correct_option`) or a failed INSERT leaves the table as it
     * was; otherwise exactly one row is appended, carrying the submitted
     * title, the four built options and the explanation, and no earlier row
     * changes. A failure after the INSERT (the query reading the list back,
     * rendering) answers 500 but the row stays stored; a row read that stops
     * early still answers 200, with only the rows read so far.
     */
    method SubmitQuestion(req: Request, faults: Faults) returns (resp: Response)
      requires Valid()
      modifies this
      ensures Valid()
      ensures ValidateSubmission(req).Err? ==>
                resp == Refusal(ValidateSubmission(req).error) && rows == old(rows) && nextId == old(nextId)
      ensures ValidateSubmission(req).Ok? && faults.insertFails ==>
                resp == Response(StatusInternalServerError, ErrorText("Error saving question"))
                && rows == old(rows) && nextId == old(nextId)
      ensures ValidateSubmission(req).Ok? && !faults.insertFails ==>
                var d := ValidateSubmission(req).value;
                rows == old(rows) + [Question(old(nextId), d.title, d.options, d.explanation)]
                && nextId == old(nextId) + 1
      ensures ValidateSubmission(req).Ok? && !faults.insertFails && faults.queryFails ==>
                resp == Response(StatusInternalServerError, ErrorText("Error fetching questions"))
      ensures ValidateSubmission(req).Ok? && !faults.insertFails && !faults.queryFails && faults.renderError.Just? ==>
                resp == Response(StatusInternalServerError, ErrorText("Template execution error"))
      ensures resp.status == StatusOK <==>
                ValidateSubmission(req).Ok? && !faults.insertFails && !faults.queryFails && faults.renderError.Nothing?
      ensures resp.status == StatusOK ==>
                && resp.body.QuestionList?
                && multiset(resp.body.questions) <= multiset(rows)
                && |resp.body.questions| == RowsRead(|rows|, faults.readStopsAfter)
      ensures resp.status == StatusOK && faults.readStopsAfter.Nothing? ==> multiset(resp.body.questions) == multiset(rows)
      ensures (forall k :: 0 <= k < |old(rows)| ==> WellFormed(old(rows)[k].options)) ==>
                forall k :: 0 <= k < |rows| ==> WellFormed(rows[k].options)
    {
      if req.verb != MethodPost {
        return Response(StatusMethodNotAllowed, ErrorText("Method not allowed"));
      }
      if req.formError {
        return Response(StatusBadRequest, ErrorText("Failed to parse form"));
      }
      var correctOpt := ParseCorrectOption(FormValue(req, "correct_option"));
      if correctOpt.Nothing? {
        return Response(StatusBadRequest, ErrorText("Invalid correct option number"));
      }
      var options := BuildOptions(req, correctOpt.value);
      var ok := Insert(Draft(FormValue(req, "title"), options, FormValue(req, "explanation")), faults.insertFails);
      if !ok {
        return Response(StatusInternalServerError, ErrorText("Error saving question"));
      }
      var questions := List(faults.queryFails, faults.readStopsAfter);
      if questions.Nothing? {
        return Response(StatusInternalServerError, ErrorText("Error fetching questions"));
      }
      if faults.renderError.Just? {
        return Response(StatusInternalServerError, ErrorText("Template execution error"));
      }
      resp := Response(StatusOK, QuestionList(questions.value));
    }

    /**
     * `handleCheckAnswer`. The question is looked up first, so an unknown id
     * (or a failed query) answers 500 whatever the chosen option; then the
     * option index is checked (400 when it is not an index into the
     * options); otherwise the answer is whether that option is correct,
     * with the stored explanation.
     */
    method CheckAnswer(req: Request, faults: Faults) returns (resp: Response)
      requires Valid()
      ensures req.verb != MethodPost ==> resp == Response(StatusMethodNotAllowed, ErrorText("Method not allowed"))
      ensures req.verb == MethodPost ==>
                var id := Atoi(FormValue(req, "question_index"));
                var found := if faults.queryFails || id.Nothing? then Nothing else FindById(rows, id.value);
                match found
                case Nothing =>
                  resp == Response(StatusInternalServerError, ErrorText("Error fetching question"))
                case Just(q) =>
                  match Grade(q.options, q.explanation, FormValue(req, "option"))
                  case Nothing => resp == Response(StatusBadRequest, ErrorText("Invalid option index"))
                  case Just(a) =>
                    resp == if faults.renderError.Just?
                            then Response(StatusInternalServerError, ErrorText("Template execution error"))
                            else Response(StatusOK, AnswerFragment(a))
      ensures resp.status == StatusOK ==>
                && req.verb == MethodPost
                && resp.body.AnswerFragment?
                && exists k :: 0 <= k < |rows| && Just(rows[k].id) == Atoi(FormValue(req, "question_index"))
                               && resp.body.answer.explanation == rows[k].explanation
                               && 0 <= Atoi(FormValue(req, "option")).value < |rows[k].options|
                               && resp.body.answer.correct == rows[k].options[Atoi(FormValue(req, "option")).value].isCorrect
    {
      if req.verb != MethodPost {
        return Response(StatusMethodNotAllowed, ErrorText("Method not allowed"));
      }
      var q := Select(FormValue(req, "question_index"), faults.queryFails);
      if q.Nothing? {
        return Response(StatusInternalServerError, ErrorText("Error fetching question"));
      }
      var answer := Grade(q.value.options, q.value.explanation, FormValue(req, "option"));
      if answer.Nothing? {
        return Response(StatusBadRequest, ErrorText("Invalid option index"));
      }
      if faults.renderError.Just? {
        return Response(StatusInternalServerError, ErrorText("Template execution error"));
      }
      resp := Response(StatusOK, AnswerFragment(answer.value));
    }

    /**
     * A submission followed by a check of option `idx` against the new
     * question's id: when nothing fails, the answer is correct exactly when
     * `idx` is the submitted `correct_option` minus one, and the submitted
     * explanation comes back.
     */
    method SubmitThenCheck(req: Request, idx: int) returns (submitted: Response, checked: Response)
      requires Valid()
      requires ValidateSubmission(req).Ok?
      requires 0 <= idx < 4
      requires nextId <= MaxInt64
      modifies this
      ensures Valid()
      ensures submitted.status == StatusOK
      ensures var c := ParseCorrectOption(FormValue(req, "correct_option")).value;
              checked == Response(StatusOK, AnswerFragment(Answer(idx == c - 1, FormValue(req, "explanation"))))
    {
      var noFaults := Faults(false, false, Nothing, Nothing);
      var id := nextId;
      var d := ValidateSubmission(req).value;
      submitted := SubmitQuestion(req, noFaults);
      var q := Question(id, d.title, d.options, d.explanation);
      FindAfterAppend(old(rows), q, id);
      assert FindById(rows, id) == Just(q);
      var check := Request(MethodPost, map["question_index" := Itoa(id), "option" := Itoa(idx)], false);
      assert FormValue(check, "question_index") == Itoa(id);
      assert FormValue(check, "option") == Itoa(idx);
      AtoiItoa(id);
      AtoiItoa(idx);
      assert Grade(d.options, d.explanation, Itoa(idx)) == Just(Answer(d.options[idx].isCorrect, d.explanation));
      checked := CheckAnswer(check, noFaults);
    }
  }
  /** The worked example's question: "2+2?" with options 3, 4, 5, 6, the second one correct. */
  function ArithmeticQuestion(id: int): Question {
    Question(id, "2+2?", [Option("3", false), Option("4", true), Option("5", false), Option("6", false)], "Basic arithmetic")
  }

  /** Submitting the worked example to an empty store stores it under id 1. */
  method SubmitArithmetic() returns (store: QuestionStore, submitted: Response)
    ensures fresh(store) && store.Valid() && store.rows == [ArithmeticQuestion(1)]
    ensures submitted.status == StatusOK && submitted.body.QuestionList?
    ensures multiset(submitted.body.questions) == multiset{ArithmeticQuestion(1)}
  {
    store := new QuestionStore();
    var form := map["title" := "2+2?", "option1" := "3", "option2" := "4", "option3" := "5", "option4" := "6",
                    "correct_option" := "2", "explanation" := "Basic arithmetic"];
    var req := Request(MethodPost, form, false);
    assert Itoa(1) == "1" && Itoa(2) == "2" && Itoa(3) == "3" && Itoa(4) == "4";
    assert OptionField(1) == "option1" && OptionField(2) == "option2";
    assert OptionField(3) == "option3" && OptionField(4) == "option4";
    assert FormValue(req, "title") == "2+2?" && FormValue(req, "explanation") == "Basic arithmetic";
    assert FormValue(req, "correct_option") == "2";
    CorrectOptionRange(2);
    assert OptionsFor(req, 2) == ArithmeticQuestion(1).options;
    assert ValidateSubmission(req) == Ok(Draft("2+2?", ArithmeticQuestion(1).options, "Basic arithmetic"));
    submitted := store.SubmitQuestion(req, Faults(false, false, Nothing, Nothing));
  }

  /**
   * The worked example end to end: after it is submitted, choosing option 1
   * is right, option 0 is wrong, and both echo "Basic arithmetic".
   */
  method ArithmeticExample() returns (right: Response, wrong: Response)
    ensures right == Response(StatusOK, AnswerFragment(Answer(true, "Basic arithmetic")))
    ensures wrong == Response(StatusOK, AnswerFragment(Answer(false, "Basic arithmetic")))
  {
    var store, _ := SubmitArithmetic();
    var q := ArithmeticQuestion(1);
    assert FindById(store.rows, 1) == Just(q);
    AtoiItoa(0);
    AtoiItoa(1);
    assert Itoa(0) == "0" && Itoa(1) == "1";
    assert Grade(q.options, q.explanation, "1") == Just(Answer(true, "Basic arithmetic"));
    assert Grade(q.options, q.explanation, "0") == Just(Answer(false, "Basic arithmetic"));
    var pickSecond := Request(MethodPost, map["question_index" := "1", "option" := "1"], false);
    var pickFirst := Request(MethodPost, map["question_index" := "1", "option" := "0"], false);
    assert FormValue(pickSecond, "question_index") == FormValue(pickFirst, "question_index") == "1";
    assert FormValue(pickSecond, "option") == "1" && FormValue(pickFirst, "option") == "0";
    right := store.CheckAnswer(pickSecond, Faults(false, false, Nothing, Nothing));
    wrong := store.CheckAnswer(pickFirst, Faults(false, false, Nothing, Nothing));
  }

  /**
   * A row read that stops before the first row of a one-row table still
   * answers 200: the page lists no question although one is stored.
   */
  method PartialPageExample() returns (page: Response)
    ensures page == Response(StatusOK, FullPage([]))
  {
    var store, _ := SubmitArithmetic();
    page := store.Home(Faults(false, false, Just(0), Nothing));
  }
}
