/**
 * The client-side state of the quizzes page without its rendering: the quiz
 * list, the quiz being taken with its answers and score, the selected upload
 * file, and the manual quiz form. Server calls and the confirm dialog are
 * inputs: `Some(quiz)` / `true` for a request that succeeded, `None` / `false`
 * for one that failed.
 */
module QuizPage {
  import opened Common

  datatype Question = Question(text: string, options: seq<string>, answer: Option<string>)

  /** A quiz as the server returns it; `id` is its `_id`. */
  datatype Quiz = Quiz(id: string, title: string, difficulty: string, questions: seq<Question>)

  /** The manual quiz builder's form. */
  datatype ManualQuiz = ManualQuiz(title: string, topic: string, difficulty: string, questions: seq<Question>)

  /** The selected answer per question index. */
  type Answers = map<int, string>

  /** An opaque handle for the file chosen in the upload input. */
  datatype FileRef = FileRef(name: string)

  datatype PageState = PageState(
    quizzes: seq<Quiz>,
    selected: Option<Quiz>,
    answers: Answers,
    score: Option<nat>,
    file: Option<FileRef>,
    form: ManualQuiz)

  /** A question with empty text, four empty options and an empty correct answer. */
  const BlankQuestion: Question := Question("", ["", "", "", ""], Some(""))

  /** The form on first render and after a successful save. */
  const EmptyForm: ManualQuiz := ManualQuiz("", "", "medium", [BlankQuestion])

  /** The result of a handler that may or may not send a request. */
  datatype Step = Step(state: PageState, requested: bool)

  // ---------------------------------------------------------------------------
  // Taking a quiz
  // ---------------------------------------------------------------------------

  /** `answers[idx] === q.answer`; an index never answered reads as `undefined`. */
  predicate IsCorrect(answers: Answers, idx: int, q: Question) {
    (if idx in answers then Some(answers[idx]) else None) == q.answer
  }

  /** The indices below `n` whose recorded answer matches. */
  ghost function CorrectBelow(qs: seq<Question>, answers: Answers, n: nat): set<int>
    requires n <= |qs|
  {
    set i | 0 <= i < n && IsCorrect(answers, i, qs[i])
  }

  ghost function CorrectIndices(qs: seq<Question>, answers: Answers): set<int> {
    CorrectBelow(qs, answers, |qs|)
  }

  lemma CorrectBelowStep(qs: seq<Question>, answers: Answers, n: nat)
    requires n < |qs|
    ensures |CorrectBelow(qs, answers, n + 1)|
            == |CorrectBelow(qs, answers, n)| + (if IsCorrect(answers, n, qs[n]) then 1 else 0)
  {
    if IsCorrect(answers, n, qs[n]) {
      assert CorrectBelow(qs, answers, n + 1) == CorrectBelow(qs, answers, n) + {n};
    } else {
      assert CorrectBelow(qs, answers, n + 1) == CorrectBelow(qs, answers, n);
    }
  }

  /** `handleAnswer`: record `option` for question `qIndex`, keeping every other answer. */
  function HandleAnswer(st: PageState, qIndex: int, option: string): (r: PageState)
    ensures r.answers.Keys == st.answers.Keys + {qIndex}
    ensures r.answers[qIndex] == option
    ensures forall k :: k in st.answers && k != qIndex ==> r.answers[k] == st.answers[k]
    ensures r == st.(answers := r.answers)
  {
    st.(answers := st.answers[qIndex := option])
  }

  /** A later answer to the same question replaces the earlier one. */
  lemma AnswerOverwrites(st: PageState, qIndex: int, first: string, second: string)
    ensures HandleAnswer(HandleAnswer(st, qIndex, first), qIndex, second) == HandleAnswer(st, qIndex, second)
  {
  }

  /** Answers to different questions can be given in either order. */
  lemma AnswersCommute(st: PageState, q1: int, o1: string, q2: int, o2: string)
    requires q1 != q2
    ensures HandleAnswer(HandleAnswer(st, q1, o1), q2, o2) == HandleAnswer(HandleAnswer(st, q2, o2), q1, o1)
  {
  }

  /**
   * `submitQuiz`: walk the selected quiz's questions and count those whose
   * recorded answer equals the correct one; only the score changes.
   */
  method SubmitQuiz(st: PageState) returns (next: PageState)
    requires st.selected.Some?
    ensures next == st.(score := next.score)
    ensures next.score == Some(|CorrectIndices(st.selected.value.questions, st.answers)|)
    ensures next.score.value <= |st.selected.value.questions|
  {
    var qs := st.selected.value.questions;
    var correct := 0;
    var idx := 0;
    while idx < |qs|
      invariant 0 <= idx <= |qs|
      invariant correct == |CorrectBelow(qs, st.answers, idx)|
      invariant correct <= idx
    {
      CorrectBelowStep(qs, st.answers, idx);
      if IsCorrect(st.answers, idx, qs[idx]) {
        correct := correct + 1;
      }
      idx := idx + 1;
    }
    next := st.(score := Some(correct));
  }

  /** At most one index per question, and all of them exactly when every answer matches. */
  lemma {:induction false} CorrectBelowBounds(qs: seq<Question>, answers: Answers, n: nat)
    requires n <= |qs|
    ensures |CorrectBelow(qs, answers, n)| <= n
    ensures |CorrectBelow(qs, answers, n)| == n <==> forall i :: 0 <= i < n ==> IsCorrect(answers, i, qs[i])
  {
    if n > 0 {
      CorrectBelowBounds(qs, answers, n - 1);
      CorrectBelowStep(qs, answers, n - 1);
    }
  }

  /** The full score is reached exactly when every question is answered correctly. */
  lemma PerfectScoreIffAllCorrect(qs: seq<Question>, answers: Answers)
    ensures |CorrectIndices(qs, answers)| == |qs| <==> forall i :: 0 <= i < |qs| ==> IsCorrect(answers, i, qs[i])
  {
    CorrectBelowBounds(qs, answers, |qs|);
  }

  lemma SubsetSize(a: set<int>, b: set<int>)
    requires a <= b
    ensures |a| <= |b|
  {
    assert b == a + (b - a);
    assert a * (b - a) == {};
  }

  /** Recording the correct option for a question never lowers the score; it may raise it by one. */
  lemma CorrectAnswerNeverLowersScore(st: PageState, qs: seq<Question>, qIndex: int, option: string)
    requires 0 <= qIndex < |qs| && qs[qIndex].answer == Some(option)
    ensures |CorrectIndices(qs, st.answers)| <= |CorrectIndices(qs, HandleAnswer(st, qIndex, option).answers)|
    ensures |CorrectIndices(qs, HandleAnswer(st, qIndex, option).answers)| <= |CorrectIndices(qs, st.answers)| + 1
  {
    var before := CorrectIndices(qs, st.answers);
    var after := CorrectIndices(qs, HandleAnswer(st, qIndex, option).answers);
    assert before <= after;
    SubsetSize(before, after);
    assert after <= before + {qIndex};
    SubsetSize(after, before + {qIndex});
  }

  // ---------------------------------------------------------------------------
  // The manual quiz form
  // ---------------------------------------------------------------------------

  /** The two text fields of a question the form edits. */
  datatype Field = QuestionText | CorrectAnswer

  /** Every question carries four options, and there is at least one question. */
  predicate WellShaped(form: ManualQuiz) {
    |form.questions| >= 1 && forall i :: 0 <= i < |form.questions| ==> |form.questions[i].options| == 4
  }

  /** `handleQuestionChange`: set one field of one question. */
  function HandleQuestionChange(st: PageState, index: int, field: Field, value: string): (r: PageState)
    requires 0 <= index < |st.form.questions|
    ensures r == st.(form := st.form.(questions := r.form.questions))
    ensures |r.form.questions| == |st.form.questions|
    ensures forall j :: 0 <= j < |st.form.questions| && j != index ==> r.form.questions[j] == st.form.questions[j]
    ensures r.form.questions[index].options == st.form.questions[index].options
    ensures field == QuestionText ==>
              r.form.questions[index] == st.form.questions[index].(text := value)
    ensures field == CorrectAnswer ==>
              r.form.questions[index] == st.form.questions[index].(answer := Some(value))
  {
    var q := st.form.questions[index];
    var q' := match field
      case QuestionText => q.(text := value)
      case CorrectAnswer => q.(answer := Some(value));
    st.(form := st.form.(questions := st.form.questions[index := q']))
  }

  /** `handleOptionChange`: set one option of one question. */
  function HandleOptionChange(st: PageState, qIndex: int, oIndex: int, value: string): (r: PageState)
    requires 0 <= qIndex < |st.form.questions|
    requires 0 <= oIndex < |st.form.questions[qIndex].options|
    ensures r == st.(form := st.form.(questions := r.form.questions))
    ensures |r.form.questions| == |st.form.questions|
    ensures forall j :: 0 <= j < |st.form.questions| && j != qIndex ==> r.form.questions[j] == st.form.questions[j]
    ensures r.form.questions[qIndex].text == st.form.questions[qIndex].text
    ensures r.form.questions[qIndex].answer == st.form.questions[qIndex].answer
    ensures |r.form.questions[qIndex].options| == |st.form.questions[qIndex].options|
    ensures r.form.questions[qIndex].options[oIndex] == value
    ensures forall k :: 0 <= k < |st.form.questions[qIndex].options| && k != oIndex ==>
              r.form.questions[qIndex].options[k] == st.form.questions[qIndex].options[k]
  {
    var q := st.form.questions[qIndex];
    var q' := q.(options := q.options[oIndex := value]);
    st.(form := st.form.(questions := st.form.questions[qIndex := q']))
  }

  /** Typing the old option text back restores the state. */
  lemma OptionChangeUndo(st: PageState, qIndex: int, oIndex: int, value: string)
    requires 0 <= qIndex < |st.form.questions|
    requires 0 <= oIndex < |st.form.questions[qIndex].options|
    ensures HandleOptionChange(HandleOptionChange(st, qIndex, oIndex, value), qIndex, oIndex,
                               st.form.questions[qIndex].options[oIndex]) == st
  {
    var r := HandleOptionChange(HandleOptionChange(st, qIndex, oIndex, value), qIndex, oIndex,
                                st.form.questions[qIndex].options[oIndex]);
    assert r.form.questions[qIndex].options == st.form.questions[qIndex].options;
    assert r.form.questions == st.form.questions;
  }

  /** Typing the old question text back restores the state. */
  lemma QuestionTextUndo(st: PageState, index: int, value: string)
    requires 0 <= index < |st.form.questions|
    ensures HandleQuestionChange(HandleQuestionChange(st, index, QuestionText, value), index, QuestionText,
                                 st.form.questions[index].text) == st
  {
    var r := HandleQuestionChange(HandleQuestionChange(st, index, QuestionText, value), index, QuestionText,
                                  st.form.questions[index].text);
    assert r.form.questions == st.form.questions;
  }

  /** `addQuestion`: append one blank question after the existing ones. */
  function AddQuestion(st: PageState): (r: PageState)
    ensures r == st.(form := st.form.(questions := r.form.questions))
    ensures |r.form.questions| == |st.form.questions| + 1
    ensures r.form.questions[..|st.form.questions|] == st.form.questions
    ensures r.form.questions[|st.form.questions|] == BlankQuestion
  {
    st.(form := st.form.(questions := st.form.questions + [BlankQuestion]))
  }

  /** The form editors keep the form well shaped. */
  lemma FormEditsKeepShape(st: PageState, index: int, field: Field, oIndex: int, value: string)
    requires WellShaped(st.form)
    ensures WellShaped(AddQuestion(st).form)
    ensures 0 <= index < |st.form.questions| ==> WellShaped(HandleQuestionChange(st, index, field, value).form)
    ensures 0 <= index < |st.form.questions| && 0 <= oIndex < 4 ==>
              WellShaped(HandleOptionChange(st, index, oIndex, value).form)
  {
  }

  // ---------------------------------------------------------------------------
  // The quiz list
  // ---------------------------------------------------------------------------

  /** `quizzes.filter((q) => q._id !== id)` */
  function RemoveId(qs: seq<Quiz>, id: string): (r: seq<Quiz>)
    ensures |r| <= |qs|
    ensures forall k :: 0 <= k < |r| ==> r[k].id != id
  {
    if |qs| == 0 then []
    else (if qs[0].id == id then [] else [qs[0]]) + RemoveId(qs[1..], id)
  }

  /** Exactly the quizzes with another id survive. */
  lemma {:induction false} RemoveIdMembers(qs: seq<Quiz>, id: string)
    ensures forall q :: q in RemoveId(qs, id) <==> q in qs && q.id != id
  {
    if |qs| > 0 {
      RemoveIdMembers(qs[1..], id);
      assert qs == [qs[0]] + qs[1..];
    }
  }

  /** Removal keeps relative order: it works piecewise on a concatenation. */
  lemma {:induction false} RemoveIdKeepsOrder(a: seq<Quiz>, b: seq<Quiz>, id: string)
    ensures RemoveId(a + b, id) == RemoveId(a, id) + RemoveId(b, id)
  {
    if |a| == 0 {
      assert a + b == b;
    } else {
      assert (a + b)[0] == a[0];
      assert (a + b)[1..] == a[1..] + b;
      RemoveIdKeepsOrder(a[1..], b, id);
    }
  }

  /** A list with no quiz of that id is left as it is. */
  lemma {:induction false} RemoveAbsentId(qs: seq<Quiz>, id: string)
    requires forall q :: q in qs ==> q.id != id
    ensures RemoveId(qs, id) == qs
  {
    if |qs| > 0 {
      assert qs[0] in qs;
      assert forall k :: 0 <= k < |qs[1..]| ==> qs[1..][k] == qs[k + 1];
      RemoveAbsentId(qs[1..], id);
      assert qs == [qs[0]] + qs[1..];
    }
  }

  /** Deleting twice is deleting once. */
  lemma RemoveIdIdempotent(qs: seq<Quiz>, id: string)
    ensures RemoveId(RemoveId(qs, id), id) == RemoveId(qs, id)
  {
    RemoveAbsentId(RemoveId(qs, id), id);
  }

  /** `createManualQuiz`: on success the new quiz goes first and the form is reset. */
  function CreateManualQuiz(st: PageState, created: Option<Quiz>): (r: PageState)
    ensures created.None? ==> r == st
    ensures created.Some? ==> r == st.(quizzes := r.quizzes, form := EmptyForm)
    ensures created.Some? ==> r.quizzes == [created.value] + st.quizzes
  {
    match created
    case None => st
    case Some(q) => st.(quizzes := [q] + st.quizzes, form := EmptyForm)
  }

  /** `uploadQuiz`: without a file nothing is sent; on success the new quiz goes first and the file is cleared. */
  function UploadQuiz(st: PageState, generated: Option<Quiz>): (r: Step)
    ensures r.requested <==> st.file.Some?
    ensures !r.requested || generated.None? ==> r.state == st
    ensures r.requested && generated.Some? ==>
              r.state == st.(quizzes := [generated.value] + st.quizzes, file := None)
  {
    if st.file.None? then Step(st, false)
    else match generated
      case None => Step(st, true)
      case Some(q) => Step(st.(quizzes := [q] + st.quizzes, file := None), true)
  }

  /** `deleteQuiz`: only after confirmation; on success every quiz with that id goes, the rest keep their order. */
  function DeleteQuiz(st: PageState, id: string, confirmed: bool, succeeded: bool): (r: Step)
    ensures r.requested <==> confirmed
    ensures !(confirmed && succeeded) ==> r.state == st
    ensures confirmed && succeeded ==> r.state == st.(quizzes := r.state.quizzes)
    ensures confirmed && succeeded ==> forall q :: q in r.state.quizzes <==> q in st.quizzes && q.id != id
    ensures confirmed && succeeded ==> r.state.quizzes == RemoveId(st.quizzes, id)
  {
    if !confirmed then Step(st, false)
    else if succeeded then
      RemoveIdMembers(st.quizzes, id);
      Step(st.(quizzes := RemoveId(st.quizzes, id)), true)
    else Step(st, true)
  }

  /** Deleting a freshly created quiz whose id was new gives the old list back. */
  lemma DeleteUndoesCreate(st: PageState, q: Quiz)
    requires forall e :: e in st.quizzes ==> e.id != q.id
    ensures DeleteQuiz(CreateManualQuiz(st, Some(q)), q.id, true, true).state.quizzes == st.quizzes
  {
    RemoveIdKeepsOrder([q], st.quizzes, q.id);
    RemoveAbsentId(st.quizzes, q.id);
  }

  /** The same holds for a quiz generated from an upload. */
  lemma DeleteUndoesUpload(st: PageState, q: Quiz)
    requires st.file.Some?
    requires forall e :: e in st.quizzes ==> e.id != q.id
    ensures DeleteQuiz(UploadQuiz(st, Some(q)).state, q.id, true, true).state.quizzes == st.quizzes
  {
    RemoveIdKeepsOrder([q], st.quizzes, q.id);
    RemoveAbsentId(st.quizzes, q.id);
  }

  /** After a successful save the form is well shaped again, with one blank question. */
  lemma CreateResetsForm(st: PageState, q: Quiz)
    ensures CreateManualQuiz(st, Some(q)).form.questions == [Question("", ["", "", "", ""], Some(""))]
    ensures WellShaped(CreateManualQuiz(st, Some(q)).form)
  {
  }
}
