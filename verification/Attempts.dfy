/** Taking and scoring a test: StartAttempt, SubmitAnswer and SubmitAttempt of
    internal/tests/service.go. Marks are whole hundredths (NUMERIC(6,2)); the catalogue of
    questions does not change while a test is taken; calls do not overlap. Any query of a
    call may fail, and the service ignores some of the failures. */
module Attempts {
  import opened Wrappers

  datatype Kind = Mcq | Numerical | Subjective

  datatype Question = Question(test: string, kind: Kind, marks: int, negativeMarks: int, expected: real)

  /** `options` says of each option whether it is a correct one. */
  datatype Catalogue = Catalogue(tests: set<string>, questions: map<string, Question>, options: map<string, bool>)

  datatype Status = InProgress | Completed

  /** A NULL score is None. */
  datatype Attempt = Attempt(
    user: string, test: string, startedAt: int, status: Status, total: int,
    score: Option<int>, correct: int, wrong: int, skipped: int)

  /** A test_answers row. */
  datatype Answer = Answer(question: string, isCorrect: bool, marks: int)

  /** What the student sends for one question. */
  datatype Response = Response(option: Option<string>, number: Option<real>)

  /** The queries that a call makes. */
  datatype Query =
    | ReadActive | CountQuestions | Create
    | ReadAttempt | ReadQuestion | ReadOption | WriteAnswer
    | CountCorrect | CountWrong | SumMarks | WriteAttempt

  datatype State = State(attempts: map<nat, Attempt>, answers: map<nat, seq<Answer>>)

  // ----- Grading one answer -----

  function AlmostEqual(a: real, b: real, eps: real): bool {
    var d := a - b;
    (if d < 0.0 then -d else d) < eps
  }

  /** An option that cannot be read is not a correct one. */
  predicate IsCorrect(cat: Catalogue, q: Question, r: Response, optionRead: bool) {
    match q.kind
    case Mcq => optionRead && r.option.Some? && r.option.value in cat.options && cat.options[r.option.value]
    case Numerical => r.number.Some? && AlmostEqual(r.number.value, q.expected, 0.0001)
    case Subjective => false
  }

  predicate Attempted(r: Response) {
    r.option.Some? || r.number.Some?
  }

  function Grade(cat: Catalogue, question: string, r: Response, optionRead: bool): (a: Answer)
    requires question in cat.questions
    ensures a.question == question
    ensures a.isCorrect <==>
            match cat.questions[question].kind
            case Mcq => optionRead && r.option.Some? && r.option.value in cat.options && cat.options[r.option.value]
            case Numerical => r.number.Some? && -0.0001 < r.number.value - cat.questions[question].expected < 0.0001
            case Subjective => false
    ensures a.isCorrect ==> Attempted(r) && a.marks == cat.questions[question].marks
    ensures Attempted(r) && !a.isCorrect ==> a.marks == -cat.questions[question].negativeMarks
    ensures !Attempted(r) ==> !a.isCorrect && a.marks == 0
  {
    var q := cat.questions[question];
    var ok := IsCorrect(cat, q, r, optionRead);
    Answer(question, ok, if ok then q.marks else if Attempted(r) then -q.negativeMarks else 0)
  }

  // ----- Rows of one attempt -----

  /** INSERT ... ON CONFLICT (attempt_id, question_id) DO UPDATE */
  function Upsert(rows: seq<Answer>, a: Answer): seq<Answer> {
    if rows == [] then [a]
    else if rows[|rows|-1].question == a.question then rows[..|rows|-1] + [a]
    else Upsert(rows[..|rows|-1], a) + [rows[|rows|-1]]
  }

  function Sum(f: Answer -> int, rows: seq<Answer>): int {
    if rows == [] then 0 else Sum(f, rows[..|rows|-1]) + f(rows[|rows|-1])
  }

  const MARKS: Answer -> int := (a: Answer) => a.marks
  const CORRECT: Answer -> int := (a: Answer) => if a.isCorrect then 1 else 0
  const WRONG: Answer -> int := (a: Answer) => if a.isCorrect then 0 else 1

  /** CountCorrectAnswers; a count that fails is taken for 0. */
  function CorrectRead(rows: seq<Answer>, faults: set<Query>): int {
    if CountCorrect in faults then 0 else Sum(CORRECT, rows)
  }

  /** CountWrongAnswers */
  function WrongRead(rows: seq<Answer>, faults: set<Query>): int {
    if CountWrong in faults then 0 else Sum(WRONG, rows)
  }

  /** SumMarksForAttempt; a sum that fails is taken for NULL. */
  function ScoreRead(rows: seq<Answer>, faults: set<Query>): Option<int> {
    if SumMarks in faults then None else Some(Sum(MARKS, rows))
  }

  function GradedWith(a: Attempt, correct: int, wrong: int, score: Option<int>): Attempt {
    var skipped := a.total - correct - wrong;
    a.(status := Completed, score := score, correct := correct, wrong := wrong,
       skipped := if skipped < 0 then 0 else skipped)
  }

  /** What a submission writes. */
  function Graded(a: Attempt, rows: seq<Answer>, faults: set<Query>): Attempt {
    GradedWith(a, CorrectRead(rows, faults), WrongRead(rows, faults), ScoreRead(rows, faults))
  }

  // ----- The service -----

  datatype Op =
    | Start(user: string, test: string, id: nat, now: int, faults: set<Query>)
    | Respond(user: string, attempt: nat, question: string, response: Response, faults: set<Query>)
    | Submit(user: string, attempt: nat, faults: set<Query>)

  function QuestionsOf(cat: Catalogue, test: string): set<string> {
    set q | q in cat.questions && cat.questions[q].test == test
  }

  /** The row that a start inserts. */
  function Fresh(cat: Catalogue, op: Op): Attempt
    requires op.Start?
  {
    Attempt(op.user, op.test, op.now, InProgress, |QuestionsOf(cat, op.test)|, Some(0), 0, 0, 0)
  }

  predicate IsActive(s: State, id: nat, user: string, test: string) {
    && id in s.attempts && s.attempts[id].user == user && s.attempts[id].test == test
    && s.attempts[id].status == InProgress
  }

  ghost predicate HasActive(s: State, user: string, test: string) {
    exists id :: IsActive(s, id, user, test)
  }

  /** StartAttempt creates an attempt: none is active, or the query for it fails. */
  ghost predicate Creates(cat: Catalogue, s: State, op: Op)
    requires op.Start?
  {
    && (ReadActive in op.faults || !HasActive(s, op.user, op.test))
    && {CountQuestions, Create} !! op.faults && op.test in cat.tests && op.id !in s.attempts
  }

  /** SubmitAnswer stores an answer. The selected option must exist: it is a foreign key. */
  predicate Accepts(cat: Catalogue, s: State, op: Op)
    requires op.Respond?
  {
    && {ReadAttempt, ReadQuestion, WriteAnswer} !! op.faults
    && op.attempt in s.attempts && s.attempts[op.attempt].user == op.user && s.attempts[op.attempt].status == InProgress
    && op.question in cat.questions
    && (op.response.option.Some? ==> op.response.option.value in cat.options)
  }

  /** SubmitAttempt writes the attempt, whatever its status. */
  predicate Submits(s: State, op: Op)
    requires op.Submit?
  {
    && {ReadAttempt, WriteAttempt} !! op.faults
    && op.attempt in s.attempts && s.attempts[op.attempt].user == op.user
  }

  function Stored(cat: Catalogue, op: Op): Answer
    requires op.Respond? && op.question in cat.questions
  {
    Grade(cat, op.question, op.response, ReadOption !in op.faults)
  }

  function RowsOf(s: State, attempt: nat): seq<Answer> {
    if attempt in s.answers then s.answers[attempt] else []
  }

  ghost function Step(cat: Catalogue, s: State, op: Op): State {
    match op
    case Start(user, test, id, now, faults) =>
      if !Creates(cat, s, op) then s
      else
        s.(attempts := s.attempts[id := Fresh(cat, op)], answers := s.answers[id := []])
    case Respond(user, attempt, question, response, faults) =>
      if !Accepts(cat, s, op) then s
      else s.(answers := s.answers[attempt := Upsert(RowsOf(s, attempt), Stored(cat, op))])
    case Submit(user, attempt, faults) =>
      if !Submits(s, op) then s
      else s.(attempts := s.attempts[attempt := Graded(s.attempts[attempt], RowsOf(s, attempt), faults)])
  }

  class Service {
    const cat: Catalogue
    var attempts: map<nat, Attempt>
    var answers: map<nat, seq<Answer>>

    constructor (cat: Catalogue)
      ensures this.cat == cat && Value() == State(map[], map[])
    {
      this.cat, attempts, answers := cat, map[], map[];
    }

    function Value(): State
      reads this
    {
      State(attempts, answers)
    }

    /** GetActiveAttempt: the one started last. */
    method GetActiveAttempt(user: string, test: string) returns (cur: Option<nat>)
      ensures cur.Some? <==> HasActive(Value(), user, test)
      ensures cur.Some? ==> IsActive(Value(), cur.value, user, test)
      ensures cur.Some? ==> forall i :: IsActive(Value(), i, user, test) ==>
                              attempts[i].startedAt <= attempts[cur.value].startedAt
    {
      cur := None;
      var rest := set a | a in attempts && IsActive(Value(), a, user, test);
      while rest != {}
        invariant rest <= attempts.Keys
        invariant forall i :: i in rest ==> IsActive(Value(), i, user, test)
        invariant cur.Some? ==> IsActive(Value(), cur.value, user, test)
        invariant forall i :: IsActive(Value(), i, user, test) ==>
                    i in rest || (cur.Some? && attempts[i].startedAt <= attempts[cur.value].startedAt)
      {
        var a :| a in rest;
        rest := rest - {a};
        if cur.None? || attempts[a].startedAt > attempts[cur.value].startedAt {
          cur := Some(a);
        }
      }
    }

    /** `newId` is the identifier the database would give a new row. */
    method StartAttempt(user: string, test: string, newId: nat, now: int, faults: set<Query>) returns (id: Option<nat>)
      requires newId !in attempts
      modifies this
      ensures Value() == Step(cat, old(Value()), Start(user, test, newId, now, faults))
      ensures id.Some? ==> IsActive(Value(), id.value, user, test)
      ensures id.None? <==> && (ReadActive in faults || !HasActive(old(Value()), user, test))
                            && !Creates(cat, old(Value()), Start(user, test, newId, now, faults))
    {
      if ReadActive !in faults {
        var cur := GetActiveAttempt(user, test);
        if cur.Some? {
          return cur;
        }
      }
      if CountQuestions in faults {
        return None;
      }
      var cnt := set q | q in cat.questions && cat.questions[q].test == test;
      assert cnt == QuestionsOf(cat, test);
      if Create in faults || test !in cat.tests {
        return None;
      }
      attempts := attempts[newId := Attempt(user, test, now, InProgress, |cnt|, Some(0), 0, 0, 0)];
      answers := answers[newId := []];
      return Some(newId);
    }

    method SubmitAnswer(user: string, attempt: nat, question: string, response: Response, faults: set<Query>)
      returns (row: Option<Answer>)
      modifies this
      ensures var op := Respond(user, attempt, question, response, faults);
              && Value() == Step(cat, old(Value()), op)
              && row == if Accepts(cat, old(Value()), op) then Some(Stored(cat, op)) else None
    {
      if ReadAttempt in faults || attempt !in attempts {
        return None;
      }
      var att := attempts[attempt];
      if att.user != user {
        return None;
      }
      if att.status != InProgress {
        return None;
      }
      if ReadQuestion in faults || question !in cat.questions {
        return None;
      }
      var q := cat.questions[question];
      var isCorrect := false;
      var marksAwarded := 0;
      match q.kind {
        case Mcq =>
          if response.option.Some? {
            if ReadOption !in faults && response.option.value in cat.options && cat.options[response.option.value] {
              isCorrect := true;
            }
          }
        case Numerical =>
          if response.number.Some? {
            if AlmostEqual(response.number.value, q.expected, 0.0001) {
              isCorrect := true;
            }
          }
        case Subjective =>
      }
      if isCorrect {
        marksAwarded := q.marks;
      } else if response.option.Some? || response.number.Some? {
        marksAwarded := -q.negativeMarks;
      }
      var ans := Answer(question, isCorrect, marksAwarded);
      if WriteAnswer in faults || (response.option.Some? && response.option.value !in cat.options) {
        return None;
      }
      answers := answers[attempt := Upsert(RowsOf(Value(), attempt), ans)];
      return Some(ans);
    }

    method SubmitAttempt(user: string, attempt: nat, faults: set<Query>) returns (updated: Option<Attempt>)
      modifies this
      ensures var op := Submit(user, attempt, faults);
              && Value() == Step(cat, old(Value()), op)
              && updated == if Submits(old(Value()), op) then Some(attempts[attempt]) else None
    {
      if ReadAttempt in faults || attempt !in attempts {
        return None;
      }
      var att := attempts[attempt];
      if att.user != user {
        return None;
      }
      var rows := RowsOf(Value(), attempt);
      var correct, wrong := 0, 0;
      if CountCorrect !in faults {
        correct := Sum(CORRECT, rows);
      }
      if CountWrong !in faults {
        wrong := Sum(WRONG, rows);
      }
      var totalMarks: Option<int> := None;
      if SumMarks !in faults {
        totalMarks := Some(Sum(MARKS, rows));
      }
      var skipped := att.total - correct - wrong;
      if skipped < 0 {
        skipped := 0;
      }
      if WriteAttempt in faults {
        return None;
      }
      attempts := attempts[attempt := att.(status := Completed, score := totalMarks, correct := correct,
                                           wrong := wrong, skipped := skipped)];
      return Some(attempts[attempt]);
    }
  }

  // ----- Rows and the history of answers -----

  function Rows(history: seq<Answer>): seq<Answer> {
    if history == [] then [] else Upsert(Rows(history[..|history|-1]), history[|history|-1])
  }

  /** The last answer given to a question. */
  function LastFor(history: seq<Answer>, question: string): Option<Answer> {
    if history == [] then None
    else if history[|history|-1].question == question then Some(history[|history|-1])
    else LastFor(history[..|history|-1], question)
  }

  function Weight(f: Answer -> int, a: Option<Answer>): int {
    if a.Some? then f(a.value) else 0
  }

  /** The weights of the last answers to the given questions, added up. */
  function SumLast(f: Answer -> int, questions: seq<string>, history: seq<Answer>): int {
    if questions == [] then 0
    else SumLast(f, questions[..|questions|-1], history) + Weight(f, LastFor(history, questions[|questions|-1]))
  }

  lemma {:induction false} UpsertSum(f: Answer -> int, rows: seq<Answer>, a: Answer)
    ensures Sum(f, Upsert(rows, a)) == Sum(f, rows) + f(a) - Weight(f, LastFor(rows, a.question))
    ensures forall q :: LastFor(Upsert(rows, a), q) == if q == a.question then Some(a) else LastFor(rows, q)
  {
    var up := Upsert(rows, a);
    if rows == [] {
      assert up[..0] == [];
    } else {
      var front, last := rows[..|rows|-1], rows[|rows|-1];
      if last.question == a.question {
        assert up[..|up|-1] == front;
      } else {
        UpsertSum(f, front, a);
        assert up[..|up|-1] == Upsert(front, a);
        forall q ensures LastFor(up, q) == if q == a.question then Some(a) else LastFor(rows, q) {
          assert LastFor(Upsert(front, a), q) == if q == a.question then Some(a) else LastFor(front, q);
        }
      }
    }
  }

  lemma {:induction false} RowsHoldLast(history: seq<Answer>, question: string)
    ensures LastFor(Rows(history), question) == LastFor(history, question)
  {
    if history != [] {
      var front, a := history[..|history|-1], history[|history|-1];
      RowsHoldLast(front, question);
      UpsertSum(MARKS, Rows(front), a);
    }
  }

  predicate Distinct(xs: seq<string>) {
    forall i, j :: 0 <= i < j < |xs| ==> xs[i] != xs[j]
  }

  lemma {:induction false} SumLastAppend(f: Answer -> int, questions: seq<string>, history: seq<Answer>, a: Answer)
    requires Distinct(questions)
    ensures SumLast(f, questions, history + [a])
         == SumLast(f, questions, history)
            + if a.question in questions then f(a) - Weight(f, LastFor(history, a.question)) else 0
  {
    assert (history + [a])[..|history|] == history;
    if questions != [] {
      var front, q := questions[..|questions|-1], questions[|questions|-1];
      SumLastAppend(f, front, history, a);
      assert questions == front + [q];
      if q == a.question {
        assert q !in front;
      }
    }
  }

  /** Any total over the rows is the total over the questions of what their last answers
      weigh: earlier answers leave nothing behind. */
  lemma {:induction false} SumIsOverLastAnswers(f: Answer -> int, questions: seq<string>, history: seq<Answer>)
    requires Distinct(questions) && forall a :: a in history ==> a.question in questions
    ensures Sum(f, Rows(history)) == SumLast(f, questions, history)
  {
    if history == [] {
      NoAnswers(f, questions);
    } else {
      var front, a := history[..|history|-1], history[|history|-1];
      assert history == front + [a] && forall b :: b in front ==> b in history;
      assert a in history;
      SumIsOverLastAnswers(f, questions, front);
      UpsertSum(f, Rows(front), a);
      RowsHoldLast(front, a.question);
      SumLastAppend(f, questions, front, a);
    }
  }

  lemma {:induction false} NoAnswers(f: Answer -> int, questions: seq<string>)
    ensures SumLast(f, questions, []) == 0
  {
    if questions != [] {
      NoAnswers(f, questions[..|questions|-1]);
    }
  }

  lemma {:induction false} SameLastSameSum(f: Answer -> int, questions: seq<string>, one: seq<Answer>, two: seq<Answer>)
    requires forall q :: q in questions ==> LastFor(one, q) == LastFor(two, q)
    ensures SumLast(f, questions, one) == SumLast(f, questions, two)
  {
    if questions != [] {
      SameLastSameSum(f, questions[..|questions|-1], one, two);
      assert questions[|questions|-1] in questions;
    }
  }

  lemma {:induction false} CountsAddUp(rows: seq<Answer>)
    ensures Sum(CORRECT, rows) + Sum(WRONG, rows) == |rows|
    ensures Sum(CORRECT, rows) >= 0 && Sum(WRONG, rows) >= 0
  {
    if rows != [] {
      CountsAddUp(rows[..|rows|-1]);
    }
  }

  /** correct + wrong + skipped is the total exactly when no more answers were counted than
      the attempt has questions; if the counts worked, all answers were counted. */
  lemma PartsAddUpIff(a: Attempt, rows: seq<Answer>, faults: set<Query>)
    ensures var g := Graded(a, rows, faults);
            && (g.correct + g.wrong + g.skipped == a.total <==> g.correct + g.wrong <= a.total)
            && g.skipped >= 0 && ({CountCorrect, CountWrong} !! faults ==> g.correct + g.wrong == |rows|)
  {
    CountsAddUp(rows);
  }

  /** Parts that do not add up: a test without questions, and an accepted answer to a
      question of another test. */
  lemma ForeignAnswer(cat: Catalogue, user: string, test: string, question: string, r: Response, now: int)
    requires test in cat.tests && QuestionsOf(cat, test) == {} && question in cat.questions
    requires r.option.Some? ==> r.option.value in cat.options
    ensures var ops := [Start(user, test, 0, now, {}), Respond(user, 0, question, r, {}), Submit(user, 0, {})];
            var s := After(cat, ops);
            && 0 in s.attempts && s.attempts[0].status == Completed && s.attempts[0].total == 0
            && s.attempts[0].correct + s.attempts[0].wrong + s.attempts[0].skipped == 1
  {
    var one, two, three := Start(user, test, 0, now, {}), Respond(user, 0, question, r, {}), Submit(user, 0, {});
    AfterAppend(cat, [], one);
    AfterAppend(cat, [one], two);
    AfterAppend(cat, [one, two], three);
    assert [] + [one] == [one] && [one] + [two] == [one, two] && [one, two] + [three] == [one, two, three];
    var s1, s2 := After(cat, [one]), After(cat, [one, two]);
    assert !HasActive(After(cat, []), user, test);
    assert s1.attempts[0].status == InProgress && s1.answers[0] == [];
    assert s2.answers[0] == [Stored(cat, two)] && s2.attempts == s1.attempts;
    CountsAddUp(s2.answers[0]);
  }

  /** A failing query of a submission hides something: an answer, or the score. */
  predicate Distorts(rows: seq<Answer>, faults: set<Query>) {
    || (CountCorrect in faults && Sum(CORRECT, rows) != 0)
    || (CountWrong in faults && Sum(WRONG, rows) != 0)
    || SumMarks in faults
  }

  lemma GradedTrulyIff(a: Attempt, rows: seq<Answer>, faults: set<Query>)
    ensures Graded(a, rows, faults) == Graded(a, rows, {}) <==> !Distorts(rows, faults)
  {
  }

  /** The order between questions does not matter: two histories that end with the same
      answer to each question are graded alike. */
  lemma OrderIndependent(a: Attempt, questions: seq<string>, one: seq<Answer>, two: seq<Answer>, faults: set<Query>)
    requires Distinct(questions)
    requires forall b :: b in one || b in two ==> b.question in questions
    requires forall q :: q in questions ==> LastFor(one, q) == LastFor(two, q)
    ensures Graded(a, Rows(one), faults) == Graded(a, Rows(two), faults)
  {
    SumIsOverLastAnswers(MARKS, questions, one);
    SumIsOverLastAnswers(MARKS, questions, two);
    SumIsOverLastAnswers(CORRECT, questions, one);
    SumIsOverLastAnswers(CORRECT, questions, two);
    SumIsOverLastAnswers(WRONG, questions, one);
    SumIsOverLastAnswers(WRONG, questions, two);
    SameLastSameSum(MARKS, questions, one, two);
    SameLastSameSum(CORRECT, questions, one, two);
    SameLastSameSum(WRONG, questions, one, two);
  }

  // ----- Whole runs of the service -----

  ghost function After(cat: Catalogue, ops: seq<Op>): State {
    if ops == [] then State(map[], map[]) else Step(cat, After(cat, ops[..|ops|-1]), ops[|ops|-1])
  }

  /** The answers that an attempt accepted, in order. */
  ghost function Accepted(cat: Catalogue, ops: seq<Op>, id: nat): seq<Answer> {
    if ops == [] then []
    else
      var front, op := ops[..|ops|-1], ops[|ops|-1];
      Accepted(cat, front, id) +
      if op.Respond? && op.attempt == id && Accepts(cat, After(cat, front), op) then [Stored(cat, op)] else []
  }

  /** The failing queries of the submission that last wrote the attempt. */
  ghost function LastSubmission(cat: Catalogue, ops: seq<Op>, id: nat): Option<set<Query>> {
    if ops == [] then None
    else
      var front, op := ops[..|ops|-1], ops[|ops|-1];
      if op.Submit? && op.attempt == id && Submits(After(cat, front), op) then Some(op.faults)
      else LastSubmission(cat, front, id)
  }

  ghost predicate AttemptOk(cat: Catalogue, s: State, history: seq<Answer>, last: Option<set<Query>>, id: nat) {
    if id !in s.attempts then history == [] && id !in s.answers && last.None?
    else
      && id in s.answers && s.answers[id] == Rows(history)
      && s.attempts[id].total == |QuestionsOf(cat, s.attempts[id].test)|
      && (s.attempts[id].status == Completed <==> last.Some?)
      && (last.Some? ==> s.attempts[id] == Graded(s.attempts[id], Rows(history), last.value))
  }

  lemma AttemptStep(cat: Catalogue, s: State, op: Op, history: seq<Answer>, last: Option<set<Query>>, id: nat)
    requires AttemptOk(cat, s, history, last, id)
    ensures var more := if op.Respond? && op.attempt == id && Accepts(cat, s, op) then [Stored(cat, op)] else [];
            var now := if op.Submit? && op.attempt == id && Submits(s, op) then Some(op.faults) else last;
            AttemptOk(cat, Step(cat, s, op), history + more, now, id)
  {
    assert history + [] == history;
    if op.Respond? && op.attempt == id && Accepts(cat, s, op) {
      var a := Stored(cat, op);
      assert (history + [a])[..|history|] == history;
    }
  }

  /** In every run an attempt's rows are those of the answers it accepted, and a completed
      attempt shows what its last submission computed from them. */
  lemma {:induction false} RunOk(cat: Catalogue, ops: seq<Op>, id: nat)
    ensures AttemptOk(cat, After(cat, ops), Accepted(cat, ops, id), LastSubmission(cat, ops, id), id)
  {
    if ops != [] {
      var front := ops[..|ops|-1];
      RunOk(cat, front, id);
      AttemptStep(cat, After(cat, front), ops[|ops|-1], Accepted(cat, front, id), LastSubmission(cat, front, id), id);
    }
  }

  // ----- One attempt in progress -----

  ghost predicate SameAttempt(s: State, i: nat, j: nat) {
    (&& i in s.attempts && j in s.attempts && s.attempts[i].status == InProgress && s.attempts[j].status == InProgress
     && s.attempts[i].user == s.attempts[j].user && s.attempts[i].test == s.attempts[j].test) ==> i == j
  }

  /** No user has two attempts in progress at one test. */
  ghost predicate OneActive(s: State) {
    forall i, j :: SameAttempt(s, i, j)
  }

  /** The call opens an attempt although one is active. */
  ghost predicate OpensSecond(cat: Catalogue, s: State, op: Op) {
    op.Start? && HasActive(s, op.user, op.test) && Creates(cat, s, op)
  }

  /** A second attempt in progress arises exactly from a start whose query for the active
      attempt failed while there was one. */
  lemma SecondActiveIff(cat: Catalogue, s: State, op: Op)
    requires OneActive(s)
    ensures OneActive(Step(cat, s, op)) <==> !OpensSecond(cat, s, op)
    ensures OpensSecond(cat, s, op) ==> ReadActive in op.faults
  {
    var s' := Step(cat, s, op);
    if OpensSecond(cat, s, op) {
      var i :| IsActive(s, i, op.user, op.test);
      assert !SameAttempt(s', i, op.id);
    } else {
      forall i, j ensures SameAttempt(s', i, j) {
        assert SameAttempt(s, i, j);
        if op.Start? && Creates(cat, s, op) {
          assert !IsActive(s, i, op.user, op.test) && !IsActive(s, j, op.user, op.test);
        }
      }
    }
  }

  ghost predicate NeverTwo(cat: Catalogue, ops: seq<Op>) {
    OneActive(After(cat, ops)) && (ops == [] || NeverTwo(cat, ops[..|ops|-1]))
  }

  ghost predicate NoneOpensSecond(cat: Catalogue, ops: seq<Op>) {
    ops == [] ||
    (&& NoneOpensSecond(cat, ops[..|ops|-1])
     && !OpensSecond(cat, After(cat, ops[..|ops|-1]), ops[|ops|-1]))
  }

  /** Over whole runs: no state has two, exactly when no call opens a second one. */
  lemma {:induction false} OneActiveIff(cat: Catalogue, ops: seq<Op>)
    ensures NeverTwo(cat, ops) <==> NoneOpensSecond(cat, ops)
  {
    if ops == [] {
      forall i, j ensures SameAttempt(After(cat, []), i, j) {}
    } else {
      var front := ops[..|ops|-1];
      OneActiveIff(cat, front);
      if NeverTwo(cat, front) {
        SecondActiveIff(cat, After(cat, front), ops[|ops|-1]);
      }
    }
  }

  /** Such a run: two starts, the second with a failing query. */
  lemma TwoActive(cat: Catalogue, user: string, test: string, now: int)
    requires test in cat.tests
    ensures var s := After(cat, [Start(user, test, 0, now, {}), Start(user, test, 1, now, {ReadActive})]);
            IsActive(s, 0, user, test) && IsActive(s, 1, user, test)
  {
    var one, two := Start(user, test, 0, now, {}), Start(user, test, 1, now, {ReadActive});
    AfterAppend(cat, [], one);
    AfterAppend(cat, [one], two);
    assert [] + [one] == [one] && [one] + [two] == [one, two];
    assert !HasActive(After(cat, []), user, test);
    assert Creates(cat, After(cat, []), one) && Creates(cat, After(cat, [one]), two);
  }

  /** `questions` lists a test's questions. */
  ghost predicate Lists(questions: seq<string>, cat: Catalogue, test: string) {
    Distinct(questions) && forall q :: q in questions <==> q in QuestionsOf(cat, test)
  }

  lemma {:induction false} ListLength(questions: seq<string>, members: set<string>)
    requires Distinct(questions) && forall q :: q in questions <==> q in members
    ensures |questions| == |members|
  {
    if questions != [] {
      var front, q := questions[..|questions|-1], questions[|questions|-1];
      assert questions == front + [q] && q in questions && q !in front;
      forall p ensures p in front <==> p in members - {q} {
        assert p in questions <==> p in front || p == q;
      }
      ListLength(front, members - {q});
    } else {
      assert members == {};
    }
  }

  const ONE: Answer -> int := (a: Answer) => 1

  lemma {:induction false} RowsBounded(questions: seq<string>, history: seq<Answer>)
    ensures 0 <= SumLast(ONE, questions, history) <= |questions|
  {
    if questions != [] {
      RowsBounded(questions[..|questions|-1], history);
    }
  }

  lemma {:induction false} LengthIsSum(rows: seq<Answer>)
    ensures |rows| == Sum(ONE, rows)
  {
    if rows != [] {
      LengthIsSum(rows[..|rows|-1]);
    }
  }

  /** The marks of the last answers to the questions, added up. */
  function MarksOf(questions: seq<string>, history: seq<Answer>): int {
    if questions == [] then 0
    else
      var last := LastFor(history, questions[|questions|-1]);
      MarksOf(questions[..|questions|-1], history) + if last.Some? then last.value.marks else 0
  }

  /** The questions whose last answer is correct, or else wrong. */
  function Judged(questions: seq<string>, history: seq<Answer>, correct: bool): set<string> {
    set q | q in questions && LastFor(history, q).Some? && LastFor(history, q).value.isCorrect == correct
  }

  lemma {:induction false} TotalsByQuestion(questions: seq<string>, history: seq<Answer>)
    requires Distinct(questions)
    ensures SumLast(MARKS, questions, history) == MarksOf(questions, history)
    ensures SumLast(CORRECT, questions, history) == |Judged(questions, history, true)|
    ensures SumLast(WRONG, questions, history) == |Judged(questions, history, false)|
  {
    if questions != [] {
      var front, q := questions[..|questions|-1], questions[|questions|-1];
      assert questions == front + [q] && q !in front;
      TotalsByQuestion(front, history);
      JudgedNext(front, q, history, true);
      JudgedNext(front, q, history, false);
    }
  }

  lemma JudgedNext(front: seq<string>, q: string, history: seq<Answer>, correct: bool)
    requires q !in front
    ensures |Judged(front + [q], history, correct)|
         == |Judged(front, history, correct)|
            + if LastFor(history, q).Some? && LastFor(history, q).value.isCorrect == correct then 1 else 0
  {
    if LastFor(history, q).Some? && LastFor(history, q).value.isCorrect == correct {
      assert Judged(front + [q], history, correct) == Judged(front, history, correct) + {q};
    } else {
      assert Judged(front + [q], history, correct) == Judged(front, history, correct);
    }
  }

  /** Scoring: if only the test's own questions were answered and the last submission's
      queries hid nothing, the score is the sum over the test's questions of the marks of the
      last answer to each, correct and wrong count the questions whose last answer is so, and
      correct, wrong and skipped add up to the number of questions. */
  lemma FinalScore(cat: Catalogue, ops: seq<Op>, id: nat, questions: seq<string>)
    requires id in After(cat, ops).attempts && After(cat, ops).attempts[id].status == Completed
    requires Lists(questions, cat, After(cat, ops).attempts[id].test)
    requires forall a :: a in Accepted(cat, ops, id) ==> a.question in questions
    ensures var att := After(cat, ops).attempts[id]; var history := Accepted(cat, ops, id);
            && LastSubmission(cat, ops, id).Some? && att.total == |questions|
            && (!Distorts(Rows(history), LastSubmission(cat, ops, id).value)
                <==> && att.score == Some(MarksOf(questions, history))
                     && att.correct == |Judged(questions, history, true)|
                     && att.wrong == |Judged(questions, history, false)|
                     && att.correct + att.wrong + att.skipped == |questions|)
  {
    var history := Accepted(cat, ops, id);
    var att := After(cat, ops).attempts[id];
    RunOk(cat, ops, id);
    SumIsOverLastAnswers(MARKS, questions, history);
    SumIsOverLastAnswers(CORRECT, questions, history);
    SumIsOverLastAnswers(WRONG, questions, history);
    SumIsOverLastAnswers(ONE, questions, history);
    TotalsByQuestion(questions, history);
    RowsBounded(questions, history);
    LengthIsSum(Rows(history));
    ListLength(questions, QuestionsOf(cat, att.test));
    PartsAddUpIff(att, Rows(history), LastSubmission(cat, ops, id).value);
    CountsAddUp(Rows(history));
  }

  /** The shortest whole attempt: one answer, then the submission. */
  lemma OneAnswer(cat: Catalogue, user: string, test: string, question: string, r: Response, now: int)
    requires test in cat.tests && question in QuestionsOf(cat, test)
    requires r.option.Some? ==> r.option.value in cat.options
    ensures var respond := Respond(user, 0, question, r, {});
            var s := After(cat, [Start(user, test, 0, now, {}), respond, Submit(user, 0, {})]);
            var a := Stored(cat, respond);
            && 0 in s.attempts && s.attempts[0].status == Completed && s.attempts[0].score == Some(a.marks)
            && s.attempts[0].correct == (if a.isCorrect then 1 else 0)
            && s.attempts[0].wrong == (if a.isCorrect then 0 else 1)
            && s.attempts[0].total == |QuestionsOf(cat, test)|
            && s.attempts[0].skipped == |QuestionsOf(cat, test)| - 1
  {
    var one, two, three := Start(user, test, 0, now, {}), Respond(user, 0, question, r, {}), Submit(user, 0, {});
    AfterAppend(cat, [], one);
    AfterAppend(cat, [one], two);
    AfterAppend(cat, [one, two], three);
    assert [] + [one] == [one] && [one] + [two] == [one, two] && [one, two] + [three] == [one, two, three];
    var s1, s2 := After(cat, [one]), After(cat, [one, two]);
    assert !HasActive(After(cat, []), user, test);
    assert s1.attempts[0].status == InProgress && s1.answers[0] == [];
    var row := Stored(cat, two);
    assert s2.answers[0] == [row] && s2.attempts == s1.attempts;
    assert [row][..0] == [];
    assert Sum(MARKS, [row]) == Sum(MARKS, []) + row.marks;
    assert Sum(CORRECT, [row]) == Sum(CORRECT, []) + if row.isCorrect then 1 else 0;
    assert Sum(WRONG, [row]) == Sum(WRONG, []) + if row.isCorrect then 0 else 1;
    assert |QuestionsOf(cat, test)| >= |{question}| by {
      assert QuestionsOf(cat, test) == {question} + (QuestionsOf(cat, test) - {question});
    }
  }

  // ----- After submission -----

  /** The call resubmits the attempt, and a failing query hides something. */
  predicate Spoils(s: State, op: Op, id: nat) {
    op.Submit? && op.attempt == id && Submits(s, op) && Distorts(RowsOf(s, id), op.faults)
  }

  ghost predicate Truthful(s: State, id: nat) {
    && id in s.attempts && s.attempts[id].status == Completed
    && s.attempts[id] == Graded(s.attempts[id], RowsOf(s, id), {})
  }

  lemma TruthfulIff(cat: Catalogue, ops: seq<Op>, id: nat)
    requires id in After(cat, ops).attempts && After(cat, ops).attempts[id].status == Completed
    ensures LastSubmission(cat, ops, id).Some?
    ensures var s := After(cat, ops);
            Truthful(s, id) <==> !Distorts(RowsOf(s, id), LastSubmission(cat, ops, id).value)
  {
    RunOk(cat, ops, id);
    GradedTrulyIff(After(cat, ops).attempts[id], RowsOf(After(cat, ops), id), LastSubmission(cat, ops, id).value);
  }

  /** A call changes a truthfully graded attempt exactly when it is a resubmission with such
      a failure; its answers no call changes. */
  lemma ChangesIff(cat: Catalogue, s: State, op: Op, id: nat)
    requires Truthful(s, id)
    ensures id in Step(cat, s, op).attempts && RowsOf(Step(cat, s, op), id) == RowsOf(s, id)
    ensures Step(cat, s, op).attempts[id] != s.attempts[id] <==> Spoils(s, op, id)
  {
    if op.Submit? && op.attempt == id && Submits(s, op) {
      GradedTrulyIff(s.attempts[id], RowsOf(s, id), op.faults);
    }
  }

  lemma AfterAppend(cat: Catalogue, ops: seq<Op>, op: Op)
    ensures After(cat, ops + [op]) == Step(cat, After(cat, ops), op)
  {
    assert (ops + [op])[..|ops|] == ops;
  }

  ghost predicate Unchanged(cat: Catalogue, ops: seq<Op>, more: seq<Op>, id: nat) {
    var s, s' := After(cat, ops), After(cat, ops + more);
    && id in s.attempts && id in s'.attempts && s'.attempts[id] == s.attempts[id] && RowsOf(s', id) == RowsOf(s, id)
  }

  /** Unchanged after each of the later calls. */
  ghost predicate StaysSame(cat: Catalogue, ops: seq<Op>, more: seq<Op>, id: nat) {
    more == [] || (StaysSame(cat, ops, more[..|more|-1], id) && Unchanged(cat, ops, more, id))
  }

  /** None of the later calls spoils the attempt. */
  ghost predicate NoneSpoils(cat: Catalogue, ops: seq<Op>, more: seq<Op>, id: nat) {
    more == [] ||
    (&& NoneSpoils(cat, ops, more[..|more|-1], id)
     && !Spoils(After(cat, ops + more[..|more|-1]), more[|more|-1], id))
  }

  lemma UnchangedStep(cat: Catalogue, ops: seq<Op>, more: seq<Op>, op: Op, id: nat)
    requires Truthful(After(cat, ops), id) && Unchanged(cat, ops, more, id)
    ensures Unchanged(cat, ops, more + [op], id) <==> !Spoils(After(cat, ops + more), op, id)
  {
    assert ops + (more + [op]) == (ops + more) + [op];
    AfterAppend(cat, ops + more, op);
    ChangesIff(cat, After(cat, ops + more), op, id);
  }

  /** A truthfully graded attempt stays as it is through any later calls, answers and
      resubmissions included, exactly as long as none of them spoils it. */
  lemma {:induction false} SubmittedIsFinalIff(cat: Catalogue, ops: seq<Op>, more: seq<Op>, id: nat)
    requires Truthful(After(cat, ops), id)
    ensures StaysSame(cat, ops, more, id) <==> NoneSpoils(cat, ops, more, id)
    ensures StaysSame(cat, ops, more, id) ==> Unchanged(cat, ops, more, id)
  {
    if more == [] {
      assert ops + [] == ops;
    } else {
      var front, op := more[..|more|-1], more[|more|-1];
      assert more == front + [op];
      SubmittedIsFinalIff(cat, ops, front, id);
      if StaysSame(cat, ops, front, id) {
        UnchangedStep(cat, ops, front, op, id);
      }
    }
  }

  /** Every submitted attempt can lose its score: its owner submits again and the sum of the
      marks fails. */
  lemma ResubmitLosesScore(cat: Catalogue, ops: seq<Op>, id: nat)
    requires id in After(cat, ops).attempts && After(cat, ops).attempts[id].status == Completed
    ensures var user := After(cat, ops).attempts[id].user;
            var s := After(cat, ops + [Submit(user, id, {SumMarks})]);
            id in s.attempts && s.attempts[id].status == Completed && s.attempts[id].score == None
  {
    AfterAppend(cat, ops, Submit(After(cat, ops).attempts[id].user, id, {SumMarks}));
  }
}
