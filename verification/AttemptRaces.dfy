/** Overlapping calls of internal/tests/service.go: StartAttempt, SubmitAnswer and
    SubmitAttempt as sequences of separate queries, over the tables and the serial calls of
    Attempts. There is no transaction and no lock. Each call carries the set of its queries
    that fail. */
module AttemptRaces {
  import opened Wrappers
  import opened Attempts

  /** Where a call stands; what it has read so far it keeps. */
  datatype Pc =
    | Begun
    | Inserting
    | Checked(row: Answer)
    | Counting
    | HalfCounted(correct: int)
    | Counted(correct: int, wrong: int)
    | Summed(correct: int, wrong: int, score: Option<int>)
    | Finished

  datatype Call = Call(op: Op, pc: Pc)

  datatype World = World(tables: State, calls: map<nat, Call>)

  datatype Action = Begin(p: nat, op: Op) | Advance(p: nat)

  // ----- Steps -----

  function To(w: World, p: nat, pc: Pc): World
    requires p in w.calls
  {
    w.(calls := w.calls[p := w.calls[p].(pc := pc)])
  }

  /** The insert of a start works. */
  predicate Inserts(cat: Catalogue, t: State, op: Op)
    requires op.Start?
  {
    Create !in op.faults && op.test in cat.tests && op.id !in t.attempts
  }

  /** The checks before an answer is written. */
  predicate Passes(cat: Catalogue, t: State, op: Op)
    requires op.Respond?
  {
    && {ReadAttempt, ReadQuestion} !! op.faults
    && op.attempt in t.attempts && t.attempts[op.attempt].user == op.user && t.attempts[op.attempt].status == InProgress
    && op.question in cat.questions
  }

  predicate Writes(cat: Catalogue, op: Op)
    requires op.Respond?
  {
    WriteAnswer !in op.faults && (op.response.option.Some? ==> op.response.option.value in cat.options)
  }

  predicate Owns(t: State, op: Op)
    requires op.Submit?
  {
    ReadAttempt !in op.faults && op.attempt in t.attempts && t.attempts[op.attempt].user == op.user
  }

  ghost function FirstRead(cat: Catalogue, t: State, op: Op): Pc {
    match op
    case Start(user, test, _, _, faults) =>
      if (ReadActive !in faults && HasActive(t, user, test)) || CountQuestions in faults then Finished else Inserting
    case Respond(_, _, _, _, _) => if Passes(cat, t, op) then Checked(Stored(cat, op)) else Finished
    case Submit(_, _, _) => if Owns(t, op) then Counting else Finished
  }

  function Inserted(cat: Catalogue, t: State, op: Op): State
    requires op.Start?
  {
    t.(attempts := t.attempts[op.id := Fresh(cat, op)], answers := t.answers[op.id := []])
  }

  function Answered(t: State, attempt: nat, row: Answer): State {
    t.(answers := t.answers[attempt := Upsert(RowsOf(t, attempt), row)])
  }

  function Submitted(t: State, attempt: nat, correct: int, wrong: int, score: Option<int>): State
    requires attempt in t.attempts
  {
    t.(attempts := t.attempts[attempt := GradedWith(t.attempts[attempt], correct, wrong, score)])
  }

  ghost function StepCall(cat: Catalogue, w: World, p: nat): World
    requires p in w.calls
  {
    var t, op, pc := w.tables, w.calls[p].op, w.calls[p].pc;
    match pc
    case Begun => To(w, p, FirstRead(cat, t, op))
    case Inserting =>
      if op.Start? && Inserts(cat, t, op) then To(w, p, Finished).(tables := Inserted(cat, t, op))
      else To(w, p, Finished)
    case Checked(row) =>
      if op.Respond? && Writes(cat, op) then To(w, p, Finished).(tables := Answered(t, op.attempt, row))
      else To(w, p, Finished)
    case Counting => if op.Submit? then To(w, p, HalfCounted(CorrectRead(RowsOf(t, op.attempt), op.faults))) else w
    case HalfCounted(correct) =>
      if op.Submit? then To(w, p, Counted(correct, WrongRead(RowsOf(t, op.attempt), op.faults))) else w
    case Counted(correct, wrong) =>
      if op.Submit? then To(w, p, Summed(correct, wrong, ScoreRead(RowsOf(t, op.attempt), op.faults))) else w
    case Summed(correct, wrong, score) =>
      if op.Submit? && op.attempt in t.attempts && WriteAttempt !in op.faults
      then To(w, p, Finished).(tables := Submitted(t, op.attempt, correct, wrong, score))
      else To(w, p, Finished)
    case Finished => w
  }

  ghost function Step(cat: Catalogue, w: World, a: Action): World {
    match a
    case Begin(p, op) => if p in w.calls then w else w.(calls := w.calls[p := Call(op, Begun)])
    case Advance(p) => if p in w.calls then StepCall(cat, w, p) else w
  }

  ghost function After(cat: Catalogue, w: World, run: seq<Action>): World {
    if run == [] then w else Step(cat, After(cat, w, run[..|run|-1]), run[|run|-1])
  }

  lemma AfterOne(cat: Catalogue, w: World, run: seq<Action>, a: Action)
    ensures After(cat, w, run + [a]) == Step(cat, After(cat, w, run), a)
  {
    assert (run + [a])[..|run|] == run;
  }

  // ----- One call on its own -----

  ghost function Advanced(cat: Catalogue, w: World, p: nat, n: nat): World {
    if n == 0 then w else Step(cat, Advanced(cat, w, p, n - 1), Advance(p))
  }

  /** A call that nothing overlaps does what the serial call does. */
  lemma SoloRun(cat: Catalogue, w: World, p: nat, op: Op)
    requires p !in w.calls
    ensures var end := Advanced(cat, Step(cat, w, Begin(p, op)), p, 5);
            p in end.calls && end.calls[p].pc == Finished && end.tables == Attempts.Step(cat, w.tables, op)
  {
    var w0 := Step(cat, w, Begin(p, op));
    match op
    case Start(_, _, _, _, _) => SoloStart(cat, w0, p);
    case Respond(_, _, _, _, _) => SoloRespond(cat, w0, p);
    case Submit(_, _, _) => SoloSubmit(cat, w0, p);
  }

  lemma Stays(cat: Catalogue, w: World, p: nat, n: nat, m: nat)
    requires n <= m && p in Advanced(cat, w, p, n).calls && Advanced(cat, w, p, n).calls[p].pc == Finished
    ensures Advanced(cat, w, p, m) == Advanced(cat, w, p, n)
    decreases m
  {
    if n < m {
      Stays(cat, w, p, n, m - 1);
    }
  }

  lemma SoloStart(cat: Catalogue, w: World, p: nat)
    requires p in w.calls && w.calls[p].pc == Begun && w.calls[p].op.Start?
    ensures var end := Advanced(cat, w, p, 5);
            p in end.calls && end.calls[p].pc == Finished && end.tables == Attempts.Step(cat, w.tables, w.calls[p].op)
  {
    var w1 := Advanced(cat, w, p, 1);
    assert w1 == Step(cat, Advanced(cat, w, p, 0), Advance(p)) == StepCall(cat, w, p);
    var w2 := Advanced(cat, w, p, 2);
    assert w2 == Step(cat, w1, Advance(p));
    assert w2.calls[p].pc == Finished;
    Stays(cat, w, p, 2, 5);
  }

  lemma SoloRespond(cat: Catalogue, w: World, p: nat)
    requires p in w.calls && w.calls[p].pc == Begun && w.calls[p].op.Respond?
    ensures var end := Advanced(cat, w, p, 5);
            p in end.calls && end.calls[p].pc == Finished && end.tables == Attempts.Step(cat, w.tables, w.calls[p].op)
  {
    var w1 := Advanced(cat, w, p, 1);
    assert w1 == Step(cat, Advanced(cat, w, p, 0), Advance(p)) == StepCall(cat, w, p);
    var w2 := Advanced(cat, w, p, 2);
    assert w2 == Step(cat, w1, Advance(p));
    assert w2.calls[p].pc == Finished;
    Stays(cat, w, p, 2, 5);
  }

  lemma SoloSubmit(cat: Catalogue, w: World, p: nat)
    requires p in w.calls && w.calls[p].pc == Begun && w.calls[p].op.Submit?
    ensures var end := Advanced(cat, w, p, 5);
            p in end.calls && end.calls[p].pc == Finished && end.tables == Attempts.Step(cat, w.tables, w.calls[p].op)
  {
    var w1 := Advanced(cat, w, p, 1);
    assert w1 == Step(cat, Advanced(cat, w, p, 0), Advance(p)) == StepCall(cat, w, p);
    if w1.calls[p].pc == Finished {
      Stays(cat, w, p, 1, 5);
    } else {
      var op := w.calls[p].op;
      var w2 := Advanced(cat, w, p, 2);
      assert w2 == Step(cat, w1, Advance(p));
      var w3 := Advanced(cat, w, p, 3);
      assert w3 == Step(cat, w2, Advance(p));
      var w4 := Advanced(cat, w, p, 4);
      assert w4 == Step(cat, w3, Advance(p));
      assert w4.tables == w.tables && w4.calls[p].op == op;
      assert Advanced(cat, w, p, 5) == Step(cat, w4, Advance(p));
    }
  }

  // ----- Two attempts in progress -----

  /** The step inserts an attempt while the user has another in progress at the test. */
  ghost predicate InsertsSecond(cat: Catalogue, w: World, a: Action) {
    && a.Advance? && a.p in w.calls && w.calls[a.p].pc.Inserting? && w.calls[a.p].op.Start?
    && Inserts(cat, w.tables, w.calls[a.p].op)
    && HasActive(w.tables, w.calls[a.p].op.user, w.calls[a.p].op.test)
  }

  lemma InsertIff(cat: Catalogue, t: State, op: Op)
    requires OneActive(t) && op.Start? && Inserts(cat, t, op)
    ensures OneActive(Inserted(cat, t, op)) <==> !HasActive(t, op.user, op.test)
  {
    var t' := Inserted(cat, t, op);
    if HasActive(t, op.user, op.test) {
      var i :| IsActive(t, i, op.user, op.test);
      assert !SameAttempt(t', i, op.id);
    } else {
      forall i, j ensures SameAttempt(t', i, j) {
        assert SameAttempt(t, i, j);
        assert !IsActive(t, i, op.user, op.test) && !IsActive(t, j, op.user, op.test);
      }
    }
  }

  lemma SubmittedOneActive(t: State, attempt: nat, correct: int, wrong: int, score: Option<int>)
    requires OneActive(t) && attempt in t.attempts
    ensures OneActive(Submitted(t, attempt, correct, wrong, score))
  {
    forall i, j ensures SameAttempt(Submitted(t, attempt, correct, wrong, score), i, j) {
      assert SameAttempt(t, i, j);
    }
  }

  /** Two attempts in progress arise exactly from an insert made while another is. */
  lemma SecondInsertIff(cat: Catalogue, w: World, a: Action)
    requires OneActive(w.tables)
    ensures OneActive(Step(cat, w, a).tables) <==> !InsertsSecond(cat, w, a)
  {
    if a.Advance? && a.p in w.calls {
      var t, op, pc := w.tables, w.calls[a.p].op, w.calls[a.p].pc;
      if pc.Inserting? && op.Start? && Inserts(cat, t, op) {
        InsertIff(cat, t, op);
      } else if pc.Summed? && op.Submit? && op.attempt in t.attempts {
        SubmittedOneActive(t, op.attempt, pc.correct, pc.wrong, pc.score);
      } else if pc.Checked? && op.Respond? {
        SameAttempts(t, Answered(t, op.attempt, pc.row));
      }
    }
  }

  lemma SameAttempts(t: State, t': State)
    requires t'.attempts == t.attempts
    ensures OneActive(t') <==> OneActive(t)
  {
    if OneActive(t) {
      forall i, j ensures SameAttempt(t', i, j) { assert SameAttempt(t, i, j); }
    } else {
      var i, j :| !SameAttempt(t, i, j);
      assert !SameAttempt(t', i, j);
    }
  }

  ghost predicate NeverTwo(cat: Catalogue, w: World, run: seq<Action>) {
    OneActive(After(cat, w, run).tables) && (run == [] || NeverTwo(cat, w, run[..|run|-1]))
  }

  ghost predicate NoSecondInsert(cat: Catalogue, w: World, run: seq<Action>) {
    run == [] ||
    (&& NoSecondInsert(cat, w, run[..|run|-1])
     && !InsertsSecond(cat, After(cat, w, run[..|run|-1]), run[|run|-1]))
  }

  /** Over every interleaving: no state has two attempts of a user in progress at a test,
      exactly when no step is such an insert. */
  lemma {:induction false} NeverTwoIff(cat: Catalogue, w: World, run: seq<Action>)
    requires OneActive(w.tables)
    ensures NeverTwo(cat, w, run) <==> NoSecondInsert(cat, w, run)
  {
    if run != [] {
      var front := run[..|run|-1];
      NeverTwoIff(cat, w, front);
      if NeverTwo(cat, w, front) {
        SecondInsertIff(cat, After(cat, w, front), run[|run|-1]);
      }
    }
  }

  /** The insert of an attempt for this user and test. */
  ghost predicate InsertsFor(cat: Catalogue, w: World, a: Action, user: string, test: string) {
    && a.Advance? && a.p in w.calls && w.calls[a.p].pc.Inserting? && w.calls[a.p].op.Start?
    && w.calls[a.p].op.user == user && w.calls[a.p].op.test == test && Inserts(cat, w.tables, w.calls[a.p].op)
  }

  lemma ActiveSince(cat: Catalogue, w: World, a: Action, user: string, test: string)
    requires !HasActive(w.tables, user, test) && HasActive(Step(cat, w, a).tables, user, test)
    ensures InsertsFor(cat, w, a, user, test)
  {
    var i :| IsActive(Step(cat, w, a).tables, i, user, test);
    assert !IsActive(w.tables, i, user, test);
  }

  /** At step r call p found no attempt in progress. */
  ghost predicate FoundNone(cat: Catalogue, w0: World, run: seq<Action>, r: nat, p: nat, op: Op)
    requires r < |run| && op.Start?
  {
    var w := After(cat, w0, run[..r]);
    && run[r] == Advance(p) && p in w.calls && w.calls[p] == Call(op, Begun) && !HasActive(w.tables, op.user, op.test)
  }

  lemma InsertingSince(cat: Catalogue, w: World, a: Action, p: nat)
    requires p in Step(cat, w, a).calls && Step(cat, w, a).calls[p].pc.Inserting?
    ensures p in w.calls && w.calls[p].op == Step(cat, w, a).calls[p].op
    ensures w.calls[p].pc.Inserting? || (a == Advance(p) && w.calls[p].pc.Begun?)
    ensures !w.calls[p].pc.Inserting? && ReadActive !in w.calls[p].op.faults ==>
              w.calls[p].op.Start? && !HasActive(w.tables, w.calls[p].op.user, w.calls[p].op.test)
  {
  }

  /** A start whose query worked and that is about to insert once found no attempt. */
  lemma {:induction false} InsertingFoundNone(cat: Catalogue, w0: World, run: seq<Action>, p: nat) returns (r: nat)
    requires w0.calls == map[] && p in After(cat, w0, run).calls && After(cat, w0, run).calls[p].pc.Inserting?
    requires After(cat, w0, run).calls[p].op.Start? && ReadActive !in After(cat, w0, run).calls[p].op.faults
    ensures r < |run| && FoundNone(cat, w0, run, r, p, After(cat, w0, run).calls[p].op)
  {
    var front, n := run[..|run|-1], |run| - 1;
    var w := After(cat, w0, front);
    InsertingSince(cat, w, run[n], p);
    if w.calls[p].pc.Inserting? {
      r := InsertingFoundNone(cat, w0, front, p);
      assert front[..r] == run[..r] && front[r] == run[r];
    } else {
      r := n;
    }
  }

  lemma {:induction false} InsertBetween(cat: Catalogue, w0: World, run: seq<Action>, r: nat,
                                         user: string, test: string)
    returns (i: nat)
    requires r <= |run| && !HasActive(After(cat, w0, run[..r]).tables, user, test)
    requires HasActive(After(cat, w0, run).tables, user, test)
    ensures r <= i < |run| && InsertsFor(cat, After(cat, w0, run[..i]), run[i], user, test)
  {
    assert run[..|run|] == run;
    if r == |run| {
      assert false;
    } else {
      var front, n := run[..|run|-1], |run| - 1;
      assert front[..r] == run[..r];
      if HasActive(After(cat, w0, front).tables, user, test) {
        i := InsertBetween(cat, w0, front, r, user, test);
        assert front[..i] == run[..i];
      } else {
        i := n;
        ActiveSince(cat, After(cat, w0, front), run[n], user, test);
      }
    }
  }

  /** What such an insert takes: the call's query for the active attempt failed, or another
      start inserted between that query and this insert. */
  lemma SecondNeedsFaultOrRace(cat: Catalogue, w0: World, run: seq<Action>, a: Action)
    requires w0.calls == map[] && InsertsSecond(cat, After(cat, w0, run), a)
    ensures var op := After(cat, w0, run).calls[a.p].op;
            || ReadActive in op.faults
            || exists r: nat, i: nat ::
                 && r < i < |run| && FoundNone(cat, w0, run, r, a.p, op)
                 && InsertsFor(cat, After(cat, w0, run[..i]), run[i], op.user, op.test) && run[i].p != a.p
  {
    var w := After(cat, w0, run);
    var op := w.calls[a.p].op;
    if ReadActive !in op.faults {
      var r := InsertingFoundNone(cat, w0, run, a.p);
      var i := InsertBetween(cat, w0, run, r, op.user, op.test);
      var before := After(cat, w0, run[..i]);
      assert i != r;
      if run[i].p == a.p {
        FinishedAfterInsert(cat, w0, run, i, a.p);
        assert false;
      }
    }
  }

  lemma {:induction false} FinishedAfterInsert(cat: Catalogue, w0: World, run: seq<Action>, i: nat, p: nat)
    requires i < |run| && run[i] == Advance(p)
    requires p in After(cat, w0, run[..i]).calls && After(cat, w0, run[..i]).calls[p].pc.Inserting?
    ensures p in After(cat, w0, run).calls && After(cat, w0, run).calls[p].pc == Finished
  {
    var front, n := run[..|run|-1], |run| - 1;
    if i == n {
      assert run[..i] == front;
    } else {
      assert front[..i] == run[..i];
      FinishedAfterInsert(cat, w0, front, i, p);
    }
  }

  /** Two starts that both look for an active attempt before either inserts. */
  function Overlapping(user: string, test: string, now: int): seq<Action> {
    [Begin(0, Start(user, test, 0, now, {})), Begin(1, Start(user, test, 1, now, {})),
     Advance(0), Advance(1), Advance(0), Advance(1)]
  }

  lemma AfterSix(cat: Catalogue, w: World, run: seq<Action>)
    requires |run| == 6
    ensures var w2 := Step(cat, Step(cat, w, run[0]), run[1]);
            var w4 := Step(cat, Step(cat, w2, run[2]), run[3]);
            After(cat, w, run) == Step(cat, Step(cat, w4, run[4]), run[5])
  {
    assert run[..0] == [];
    AfterOne(cat, w, run[..0], run[0]);
    AfterOne(cat, w, run[..1], run[1]);
    AfterOne(cat, w, run[..2], run[2]);
    AfterOne(cat, w, run[..3], run[3]);
    AfterOne(cat, w, run[..4], run[4]);
    AfterOne(cat, w, run[..5], run[5]);
    assert forall k :: 0 <= k < 6 ==> run[..k] + [run[k]] == run[..k + 1];
    assert run[..6] == run;
  }

  lemma OverlappingSteps(cat: Catalogue, user: string, test: string, now: int, w0: World)
    requires test in cat.tests && w0 == World(State(map[], map[]), map[])
    ensures var run := Overlapping(user, test, now);
            var w2 := Step(cat, Step(cat, w0, run[0]), run[1]);
            var w4 := Step(cat, Step(cat, w2, run[2]), run[3]);
            && w4.tables == w0.tables
            && w4.calls == map[0 := Call(run[0].op, Inserting), 1 := Call(run[1].op, Inserting)]
  {
    var run := Overlapping(user, test, now);
    var w2 := Step(cat, Step(cat, w0, run[0]), run[1]);
    assert w2.tables == w0.tables && w2.calls == map[0 := Call(run[0].op, Begun), 1 := Call(run[1].op, Begun)];
    assert !HasActive(w0.tables, user, test);
  }

  /** Two overlapping starts, no query failing, open two attempts. */
  lemma TwoStarts(cat: Catalogue, user: string, test: string, now: int)
    requires test in cat.tests
    ensures var t := After(cat, World(State(map[], map[]), map[]), Overlapping(user, test, now)).tables;
            IsActive(t, 0, user, test) && IsActive(t, 1, user, test)
  {
    var w0 := World(State(map[], map[]), map[]);
    AfterSix(cat, w0, Overlapping(user, test, now));
    OverlappingSteps(cat, user, test, now, w0);
  }

  // ----- After submission -----

  /** What the pending submission will write if the answers stay as they are. */
  function WillGrade(t: State, op: Op, pc: Pc): Attempt
    requires op.Submit? && op.attempt in t.attempts
  {
    var rows := RowsOf(t, op.attempt);
    var correct := if pc.HalfCounted? || pc.Counted? || pc.Summed? then pc.correct else CorrectRead(rows, op.faults);
    var wrong := if pc.Counted? || pc.Summed? then pc.wrong else WrongRead(rows, op.faults);
    var score := if pc.Summed? then pc.score else ScoreRead(rows, op.faults);
    GradedWith(t.attempts[op.attempt], correct, wrong, score)
  }

  /** An answer that passed its check and will change the attempt's answers. */
  ghost predicate LateAnswer(cat: Catalogue, w: World, p: nat, id: nat) {
    && p in w.calls && w.calls[p].op.Respond? && w.calls[p].pc.Checked? && w.calls[p].op.attempt == id
    && Writes(cat, w.calls[p].op) && Upsert(RowsOf(w.tables, id), w.calls[p].pc.row) != RowsOf(w.tables, id)
  }

  /** A submission in flight that will write something else than the attempt shows. */
  ghost predicate LateSubmission(w: World, p: nat, id: nat) {
    && p in w.calls && w.calls[p].op.Submit? && w.calls[p].op.attempt == id && id in w.tables.attempts
    && WriteAttempt !in w.calls[p].op.faults && !w.calls[p].pc.Finished?
    && !w.calls[p].pc.Inserting? && !w.calls[p].pc.Checked?
    && (w.calls[p].pc.Begun? ==> Owns(w.tables, w.calls[p].op))
    && WillGrade(w.tables, w.calls[p].op, w.calls[p].pc) != w.tables.attempts[id]
  }

  ghost predicate Threatened(cat: Catalogue, w: World, p: nat, id: nat) {
    LateAnswer(cat, w, p, id) || LateSubmission(w, p, id)
  }

  ghost predicate Same(t: State, t': State, id: nat) {
    && id in t.attempts && id in t'.attempts && t'.attempts[id] == t.attempts[id] && RowsOf(t', id) == RowsOf(t, id)
  }

  /** None of the calls begun is a submission by the owner with a failure that hides
      something. */
  ghost predicate NoSpoilingCalls(t: State, run: seq<Action>, id: nat) {
    forall a :: a in run && a.Begin? ==> !Spoils(t, a.op, id)
  }

  ghost predicate Calm(cat: Catalogue, w: World, id: nat) {
    forall p :: p in w.calls ==> !Threatened(cat, w, p, id)
  }

  lemma SpoilsSame(t: State, t': State, op: Op, id: nat)
    requires Same(t, t', id)
    ensures Spoils(t', op, id) <==> Spoils(t, op, id)
  {
  }

  lemma TruthfulSame(t: State, t': State, id: nat)
    requires Same(t, t', id)
    ensures Truthful(t', id) <==> Truthful(t, id)
  {
  }

  /** Threats depend only on the call, the attempt and its answers. */
  lemma ThreatFrame(cat: Catalogue, w: World, w': World, p: nat, id: nat)
    requires Same(w.tables, w'.tables, id) && p in w.calls && p in w'.calls && w'.calls[p] == w.calls[p]
    ensures Threatened(cat, w', p, id) <==> Threatened(cat, w, p, id)
  {
  }

  lemma BeginCalm(cat: Catalogue, w: World, p: nat, op: Op, id: nat)
    requires Calm(cat, w, id) && Truthful(w.tables, id) && !Spoils(w.tables, op, id)
    ensures Calm(cat, Step(cat, w, Begin(p, op)), id)
  {
    var w' := Step(cat, w, Begin(p, op));
    forall q | q in w'.calls ensures !Threatened(cat, w', q, id) {
      if q in w.calls {
        ThreatFrame(cat, w, w', q, id);
      } else if op.Submit? && op.attempt == id && Submits(w.tables, op) {
        GradedTrulyIff(w.tables.attempts[id], RowsOf(w.tables, id), op.faults);
      }
    }
  }

  /** A call that is no threat leaves the attempt alone and becomes none. */
  lemma HarmlessStep(cat: Catalogue, w: World, p: nat, id: nat)
    requires Truthful(w.tables, id) && p in w.calls && !Threatened(cat, w, p, id)
    ensures Same(w.tables, StepCall(cat, w, p).tables, id)
    ensures p in StepCall(cat, w, p).calls && !Threatened(cat, StepCall(cat, w, p), p, id)
  {
    var op, pc := w.calls[p].op, w.calls[p].pc;
    match pc
    case Begun =>
    case Inserting =>
    case Checked(row) =>
    case Counting =>
    case HalfCounted(_) =>
    case Counted(_, _) =>
    case Summed(_, _, _) =>
    case Finished =>
  }

  lemma AdvanceCalm(cat: Catalogue, w: World, p: nat, id: nat)
    requires Calm(cat, w, id) && Truthful(w.tables, id) && p in w.calls
    ensures Calm(cat, StepCall(cat, w, p), id) && Same(w.tables, StepCall(cat, w, p).tables, id)
  {
    var w' := StepCall(cat, w, p);
    HarmlessStep(cat, w, p, id);
    OthersKept(cat, w, p);
    forall q | q in w'.calls ensures !Threatened(cat, w', q, id) {
      if q != p {
        ThreatFrame(cat, w, w', q, id);
      }
    }
  }

  lemma OthersKept(cat: Catalogue, w: World, p: nat)
    requires p in w.calls
    ensures StepCall(cat, w, p).calls.Keys == w.calls.Keys
    ensures forall q :: q in w.calls && q != p ==> StepCall(cat, w, p).calls[q] == w.calls[q]
  {
  }

  lemma {:induction false} CalmRun(cat: Catalogue, w: World, run: seq<Action>, id: nat)
    requires Calm(cat, w, id) && Truthful(w.tables, id) && NoSpoilingCalls(w.tables, run, id)
    ensures Calm(cat, After(cat, w, run), id) && Same(w.tables, After(cat, w, run).tables, id)
    ensures Truthful(After(cat, w, run).tables, id)
  {
    if run != [] {
      var front, a := run[..|run|-1], run[|run|-1];
      assert a in run && forall b :: b in front ==> b in run;
      CalmRun(cat, w, front, id);
      var mid := After(cat, w, front);
      match a
      case Begin(p, op) =>
        SpoilsSame(w.tables, mid.tables, op, id);
        BeginCalm(cat, mid, p, op, id);
      case Advance(p) =>
        if p in mid.calls {
          AdvanceCalm(cat, mid, p, id);
          TruthfulSame(mid.tables, StepCall(cat, mid, p).tables, id);
        }
    }
  }

  function Rank(pc: Pc): nat {
    match pc
    case Begun => 4 case Counting => 3 case HalfCounted(_) => 2 case Counted(_, _) => 1 case _ => 0
  }

  lemma LateSubmissionStep(cat: Catalogue, w: World, p: nat, id: nat)
    requires LateSubmission(w, p, id)
    ensures !w.calls[p].pc.Summed? ==>
              && LateSubmission(StepCall(cat, w, p), p, id) && StepCall(cat, w, p).tables == w.tables
              && Rank(StepCall(cat, w, p).calls[p].pc) < Rank(w.calls[p].pc)
    ensures w.calls[p].pc.Summed? ==> !Same(w.tables, StepCall(cat, w, p).tables, id)
  {
  }

  /** A late submission, left to run, changes the attempt. */
  lemma {:induction false} LateSubmissionLands(cat: Catalogue, w: World, p: nat, id: nat) returns (n: nat)
    requires LateSubmission(w, p, id)
    ensures !Same(w.tables, Onward(cat, w, p, n).tables, id)
    decreases Rank(w.calls[p].pc)
  {
    LateSubmissionStep(cat, w, p, id);
    if w.calls[p].pc.Summed? {
      n := 1;
      assert Onward(cat, w, p, 1) == Onward(cat, StepCall(cat, w, p), p, 0);
    } else {
      var m := LateSubmissionLands(cat, StepCall(cat, w, p), p, id);
      n := m + 1;
    }
  }

  ghost function Onward(cat: Catalogue, w: World, p: nat, n: nat): World
    decreases n
  {
    if n == 0 then w else Onward(cat, Step(cat, w, Advance(p)), p, n - 1)
  }

  function Advances(p: nat, n: nat): (run: seq<Action>)
    ensures forall a :: a in run ==> a == Advance(p)
  {
    if n == 0 then [] else [Advance(p)] + Advances(p, n - 1)
  }

  lemma {:induction false} AfterFirst(cat: Catalogue, w: World, a: Action, rest: seq<Action>)
    ensures After(cat, w, [a] + rest) == After(cat, Step(cat, w, a), rest)
  {
    if rest == [] {
      assert [a] + rest == [a] && [a][..0] == [];
    } else {
      AfterFirst(cat, w, a, rest[..|rest|-1]);
      assert ([a] + rest)[..|rest|] == [a] + rest[..|rest|-1];
    }
  }

  lemma {:induction false} OnwardIsAfter(cat: Catalogue, w: World, p: nat, n: nat)
    ensures Onward(cat, w, p, n) == After(cat, w, Advances(p, n))
    decreases n
  {
    if n > 0 {
      OnwardIsAfter(cat, Step(cat, w, Advance(p)), p, n - 1);
      AfterFirst(cat, w, Advance(p), Advances(p, n - 1));
    }
  }

  lemma LateAnswerLands(cat: Catalogue, w: World, p: nat, id: nat)
    requires LateAnswer(cat, w, p, id)
    ensures !Same(w.tables, Onward(cat, w, p, 1).tables, id)
  {
    assert Onward(cat, w, p, 1) == Onward(cat, Step(cat, w, Advance(p)), p, 0);
  }

  /** The attempt and its answers stay the same through every continuation without a
      spoiling call. */
  ghost predicate Final(cat: Catalogue, w: World, id: nat) {
    forall run :: NoSpoilingCalls(w.tables, run, id) ==> Same(w.tables, After(cat, w, run).tables, id)
  }

  /** A truthfully graded attempt is final exactly when no answer that passed its check
      before the submission is still to be written with an effect, and no submission in
      flight holds other values. */
  lemma FinalIff(cat: Catalogue, w: World, id: nat)
    requires Truthful(w.tables, id)
    ensures Final(cat, w, id) <==> Calm(cat, w, id)
  {
    if Calm(cat, w, id) {
      forall run | NoSpoilingCalls(w.tables, run, id) ensures Same(w.tables, After(cat, w, run).tables, id) {
        CalmRun(cat, w, run, id);
      }
    } else {
      var p :| p in w.calls && Threatened(cat, w, p, id);
      var n := 1;
      if LateAnswer(cat, w, p, id) {
        LateAnswerLands(cat, w, p, id);
      } else {
        n := LateSubmissionLands(cat, w, p, id);
      }
      OnwardIsAfter(cat, w, p, n);
      assert NoSpoilingCalls(w.tables, Advances(p, n), id);
    }
  }

  /** In particular when no call about the attempt is in flight. */
  lemma QuietIsFinal(cat: Catalogue, w: World, id: nat)
    requires Truthful(w.tables, id)
    requires forall p :: p in w.calls && (w.calls[p].op.Respond? || w.calls[p].op.Submit?) ==>
               w.calls[p].op.attempt != id || w.calls[p].pc.Finished?
    ensures Final(cat, w, id)
  {
    FinalIff(cat, w, id);
  }

  /** An answer that passed its check lands after a submission that saw none of it: the
      attempt shows a score of 0 for answers worth something. */
  lemma LateAnswerSpoils(cat: Catalogue, w: World, p: nat, q: nat, id: nat)
    requires p in w.calls && w.calls[p].op.Respond? && w.calls[p].op.attempt == id && w.calls[p].pc.Checked?
    requires Writes(cat, w.calls[p].op) && w.calls[p].pc.row.marks != 0 && q !in w.calls
    requires id in w.tables.attempts && RowsOf(w.tables, id) == []
    ensures var submit := Submit(w.tables.attempts[id].user, id, {});
            var done := Advanced(cat, Step(cat, w, Begin(q, submit)), q, 5);
            var end := Step(cat, done, Advance(p));
            && Truthful(done.tables, id) && LateAnswer(cat, done, p, id)
            && id in end.tables.attempts && end.tables.attempts[id].score == Some(0)
            && Sum(MARKS, RowsOf(end.tables, id)) != 0 && !Truthful(end.tables, id)
  {
    var submit := Submit(w.tables.attempts[id].user, id, {});
    var begun := Step(cat, w, Begin(q, submit));
    SoloRun(cat, w, q, submit);
    CallKept(cat, begun, q, p, 5);
    var done := Advanced(cat, begun, q, 5);
    assert RowsOf(done.tables, id) == [] && done.tables.attempts[id].score == Some(0);
    var row := w.calls[p].pc.row;
    assert Upsert([], row) == [row];
    assert [row][..0] == [];
    assert Sum(MARKS, [row]) == Sum(MARKS, []) + row.marks;
  }

  lemma {:induction false} CallKept(cat: Catalogue, w: World, p: nat, q: nat, n: nat)
    requires q in w.calls && p in w.calls && p != q
    ensures p in Advanced(cat, w, p, n).calls && q in Advanced(cat, w, p, n).calls
    ensures Advanced(cat, w, p, n).calls[q] == w.calls[q]
  {
    if n > 0 {
      CallKept(cat, w, p, q, n - 1);
      OthersKept(cat, Advanced(cat, w, p, n - 1), p);
    }
  }
}
