/** The adaptive tutor's score keeping (SARA_AI_Product_Manager_Adaptive_Tutor_UNIFIED.py):
    mastery rows against the log of attempts, level and difficulty as they follow from it, and
    the balanced answer positions. Mastery values are exact reals. */
module TutorScoring {
  import opened Outcomes

  datatype Mastery = Mastery(attempts: nat, firstTryCorrect: nat, eventualCorrect: nat, streak: nat, level: real,
    difficulty: int)

  datatype Question = Question(learner: string, competency: string, difficulty: int, answered: bool)

  datatype Attempt = Attempt(learner: string, question: string, choice: int, correct: bool)

  /** A learner and a competency. */
  type Key = (string, string)

  datatype State = State(questions: map<string, Question>, attempts: seq<Attempt>, mastery: map<Key, Mastery>)

  datatype Error = QuestionNotFound | AlreadyCompleted

  // ---------------------------------------------------------------- one answer, as functions

  function Initial(difficulty: int): Mastery {
    Mastery(0, 0, 0, 0, 0.25, difficulty)
  }

  function Promoted(m: Mastery): Mastery {
    if m.streak < 4 || m.level < 0.55 then m
    else m.(difficulty := if m.difficulty < 4 then m.difficulty + 1 else 5, streak := 0)
  }

  function Update(m: Mastery, correct: bool, firstTry: bool): Mastery {
    if correct then
      var raised := m.level + (if firstTry then 0.10 else 0.05);
      Promoted(Mastery(m.attempts + 1, m.firstTryCorrect + (if firstTry then 1 else 0), m.eventualCorrect + 1,
        m.streak + 1,
        if raised < 1.0 then raised else 1.0, m.difficulty))
    else
      var level := if m.level - 0.12 > 0.0 then m.level - 0.12 else 0.0;
      var difficulty := if level < 0.35 then (if m.difficulty - 1 > 1 then m.difficulty - 1 else 1) else m.difficulty;
      Mastery(m.attempts + 1, m.firstTryCorrect, m.eventualCorrect, 0, level, difficulty)
  }

  /** The engine's update of a copy, field by field. */
  method UpdateMastery(m: Mastery, correct: bool, firstTry: bool) returns (updated: Mastery)
    ensures updated == Update(m, correct, firstTry)
    ensures InRange(m) ==> InRange(updated)
  {
    updated := m.(attempts := m.attempts + 1);
    if correct {
      updated := updated.(eventualCorrect := updated.eventualCorrect + 1);
      if firstTry { updated := updated.(firstTryCorrect := updated.firstTryCorrect + 1); }
      updated := updated.(streak := updated.streak + 1);
      var raised := updated.level + (if firstTry then 0.10 else 0.05);
      updated := updated.(level := if raised < 1.0 then raised else 1.0);
      if updated.streak >= 4 && updated.level >= 0.55 {
        updated := updated.(difficulty := if updated.difficulty < 4 then updated.difficulty + 1 else 5, streak := 0);
      }
    } else {
      var lowered := updated.level - 0.12;
      updated := updated.(streak := 0, level := if lowered > 0.0 then lowered else 0.0);
      if updated.level < 0.35 {
        updated := updated.(difficulty := if updated.difficulty - 1 > 1 then updated.difficulty - 1 else 1);
      }
    }
  }

  /** A right answer after wrong ones. */
  function Recover(m: Mastery): Mastery {
    Promoted(m.(eventualCorrect := m.eventualCorrect + 1, streak := m.streak + 1))
  }

  function Tried(attempts: seq<Attempt>, learner: string, question: string): nat {
    if attempts == [] then 0
    else
      var last := attempts[|attempts| - 1];
      Tried(attempts[..|attempts| - 1], learner, question)
        + (if last.learner == learner && last.question == question then 1 else 0)
  }

  function Score(st: State, learner: string, id: string, choice: int, correct: bool): (State, Result<Mastery, Error>) {
    if id !in st.questions || st.questions[id].learner != learner then (st, Err(QuestionNotFound))
    else if st.questions[id].answered then (st, Err(AlreadyCompleted))
    else
      var q := st.questions[id];
      var key := (learner, q.competency);
      var prior := Tried(st.attempts, learner, id);
      var current := if key in st.mastery then st.mastery[key] else Initial(q.difficulty);
      var next := if prior == 0 then Update(current, correct, correct) else if correct then Recover(current)
        else current;
      // the UPDATE of a later answer does not create a row
      var mastery := if prior == 0 || (correct && key in st.mastery) then st.mastery[key := next] else st.mastery;
      (State(if correct then st.questions[id := q.(answered := true)] else st.questions,
             st.attempts + [Attempt(learner, id, choice, correct)], mastery),
       Ok(next))
  }

  // ---------------------------------------------------------------- the store, in place

  class Store {
    var questions: map<string, Question>
    var attempts: seq<Attempt>
    var mastery: map<Key, Mastery>
    var positions: seq<nat>

    ghost function Contents(): State
      reads this
    {
      State(questions, attempts, mastery)
    }

    constructor ()
      ensures Contents() == State(map[], [], map[]) && positions == [0, 0, 0, 0]
    {
      questions, attempts, mastery, positions := map[], [], map[], [0, 0, 0, 0];
    }

    method CountAttempts(learner: string, question: string) returns (n: nat)
      ensures n == Tried(attempts, learner, question)
    {
      n := 0;
      for i := 0 to |attempts|
        invariant n == Tried(attempts[..i], learner, question)
      {
        assert attempts[..i + 1][..i] == attempts[..i];
        if attempts[i].learner == learner && attempts[i].question == question { n := n + 1; }
      }
      assert attempts[..|attempts|] == attempts;
    }

    method ScoreAnswer(learner: string, id: string, choice: int, correct: bool) returns (result: Result<Mastery, Error>)
      modifies this
      ensures (Contents(), result) == Score(old(Contents()), learner, id, choice, correct)
      ensures positions == old(positions)
    {
      if id !in questions || questions[id].learner != learner { return Err(QuestionNotFound); }
      var question := questions[id];
      if question.answered { return Err(AlreadyCompleted); }
      var prior := CountAttempts(learner, id);
      attempts := attempts + [Attempt(learner, id, choice, correct)];
      if correct { questions := questions[id := question.(answered := true)]; }
      var key := (learner, question.competency);
      var current := if key in mastery then mastery[key] else Initial(question.difficulty);
      if prior == 0 {
        current := UpdateMastery(current, correct, correct);
        mastery := mastery[key := current];
      } else if correct {
        current := current.(eventualCorrect := current.eventualCorrect + 1, streak := current.streak + 1);
        if current.streak >= 4 && current.level >= 0.55 {
          current := current.(difficulty := if current.difficulty < 4 then current.difficulty + 1 else 5, streak := 0);
        }
        if key in mastery { mastery := mastery[key := current]; }
      }
      return Ok(current);
    }

    /** `pick` stands for the random choice among the least used positions. */
    method AllocateAnswerPosition(pick: nat) returns (selected: nat)
      requires |positions| == 4
      modifies this`positions
      ensures selected < 4 && positions == old(positions)[selected := old(positions)[selected] + 1]
      ensures forall i :: 0 <= i < 4 ==> old(positions)[selected] <= old(positions)[i]
      ensures Balanced(old(positions)) ==> Balanced(positions)
    {
      var minimum := positions[0];
      for i := 1 to 4
        invariant forall j :: 0 <= j < i ==> minimum <= positions[j]
        invariant exists j :: 0 <= j < 4 && positions[j] == minimum
      {
        if positions[i] < minimum { minimum := positions[i]; }
      }
      var least: seq<nat> := [];
      for i := 0 to 4
        invariant forall x :: x in least <==> 0 <= x < i && positions[x] == minimum
      {
        if positions[i] == minimum { least := least + [i]; }
      }
      var some :| 0 <= some < 4 && positions[some] == minimum;
      assert some in least;
      selected := least[pick % |least|];
      assert selected in least;
      positions := positions[selected := positions[selected] + 1];
    }
  }

  /** No position is ahead of another by more than one. */
  ghost predicate Balanced(positions: seq<nat>) {
    forall i, j :: 0 <= i < |positions| && 0 <= j < |positions| ==> positions[i] <= positions[j] + 1
  }

  // ---------------------------------------------------------------- runs

  datatype Event =
    | Add(id: string, learner: string, competency: string, difficulty: int)
    | Answer(learner: string, id: string, choice: int, correct: bool)

  /** A new question has a new id and a difficulty the generator allows. */
  function Step(st: State, e: Event): State {
    match e
    case Add(id, learner, competency, difficulty) =>
      if id in st.questions || !(1 <= difficulty <= 5) then st
      else st.(questions := st.questions[id := Question(learner, competency, difficulty, false)])
    case Answer(learner, id, choice, correct) => Score(st, learner, id, choice, correct).0
  }

  function Run(events: seq<Event>): State {
    if events == [] then State(map[], [], map[]) else Step(Run(events[..|events| - 1]), events[|events| - 1])
  }

  // ---------------------------------------------------------------- what the log says

  /** The answers given to a question, in order. */
  function On(attempts: seq<Attempt>, id: string): seq<bool> {
    if attempts == [] then []
    else
      var last := attempts[|attempts| - 1];
      On(attempts[..|attempts| - 1], id) + (if last.question == id then [last.correct] else [])
  }

  predicate Of(st: State, id: string, key: Key) {
    id in st.questions && (st.questions[id].learner, st.questions[id].competency) == key
  }

  function Attempted(st: State, key: Key): set<string> {
    set id | id in st.questions && Of(st, id, key) && On(st.attempts, id) != []
  }

  function RightAtOnce(st: State, key: Key): set<string> {
    set id | id in st.questions && Of(st, id, key) && On(st.attempts, id) != [] && On(st.attempts, id)[0]
  }

  function Solved(st: State, key: Key): set<string> {
    set id | id in st.questions && Of(st, id, key) && true in On(st.attempts, id)
  }

  function RowOf(st: State, key: Key): Mastery {
    if key in st.mastery then st.mastery[key] else Initial(1)
  }

  ghost predicate InRange(m: Mastery) {
    0.0 <= m.level <= 1.0 && 1 <= m.difficulty <= 5
  }

  /** A question's answers: right at most once, and then no more; the flag says so. */
  ghost predicate QuestionOk(st: State, id: string)
    requires id in st.questions
  {
    var answers := On(st.attempts, id);
    && 1 <= st.questions[id].difficulty <= 5
    && (forall i :: 0 <= i < |answers| - 1 ==> !answers[i])
    && (st.questions[id].answered <==> answers != [] && answers[|answers| - 1])
    && Tried(st.attempts, st.questions[id].learner, id) == |answers|
  }

  ghost predicate RowOk(st: State, key: Key) {
    var m := RowOf(st, key);
    && m.attempts == |Attempted(st, key)| && m.firstTryCorrect == |RightAtOnce(st, key)|
      && m.eventualCorrect == |Solved(st, key)|
    && InRange(m) && (key !in st.mastery <==> Attempted(st, key) == {})
  }

  ghost predicate Inv(st: State) {
    && (forall id :: id in st.questions ==> QuestionOk(st, id))
    && (forall key :: RowOk(st, key))
    && (forall i :: 0 <= i < |st.attempts| ==> st.attempts[i].question in st.questions)
  }

  lemma {:induction false} NothingOnUnknown(attempts: seq<Attempt>, id: string)
    requires forall i :: 0 <= i < |attempts| ==> attempts[i].question != id
    ensures On(attempts, id) == [] && forall learner :: Tried(attempts, learner, id) == 0
    decreases attempts
  {
    if attempts != [] { NothingOnUnknown(attempts[..|attempts| - 1], id); }
  }

  lemma RowsKept(st: State, next: State, id: string)
    requires id !in st.questions && On(st.attempts, id) == [] && next.attempts == st.attempts
      && next.mastery == st.mastery
    requires next.questions.Keys == st.questions.Keys + {id} && forall q :: q in st.questions ==>
      next.questions[q] == st.questions[q]
    ensures forall key :: RowOk(st, key) ==> RowOk(next, key)
  {
    forall key ensures RowOk(st, key) ==> RowOk(next, key) {
      assert Attempted(next, key) == Attempted(st, key) && RightAtOnce(next, key) == RightAtOnce(st, key)
        && Solved(next, key) == Solved(st, key);
    }
  }

  lemma InvAdd(st: State, id: string, learner: string, competency: string, difficulty: int)
    requires Inv(st) && id !in st.questions
    ensures Inv(Step(st, Add(id, learner, competency, difficulty)))
  {
    var next := Step(st, Add(id, learner, competency, difficulty));
    if next != st {
      NothingOnUnknown(st.attempts, id);
      forall q | q in next.questions ensures QuestionOk(next, q) {
        if q != id { assert QuestionOk(st, q); }
      }
      RowsKept(st, next, id);
    }
  }

  /** How one more answer changes what the log says about a question. */
  lemma AnswersGrow(attempts: seq<Attempt>, a: Attempt)
    ensures forall id :: On(attempts + [a], id) == On(attempts, id) + (if id == a.question then [a.correct] else [])
    ensures forall learner, id ::
      Tried(attempts + [a], learner, id) ==
      Tried(attempts, learner, id) + (if learner == a.learner && id == a.question then 1 else 0)
  {
    assert (attempts + [a])[..|attempts|] == attempts;
  }

  /** The three sets after an answer: each grows by this question or not at all. */
  lemma SetsGrow(st: State, next: State, a: Attempt, key: Key)
    requires a.question in st.questions && next.attempts == st.attempts + [a]
    requires next.questions.Keys == st.questions.Keys
    requires forall id :: id in st.questions ==>
      next.questions[id].(answered := st.questions[id].answered) == st.questions[id]
    ensures var answers := On(st.attempts, a.question); var mine := Of(st, a.question, key); var one := {a.question};
      && Attempted(next, key) == Attempted(st, key) + (if mine then one else {})
      && RightAtOnce(next, key) == RightAtOnce(st, key) + (if mine && answers == [] && a.correct then one else {})
      && Solved(next, key) == Solved(st, key) + (if mine && a.correct then one else {})
  {
    AnswersGrow(st.attempts, a);
    forall id | id in st.questions ensures Of(next, id, key) <==> Of(st, id, key) {}
    var answers := On(st.attempts, a.question);
    assert answers != [] ==> (answers + [a.correct])[0] == answers[0];
    assert true in answers + [a.correct] <==> true in answers || a.correct;
  }

  /** One answer keeps a row in range. */
  lemma RangesKept(m: Mastery, correct: bool, firstTry: bool)
    requires InRange(m)
    ensures InRange(Update(m, correct, firstTry)) && InRange(Recover(m))
  {
  }

  lemma OtherRowsKept(st: State, next: State, a: Attempt, key: Key)
    requires a.question in st.questions && next.attempts == st.attempts + [a]
    requires next.questions.Keys == st.questions.Keys
    requires forall id :: id in st.questions ==>
      next.questions[id].(answered := st.questions[id].answered) == st.questions[id]
    requires key in next.mastery <==> key in st.mastery
    requires RowOf(next, key) == RowOf(st, key) && RowOk(st, key) && !Of(st, a.question, key)
    ensures RowOk(next, key)
  {
    SetsGrow(st, next, a, key);
  }

  lemma Grown(xs: set<string>, x: string, grows: bool)
    ensures |xs + (if grows then {x} else {})| == |xs| + (if grows && x !in xs then 1 else 0)
  {
    if grows && x in xs { assert xs + {x} == xs; }
  }

  /** What one answer does to the counts of its own row. */
  lemma CountsGrow(st: State, next: State, a: Attempt, key: Key)
    requires Of(st, a.question, key) && next.attempts == st.attempts + [a]
    requires next.questions.Keys == st.questions.Keys
    requires forall id :: id in st.questions ==>
      next.questions[id].(answered := st.questions[id].answered) == st.questions[id]
    requires true !in On(st.attempts, a.question)
    ensures var first := On(st.attempts, a.question) == [];
      && |Attempted(next, key)| == |Attempted(st, key)| + (if first then 1 else 0)
      && |RightAtOnce(next, key)| == |RightAtOnce(st, key)| + (if first && a.correct then 1 else 0)
      && |Solved(next, key)| == |Solved(st, key)| + (if a.correct then 1 else 0)
      && a.question in Attempted(next, key)
  {
    var id, first := a.question, On(st.attempts, a.question) == [];
    SetsGrow(st, next, a, key);
    assert id in Attempted(st, key) <==> !first;
    assert id !in RightAtOnce(st, key) by { assert !first ==> On(st.attempts, id)[0] in On(st.attempts, id); }
    assert id !in Solved(st, key);
    Grown(Attempted(st, key), id, true);
    Grown(RightAtOnce(st, key), id, first && a.correct);
    Grown(Solved(st, key), id, a.correct);
  }

  lemma OwnRowKept(st: State, learner: string, id: string, choice: int, correct: bool, key: Key)
    requires Score(st, learner, id, choice, correct).1.Ok? && RowOk(st, key) && Of(st, id, key) && QuestionOk(st, id)
    ensures RowOk(Score(st, learner, id, choice, correct).0, key)
  {
    CountsGrow(st, Score(st, learner, id, choice, correct).0, Attempt(learner, id, choice, correct), key);
    assert Tried(st.attempts, learner, id) == |On(st.attempts, id)|;
    if On(st.attempts, id) == [] {
      RangesKept(if key in st.mastery then st.mastery[key] else Initial(st.questions[id].difficulty), correct, correct);
    } else {
      assert id in Attempted(st, key);
      RangesKept(st.mastery[key], correct, correct);
    }
  }

  lemma QuestionKept(st: State, learner: string, id: string, choice: int, correct: bool, q: string)
    requires Score(st, learner, id, choice, correct).1.Ok? && q in st.questions && QuestionOk(st, q)
    ensures QuestionOk(Score(st, learner, id, choice, correct).0, q)
  {
    AnswersGrow(st.attempts, Attempt(learner, id, choice, correct));
  }

  lemma RowKept(st: State, learner: string, id: string, choice: int, correct: bool, key: Key)
    requires Score(st, learner, id, choice, correct).1.Ok? && RowOk(st, key) && QuestionOk(st, id)
    ensures RowOk(Score(st, learner, id, choice, correct).0, key)
  {
    if Of(st, id, key) {
      OwnRowKept(st, learner, id, choice, correct, key);
    } else {
      OtherRowsKept(st, Score(st, learner, id, choice, correct).0, Attempt(learner, id, choice, correct), key);
    }
  }

  lemma InvAnswer(st: State, learner: string, id: string, choice: int, correct: bool)
    requires Inv(st) && Score(st, learner, id, choice, correct).1.Ok?
    ensures Inv(Score(st, learner, id, choice, correct).0)
  {
    var next := Score(st, learner, id, choice, correct).0;
    forall q | q in next.questions ensures QuestionOk(next, q) { QuestionKept(st, learner, id, choice, correct, q); }
    forall key ensures RowOk(next, key) { RowKept(st, learner, id, choice, correct, key); }
  }

  lemma {:induction false} InvRun(events: seq<Event>)
    ensures Inv(Run(events))
    decreases events
  {
    if events != [] {
      var st := Run(events[..|events| - 1]);
      InvRun(events[..|events| - 1]);
      match events[|events| - 1]
      case Add(id, learner, competency, difficulty) =>
        if id !in st.questions { InvAdd(st, id, learner, competency, difficulty); }
      case Answer(learner, id, choice, correct) =>
        if Score(st, learner, id, choice, correct).1.Ok? { InvAnswer(st, learner, id, choice, correct); }
    }
  }

  /** The scores agree with the log after any run, and stay within their ranges. */
  lemma ScoresAgreeWithLog(events: seq<Event>, key: Key)
    ensures var st := Run(events); var m := RowOf(st, key);
      && m.attempts == |Attempted(st, key)|
      && m.firstTryCorrect == |RightAtOnce(st, key)|
      && m.eventualCorrect == |Solved(st, key)|
      && 0.0 <= m.level <= 1.0 && 1 <= m.difficulty <= 5
  {
    InvRun(events);
    assert RowOk(Run(events), key);
  }

  /** A question with a new id and a difficulty from one to five is added as it is. */
  lemma QuestionsAreAdded(events: seq<Event>, id: string, learner: string, competency: string, difficulty: int)
    ensures var st, next := Run(events), Run(events + [Add(id, learner, competency, difficulty)]);
      if id !in st.questions && difficulty in {1, 2, 3, 4, 5} then
        next == State(st.questions[id := Question(learner, competency, difficulty, false)], st.attempts, st.mastery)
      else next == st
  {
    assert (events + [Add(id, learner, competency, difficulty)])[..|events|] == events;
  }

  /** A question is answered rightly at most once, and never again after that. */
  lemma RightOnlyLast(events: seq<Event>, id: string, i: nat)
    requires i < |On(Run(events).attempts, id)| && On(Run(events).attempts, id)[i]
    ensures i == |On(Run(events).attempts, id)| - 1
    ensures forall learner, choice, correct :: Score(Run(events), learner, id, choice, correct).1.Err?
  {
    InvRun(events);
    var st := Run(events);
    if id in st.questions { assert QuestionOk(st, id); } else { NothingOnUnknown(st.attempts, id); }
  }

  /** An answer is accepted exactly when the question is the learner's own and has not been
      answered rightly yet. */
  lemma AnswerAcceptedIff(events: seq<Event>, learner: string, id: string, choice: int, correct: bool)
    ensures var st := Run(events);
      Score(st, learner, id, choice, correct).1.Ok? <==>
        id in st.questions && st.questions[id].learner == learner && true !in On(st.attempts, id)
  {
    InvRun(events);
    if id in Run(events).questions { AnsweredIff(Run(events), id); }
  }

  lemma AnsweredIff(st: State, id: string)
    requires id in st.questions && QuestionOk(st, id)
    ensures st.questions[id].answered <==> true in On(st.attempts, id)
  {
    var answers := On(st.attempts, id);
    assert answers != [] && answers[|answers| - 1] ==> answers[|answers| - 1] in answers;
  }

  // ---------------------------------------------------------------- level and difficulty

  /** What an answer was: the first to its question or a later one, and right or wrong. */
  datatype Mark = RightAtFirst | WrongAtFirst | RightLater | WrongLater

  function MarkOf(first: bool, correct: bool): Mark {
    if first then (if correct then RightAtFirst else WrongAtFirst) else if correct then RightLater else WrongLater
  }

  type Questions = map<string, Question>

  predicate Concerns(questions: Questions, a: Attempt, key: Key) {
    a.question in questions && (questions[a.question].learner, questions[a.question].competency) == key
  }

  /** The answers of a learner in a competency, from the log alone, and the difficulty of the
      question that was answered first. */
  function Marks(questions: Questions, attempts: seq<Attempt>, key: Key): seq<Mark> {
    if attempts == [] then []
    else
      var before, last := attempts[..|attempts| - 1], attempts[|attempts| - 1];
      Marks(questions, before, key)
        + (if Concerns(questions, last, key) then [MarkOf(On(before, last.question) == [], last.correct)] else [])
  }

  function Start(questions: Questions, attempts: seq<Attempt>, key: Key): Option<int> {
    if attempts == [] then None
    else
      var before, last := attempts[..|attempts| - 1], attempts[|attempts| - 1];
      var earlier := Start(questions, before, key);
      if earlier.None? && Concerns(questions, last, key) then Some(questions[last.question].difficulty) else earlier
  }

  /** The level in percent: it begins at 25, a question that is right at once adds ten, one that
      is wrong at first takes twelve, between 0 and 100; later answers do not touch it. */
  function Percent(marks: seq<Mark>): int {
    if marks == [] then 25
    else
      var p := Percent(marks[..|marks| - 1]);
      match marks[|marks| - 1]
      case RightAtFirst => if p > 90 then 100 else p + 10
      case WrongAtFirst => if p < 12 then 0 else p - 12
      case _ => p
  }

  /** Four right answers in a row at a level of 55 or more raise the difficulty, up to five, and
      the count begins again. Only a question that is wrong at first breaks the row; at a level
      below 35 it also lowers the difficulty, down to one. */
  function Streak(marks: seq<Mark>): nat {
    if marks == [] then 0
    else
      var before := Streak(marks[..|marks| - 1]);
      match marks[|marks| - 1]
      case WrongAtFirst => 0
      case WrongLater => before
      case _ => if Promotes(marks) then 0 else before + 1
  }

  predicate Promotes(marks: seq<Mark>)
    requires marks != []
    decreases marks, 0
  {
    var last := marks[|marks| - 1];
    (last.RightAtFirst? || last.RightLater?) && Streak(marks[..|marks| - 1]) >= 3 && Percent(marks) >= 55
  }

  function Grade(marks: seq<Mark>, start: int): int {
    if marks == [] then start
    else
      var g := Grade(marks[..|marks| - 1], start);
      if Promotes(marks) then (if g >= 5 then 5 else g + 1)
      else if marks[|marks| - 1].WrongAtFirst? && Percent(marks) < 35 then (if g <= 1 then 1 else g - 1)
      else g
  }

  /** The row is what the answers come to. */
  ghost predicate Replays(st: State, key: Key) {
    var marks, start := Marks(st.questions, st.attempts, key), Start(st.questions, st.attempts, key);
    && (key in st.mastery <==> marks != []) && (marks != [] <==> start.Some?)
    && (key in st.mastery ==> Stands(st.mastery[key], marks, start.value))
  }

  predicate Stands(m: Mastery, marks: seq<Mark>, start: int) {
    m.level == Percent(marks) as real / 100.0 && m.streak == Streak(marks) && m.difficulty == Grade(marks, start)
  }

  lemma FirstAnswerStands(m: Mastery, marks: seq<Mark>, start: int, correct: bool)
    requires Stands(m, marks, start)
    ensures Stands(Update(m, correct, correct), marks + [MarkOf(true, correct)], start)
  {
    assert (marks + [MarkOf(true, correct)])[..|marks|] == marks;
  }

  lemma LaterAnswerStands(m: Mastery, marks: seq<Mark>, start: int, correct: bool)
    requires Stands(m, marks, start)
    ensures Stands(if correct then Recover(m) else m, marks + [MarkOf(false, correct)], start)
  {
    assert (marks + [MarkOf(false, correct)])[..|marks|] == marks;
  }

  /** New questions, and a question's flag, do not change what the log says. */
  lemma {:induction false} MarksKept(before: Questions, after: Questions, attempts: seq<Attempt>, key: Key)
    requires forall i :: 0 <= i < |attempts| ==> attempts[i].question in before
    requires forall id :: id in before ==> id in after && after[id].(answered := before[id].answered) == before[id]
    ensures Marks(after, attempts, key) == Marks(before, attempts, key)
    ensures Start(after, attempts, key) == Start(before, attempts, key)
    decreases attempts
  {
    if attempts != [] { MarksKept(before, after, attempts[..|attempts| - 1], key); }
  }

  lemma OneMoreMark(questions: Questions, attempts: seq<Attempt>, a: Attempt, key: Key)
    ensures Marks(questions, attempts + [a], key) == Marks(questions, attempts, key)
      + (if Concerns(questions, a, key) then [MarkOf(On(attempts, a.question) == [], a.correct)] else [])
    ensures var earlier := Start(questions, attempts, key);
      Start(questions, attempts + [a], key) ==
      if earlier.None? && Concerns(questions, a, key) then Some(questions[a.question].difficulty) else earlier
  {
    assert (attempts + [a])[..|attempts|] == attempts;
  }

  /** How an accepted answer changes a row of its own key, and no other. */
  lemma RowAfter(st: State, learner: string, id: string, choice: int, correct: bool, key: Key)
    requires Inv(st) && Score(st, learner, id, choice, correct).1.Ok?
    ensures var next := Score(st, learner, id, choice, correct).0;
      key in next.mastery <==> key in st.mastery || (Of(st, id, key) && On(st.attempts, id) == [])
    ensures var next := Score(st, learner, id, choice, correct).0;
      if key !in next.mastery then true
      else if !Of(st, id, key) then next.mastery[key] == RowOf(st, key)
      else if On(st.attempts, id) == [] then
        next.mastery[key] ==
          Update(if key in st.mastery then st.mastery[key] else Initial(st.questions[id].difficulty), correct, correct)
      else next.mastery[key] == if correct then Recover(RowOf(st, key)) else RowOf(st, key)
  {
    assert QuestionOk(st, id);
  }

  /** How the marks of a row grow with an accepted answer. */
  lemma MarksAfter(st: State, learner: string, id: string, choice: int, correct: bool, key: Key)
    requires Inv(st) && Score(st, learner, id, choice, correct).1.Ok?
    ensures var next := Score(st, learner, id, choice, correct).0; var mine := Of(st, id, key);
      var marks, start := Marks(st.questions, st.attempts, key), Start(st.questions, st.attempts, key);
      && Marks(next.questions, next.attempts, key)
         == (if mine then marks + [MarkOf(On(st.attempts, id) == [], correct)] else marks)
      && Start(next.questions, next.attempts, key)
         == if mine && start.None? then Some(st.questions[id].difficulty) else start
  {
    var next, a := Score(st, learner, id, choice, correct).0, Attempt(learner, id, choice, correct);
    MarksKept(st.questions, next.questions, st.attempts, key);
    OneMoreMark(next.questions, st.attempts, a, key);
  }

  lemma OwnStands(st: State, id: string, correct: bool, key: Key, m: Mastery)
    requires Replays(st, key) && Of(st, id, key)
    requires m == if On(st.attempts, id) == [] then
        Update(if key in st.mastery then st.mastery[key] else Initial(st.questions[id].difficulty), correct, correct)
      else if correct then Recover(RowOf(st, key)) else RowOf(st, key)
    ensures var marks, start := Marks(st.questions, st.attempts, key), Start(st.questions, st.attempts, key);
      Stands(m, marks + [MarkOf(On(st.attempts, id) == [], correct)],
        if start.None? then st.questions[id].difficulty else start.value)
  {
    var marks, start := Marks(st.questions, st.attempts, key), Start(st.questions, st.attempts, key);
    var from := if start.Some? then start.value else st.questions[id].difficulty;
    if On(st.attempts, id) == [] {
      FirstAnswerStands(if key in st.mastery then st.mastery[key] else Initial(from), marks, from, correct);
    } else {
      AnsweredLeavesMark(st.questions, st.attempts, id, key);
      LaterAnswerStands(st.mastery[key], marks, from, correct);
    }
  }

  lemma AnswerReplays(st: State, learner: string, id: string, choice: int, correct: bool, key: Key)
    requires Inv(st) && Replays(st, key) && Score(st, learner, id, choice, correct).1.Ok?
    ensures Replays(Score(st, learner, id, choice, correct).0, key)
  {
    var next := Score(st, learner, id, choice, correct).0;
    MarksAfter(st, learner, id, choice, correct, key);
    RowAfter(st, learner, id, choice, correct, key);
    if Of(st, id, key) {
      if On(st.attempts, id) != [] { AnsweredLeavesMark(st.questions, st.attempts, id, key); }
      OwnStands(st, id, correct, key, next.mastery[key]);
    }
  }

  /** A question with an answer leaves a mark. */
  lemma {:induction false} AnsweredLeavesMark(questions: Questions, attempts: seq<Attempt>, id: string, key: Key)
    requires id in questions && (questions[id].learner, questions[id].competency) == key
    requires On(attempts, id) != []
    ensures Marks(questions, attempts, key) != []
    decreases attempts
  {
    if attempts[|attempts| - 1].question != id {
      AnsweredLeavesMark(questions, attempts[..|attempts| - 1], id, key);
    }
  }

  /** Level, streak and difficulty after any run are those that the log of answers comes to. */
  lemma {:induction false} LevelFollowsLog(events: seq<Event>, key: Key)
    ensures Replays(Run(events), key)
    decreases events
  {
    if events != [] {
      var st := Run(events[..|events| - 1]);
      LevelFollowsLog(events[..|events| - 1], key);
      InvRun(events[..|events| - 1]);
      match events[|events| - 1]
      case Add(id, learner, competency, difficulty) =>
        MarksKept(st.questions, Run(events).questions, st.attempts, key);
      case Answer(learner, id, choice, correct) =>
        if Score(st, learner, id, choice, correct).1.Ok? { AnswerReplays(st, learner, id, choice, correct, key); }
    }
  }

  /** What an update does to the level, also where the answer was right but not at once: it then
      rises by half as much. */
  lemma LevelSteps(m: Mastery)
    requires InRange(m)
    ensures m.level <= 0.90 ==> Update(m, true, true).level == m.level + 0.10
    ensures m.level <= 0.95 ==> Update(m, true, false).level == m.level + 0.05
    ensures m.level >= 0.12 ==> forall firstTry :: Update(m, false, firstTry).level == m.level - 0.12
    ensures m.level > 0.90 ==> Update(m, true, true).level == 1.0
    ensures m.level > 0.95 ==> Update(m, true, false).level == 1.0
    ensures m.level < 0.12 ==> forall firstTry :: Update(m, false, firstTry).level == 0.0
  {
  }
}
