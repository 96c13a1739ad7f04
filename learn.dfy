/**
 * The Learn page: the note list and the quiz. The quiz is a state machine over
 * the current question, the selected answer, the result flag and the score;
 * the page's `generateQuiz` is split at its `await` into `StartGenerate` and
 * `FinishGenerate`, and the 1.5 s timer armed by an answer is the explicit
 * `Advance` step.
 */
module Learn {
  import opened Options
  import opened Text
  import opened Lists

  /* ----- Notes ----- */

  /** A note; `createdAt` is the clock reading in milliseconds. */
  datatype Note = Note(id: string, title: string, content: string, createdAt: int)

  function NoteId(n: Note): string {
    n.id
  }

  /** A note is saved only when both its trimmed title and its trimmed content are non-empty. */
  predicate Saveable(title: string, content: string) {
    Trim(title) != "" && Trim(content) != ""
  }

  /** `addNote`: a note missing a title or content adds nothing; otherwise it goes first. */
  function WithNote(notes: seq<Note>, title: string, content: string, id: string, now: int): (r: seq<Note>)
    ensures !Saveable(title, content) ==> r == notes
    ensures Saveable(title, content) ==> |r| == |notes| + 1 && r[1..] == notes
    ensures Saveable(title, content) ==> r[0] == Note(id, title, content, now)
  {
    if Saveable(title, content) then [Note(id, title, content, now)] + notes else notes
  }

  /** Deleting a just-added note whose id is new gives back the old list. */
  lemma DeleteAfterAdd(notes: seq<Note>, title: string, content: string, id: string, now: int)
    requires !HasKey(notes, NoteId, id)
    ensures Without(WithNote(notes, title, content, id, now), NoteId, id) == notes
  {
    if Saveable(title, content) {
      WithoutFresh(Note(id, title, content, now), notes, NoteId);
    } else {
      WithoutAbsent(notes, NoteId, id);
    }
  }

  /* ----- Quiz ----- */

  datatype Question = Question(question: string, options: seq<string>, correctIndex: int)

  /** What the request to the quiz endpoint gave: a failure of any kind, or the parsed questions. */
  datatype QuizReply = QuizFailed | Loaded(questions: seq<Question>)

  /** The symbol shown with the final score. */
  datatype Badge = Celebrate | ThumbsUp | Books

  function Rank(b: Badge): nat {
    match b
    case Books => 0
    case ThumbsUp => 1
    case Celebrate => 2
  }

  /**
   * All answers right, at least half right (`score >= length / 2` in real
   * numbers, written `2 * score >= total`), or fewer.
   */
  function ResultBadge(score: nat, total: nat): (r: Badge)
    ensures r == Celebrate <==> score == total
    ensures r == ThumbsUp <==> score != total && 2 * score >= total
    ensures r == Books <==> score != total && 2 * score < total
  {
    if score == total then Celebrate else if 2 * score >= total then ThumbsUp else Books
  }

  /** Within a quiz, a higher score never shows a lower badge. */
  lemma BadgeMonotone(s1: nat, s2: nat, total: nat)
    requires s1 <= s2 <= total
    ensures Rank(ResultBadge(s1, total)) <= Rank(ResultBadge(s2, total))
  {
    if s2 < total && ResultBadge(s1, total) == ThumbsUp {
      assert 2 * s2 >= 2 * s1 >= total;
    }
  }

  class LearnPage {
    var notes: seq<Note>
    var noteTitle: string
    var noteContent: string
    var quizTopic: string
    var quizQuestions: seq<Question>
    var currentQuestion: nat
    var selectedAnswer: Option<int>
    var showResult: bool
    var score: nat
    var isGeneratingQuiz: bool
    /** The timer armed by an answer has not fired yet. */
    var revealPending: bool

    /**
     * The score counts at most the questions answered so far and never exceeds
     * the quiz length; the current question is inside a non-empty quiz; while
     * a quiz is being generated there are no questions and no score.
     */
    ghost predicate Valid()
      reads this
    {
      && score <= currentQuestion + (if selectedAnswer.Some? then 1 else 0)
      && score <= |quizQuestions|
      && (quizQuestions != [] ==> currentQuestion < |quizQuestions|)
      && (quizQuestions == [] ==> currentQuestion == 0)
      && (isGeneratingQuiz ==> quizQuestions == [] && score == 0)
    }

    /** The quiz fields and the topic at their start values. */
    ghost predicate QuizAtStart()
      reads this
    {
      quizQuestions == [] && currentQuestion == 0 && selectedAnswer == None &&
      !showResult && score == 0 && quizTopic == ""
    }

    constructor ()
      ensures Valid() && QuizAtStart()
      ensures notes == [] && noteTitle == "" && noteContent == ""
      ensures !isGeneratingQuiz && !revealPending
    {
      notes, noteTitle, noteContent := [], "", "";
      quizTopic, quizQuestions, currentQuestion, selectedAnswer := "", [], 0, None;
      showResult, score, isGeneratingQuiz, revealPending := false, 0, false, false;
    }

    /** The title and content inputs' change handlers. */
    method EditNote(title: string, content: string)
      requires Valid()
      modifies this
      ensures Valid()
      ensures noteTitle == title && noteContent == content
      ensures notes == old(notes) && quizTopic == old(quizTopic) && quizQuestions == old(quizQuestions)
      ensures currentQuestion == old(currentQuestion) && selectedAnswer == old(selectedAnswer)
      ensures showResult == old(showResult) && score == old(score)
      ensures isGeneratingQuiz == old(isGeneratingQuiz) && revealPending == old(revealPending)
    {
      noteTitle, noteContent := title, content;
    }

    /** The topic input's change handler. */
    method EditTopic(topic: string)
      requires Valid()
      modifies this
      ensures Valid()
      ensures quizTopic == topic
      ensures notes == old(notes) && noteTitle == old(noteTitle) && noteContent == old(noteContent)
      ensures quizQuestions == old(quizQuestions) && currentQuestion == old(currentQuestion)
      ensures selectedAnswer == old(selectedAnswer) && showResult == old(showResult) && score == old(score)
      ensures isGeneratingQuiz == old(isGeneratingQuiz) && revealPending == old(revealPending)
    {
      quizTopic := topic;
    }

    /** `addNote`, with the clock reading and the id made from it as parameters. */
    method AddNote(id: string, now: int) returns (added: bool)
      requires Valid()
      modifies this
      ensures Valid()
      ensures added == Saveable(old(noteTitle), old(noteContent))
      ensures notes == WithNote(old(notes), old(noteTitle), old(noteContent), id, now)
      ensures added ==> noteTitle == "" && noteContent == ""
      ensures !added ==> noteTitle == old(noteTitle) && noteContent == old(noteContent)
      ensures quizTopic == old(quizTopic) && quizQuestions == old(quizQuestions)
      ensures currentQuestion == old(currentQuestion) && selectedAnswer == old(selectedAnswer)
      ensures showResult == old(showResult) && score == old(score)
      ensures isGeneratingQuiz == old(isGeneratingQuiz) && revealPending == old(revealPending)
    {
      added := Saveable(noteTitle, noteContent);
      notes := WithNote(notes, noteTitle, noteContent, id, now);
      if added {
        noteTitle := "";
        noteContent := "";
      }
    }

    /** `deleteNote`. */
    method DeleteNote(id: string)
      requires Valid()
      modifies this
      ensures Valid()
      ensures notes == Without(old(notes), NoteId, id)
      ensures noteTitle == old(noteTitle) && noteContent == old(noteContent)
      ensures quizTopic == old(quizTopic) && quizQuestions == old(quizQuestions)
      ensures currentQuestion == old(currentQuestion) && selectedAnswer == old(selectedAnswer)
      ensures showResult == old(showResult) && score == old(score)
      ensures isGeneratingQuiz == old(isGeneratingQuiz) && revealPending == old(revealPending)
    {
      notes := Without(notes, NoteId, id);
    }

    /**
     * The part of `generateQuiz` before the request. The button is disabled
     * while a quiz is being generated, and a blank topic is refused; otherwise
     * the questions, the current question, the score and the result flag are
     * reset and generation starts. The selected answer is not reset.
     */
    method StartGenerate() returns (started: bool)
      requires Valid()
      modifies this
      ensures Valid()
      ensures started == (!old(isGeneratingQuiz) && Trim(old(quizTopic)) != "")
      ensures started ==> isGeneratingQuiz && quizQuestions == [] && currentQuestion == 0 && score == 0 && !showResult
      ensures !started ==>
        isGeneratingQuiz == old(isGeneratingQuiz) && quizQuestions == old(quizQuestions) &&
        currentQuestion == old(currentQuestion) && score == old(score) && showResult == old(showResult)
      ensures selectedAnswer == old(selectedAnswer) && quizTopic == old(quizTopic) && revealPending == old(revealPending)
      ensures notes == old(notes) && noteTitle == old(noteTitle) && noteContent == old(noteContent)
    {
      if isGeneratingQuiz || Trim(quizTopic) == "" {
        return false;
      }
      isGeneratingQuiz := true;
      quizQuestions := [];
      currentQuestion := 0;
      score := 0;
      showResult := false;
      started := true;
    }

    /** The part of `generateQuiz` after the request: loaded questions replace the empty quiz; generation ends. */
    method FinishGenerate(reply: QuizReply)
      requires Valid() && isGeneratingQuiz
      modifies this
      ensures Valid()
      ensures !isGeneratingQuiz
      ensures quizQuestions == if reply.Loaded? then reply.questions else []
      ensures currentQuestion == 0 && score == 0
      ensures selectedAnswer == old(selectedAnswer) && showResult == old(showResult)
      ensures quizTopic == old(quizTopic) && revealPending == old(revealPending)
      ensures notes == old(notes) && noteTitle == old(noteTitle) && noteContent == old(noteContent)
    {
      if reply.Loaded? {
        quizQuestions := reply.questions;
      }
      isGeneratingQuiz := false;
    }

    /**
     * `handleAnswer`, up to arming the timer. A second answer to the same
     * question is ignored. Otherwise the choice is recorded and the score goes
     * up by one exactly when it is the current question's correct index. With
     * no current question the handler stops with a `TypeError` after recording
     * the choice, and no timer is armed.
     */
    method Answer(index: int)
      requires Valid()
      modifies this
      ensures Valid()
      ensures old(selectedAnswer).Some? ==>
        selectedAnswer == old(selectedAnswer) && score == old(score) && revealPending == old(revealPending)
      ensures old(selectedAnswer).None? ==> selectedAnswer == Some(index)
      ensures old(selectedAnswer).None? && currentQuestion < |quizQuestions| ==>
        score == old(score) + (if index == quizQuestions[currentQuestion].correctIndex then 1 else 0) && revealPending
      ensures old(selectedAnswer).None? && currentQuestion >= |quizQuestions| ==>
        score == old(score) && revealPending == old(revealPending)
      ensures currentQuestion == old(currentQuestion) && quizQuestions == old(quizQuestions) && showResult == old(showResult)
      ensures quizTopic == old(quizTopic) && isGeneratingQuiz == old(isGeneratingQuiz)
      ensures notes == old(notes) && noteTitle == old(noteTitle) && noteContent == old(noteContent)
    {
      if selectedAnswer.Some? {
        return;
      }
      selectedAnswer := Some(index);
      if currentQuestion >= |quizQuestions| {
        return;
      }
      if index == quizQuestions[currentQuestion].correctIndex {
        score := score + 1;
      }
      revealPending := true;
    }

    /**
     * The timer's callback. Before the last question it moves to the next one
     * and clears the selection; on the last question it shows the result and
     * stays there. Without a pending timer nothing happens.
     */
    method Advance()
      requires Valid()
      modifies this
      ensures Valid()
      ensures !old(revealPending) ==>
        currentQuestion == old(currentQuestion) && selectedAnswer == old(selectedAnswer) && showResult == old(showResult)
      ensures old(revealPending) && old(currentQuestion) + 1 < |quizQuestions| ==>
        currentQuestion == old(currentQuestion) + 1 && selectedAnswer == None && showResult == old(showResult)
      ensures old(revealPending) && old(currentQuestion) + 1 >= |quizQuestions| ==>
        currentQuestion == old(currentQuestion) && selectedAnswer == old(selectedAnswer) && showResult
      ensures !revealPending
      ensures quizQuestions == old(quizQuestions) && score == old(score)
      ensures quizTopic == old(quizTopic) && isGeneratingQuiz == old(isGeneratingQuiz)
      ensures notes == old(notes) && noteTitle == old(noteTitle) && noteContent == old(noteContent)
    {
      if !revealPending {
        return;
      }
      revealPending := false;
      if currentQuestion < |quizQuestions| - 1 {
        currentQuestion := currentQuestion + 1;
        selectedAnswer := None;
      } else {
        showResult := true;
      }
    }

    /** `resetQuiz`: every quiz field and the topic go back to their start values. */
    method ResetQuiz()
      requires Valid()
      modifies this
      ensures Valid() && QuizAtStart()
      ensures isGeneratingQuiz == old(isGeneratingQuiz) && revealPending == old(revealPending)
      ensures notes == old(notes) && noteTitle == old(noteTitle) && noteContent == old(noteContent)
    {
      quizQuestions := [];
      currentQuestion := 0;
      selectedAnswer := None;
      showResult := false;
      score := 0;
      quizTopic := "";
    }
  }
}
